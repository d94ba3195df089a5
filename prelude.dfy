/**
 * Font sizes (the `font_sizes` module of src/prelude.rs): point sizes and their
 * conversion to the hundredths of a point DrawingML's `sz` attribute uses.
 */
module FontSizes {
  const TITLE: nat := 44
  const SUBTITLE: nat := 32
  const HEADING: nat := 28
  const BODY: nat := 18
  const SMALL: nat := 14
  const CAPTION: nat := 12
  const CODE: nat := 14
  const LARGE: nat := 36
  const XLARGE: nat := 48

  /** `to_emu`: hundredths of a point; the point size is recovered exactly. */
  function ToEmu(pt: nat): (r: nat)
    ensures r % 100 == 0 && r / 100 == pt
  {
    pt * 100
  }

  /** Larger point sizes give larger `sz` values, so the named sizes keep their order. */
  lemma ToEmuMonotone(a: nat, b: nat)
    requires a < b
    ensures ToEmu(a) < ToEmu(b)
  {
  }

  /** The title is 4400, the body 1800. */
  lemma ToEmuExamples()
    ensures ToEmu(TITLE) == 4400 && ToEmu(BODY) == 1800
  {
  }
}

/**
 * Colour themes (the `themes` module of src/prelude.rs): seven fixed palettes.
 */
module Themes {
  datatype Theme = Theme(
    name: string,
    primary: string,
    secondary: string,
    accent: string,
    background: string,
    text: string,
    light: string,
    dark: string)
  {
    /** The theme's colours, in field order. */
    function Colors(): seq<string> {
      [primary, secondary, accent, background, text, light, dark]
    }
  }

  const CORPORATE := Theme("Corporate", "1565C0", "1976D2", "FF6F00", "FFFFFF", "212121", "E3F2FD", "0D47A1")
  const MODERN := Theme("Modern", "212121", "757575", "00BCD4", "FAFAFA", "212121", "F5F5F5", "424242")
  const VIBRANT := Theme("Vibrant", "E91E63", "9C27B0", "FF9800", "FFFFFF", "212121", "FCE4EC", "880E4F")
  const DARK := Theme("Dark", "BB86FC", "03DAC6", "CF6679", "121212", "FFFFFF", "1E1E1E", "000000")
  const NATURE := Theme("Nature", "2E7D32", "4CAF50", "8BC34A", "FFFFFF", "1B5E20", "E8F5E9", "1B5E20")
  const TECH := Theme("Tech", "0D47A1", "1976D2", "00E676", "FAFAFA", "263238", "E3F2FD", "01579B")
  const CARBON := Theme("Carbon", "0043CE", "4589FF", "24A148", "FFFFFF", "161616", "E0E0E0", "161616")

  /** `all`: the seven themes. */
  function All(): (ts: seq<Theme>)
    ensures |ts| == 7
    ensures forall i, j :: 0 <= i < j < |ts| ==> ts[i].name != ts[j].name
  {
    [CORPORATE, MODERN, VIBRANT, DARK, NATURE, TECH, CARBON]
  }

  /** An upper-case hexadecimal digit. */
  predicate IsHexDigit(c: char) {
    '0' <= c <= '9' || 'A' <= c <= 'F'
  }

  /** Six upper-case hexadecimal digits, the form the builders store colours in. */
  predicate IsHexColor(s: string) {
    |s| == 6 && forall i :: 0 <= i < 6 ==> IsHexDigit(s[i])
  }

  predicate WellFormed(t: Theme) {
    forall k :: 0 <= k < |t.Colors()| ==> IsHexColor(t.Colors()[k])
  }

  /** Every colour of every theme is six upper-case hexadecimal digits. */
  lemma AllWellFormed()
    ensures forall k :: 0 <= k < |All()| ==> WellFormed(All()[k])
  {
    var ts := All();
    forall k | 0 <= k < |ts|
      ensures WellFormed(ts[k])
    {
      ThemeWellFormed(ts[k]);
    }
  }

  lemma ThemeWellFormed(t: Theme)
    requires t in All()
    ensures WellFormed(t)
  {
    if t == CORPORATE {
      CorporateColors();
    } else if t == MODERN {
      ModernColors();
    } else if t == VIBRANT {
      VibrantColors();
    } else if t == DARK {
      DarkColors();
    } else if t == NATURE {
      NatureColors();
    } else if t == TECH {
      TechColors();
    } else {
      CarbonColors();
    }
  }

  lemma CorporateColors() ensures WellFormed(CORPORATE) { }
  lemma ModernColors() ensures WellFormed(MODERN) { }
  lemma VibrantColors() ensures WellFormed(VIBRANT) { }
  lemma DarkColors() ensures WellFormed(DARK) { }
  lemma NatureColors() ensures WellFormed(NATURE) { }
  lemma TechColors() ensures WellFormed(TECH) { }
  lemma CarbonColors() ensures WellFormed(CARBON) { }

  /** Corporate is named "Corporate" and Dark has background "121212". */
  lemma ThemeExamples()
    ensures All()[0].name == "Corporate" && All()[3].background == "121212"
  {
  }
}

/**
 * Layout helpers (the `layouts` module of src/prelude.rs): integer positions
 * that centre, stack, distribute and tile shapes on a 9144000 × 6858000 EMU slide.
 */
module Layouts {
  const SLIDE_WIDTH: nat := 9144000
  const SLIDE_HEIGHT: nat := 6858000
  const MARGIN: nat := 457200
  const MARGIN_SMALL: nat := 228600
  const MARGIN_LARGE: nat := 914400

  /** An (x, y) position in EMU. */
  type Position = (nat, nat)

  /** `center_x`: the left edge that leaves equal room on both sides, the right one at most 1 EMU wider. */
  function CenterX(w: nat): (x: nat)
    requires w <= SLIDE_WIDTH
    ensures x + w + x <= SLIDE_WIDTH <= x + w + x + 1
  {
    (SLIDE_WIDTH - w) / 2
  }

  /** `center_y`: the top edge that leaves equal room above and below, the lower one at most 1 EMU taller. */
  function CenterY(h: nat): (y: nat)
    requires h <= SLIDE_HEIGHT
    ensures y + h + y <= SLIDE_HEIGHT <= y + h + y + 1
  {
    (SLIDE_HEIGHT - h) / 2
  }

  /** `center`: both coordinates centred. */
  function Center(w: nat, h: nat): (p: Position)
    requires w <= SLIDE_WIDTH && h <= SLIDE_HEIGHT
    ensures p.0 + w + p.0 <= SLIDE_WIDTH <= p.0 + w + p.0 + 1
    ensures p.1 + h + p.1 <= SLIDE_HEIGHT <= p.1 + h + p.1 + 1
  {
    (CenterX(w), CenterY(h))
  }

  /** The source's example: a 1000000 × 500000 shape sits at (4072000, 3179000). */
  lemma CenterExample()
    ensures Center(1000000, 500000) == (4072000, 3179000)
  {
  }

  // ---------------------------------------------------------------------
  // grid
  // ---------------------------------------------------------------------

  /** Row r of a grid: one position per column, `cw` apart. */
  function GridRow(sx: nat, sy: nat, cols: nat, cw: nat, ch: nat, r: nat): (row: seq<Position>)
    ensures |row| == cols
    ensures forall c :: 0 <= c < cols ==> row[c] == (sx + c * cw, sy + r * ch)
  {
    seq(cols, c requires 0 <= c => (sx + c * cw, sy + r * ch))
  }

  /** The first `rows` rows of a grid, in row-major order. */
  function GridRows(sx: nat, sy: nat, cols: nat, cw: nat, ch: nat, rows: nat): seq<Position> {
    if rows == 0 then [] else GridRows(sx, sy, cols, cw, ch, rows - 1) + GridRow(sx, sy, cols, cw, ch, rows - 1)
  }

  /** The positions `grid` returns, the whole grid centred on the slide. */
  function GridSpec(rows: nat, cols: nat, cw: nat, ch: nat): seq<Position>
    requires cw * cols <= SLIDE_WIDTH && ch * rows <= SLIDE_HEIGHT
  {
    GridRows(CenterX(cw * cols), CenterY(ch * rows), cols, cw, ch, rows)
  }

  /** `grid`: the nested loops push row by row, column by column. */
  method Grid(rows: nat, cols: nat, cw: nat, ch: nat) returns (positions: seq<Position>)
    requires cw * cols <= SLIDE_WIDTH && ch * rows <= SLIDE_HEIGHT
    ensures positions == GridSpec(rows, cols, cw, ch)
  {
    var sx := CenterX(cw * cols);
    var sy := CenterY(ch * rows);
    positions := [];
    var row := 0;
    while row < rows
      invariant row <= rows
      invariant positions == GridRows(sx, sy, cols, cw, ch, row)
    {
      var col := 0;
      while col < cols
        invariant col <= cols
        invariant positions == GridRows(sx, sy, cols, cw, ch, row) + GridRow(sx, sy, cols, cw, ch, row)[..col]
      {
        ghost var line := GridRow(sx, sy, cols, cw, ch, row);
        assert line[..col + 1] == line[..col] + [line[col]];
        positions := positions + [(sx + col * cw, sy + row * ch)];
        col := col + 1;
      }
      assert GridRow(sx, sy, cols, cw, ch, row)[..cols] == GridRow(sx, sy, cols, cw, ch, row);
      row := row + 1;
    }
  }

  lemma {:induction false} GridRowsLength(sx: nat, sy: nat, cols: nat, cw: nat, ch: nat, rows: nat)
    ensures |GridRows(sx, sy, cols, cw, ch, rows)| == rows * cols
  {
    if rows > 0 {
      GridRowsLength(sx, sy, cols, cw, ch, rows - 1);
      assert (rows - 1) * cols + cols == rows * cols;
    }
  }

  /** Cell (r, c) of a grid is at index r·cols + c. */
  lemma {:induction false} GridRowsAt(sx: nat, sy: nat, cols: nat, cw: nat, ch: nat, rows: nat, r: nat, c: nat)
    requires r < rows && c < cols
    ensures r * cols + c < |GridRows(sx, sy, cols, cw, ch, rows)|
    ensures GridRows(sx, sy, cols, cw, ch, rows)[r * cols + c] == (sx + c * cw, sy + r * ch)
  {
    GridRowsLength(sx, sy, cols, cw, ch, rows - 1);
    GridRowsLength(sx, sy, cols, cw, ch, rows);
    var prefix := GridRows(sx, sy, cols, cw, ch, rows - 1);
    if r < rows - 1 {
      MulStep(r, rows - 1, cols, c);
      GridRowsAt(sx, sy, cols, cw, ch, rows - 1, r, c);
      assert GridRows(sx, sy, cols, cw, ch, rows)[r * cols + c] == prefix[r * cols + c];
    } else {
      assert r * cols + c == |prefix| + c;
    }
  }

  /** Row r of `rows` rows ends before the next row starts. */
  lemma MulStep(r: nat, rows: nat, cols: nat, c: nat)
    requires r < rows && c < cols
    ensures r * cols + c < rows * cols
  {
    assert (r + 1) * cols <= rows * cols;
  }

  /** Every cell of a grid whose total fits lies inside the slide. */
  lemma {:induction false} GridRowsInside(sx: nat, sy: nat, cols: nat, cw: nat, ch: nat, rows: nat)
    requires sx + cw * cols <= SLIDE_WIDTH && sy + ch * rows <= SLIDE_HEIGHT
    ensures forall k :: 0 <= k < |GridRows(sx, sy, cols, cw, ch, rows)| ==>
              GridRows(sx, sy, cols, cw, ch, rows)[k].0 + cw <= SLIDE_WIDTH
              && GridRows(sx, sy, cols, cw, ch, rows)[k].1 + ch <= SLIDE_HEIGHT
  {
    if rows > 0 {
      assert ch * (rows - 1) + ch == ch * rows;
      GridRowsInside(sx, sy, cols, cw, ch, rows - 1);
      var row := GridRow(sx, sy, cols, cw, ch, rows - 1);
      forall c | 0 <= c < cols
        ensures row[c].0 + cw <= SLIDE_WIDTH && row[c].1 + ch <= SLIDE_HEIGHT
      {
        assert c * cw + cw <= cw * cols by {
          assert (c + 1) * cw <= cols * cw;
        }
      }
    }
  }

  /** `grid` returns rows·cols positions, cell (r, c) at index r·cols + c, each cell inside the slide. */
  lemma GridMeaning(rows: nat, cols: nat, cw: nat, ch: nat, r: nat, c: nat)
    requires cw * cols <= SLIDE_WIDTH && ch * rows <= SLIDE_HEIGHT
    ensures |GridSpec(rows, cols, cw, ch)| == rows * cols
    ensures forall k :: 0 <= k < |GridSpec(rows, cols, cw, ch)| ==>
              GridSpec(rows, cols, cw, ch)[k].0 + cw <= SLIDE_WIDTH && GridSpec(rows, cols, cw, ch)[k].1 + ch <= SLIDE_HEIGHT
    ensures r < rows && c < cols ==>
              GridSpec(rows, cols, cw, ch)[r * cols + c]
              == (CenterX(cw * cols) + c * cw, CenterY(ch * rows) + r * ch)
  {
    var sx, sy := CenterX(cw * cols), CenterY(ch * rows);
    GridRowsLength(sx, sy, cols, cw, ch, rows);
    GridRowsInside(sx, sy, cols, cw, ch, rows);
    if r < rows && c < cols {
      GridRowsAt(sx, sy, cols, cw, ch, rows, r, c);
    }
  }

  /** The source's example: a 2 × 3 grid of 1000000 × 800000 cells has 6 positions. */
  lemma GridExample()
    ensures |GridSpec(2, 3, 1000000, 800000)| == 6
  {
    GridMeaning(2, 3, 1000000, 800000, 0, 0);
  }

  // ---------------------------------------------------------------------
  // stack_horizontal, stack_vertical
  // ---------------------------------------------------------------------

  /** The length a stack of `count` shapes of size `s` with gaps `gap` spans. */
  function StackSpan(count: nat, s: nat, gap: nat): nat
    requires count >= 1
  {
    s * count + gap * (count - 1)
  }

  /** `stack_horizontal`: `count` shapes in a row, centred, each `w + gap` right of the last. */
  function StackHorizontal(count: nat, w: nat, gap: nat, y: nat): (ps: seq<Position>)
    requires count >= 1 && StackSpan(count, w, gap) <= SLIDE_WIDTH
    ensures |ps| == count
  {
    var sx := CenterX(StackSpan(count, w, gap));
    seq(count, i requires 0 <= i => (sx + i * (w + gap), y))
  }

  /** `stack_vertical`: `count` shapes in a column, centred, each `h + gap` below the last. */
  function StackVertical(count: nat, h: nat, gap: nat, x: nat): (ps: seq<Position>)
    requires count >= 1 && StackSpan(count, h, gap) <= SLIDE_HEIGHT
    ensures |ps| == count
  {
    var sy := CenterY(StackSpan(count, h, gap));
    seq(count, i requires 0 <= i => (x, sy + i * (h + gap)))
  }

  /** The last shape ends where the span does. */
  lemma SpanEnd(count: nat, s: nat, gap: nat)
    requires count >= 1
    ensures (count - 1) * (s + gap) + s == StackSpan(count, s, gap)
  {
    assert (count - 1) * (s + gap) == (count - 1) * s + (count - 1) * gap;
  }

  /**
   * A horizontal stack keeps y, spaces its shapes `w + gap` apart, starts at the
   * centred left edge, and its last shape ends with the same room on the right,
   * to within 1 EMU.
   */
  lemma StackHorizontalMeaning(count: nat, w: nat, gap: nat, y: nat)
    requires count >= 1 && StackSpan(count, w, gap) <= SLIDE_WIDTH
    ensures var ps := StackHorizontal(count, w, gap, y);
            (forall i :: 0 <= i < count ==> ps[i].1 == y)
            && (forall i :: 0 < i < count ==> ps[i].0 == ps[i - 1].0 + w + gap)
            && ps[0].0 == CenterX(StackSpan(count, w, gap))
            && ps[0].0 <= SLIDE_WIDTH - (ps[count - 1].0 + w) <= ps[0].0 + 1
  {
    var ps := StackHorizontal(count, w, gap, y);
    forall i | 0 < i < count
      ensures ps[i].0 == ps[i - 1].0 + w + gap
    {
      assert i * (w + gap) == (i - 1) * (w + gap) + (w + gap);
    }
    SpanEnd(count, w, gap);
  }

  /** A vertical stack keeps x, spaces its shapes `h + gap` apart and is centred to within 1 EMU. */
  lemma StackVerticalMeaning(count: nat, h: nat, gap: nat, x: nat)
    requires count >= 1 && StackSpan(count, h, gap) <= SLIDE_HEIGHT
    ensures var ps := StackVertical(count, h, gap, x);
            (forall i :: 0 <= i < count ==> ps[i].0 == x)
            && (forall i :: 0 < i < count ==> ps[i].1 == ps[i - 1].1 + h + gap)
            && ps[0].1 == CenterY(StackSpan(count, h, gap))
            && ps[0].1 <= SLIDE_HEIGHT - (ps[count - 1].1 + h) <= ps[0].1 + 1
  {
    var ps := StackVertical(count, h, gap, x);
    forall i | 0 < i < count
      ensures ps[i].1 == ps[i - 1].1 + h + gap
    {
      assert i * (h + gap) == (i - 1) * (h + gap) + (h + gap);
    }
    SpanEnd(count, h, gap);
  }

  /** The source's example: four 500000-wide shapes 100000 apart are 600000 apart. */
  lemma StackExample()
    ensures var ps := StackHorizontal(4, 500000, 100000, 2000000);
            |ps| == 4 && forall i :: 0 < i < 4 ==> ps[i].0 - ps[i - 1].0 == 600000
  {
    StackHorizontalMeaning(4, 500000, 100000, 2000000);
  }

  // ---------------------------------------------------------------------
  // distribute_horizontal
  // ---------------------------------------------------------------------

  /** The width between the two side margins, SLIDE_WIDTH - 2·MARGIN. */
  const USABLE_WIDTH: nat := 8229600

  /** What `distribute_horizontal` needs not to underflow. */
  predicate CanDistribute(count: nat, w: nat) {
    (count == 1 ==> w <= SLIDE_WIDTH) && (count >= 2 ==> w * count <= USABLE_WIDTH)
  }

  /** The gap between distributed shapes. */
  function DistributeGap(count: nat, w: nat): nat
    requires count >= 2 && w * count <= USABLE_WIDTH
  {
    (USABLE_WIDTH - w * count) / (count - 1)
  }

  /** `distribute_horizontal`: none, one centred, or from the left margin with equal gaps. */
  function DistributeHorizontal(count: nat, w: nat, y: nat): (ps: seq<Position>)
    requires CanDistribute(count, w)
    ensures |ps| == count
  {
    if count == 0 then []
    else if count == 1 then [(CenterX(w), y)]
    else
      var gap := DistributeGap(count, w);
      seq(count, i requires 0 <= i => (Slot(i, w + gap), y))
  }

  /** The left edge of the `i`-th of evenly spaced shapes, `step` apart from the left margin. */
  function Slot(i: nat, step: nat): nat {
    var offset: nat := i * step;
    MARGIN + offset
  }

  /**
   * Zero shapes give nothing and one shape is centred. More start at the left
   * margin, keep equal gaps, and end within the right margin.
   */
  lemma DistributeMeaning(count: nat, w: nat, y: nat)
    requires CanDistribute(count, w)
    ensures var ps := DistributeHorizontal(count, w, y);
            (count == 0 ==> ps == [])
            && (count == 1 ==> ps == [(CenterX(w), y)])
            && (forall i :: 0 <= i < count ==> ps[i].1 == y)
            && (count >= 2 ==>
                  ps[0].0 == MARGIN
                  && (forall i :: 0 < i < count ==> ps[i].0 == ps[i - 1].0 + w + DistributeGap(count, w))
                  && ps[count - 1].0 + w <= SLIDE_WIDTH - MARGIN)
  {
    if count >= 2 {
      var ps := DistributeHorizontal(count, w, y);
      var gap := DistributeGap(count, w);
      forall i | 0 < i < count
        ensures ps[i].0 == ps[i - 1].0 + w + gap
      {
        assert i * (w + gap) == (i - 1) * (w + gap) + (w + gap);
      }
      GapFits(count, w);
      assert (count - 1) * (w + gap) == (count - 1) * w + (count - 1) * gap;
      assert (count - 1) * w + w == w * count;
    }
  }

  /** The gaps fit in what the shapes leave of the usable width. */
  lemma GapFits(count: nat, w: nat)
    requires count >= 2 && w * count <= USABLE_WIDTH
    ensures (count - 1) * DistributeGap(count, w) <= USABLE_WIDTH - w * count
  {
    var a, b := USABLE_WIDTH - w * count, count - 1;
    assert a == (a / b) * b + a % b;
  }

  /** The source's example: three 500000-wide shapes give three positions. */
  lemma DistributeExample()
    ensures |DistributeHorizontal(3, 500000, 2000000)| == 3
  {
  }
}
