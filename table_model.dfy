/**
 * The formatted table of src/generator/table/: cells with text formatting and
 * alignment (cell.rs), rows (row.rs), and the table with its builder
 * (builder.rs).
 */
module TableModel {
  import opened Wrappers
  import opened Strings
  import Colors
  import GeneratorTables

  // ---------------------------------------------------------------------
  // Alignment
  // ---------------------------------------------------------------------

  datatype CellAlign = Left | Center | Right | Justify
  {
    /** The OOXML `algn` value. */
    function AsStr(): (s: string)
      ensures |s| > 0
    {
      match this
      case Left => "l"
      case Center => "ctr"
      case Right => "r"
      case Justify => "just"
    }
  }

  datatype CellVAlign = Top | Middle | Bottom
  {
    /** The OOXML `anchor` value. */
    function AsStr(): (s: string)
      ensures |s| > 0
    {
      match this
      case Top => "t"
      case Middle => "ctr"
      case Bottom => "b"
    }
  }

  /** Distinct alignments are written differently, so the value identifies the alignment. */
  lemma AlignStrInjective(a: CellAlign, b: CellAlign)
    ensures a.AsStr() == b.AsStr() ==> a == b
  {
    if a != b {
      assert a.AsStr()[0] != b.AsStr()[0] || |a.AsStr()| != |b.AsStr()|;
    }
  }

  lemma VAlignStrInjective(a: CellVAlign, b: CellVAlign)
    ensures a.AsStr() == b.AsStr() ==> a == b
  {
    if a != b {
      assert a.AsStr()[0] != b.AsStr()[0];
    }
  }

  // ---------------------------------------------------------------------
  // Cells
  // ---------------------------------------------------------------------

  datatype Cell = Cell(
    text: string,
    bold: bool,
    italic: bool,
    underline: bool,
    textColor: Option<string>,
    backgroundColor: Option<string>,
    fontSize: Option<nat>,
    fontFamily: Option<string>,
    align: CellAlign,
    valign: CellVAlign,
    wrapText: bool)
  {
    /** `bold`: sets the flag and nothing else. */
    function Bold(): (r: Cell)
      ensures r.bold && r.(bold := bold) == this
    {
      this.(bold := true)
    }

    /** `italic`: sets the flag and nothing else. */
    function Italic(): (r: Cell)
      ensures r.italic && r.(italic := italic) == this
    {
      this.(italic := true)
    }

    /** `underline`: sets the flag and nothing else. */
    function Underline(): (r: Cell)
      ensures r.underline && r.(underline := underline) == this
    {
      this.(underline := true)
    }

    /** `text_color`: stores the normalised colour and nothing else. */
    function TextColor(color: string): (r: Cell)
      ensures r.textColor == Some(Colors.NormalizeColor(color))
      ensures r.textColor.Some? && !StartsWith(r.textColor.value, "#") && Colors.NoLowerCase(r.textColor.value)
      ensures r.(textColor := textColor) == this
    {
      Colors.NormalizedShape(color);
      this.(textColor := Some(Colors.NormalizeColor(color)))
    }

    /** `background_color`: stores the normalised colour and nothing else. */
    function BackgroundColor(color: string): (r: Cell)
      ensures r.backgroundColor == Some(Colors.NormalizeColor(color))
      ensures r.backgroundColor.Some? && !StartsWith(r.backgroundColor.value, "#")
      ensures Colors.NoLowerCase(r.backgroundColor.value)
      ensures r.(backgroundColor := backgroundColor) == this
    {
      Colors.NormalizedShape(color);
      this.(backgroundColor := Some(Colors.NormalizeColor(color)))
    }

    /** `font_size`: sets the size and nothing else. */
    function FontSize(size: nat): (r: Cell)
      ensures r.fontSize == Some(size) && r.(fontSize := fontSize) == this
    {
      this.(fontSize := Some(size))
    }

    /** `font_family`: sets the family and nothing else. */
    function FontFamily(family: string): (r: Cell)
      ensures r.fontFamily == Some(family) && r.(fontFamily := fontFamily) == this
    {
      this.(fontFamily := Some(family))
    }

    /** `align`: sets the horizontal alignment and nothing else. */
    function Align(a: CellAlign): (r: Cell)
      ensures r.align == a && r.(align := align) == this
    {
      this.(align := a)
    }

    /** `align_left`, `align_right`, `align_center`: `align` with a fixed value. */
    function AlignLeft(): (r: Cell)
      ensures r == Align(Left)
    {
      this.(align := Left)
    }

    function AlignRight(): (r: Cell)
      ensures r == Align(Right)
    {
      this.(align := Right)
    }

    function AlignCenter(): (r: Cell)
      ensures r == Align(Center)
    {
      this.(align := Center)
    }

    /** `valign`: sets the vertical alignment and nothing else. */
    function VAlign(v: CellVAlign): (r: Cell)
      ensures r.valign == v && r.(valign := valign) == this
    {
      this.(valign := v)
    }

    /** `valign_top`, `valign_bottom`: `valign` with a fixed value. */
    function VAlignTop(): (r: Cell)
      ensures r == VAlign(Top)
    {
      this.(valign := Top)
    }

    function VAlignBottom(): (r: Cell)
      ensures r == VAlign(Bottom)
    {
      this.(valign := Bottom)
    }

    /** `wrap`: sets wrapping and nothing else. */
    function Wrap(wrap: bool): (r: Cell)
      ensures r.wrapText == wrap && r.(wrapText := wrapText) == this
    {
      this.(wrapText := wrap)
    }
  }

  /** `TableCell::new`: plain text, centred in both directions, wrapping. */
  function NewCell(text: string): (c: Cell)
    ensures c.text == text && !c.bold && !c.italic && !c.underline
    ensures c.textColor == None && c.backgroundColor == None && c.fontSize == None && c.fontFamily == None
    ensures c.align == Center && c.valign == Middle && c.wrapText
  {
    Cell(text, false, false, false, None, None, None, None, Center, Middle, true)
  }

  /** The setters touch different fields, so their order does not matter. */
  lemma SettersCommute(c: Cell, color: string, size: nat, a: CellAlign, v: CellVAlign)
    ensures c.Bold().Italic() == c.Italic().Bold()
    ensures c.TextColor(color).BackgroundColor(color) == c.BackgroundColor(color).TextColor(color)
    ensures c.FontSize(size).Align(a) == c.Align(a).FontSize(size)
    ensures c.Align(a).VAlign(v) == c.VAlign(v).Align(a)
  {
  }

  /** A fully formatted cell keeps the text and holds every value given, colours normalised. */
  lemma FormattedCell(text: string, color: string, background: string, size: nat, family: string)
    ensures var c := NewCell(text).Bold().Italic().Underline().TextColor(color).BackgroundColor(background)
                       .FontSize(size).FontFamily(family);
            c.text == text && c.bold && c.italic && c.underline
            && c.textColor == Some(Colors.NormalizeColor(color))
            && c.backgroundColor == Some(Colors.NormalizeColor(background))
            && c.fontSize == Some(size) && c.fontFamily == Some(family)
            && c.align == Center && c.valign == Middle && c.wrapText
  {
  }

  // ---------------------------------------------------------------------
  // Rows
  // ---------------------------------------------------------------------

  datatype Row = Row(cells: seq<Cell>, height: Option<nat>)
  {
    /** `with_height`: sets the height and nothing else. */
    function WithHeight(h: nat): (r: Row)
      ensures r.height == Some(h) && r.cells == cells
    {
      this.(height := Some(h))
    }

    /** `cell_count`. */
    function CellCount(): (n: nat)
      ensures n == |cells|
    {
      |cells|
    }
  }

  /** `TableRow::new`: the cells, no height. */
  function NewRow(cells: seq<Cell>): (r: Row)
    ensures r.cells == cells && r.height == None
  {
    Row(cells, None)
  }

  function RowHeight(r: Row): nat {
    if r.height.Some? then r.height.value else GeneratorTables.DEFAULT_ROW_HEIGHT
  }

  function RowHeights(rows: seq<Row>): (hs: seq<nat>)
    ensures |hs| == |rows| && forall k :: 0 <= k < |rows| ==> hs[k] == RowHeight(rows[k])
  {
    if rows == [] then [] else RowHeights(rows[..|rows| - 1]) + [RowHeight(rows[|rows| - 1])]
  }

  // ---------------------------------------------------------------------
  // Tables and the builder
  // ---------------------------------------------------------------------

  datatype Table = Table(rows: seq<Row>, columnWidths: seq<nat>, x: nat, y: nat)
  {
    /** `width`: the sum of the column widths. */
    function Width(): nat {
      GeneratorTables.Sum(columnWidths)
    }

    /** `height`: the sum of the row heights, 400000 for a row without one. */
    function Height(): nat {
      GeneratorTables.Sum(RowHeights(rows))
    }

    function RowCount(): (n: nat)
      ensures n == |rows|
    {
      |rows|
    }

    function ColumnCount(): (n: nat)
      ensures n == |columnWidths|
    {
      |columnWidths|
    }
  }

  /** Widths bound every column and add up column by column. */
  lemma WidthMeaning(t: Table, more: seq<nat>)
    ensures forall k :: 0 <= k < |t.columnWidths| ==> t.columnWidths[k] <= t.Width()
    ensures t.(columnWidths := t.columnWidths + more).Width() == t.Width() + GeneratorTables.Sum(more)
  {
    GeneratorTables.WidthCovers(GeneratorTables.Table([], t.columnWidths, t.x, t.y), more);
  }

  /** The example of the source's tests: widths 1000000, 1500000, 2000000 give 4500000. */
  lemma WidthExample(t: Table)
    requires t.columnWidths == [1000000, 1500000, 2000000]
    ensures t.Width() == 4500000
  {
    GeneratorTables.WidthExample(GeneratorTables.Table([], t.columnWidths, t.x, t.y));
  }

  /** Rows without a height count 400000 each; an added row adds its own height. */
  lemma HeightMeaning(t: Table, r: Row)
    ensures (forall k :: 0 <= k < |t.rows| ==> t.rows[k].height.None?)
              ==> t.Height() == |t.rows| * GeneratorTables.DEFAULT_ROW_HEIGHT
    ensures t.(rows := t.rows + [r]).Height() == t.Height() + RowHeight(r)
  {
    if forall k :: 0 <= k < |t.rows| ==> t.rows[k].height.None? {
      GeneratorTables.SumUniform(RowHeights(t.rows), GeneratorTables.DEFAULT_ROW_HEIGHT);
    }
    assert RowHeights(t.rows + [r]) == RowHeights(t.rows) + [RowHeight(r)];
    GeneratorTables.SumAppend(RowHeights(t.rows), [RowHeight(r)]);
  }

  function CellsOf(texts: seq<string>): (cs: seq<Cell>)
    ensures |cs| == |texts| && forall j :: 0 <= j < |texts| ==> cs[j] == NewCell(texts[j])
  {
    if texts == [] then [] else CellsOf(texts[..|texts| - 1]) + [NewCell(texts[|texts| - 1])]
  }

  function DataRows(data: seq<seq<string>>): (rs: seq<Row>)
    ensures |rs| == |data| && forall k :: 0 <= k < |data| ==> rs[k] == NewRow(CellsOf(data[k]))
  {
    if data == [] then [] else DataRows(data[..|data| - 1]) + [NewRow(CellsOf(data[|data| - 1]))]
  }

  /** `from_data`: as many rows as data rows, each of new cells, one per string. */
  function FromData(data: seq<seq<string>>, columnWidths: seq<nat>, x: nat, y: nat): (t: Table)
    ensures t.RowCount() == |data| && t.ColumnCount() == |columnWidths| && t.x == x && t.y == y
    ensures forall k :: 0 <= k < |data| ==>
              |t.rows[k].cells| == |data[k]| && forall j :: 0 <= j < |data[k]| ==> t.rows[k].cells[j].text == data[k][j]
  {
    Table(DataRows(data), columnWidths, x, y)
  }

  datatype TableBuilder = TableBuilder(columnWidths: seq<nat>, rows: seq<Row>, x: nat, y: nat)
  {
    /** `add_row`: appends the row. */
    function AddRow(row: Row): (b: TableBuilder)
      ensures b.rows == rows + [row] && b.(rows := rows) == this
    {
      this.(rows := rows + [row])
    }

    /** `position`: sets x and y and nothing else. */
    function Position(x': nat, y': nat): (b: TableBuilder)
      ensures b.x == x' && b.y == y' && b.rows == rows && b.columnWidths == columnWidths
    {
      this.(x := x', y := y')
    }

    function Build(): (t: Table)
      ensures t.rows == rows && t.columnWidths == columnWidths && t.x == x && t.y == y
    {
      Table(rows, columnWidths, x, y)
    }
  }

  function NewBuilder(columnWidths: seq<nat>): (b: TableBuilder)
    ensures b.rows == [] && b.columnWidths == columnWidths && b.x == 0 && b.y == 0
  {
    TableBuilder(columnWidths, [], 0, 0)
  }

  /** Adding `rows` one `add_row` at a time. */
  function AddRows(b: TableBuilder, rows: seq<Row>): TableBuilder {
    if rows == [] then b else AddRows(b, rows[..|rows| - 1]).AddRow(rows[|rows| - 1])
  }

  /** Rows land after the existing ones in the order added; nothing else changes. */
  lemma {:induction false} AddRowsAppend(b: TableBuilder, rows: seq<Row>)
    ensures AddRows(b, rows) == b.(rows := b.rows + rows)
  {
    if rows == [] {
      assert b.rows + rows == b.rows;
    } else {
      AddRowsAppend(b, rows[..|rows| - 1]);
      assert b.rows + rows[..|rows| - 1] + [rows[|rows| - 1]] == b.rows + rows;
    }
  }

  /** A built table holds the added rows in order, the widths, and the last position set. */
  lemma BuiltTable(columnWidths: seq<nat>, rows: seq<Row>, x: nat, y: nat)
    ensures AddRows(NewBuilder(columnWidths), rows).Position(x, y).Build() == Table(rows, columnWidths, x, y)
    ensures AddRows(NewBuilder(columnWidths).Position(x, y), rows).Build() == Table(rows, columnWidths, x, y)
  {
    AddRowsAppend(NewBuilder(columnWidths), rows);
    AddRowsAppend(NewBuilder(columnWidths).Position(x, y), rows);
  }

  /** Building from the data's rows gives what `from_data` gives. */
  lemma BuilderMatchesFromData(columnWidths: seq<nat>, x: nat, y: nat, data: seq<seq<string>>)
    ensures AddRows(NewBuilder(columnWidths), DataRows(data)).Position(x, y).Build() == FromData(data, columnWidths, x, y)
  {
    BuiltTable(columnWidths, DataRows(data), x, y);
  }
}
