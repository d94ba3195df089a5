/**
 * The generator's table values (src/generator/tables.rs): cells, rows and
 * tables built by consuming setters, their sizes, and the fluent builder.
 */
module GeneratorTables {
  import opened Wrappers
  import opened Strings
  import Colors

  /** The height a row without one counts for, in EMU. */
  const DEFAULT_ROW_HEIGHT: nat := 400000

  datatype Cell = Cell(text: string, bold: bool, backgroundColor: Option<string>)
  {
    /** `bold`: sets the flag and nothing else. */
    function Bold(): (r: Cell)
      ensures r.bold && r.(bold := bold) == this
    {
      this.(bold := true)
    }

    /** `background_color`: stores the normalised colour and nothing else. */
    function BackgroundColor(color: string): (r: Cell)
      ensures r.backgroundColor == Some(Colors.NormalizeColor(color))
      ensures r.backgroundColor.Some? && !StartsWith(r.backgroundColor.value, "#")
      ensures Colors.NoLowerCase(r.backgroundColor.value)
      ensures r.(backgroundColor := backgroundColor) == this
    {
      Colors.NormalizedShape(color);
      this.(backgroundColor := Some(Colors.NormalizeColor(color)))
    }
  }

  /** `TableCell::new`: the text, not bold, no background. */
  function NewCell(text: string): (c: Cell)
    ensures c.text == text && !c.bold && c.backgroundColor == None
  {
    Cell(text, false, None)
  }

  datatype Row = Row(cells: seq<Cell>, height: Option<nat>)
  {
    /** `with_height`: sets the height and nothing else. */
    function WithHeight(h: nat): (r: Row)
      ensures r.height == Some(h) && r.cells == cells
    {
      this.(height := Some(h))
    }
  }

  /** `TableRow::new`: the cells, no height. */
  function NewRow(cells: seq<Cell>): (r: Row)
    ensures r.cells == cells && r.height == None
  {
    Row(cells, None)
  }

  /** The height a row counts for in the table's height. */
  function RowHeight(r: Row): nat {
    if r.height.Some? then r.height.value else DEFAULT_ROW_HEIGHT
  }

  // ---------------------------------------------------------------------
  // Sums
  // ---------------------------------------------------------------------

  /** `iter().sum()` over widths. */
  function Sum(ws: seq<nat>): nat {
    if ws == [] then 0 else Sum(ws[..|ws| - 1]) + ws[|ws| - 1]
  }

  lemma {:induction false} SumAppend(a: seq<nat>, b: seq<nat>)
    ensures Sum(a + b) == Sum(a) + Sum(b)
  {
    if b == [] {
      assert a + b == a;
    } else {
      assert (a + b)[..|a + b| - 1] == a + b[..|b| - 1];
      SumAppend(a, b[..|b| - 1]);
    }
  }

  /** Every summand is at most the sum. */
  lemma {:induction false} SumCovers(ws: seq<nat>, k: nat)
    requires k < |ws|
    ensures ws[k] <= Sum(ws)
  {
    if k < |ws| - 1 {
      SumCovers(ws[..|ws| - 1], k);
    }
  }

  /** Equal widths sum to their count times the width. */
  lemma {:induction false} SumUniform(ws: seq<nat>, w: nat)
    requires forall k :: 0 <= k < |ws| ==> ws[k] == w
    ensures Sum(ws) == |ws| * w
  {
    if ws != [] {
      SumUniform(ws[..|ws| - 1], w);
    }
  }

  /** The heights rows count for, in order. */
  function RowHeights(rows: seq<Row>): (hs: seq<nat>)
    ensures |hs| == |rows| && forall k :: 0 <= k < |rows| ==> hs[k] == RowHeight(rows[k])
  {
    if rows == [] then [] else RowHeights(rows[..|rows| - 1]) + [RowHeight(rows[|rows| - 1])]
  }

  // ---------------------------------------------------------------------
  // Tables
  // ---------------------------------------------------------------------

  datatype Table = Table(rows: seq<Row>, columnWidths: seq<nat>, x: nat, y: nat)
  {
    /** `column_count`. */
    function ColumnCount(): (n: nat)
      ensures n == |columnWidths|
    {
      |columnWidths|
    }

    /** `row_count`. */
    function RowCount(): (n: nat)
      ensures n == |rows|
    {
      |rows|
    }

    /** `width`: the sum of the column widths. */
    function Width(): nat {
      Sum(columnWidths)
    }

    /** `height`: the sum of the row heights, a row without one counting 400000. */
    function Height(): nat {
      Sum(RowHeights(rows))
    }
  }

  /** Every column fits in the table's width, and widths add up column by column. */
  lemma WidthCovers(t: Table, more: seq<nat>)
    ensures forall k :: 0 <= k < |t.columnWidths| ==> t.columnWidths[k] <= t.Width()
    ensures t.(columnWidths := t.columnWidths + more).Width() == t.Width() + Sum(more)
  {
    forall k | 0 <= k < |t.columnWidths|
      ensures t.columnWidths[k] <= t.Width()
    {
      SumCovers(t.columnWidths, k);
    }
    SumAppend(t.columnWidths, more);
  }

  /** Three columns of 1000000, 1500000 and 2000000 EMU make a table 4500000 wide. */
  lemma WidthExample(t: Table)
    requires t.columnWidths == [1000000, 1500000, 2000000]
    ensures t.Width() == 4500000
  {
    var one: seq<nat>, two: seq<nat> := [1000000], [1000000, 1500000];
    assert Sum(one) == 1000000 by {
      assert one[..0] == [];
    }
    assert Sum(two) == 2500000 by {
      assert two[..1] == one;
    }
    assert t.columnWidths[..2] == two;
  }

  /** Rows without a height count 400000 each; an added row adds its own height. */
  lemma HeightMeaning(t: Table, r: Row)
    ensures (forall k :: 0 <= k < |t.rows| ==> t.rows[k].height.None?) ==> t.Height() == |t.rows| * DEFAULT_ROW_HEIGHT
    ensures t.(rows := t.rows + [r]).Height() == t.Height() + RowHeight(r)
  {
    if forall k :: 0 <= k < |t.rows| ==> t.rows[k].height.None? {
      SumUniform(RowHeights(t.rows), DEFAULT_ROW_HEIGHT);
    }
    assert RowHeights(t.rows + [r]) == RowHeights(t.rows) + [RowHeight(r)];
    SumAppend(RowHeights(t.rows), [RowHeight(r)]);
  }

  /** A row of new cells, one per string. */
  function CellsOf(texts: seq<string>): (cs: seq<Cell>)
    ensures |cs| == |texts| && forall j :: 0 <= j < |texts| ==> cs[j] == NewCell(texts[j])
  {
    if texts == [] then [] else CellsOf(texts[..|texts| - 1]) + [NewCell(texts[|texts| - 1])]
  }

  function DataRows(data: seq<seq<string>>): (rs: seq<Row>)
    ensures |rs| == |data| && forall k :: 0 <= k < |data| ==> rs[k] == NewRow(CellsOf(data[k]))
  {
    if data == [] then [] else DataRows(data[..|data| - 1]) + [NewRow(CellsOf(data[|data| - 1]))]
  }

  /** `from_data`: one new row per data row, one new cell per string. */
  function FromData(data: seq<seq<string>>, columnWidths: seq<nat>, x: nat, y: nat): (t: Table)
    ensures t.RowCount() == |data| && t.ColumnCount() == |columnWidths|
    ensures forall k :: 0 <= k < |data| ==> |t.rows[k].cells| == |data[k]| && t.rows[k].height == None
    ensures t.x == x && t.y == y
  {
    Table(DataRows(data), columnWidths, x, y)
  }

  /** The texts of a row's cells. */
  function RowTexts(r: Row): (ts: seq<string>)
    ensures |ts| == |r.cells| && forall j :: 0 <= j < |r.cells| ==> ts[j] == r.cells[j].text
  {
    seq(|r.cells|, j requires 0 <= j < |r.cells| => r.cells[j].text)
  }

  function TableTexts(t: Table): (ts: seq<seq<string>>)
    ensures |ts| == |t.rows| && forall k :: 0 <= k < |t.rows| ==> ts[k] == RowTexts(t.rows[k])
  {
    seq(|t.rows|, k requires 0 <= k < |t.rows| => RowTexts(t.rows[k]))
  }

  /** The table `from_data` builds reads back as the data it was given. */
  lemma FromDataTexts(data: seq<seq<string>>, columnWidths: seq<nat>, x: nat, y: nat)
    ensures TableTexts(FromData(data, columnWidths, x, y)) == data
  {
    var t := FromData(data, columnWidths, x, y);
    forall k | 0 <= k < |data|
      ensures RowTexts(t.rows[k]) == data[k]
    {
    }
  }

  /** Without heights, a table from data is 400000 EMU per data row high. */
  lemma FromDataHeight(data: seq<seq<string>>, columnWidths: seq<nat>, x: nat, y: nat)
    ensures FromData(data, columnWidths, x, y).Height() == |data| * DEFAULT_ROW_HEIGHT
  {
    var t := FromData(data, columnWidths, x, y);
    HeightMeaning(t, NewRow([]));
  }

  // ---------------------------------------------------------------------
  // The builder
  // ---------------------------------------------------------------------

  datatype TableBuilder = TableBuilder(rows: seq<Row>, columnWidths: seq<nat>, x: nat, y: nat)
  {
    /** `position`: sets x and y and nothing else. */
    function Position(x': nat, y': nat): (b: TableBuilder)
      ensures b.x == x' && b.y == y' && b.rows == rows && b.columnWidths == columnWidths
    {
      this.(x := x', y := y')
    }

    /** `add_row`: appends the row. */
    function AddRow(row: Row): (b: TableBuilder)
      ensures b.rows == rows + [row] && b.(rows := rows) == this
    {
      this.(rows := rows + [row])
    }

    /** `add_simple_row`: appends a row of new cells, one per string. */
    function AddSimpleRow(cells: seq<string>): (b: TableBuilder)
      ensures b == AddRow(NewRow(CellsOf(cells)))
    {
      this.(rows := rows + [Row(CellsOf(cells), None)])
    }

    /** `build`: a table with the rows, widths and position gathered. */
    function Build(): (t: Table)
      ensures t.rows == rows && t.columnWidths == columnWidths && t.x == x && t.y == y
    {
      Table(rows, columnWidths, x, y)
    }
  }

  /** `TableBuilder::new`: no rows, the given widths, at the origin. */
  function NewBuilder(columnWidths: seq<nat>): (b: TableBuilder)
    ensures b.rows == [] && b.columnWidths == columnWidths && b.x == 0 && b.y == 0
  {
    TableBuilder([], columnWidths, 0, 0)
  }

  /** Adding the rows of `data` one `add_simple_row` at a time. */
  function AddSimpleRows(b: TableBuilder, data: seq<seq<string>>): TableBuilder {
    if data == [] then b else AddSimpleRows(b, data[..|data| - 1]).AddSimpleRow(data[|data| - 1])
  }

  /** Simple rows land after the existing ones, in the order added. */
  lemma {:induction false} AddSimpleRowsAppend(b: TableBuilder, data: seq<seq<string>>)
    ensures AddSimpleRows(b, data) == b.(rows := b.rows + DataRows(data))
  {
    if data != [] {
      AddSimpleRowsAppend(b, data[..|data| - 1]);
      assert DataRows(data) == DataRows(data[..|data| - 1]) + [NewRow(CellsOf(data[|data| - 1]))];
    }
  }

  /** Building row by row from strings gives the table `from_data` gives. */
  lemma BuilderMatchesFromData(columnWidths: seq<nat>, x: nat, y: nat, data: seq<seq<string>>)
    ensures AddSimpleRows(NewBuilder(columnWidths).Position(x, y), data).Build() == FromData(data, columnWidths, x, y)
  {
    AddSimpleRowsAppend(NewBuilder(columnWidths).Position(x, y), data);
  }
}
