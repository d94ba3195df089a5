/**
 * DrawingML tables (`src/oxml/table.rs`): cell properties, cells, rows, grid
 * columns and tables, how each is written as XML, how each reads its own
 * attributes back, the counts, and the builders that append rows, cells and
 * columns.
 *
 * Reading child elements (a cell's text, a row's cells, a table's rows and
 * grid columns) is the XML parser's work: those children are parameters.
 */
module OxmlTable {
  import opened Wrappers
  import opened Strings
  import opened XmlText
  import opened XmlAttrs

  // ---------------------------------------------------------------------
  // Cell properties (a:tcPr)
  // ---------------------------------------------------------------------

  datatype TableCellProperties = TableCellProperties(
    marginLeft: Option<U32>,
    marginRight: Option<U32>,
    marginTop: Option<U32>,
    marginBottom: Option<U32>,
    anchor: Option<string>)

  const DEFAULT_CELL_PROPERTIES := TableCellProperties(None, None, None, None, None)

  /** What `to_xml` pushes, in its order: the four margins, then the anchor. */
  function CellPropertySlots(p: TableCellProperties): (slots: seq<Slot>)
    ensures |slots| == 5 && DistinctNames(slots)
  {
    [("marL", NumText(p.marginLeft)), ("marR", NumText(p.marginRight)),
     ("marT", NumText(p.marginTop)), ("marB", NumText(p.marginBottom)), ("anchor", p.anchor)]
  }

  /** `TableCellProperties::to_xml`. */
  function TcPrXml(p: TableCellProperties): string {
    EmptyElement("a:tcPr", Present(CellPropertySlots(p)))
  }

  /** `TableCellProperties::parse`, from the `a:tcPr` element's attributes. */
  function ParseCellProperties(attrs: AttrList): TableCellProperties {
    TableCellProperties(
      NumOf(Lookup(attrs, "marL")), NumOf(Lookup(attrs, "marR")),
      NumOf(Lookup(attrs, "marT")), NumOf(Lookup(attrs, "marB")), Lookup(attrs, "anchor"))
  }

  /** Only properties with nothing set are written as the bare `<a:tcPr/>`. */
  lemma BareTcPr(p: TableCellProperties)
    ensures TcPrXml(p) == "<a:tcPr/>" <==> p == DEFAULT_CELL_PROPERTIES
  {
    var slots := CellPropertySlots(p);
    BareElement("a:tcPr", slots);
    assert (forall i :: 0 <= i < |slots| ==> slots[i].1.None?)
      <==> slots[0].1.None? && slots[1].1.None? && slots[2].1.None? && slots[3].1.None? && slots[4].1.None?;
  }

  /** Reading the written attributes back gives the properties unchanged. */
  lemma CellPropertiesRoundTrip(p: TableCellProperties)
    ensures ParseCellProperties(Present(CellPropertySlots(p))) == p
  {
    var slots := CellPropertySlots(p);
    SlotRead(slots, 0);
    SlotRead(slots, 1);
    SlotRead(slots, 2);
    SlotRead(slots, 3);
    SlotRead(slots, 4);
    TextsRead(p.marginLeft, None, false);
    TextsRead(p.marginRight, None, false);
    TextsRead(p.marginTop, None, false);
    TextsRead(p.marginBottom, None, false);
  }

  // ---------------------------------------------------------------------
  // Cells (a:tc)
  // ---------------------------------------------------------------------

  datatype TableCell = TableCell(text: string, rowSpan: U32, colSpan: U32, properties: TableCellProperties)

  /** `TableCell::new`: the text, spanning one row and one column, with default properties. */
  function NewCell(text: string): (c: TableCell)
    ensures c.text == text && c.rowSpan == 1 && c.colSpan == 1 && c.properties == DEFAULT_CELL_PROPERTIES
  {
    TableCell(text, 1, 1, DEFAULT_CELL_PROPERTIES)
  }

  /** A span is written only when it covers more than one row or column. */
  function SpanText(span: U32): Option<string> {
    if span > 1 then Some(NatToString(span)) else None
  }

  /** What `to_xml` pushes onto the `a:tc` element: rowSpan, then gridSpan. */
  function SpanSlots(c: TableCell): (slots: seq<Slot>)
    ensures |slots| == 2 && DistinctNames(slots)
  {
    [("rowSpan", SpanText(c.rowSpan)), ("gridSpan", SpanText(c.colSpan))]
  }

  /** The attributes after the tag name: nothing, or a space and the spans. */
  function SpanAttrs(c: TableCell): string {
    var attrs := Present(SpanSlots(c));
    if attrs == [] then "" else " " + Join(Written(attrs), " ")
  }

  /** The cell's fixed body: one paragraph with one run holding the escaped text. */
  const CELL_BODY_OPEN := "<a:txBody><a:bodyPr/><a:lstStyle/><a:p><a:r><a:rPr lang=\"en-US\"/><a:t>"
  const CELL_BODY_CLOSE := "</a:t></a:r></a:p></a:txBody>"

  /** `TableCell::to_xml`: the text is escaped by the module's `escape_xml`. */
  function CellXml(c: TableCell): string {
    "<a:tc" + SpanAttrs(c) + ">" + CELL_BODY_OPEN + EscapeChained(c.text) + CELL_BODY_CLOSE + TcPrXml(c.properties) + "</a:tc>"
  }

  /**
   * `TableCell::parse`: `rowSpan` and `gridSpan` default to 1 when missing or
   * unreadable; `text` is the text of the cell's first `a:t` descendant and
   * `tcPr` the attributes of its `a:tcPr` child, which the XML parser finds.
   */
  function ParseCell(attrs: AttrList, text: Option<string>, tcPr: Option<AttrList>): TableCell {
    var rowSpan := NumOf(Lookup(attrs, "rowSpan"));
    var colSpan := NumOf(Lookup(attrs, "gridSpan"));
    TableCell(
      if text.Some? then text.value else "",
      if rowSpan.Some? then rowSpan.value else 1,
      if colSpan.Some? then colSpan.value else 1,
      if tcPr.Some? then ParseCellProperties(tcPr.value) else DEFAULT_CELL_PROPERTIES)
  }

  /** rowSpan and gridSpan are written, with the span, exactly when it is above 1. */
  lemma SpansWrittenAboveOne(c: TableCell)
    ensures Lookup(Present(SpanSlots(c)), "rowSpan").Some? <==> c.rowSpan > 1
    ensures Lookup(Present(SpanSlots(c)), "gridSpan").Some? <==> c.colSpan > 1
  {
    SlotRead(SpanSlots(c), 0);
    SlotRead(SpanSlots(c), 1);
  }

  /** A new cell's element opens as a plain `<a:tc>` (no span attribute) and ends with a bare `<a:tcPr/>`. */
  lemma NewCellXml(text: string)
    ensures SpanAttrs(NewCell(text)) == ""
    ensures TcPrXml(NewCell(text).properties) == "<a:tcPr/>"
  {
    var c := NewCell(text);
    BareTcPr(c.properties);
    PresentEmpty(SpanSlots(c));
  }

  /** A span of 0 is not written, and so reads back as 1; every other span reads back unchanged. */
  function AtLeastOne(span: U32): U32 {
    if span == 0 then 1 else span
  }

  /** Reading a written cell back, given its text and properties element, gives the cell, spans of 0 as 1. */
  lemma CellRoundTrip(c: TableCell)
    ensures ParseCell(Present(SpanSlots(c)), Some(c.text), Some(Present(CellPropertySlots(c.properties))))
      == c.(rowSpan := AtLeastOne(c.rowSpan), colSpan := AtLeastOne(c.colSpan))
  {
    SpanRead(SpanSlots(c), 0, c.rowSpan);
    SpanRead(SpanSlots(c), 1, c.colSpan);
    CellPropertiesRoundTrip(c.properties);
  }

  /** A written span reads back as itself, and an unwritten one as nothing. */
  lemma SpanRead(slots: seq<Slot>, k: nat, span: U32)
    requires DistinctNames(slots) && k < |slots| && slots[k].1 == SpanText(span)
    ensures NumOf(Lookup(Present(slots), slots[k].0)) == (if span > 1 then Some(span) else None)
  {
    SlotRead(slots, k);
    if span > 1 {
      ParseU32Format(span);
    }
  }

  /** The cell's `a:t` holds its text escaped: no markup character is left, and unescaping gives it back. */
  lemma CellTextEscaped(c: TableCell)
    ensures CellXml(c) == "<a:tc" + SpanAttrs(c) + ">" + CELL_BODY_OPEN + EscapeXml(c.text) + CELL_BODY_CLOSE + TcPrXml(c.properties) + "</a:tc>"
    ensures Unescape(EscapeXml(c.text)) == c.text
  {
    EscapeChainedIsEscapeXml(c.text);
    UnescapeEscape(c.text);
  }

  // ---------------------------------------------------------------------
  // Rows (a:tr)
  // ---------------------------------------------------------------------

  datatype TableRow = TableRow(cells: seq<TableCell>, height: U32)

  /** The height of a row that does not give one. */
  const DEFAULT_ROW_HEIGHT: U32 := 370840

  /** `TableRow::new` and `TableRow::default`. */
  function NewRow(): (r: TableRow)
    ensures r.cells == [] && r.height == DEFAULT_ROW_HEIGHT
  {
    TableRow([], DEFAULT_ROW_HEIGHT)
  }

  /** `TableRow::parse`: the height from `h`, 370840 when missing or unreadable; `cells` are the parsed `a:tc` children. */
  function ParseRow(attrs: AttrList, cells: seq<TableCell>): TableRow {
    var h := NumOf(Lookup(attrs, "h"));
    TableRow(cells, if h.Some? then h.value else DEFAULT_ROW_HEIGHT)
  }

  /** `TableRow::add_cell`. */
  function AddCell(r: TableRow, cell: TableCell): (r': TableRow)
    ensures r'.cells == r.cells + [cell] && r'.height == r.height
  {
    r.(cells := r.cells + [cell])
  }

  /** The cells' elements, one after another. */
  function CellsXml(cells: seq<TableCell>): string
    decreases |cells|
  {
    if cells == [] then "" else CellsXml(cells[..|cells| - 1]) + CellXml(cells[|cells| - 1])
  }

  function RowOpen(r: TableRow): string {
    "<a:tr h=\"" + NatToString(r.height) + "\">"
  }

  /** `TableRow::to_xml`, as a function of the row. */
  function RowXml(r: TableRow): string {
    RowOpen(r) + CellsXml(r.cells) + "</a:tr>"
  }

  /** `TableRow::to_xml`: the height, then each cell pushed in turn. */
  method RowToXml(r: TableRow) returns (xml: string)
    ensures xml == RowXml(r)
  {
    var head := RowOpen(r);
    xml := head;
    assert r.cells[..0] == [];
    for i := 0 to |r.cells|
      invariant xml == head + CellsXml(r.cells[..i])
    {
      CellsStep(xml, head, r.cells, i);
      xml := xml + CellXml(r.cells[i]);
    }
    assert r.cells[..|r.cells|] == r.cells;
    xml := xml + "</a:tr>";
  }

  /** One pushed cell extends the written cells by that cell's element. */
  lemma CellsStep(x: string, head: string, cells: seq<TableCell>, i: nat)
    requires i < |cells| && x == head + CellsXml(cells[..i])
    ensures x + CellXml(cells[i]) == head + CellsXml(cells[..i + 1])
  {
    assert cells[..i + 1][..i] == cells[..i];
    AppendStep(x, head, CellsXml(cells[..i]), CellXml(cells[i]), CellsXml(cells[..i + 1]));
  }

  /** A new row has the default height; a row read without a readable `h` has it too. */
  lemma DefaultRowHeight(attrs: AttrList, cells: seq<TableCell>)
    ensures NewRow().height == 370840
    ensures RowXml(NewRow()) == "<a:tr h=\"370840\"></a:tr>"
    ensures NumOf(Lookup(attrs, "h")).None? ==> ParseRow(attrs, cells).height == 370840
  {
    DefaultHeightText();
  }

  lemma DefaultHeightText()
    ensures NatToString(370840) == "370840"
  {
    assert NatToString(37084) == "37084" by {
      assert NatToString(3708) == "3708" by {
        assert NatToString(370) == "370" by {
          assert NatToString(37) == "37";
        }
      }
    }
  }

  /** The written height reads back as the row's height. */
  lemma RowHeightRoundTrip(r: TableRow)
    ensures ParseRow([("h", NatToString(r.height))], r.cells) == r
  {
    ParseU32Format(r.height);
  }

  // ---------------------------------------------------------------------
  // Grid columns and tables
  // ---------------------------------------------------------------------

  datatype GridColumn = GridColumn(width: U32)

  /** The width of a grid column that does not give one. */
  const DEFAULT_COLUMN_WIDTH: U32 := 914400

  const GRID_COL_OPEN := "<a:gridCol w=\""
  const GRID_COL_CLOSE := "\"/>"

  /** `GridColumn::to_xml`. */
  function GridColXml(c: GridColumn): string {
    GRID_COL_OPEN + NatToString(c.width) + GRID_COL_CLOSE
  }

  /** A `a:gridCol` as `Table::parse` reads it: the width from `w`, 914400 when missing or unreadable. */
  function ParseGridColumn(attrs: AttrList): GridColumn {
    var w := NumOf(Lookup(attrs, "w"));
    GridColumn(if w.Some? then w.value else DEFAULT_COLUMN_WIDTH)
  }

  datatype Table = Table(rows: seq<TableRow>, gridColumns: seq<GridColumn>)

  /** `Table::new` and `Table::default`. */
  function NewTable(): (t: Table)
    ensures t.rows == [] && t.gridColumns == []
  {
    Table([], [])
  }

  /**
   * `Table::parse`: the grid columns from `a:tblGrid` when there is one (each
   * given by its attributes), no columns otherwise; `rows` are the parsed
   * `a:tr` children.
   */
  function ParseTable(grid: Option<seq<AttrList>>, rows: seq<TableRow>): (t: Table)
    ensures grid.None? ==> t.gridColumns == []
    ensures grid.Some? ==> (|t.gridColumns| == |grid.value|
      && forall i :: 0 <= i < |grid.value| ==> t.gridColumns[i] == ParseGridColumn(grid.value[i]))
  {
    var cols := if grid.Some? then seq(|grid.value|, i requires 0 <= i < |grid.value| => ParseGridColumn(grid.value[i])) else [];
    Table(rows, cols)
  }

  /** `Table::row_count`. */
  function RowCount(t: Table): nat {
    |t.rows|
  }

  /** `Table::col_count`: the number of grid columns, whatever the rows hold. */
  function ColCount(t: Table): nat {
    |t.gridColumns|
  }

  /** `Table::add_row`: the row goes last. */
  function AddRow(t: Table, row: TableRow): (t': Table)
    ensures t'.rows == t.rows + [row] && t'.gridColumns == t.gridColumns
  {
    t.(rows := t.rows + [row])
  }

  /** `Table::add_column`: a grid column of the width goes last. */
  function AddColumn(t: Table, width: U32): (t': Table)
    ensures t'.gridColumns == t.gridColumns + [GridColumn(width)] && t'.rows == t.rows
  {
    t.(gridColumns := t.gridColumns + [GridColumn(width)])
  }

  /** Each builder adds one to its own count and leaves the other alone. */
  lemma BuildersCount(t: Table, row: TableRow, width: U32)
    ensures RowCount(AddRow(t, row)) == RowCount(t) + 1 && ColCount(AddRow(t, row)) == ColCount(t)
    ensures ColCount(AddColumn(t, width)) == ColCount(t) + 1 && RowCount(AddColumn(t, width)) == RowCount(t)
    ensures AddColumn(t, width).gridColumns[ColCount(t)].width == width
  {
  }

  /** The grid columns' elements, one after another. */
  function GridXml(cols: seq<GridColumn>): string
    decreases |cols|
  {
    if cols == [] then "" else GridXml(cols[..|cols| - 1]) + GridColXml(cols[|cols| - 1])
  }

  /** The rows' elements, one after another. */
  function RowsXml(rows: seq<TableRow>): string
    decreases |rows|
  {
    if rows == [] then "" else RowsXml(rows[..|rows| - 1]) + RowXml(rows[|rows| - 1])
  }

  /** What every table starts with: the table properties and the grid's opening tag. */
  const TABLE_HEAD := "<a:tbl><a:tblPr firstRow=\"1\" bandRow=\"1\"/><a:tblGrid>"

  /** `Table::to_xml`, as a function of the table. */
  function TableXml(t: Table): string {
    TABLE_HEAD + GridXml(t.gridColumns) + "</a:tblGrid>" + RowsXml(t.rows) + "</a:tbl>"
  }

  /** `Table::to_xml`: the properties, one grid column per column, then the rows in order. */
  method TableToXml(t: Table) returns (xml: string)
    ensures xml == TableXml(t)
  {
    xml := TABLE_HEAD;
    var cols := t.gridColumns;
    assert cols[..0] == [];
    for i := 0 to |cols|
      invariant xml == TABLE_HEAD + GridXml(cols[..i])
    {
      GridStep(xml, TABLE_HEAD, cols, i);
      xml := xml + GridColXml(cols[i]);
    }
    assert cols[..|cols|] == cols;
    xml := xml + "</a:tblGrid>";
    var head := xml;
    var rows := t.rows;
    assert rows[..0] == [];
    for i := 0 to |rows|
      invariant xml == head + RowsXml(rows[..i])
    {
      var r := RowToXml(rows[i]);
      RowsStep(xml, head, rows, i);
      xml := xml + r;
    }
    assert rows[..|rows|] == rows;
    xml := xml + "</a:tbl>";
  }

  /** One pushed grid column extends the written grid by that column's element. */
  lemma GridStep(x: string, head: string, cols: seq<GridColumn>, i: nat)
    requires i < |cols| && x == head + GridXml(cols[..i])
    ensures x + GridColXml(cols[i]) == head + GridXml(cols[..i + 1])
  {
    assert cols[..i + 1][..i] == cols[..i];
    AppendStep(x, head, GridXml(cols[..i]), GridColXml(cols[i]), GridXml(cols[..i + 1]));
  }

  /** One pushed row extends the written rows by that row's element. */
  lemma RowsStep(x: string, head: string, rows: seq<TableRow>, i: nat)
    requires i < |rows| && x == head + RowsXml(rows[..i])
    ensures x + RowXml(rows[i]) == head + RowsXml(rows[..i + 1])
  {
    assert rows[..i + 1][..i] == rows[..i];
    AppendStep(x, head, RowsXml(rows[..i]), RowXml(rows[i]), RowsXml(rows[..i + 1]));
  }

  // ---------------------------------------------------------------------
  // Reading the grid back
  // ---------------------------------------------------------------------

  /**
   * The widths of the `a:gridCol` elements a text starts with, as `w="…"`
   * decimal values, and the text after them.
   */
  function ReadGrid(s: string): (r: (seq<nat>, string))
    decreases |s|
  {
    if !StartsWith(s, GRID_COL_OPEN) then ([], s)
    else
      var body := s[|GRID_COL_OPEN|..];
      var k := LeadingDigits(body);
      if k == 0 || !StartsWith(body[k..], GRID_COL_CLOSE) then ([], s)
      else
        var next := ReadGrid(body[k + |GRID_COL_CLOSE|..]);
        ([DigitsValue(body[..k])] + next.0, next.1)
  }

  /** The grid columns' widths, in order. */
  function Widths(cols: seq<GridColumn>): (ws: seq<nat>)
    ensures |ws| == |cols| && forall i :: 0 <= i < |cols| ==> ws[i] == cols[i].width
    decreases |cols|
  {
    if cols == [] then [] else [cols[0].width as nat] + Widths(cols[1..])
  }

  /** The grid columns' elements, read from the front: the first column's element, then the others'. */
  lemma {:induction false} GridCons(cols: seq<GridColumn>)
    requires cols != []
    ensures GridXml(cols) == GridColXml(cols[0]) + GridXml(cols[1..])
    decreases |cols|
  {
    if |cols| > 1 {
      var init := cols[..|cols| - 1];
      GridCons(init);
      assert init[0] == cols[0] && init[1..] == cols[1..][..|cols[1..]| - 1];
      var a, b, c := GridColXml(cols[0]), GridXml(init[1..]), GridColXml(cols[|cols| - 1]);
      assert GridXml(cols) == (a + b) + c;
      assert GridXml(cols[1..]) == b + c;
    }
  }

  /** The written grid columns read back as their widths in order, followed by whatever came after them. */
  lemma {:induction false} GridRoundTrip(cols: seq<GridColumn>, rest: string)
    requires !StartsWith(rest, GRID_COL_OPEN)
    ensures ReadGrid(GridXml(cols) + rest) == (Widths(cols), rest)
    decreases |cols|
  {
    if cols == [] {
      assert GridXml(cols) + rest == rest;
    } else {
      var tail := GridXml(cols[1..]) + rest;
      GridRoundTrip(cols[1..], rest);
      GridCons(cols);
      AppendStep(GridXml(cols), GridColXml(cols[0]), GridXml(cols[1..]), rest, tail);
      GridColumnRead(cols[0].width, tail);
    }
  }

  /** One written grid column, followed by `tail`: its width is read, and reading goes on at `tail`. */
  lemma GridColumnRead(w: U32, tail: string)
    ensures ReadGrid(GridColXml(GridColumn(w)) + tail) == ([w as nat] + ReadGrid(tail).0, ReadGrid(tail).1)
  {
    var d := NatToString(w);
    NatToStringValue(w);
    var after := GRID_COL_CLOSE + tail;
    var body := d + after;
    LeadingDigitsOf(d, after);
    Cut(d, after);
    Cut(GRID_COL_CLOSE, tail);
    Cut(GRID_COL_OPEN, body);
    var s := GRID_COL_OPEN + body;
    assert s == GridColXml(GridColumn(w)) + tail;
    assert body[|d|..][|GRID_COL_CLOSE|..] == tail;
    assert body[|d| + |GRID_COL_CLOSE|..] == tail;
  }

  lemma Regroup(a: string, b: string, c: string, d: string, e: string)
    ensures a + b + c + d + e == a + (b + (c + d + e))
  {
  }

  /** A text that differs from `p` at position `k` does not start with `p`. */
  lemma NotPrefixAt(s: string, p: string, k: nat)
    requires k < |s| && k < |p| && s[k] != p[k]
    ensures !StartsWith(s, p)
  {
    if |p| <= |s| {
      assert s[..|p|][k] == s[k];
    }
  }

  /** A text `p + r` starts with `p`, and `r` is what follows it. */
  lemma Cut(p: string, r: string)
    ensures StartsWith(p + r, p) && (p + r)[|p|..] == r && (p + r)[..|p|] == p
  {
  }

  /**
   * A written table is the fixed head, then one `a:gridCol` per grid column
   * whose widths read back in order, then the closing grid tag and the rows in
   * order.
   */
  lemma TableGridRead(t: Table)
    ensures StartsWith(TableXml(t), TABLE_HEAD)
    ensures ReadGrid(TableXml(t)[|TABLE_HEAD|..]) == (Widths(t.gridColumns), "</a:tblGrid>" + RowsXml(t.rows) + "</a:tbl>")
    ensures |ReadGrid(TableXml(t)[|TABLE_HEAD|..]).0| == ColCount(t)
  {
    var rest := "</a:tblGrid>" + RowsXml(t.rows) + "</a:tbl>";
    TableAfterHead(t);
    GridEndNotColumn(RowsXml(t.rows));
    GridRoundTrip(t.gridColumns, rest);
  }

  /** What follows the grid does not start with another grid column. */
  lemma GridEndNotColumn(rows: string)
    ensures !StartsWith("</a:tblGrid>" + rows + "</a:tbl>", GRID_COL_OPEN)
  {
    var rest := "</a:tblGrid>" + rows + "</a:tbl>";
    assert rest[1] == '/';
    NotPrefixAt(rest, GRID_COL_OPEN, 1);
  }

  /** After the fixed head comes the grid, then the closing grid tag, the rows and the closing table tag. */
  lemma TableAfterHead(t: Table)
    ensures StartsWith(TableXml(t), TABLE_HEAD)
    ensures TableXml(t)[|TABLE_HEAD|..] == GridXml(t.gridColumns) + ("</a:tblGrid>" + RowsXml(t.rows) + "</a:tbl>")
  {
    var rows := RowsXml(t.rows);
    var grid := GridXml(t.gridColumns);
    Regroup(TABLE_HEAD, grid, "</a:tblGrid>", rows, "</a:tbl>");
    Cut(TABLE_HEAD, grid + ("</a:tblGrid>" + rows + "</a:tbl>"));
  }
}
