/**
 * Reading a slide's content (`src/oxml/slide.rs`): the text runs, paragraphs,
 * shapes and tables of a slide's shape tree, its title and body text, and the
 * list of all its texts.
 *
 * The XML parser's part (finding the shape tree, a shape's `cNvPr`, `nvPr/ph`,
 * `xfrm`, `prstGeom` and `txBody`, a run's `t`, `rPr` and fill colour, a
 * table's `tr` and `tc` elements) is done before this model starts: its
 * findings are the `Raw` values below.  Each child list is in document order.
 */
module OxmlSlide {
  import opened Wrappers
  import opened Strings
  import opened XmlAttrs

  // ---------------------------------------------------------------------
  // What the XML parser finds
  // ---------------------------------------------------------------------

  /** A run's `a:rPr`: its attributes, and the `val` of the `srgbClr` in its first `solidFill`, if any. */
  datatype RawRunProperties = RawRunProperties(attrs: AttrList, fillColor: Option<string>)

  /** An `a:r`: the text of its `a:t` child, if it has one, and its `a:rPr`. */
  datatype RawRun = RawRun(text: Option<string>, properties: Option<RawRunProperties>)

  /** An `a:p`: the attributes of its `a:pPr`, if it has one, and its runs. */
  datatype RawParagraph = RawParagraph(properties: Option<AttrList>, runs: seq<RawRun>)

  /** An `a:xfrm`: the attributes of its `a:off` and `a:ext` children. */
  datatype RawTransform = RawTransform(offset: Option<AttrList>, extent: Option<AttrList>)

  /**
   * A `p:sp`: the `name` of its first `cNvPr`; its placeholder (`ph` under the
   * first `nvPr`) with the placeholder's `type`; its first `xfrm`; the `prst`
   * of its first `prstGeom`; the paragraphs of its first `txBody`.
   */
  datatype RawShape = RawShape(
    name: Option<string>,
    placeholder: Option<Option<string>>,
    transform: Option<RawTransform>,
    preset: Option<string>,
    textBody: Option<seq<RawParagraph>>)

  /** An `a:tc`: the text of its first `t` descendant, and its attributes. */
  datatype RawCell = RawCell(text: Option<string>, attrs: AttrList)

  /** A `graphicFrame`: the rows of the first `a:tbl` inside it, each a list of cells, if there is a table. */
  type RawFrame = Option<seq<seq<RawCell>>>

  /** The slide's `spTree`: its shapes and its graphic frames. */
  datatype RawShapeTree = RawShapeTree(shapes: seq<RawShape>, frames: seq<RawFrame>)

  // ---------------------------------------------------------------------
  // The parsed content
  // ---------------------------------------------------------------------

  datatype TextRun = TextRun(text: string, bold: bool, italic: bool, underline: bool, fontSize: Option<U32>, color: Option<string>)

  /** `TextRun::new`: the text, with no formatting. */
  function NewRun(text: string): (r: TextRun)
    ensures r.text == text && !r.bold && !r.italic && !r.underline && r.fontSize.None? && r.color.None?
  {
    TextRun(text, false, false, false, None, None)
  }

  datatype Paragraph = Paragraph(runs: seq<TextRun>, level: U32)

  datatype ParsedShape = ParsedShape(name: string, shapeType: Option<string>, paragraphs: seq<Paragraph>, x: I64, y: I64, width: I64, height: I64)

  /** `ParsedShape::new`: the name, at the origin, with no size, type or text. */
  function NewShape(name: string): (s: ParsedShape)
    ensures s.name == name && s.shapeType.None? && s.paragraphs == [] && s.x == s.y == s.width == s.height == 0
  {
    ParsedShape(name, None, [], 0, 0, 0, 0)
  }

  datatype ParsedTableCell = ParsedTableCell(text: string, rowSpan: U32, colSpan: U32)

  datatype ParsedTable = ParsedTable(rows: seq<seq<ParsedTableCell>>)

  datatype ParsedSlide = ParsedSlide(shapes: seq<ParsedShape>, tables: seq<ParsedTable>, title: Option<string>, bodyText: seq<string>)

  /** `ParsedSlide::new`. */
  const EMPTY_SLIDE := ParsedSlide([], [], None, [])

  // ---------------------------------------------------------------------
  // Texts
  // ---------------------------------------------------------------------

  function RunTexts(runs: seq<TextRun>): (ts: seq<string>)
    ensures |ts| == |runs| && forall i :: 0 <= i < |runs| ==> ts[i] == runs[i].text
    decreases |runs|
  {
    if runs == [] then [] else RunTexts(runs[..|runs| - 1]) + [runs[|runs| - 1].text]
  }

  /** `Paragraph::text`: the runs' texts, concatenated. */
  function ParagraphText(p: Paragraph): string {
    Concat(RunTexts(p.runs))
  }

  function ParagraphTexts(ps: seq<Paragraph>): (ts: seq<string>)
    ensures |ts| == |ps| && forall i :: 0 <= i < |ps| ==> ts[i] == ParagraphText(ps[i])
    decreases |ps|
  {
    if ps == [] then [] else ParagraphTexts(ps[..|ps| - 1]) + [ParagraphText(ps[|ps| - 1])]
  }

  /** `ParsedShape::text`: the paragraphs' texts, one per line. */
  function ShapeText(s: ParsedShape): string {
    Join(ParagraphTexts(s.paragraphs), "\n")
  }

  /** The texts that are not empty, in order. */
  function NonEmpty(ts: seq<string>): seq<string>
    decreases |ts|
  {
    if ts == [] then []
    else NonEmpty(ts[..|ts| - 1]) + (if ts[|ts| - 1] != "" then [ts[|ts| - 1]] else [])
  }

  /** One more text: pushed when it is not empty. */
  lemma NonEmptyStep(texts: seq<string>, head: seq<string>, ts: seq<string>, i: nat)
    requires i < |ts| && texts == head + NonEmpty(ts[..i])
    ensures (if ts[i] != "" then texts + [ts[i]] else texts) == head + NonEmpty(ts[..i + 1])
  {
    assert ts[..i + 1][..i] == ts[..i];
    if ts[i] != "" {
      assert head + NonEmpty(ts[..i]) + [ts[i]] == head + (NonEmpty(ts[..i]) + [ts[i]]);
    } else {
      assert NonEmpty(ts[..i]) + [] == NonEmpty(ts[..i]);
    }
  }

  /** `NonEmpty` keeps exactly the non-empty texts: nothing else, none of them lost. */
  lemma {:induction false} NonEmptyKeeps(ts: seq<string>)
    ensures forall t :: t in NonEmpty(ts) <==> t in ts && t != ""
    ensures |NonEmpty(ts)| <= |ts|
    decreases |ts|
  {
    if ts != [] {
      NonEmptyKeeps(ts[..|ts| - 1]);
      assert ts == ts[..|ts| - 1] + [ts[|ts| - 1]];
    }
  }

  /** Texts none of which is empty pass through `NonEmpty` unchanged. */
  lemma {:induction false} NonEmptyAll(ts: seq<string>)
    requires forall i :: 0 <= i < |ts| ==> ts[i] != ""
    ensures NonEmpty(ts) == ts
    decreases |ts|
  {
    if ts != [] {
      NonEmptyAll(ts[..|ts| - 1]);
    }
  }

  /** Lines joined by line breaks give back the lines, when none holds a break and the last is not empty. */
  lemma ShapeTextLines(s: ParsedShape)
    requires s.paragraphs != [] && AllPlain(ParagraphTexts(s.paragraphs))
    requires ParagraphText(s.paragraphs[|s.paragraphs| - 1]) != ""
    ensures Lines(ShapeText(s)) == ParagraphTexts(s.paragraphs)
  {
    LinesOfJoin(ParagraphTexts(s.paragraphs));
  }

  /** A shape whose paragraphs all have text has text exactly when it has a paragraph. */
  lemma ShapeTextEmpty(s: ParsedShape)
    requires forall i :: 0 <= i < |s.paragraphs| ==> ParagraphText(s.paragraphs[i]) != ""
    ensures ShapeText(s) == "" <==> s.paragraphs == []
  {
    var ts := ParagraphTexts(s.paragraphs);
    if ts != [] {
      assert |ts| == 1 ==> Join(ts, "\n") == ts[0];
      assert |ts| > 1 ==> Join(ts, "\n") == ts[0] + "\n" + Join(ts[1..], "\n");
      assert |Join(ts, "\n")| >= |ts[0]| > 0;
    }
  }

  /** The concatenation of texts is empty exactly when each of them is. */
  lemma {:induction false} ConcatEmpty(ts: seq<string>)
    ensures Concat(ts) == "" <==> forall i :: 0 <= i < |ts| ==> ts[i] == ""
    decreases |ts|
  {
    if ts != [] {
      ConcatEmpty(ts[..|ts| - 1]);
    }
  }

  // ---------------------------------------------------------------------
  // Runs and paragraphs
  // ---------------------------------------------------------------------

  /** The text of an optional element, "" when it is missing. */
  function TextOr(t: Option<string>): string {
    if t.Some? then t.value else ""
  }

  /** `b` and `i` are on when their value is "1" or "true". */
  predicate FlagOn(v: Option<string>) {
    v == Some("1") || v == Some("true")
  }

  /** A run as `parse_text_body` reads it: nothing for an empty text, the formatting from `a:rPr` otherwise. */
  function ParseRun(r: RawRun): Option<TextRun> {
    var text := TextOr(r.text);
    if text == "" then None
    else if r.properties.None? then Some(NewRun(text))
    else
      var a := r.properties.value.attrs;
      Some(TextRun(text, FlagOn(Lookup(a, "b")), FlagOn(Lookup(a, "i")), Lookup(a, "u").Some?,
                   NumOf(Lookup(a, "sz")), r.properties.value.fillColor))
  }

  /** The runs `parse_text_body` keeps, in order. */
  function KeptRuns(runs: seq<RawRun>): seq<TextRun>
    decreases |runs|
  {
    if runs == [] then []
    else
      var last := ParseRun(runs[|runs| - 1]);
      KeptRuns(runs[..|runs| - 1]) + (if last.Some? then [last.value] else [])
  }

  /** A paragraph's level: `lvl` of its `a:pPr`, 0 when missing or unreadable. */
  function Level(properties: Option<AttrList>): U32 {
    if properties.None? then 0
    else
      var lvl := NumOf(Lookup(properties.value, "lvl"));
      if lvl.Some? then lvl.value else 0
  }

  function ParagraphOf(p: RawParagraph): Paragraph {
    Paragraph(KeptRuns(p.runs), Level(p.properties))
  }

  /** `parse_text_body`: each paragraph with at least one kept run, in order. */
  function TextBodyOf(ps: seq<RawParagraph>): seq<Paragraph>
    decreases |ps|
  {
    if ps == [] then []
    else
      var last := ParagraphOf(ps[|ps| - 1]);
      TextBodyOf(ps[..|ps| - 1]) + (if last.runs != [] then [last] else [])
  }

  /** One paragraph of `parse_text_body`: the level, then each run with text, in order. */
  method ParseParagraph(p: RawParagraph) returns (para: Paragraph)
    ensures para == ParagraphOf(p)
  {
    para := Paragraph([], Level(p.properties));
    for j := 0 to |p.runs|
      invariant para == Paragraph(KeptRuns(p.runs[..j]), Level(p.properties))
    {
      assert p.runs[..j + 1][..j] == p.runs[..j];
      var run := ParseRun(p.runs[j]);
      if run.Some? {
        para := para.(runs := para.runs + [run.value]);
      }
    }
    assert p.runs[..|p.runs|] == p.runs;
  }

  /** `SlideParser::parse_text_body`: the paragraphs with a run, in order. */
  method ParseTextBody(txBody: seq<RawParagraph>) returns (paragraphs: seq<Paragraph>)
    ensures paragraphs == TextBodyOf(txBody)
  {
    paragraphs := [];
    for i := 0 to |txBody|
      invariant paragraphs == TextBodyOf(txBody[..i])
    {
      assert txBody[..i + 1][..i] == txBody[..i];
      var para := ParseParagraph(txBody[i]);
      if para.runs != [] {
        paragraphs := paragraphs + [para];
      }
    }
    assert txBody[..|txBody|] == txBody;
  }

  /** The raw texts of the runs, "" for a run without `a:t`. */
  function RawRunTexts(runs: seq<RawRun>): (ts: seq<string>)
    ensures |ts| == |runs| && forall i :: 0 <= i < |runs| ==> ts[i] == TextOr(runs[i].text)
    decreases |runs|
  {
    if runs == [] then [] else RawRunTexts(runs[..|runs| - 1]) + [TextOr(runs[|runs| - 1].text)]
  }

  /** A raw paragraph's text: all its runs' texts, concatenated. */
  function RawParagraphText(p: RawParagraph): string {
    Concat(RawRunTexts(p.runs))
  }

  /** The kept runs all have text. */
  lemma {:induction false} KeptRunsNonEmpty(runs: seq<RawRun>)
    ensures forall i :: 0 <= i < |KeptRuns(runs)| ==> KeptRuns(runs)[i].text != ""
    decreases |runs|
  {
    if runs != [] {
      KeptRunsNonEmpty(runs[..|runs| - 1]);
    }
  }

  /** Together the kept runs carry the whole text of the runs: only empty texts are dropped. */
  lemma {:induction false} KeptRunsText(runs: seq<RawRun>)
    ensures Concat(RunTexts(KeptRuns(runs))) == Concat(RawRunTexts(runs))
    decreases |runs|
  {
    if runs != [] {
      var init := runs[..|runs| - 1];
      KeptRunsText(init);
      ConcatSnoc(RawRunTexts(init), TextOr(runs[|runs| - 1].text));
      KeptRunStep(runs);
    }
  }

  /** One more run adds its text to the kept runs' text, kept or not. */
  lemma KeptRunStep(runs: seq<RawRun>)
    requires runs != []
    ensures Concat(RunTexts(KeptRuns(runs))) == Concat(RunTexts(KeptRuns(runs[..|runs| - 1]))) + TextOr(runs[|runs| - 1].text)
  {
    var k := KeptRuns(runs[..|runs| - 1]);
    var last := runs[|runs| - 1];
    if ParseRun(last).Some? {
      RunKept(k, ParseRun(last).value);
    } else {
      assert KeptRuns(runs) == k;
      EmptyAppended(Concat(RunTexts(k)), TextOr(last.text));
    }
  }

  lemma RunKept(k: seq<TextRun>, r: TextRun)
    ensures Concat(RunTexts(k + [r])) == Concat(RunTexts(k)) + r.text
  {
    assert (k + [r])[..|k|] == k;
    ConcatSnoc(RunTexts(k), r.text);
  }

  lemma EmptyAppended(s: string, t: string)
    requires t == ""
    ensures s + t == s
  {
  }

  /** A paragraph is kept exactly when its runs hold some text, and then its text is all of that text. */
  lemma ParagraphKept(p: RawParagraph)
    ensures ParagraphOf(p).runs != [] <==> RawParagraphText(p) != ""
    ensures ParagraphText(ParagraphOf(p)) == RawParagraphText(p)
    ensures forall i :: 0 <= i < |ParagraphOf(p).runs| ==> ParagraphOf(p).runs[i].text != ""
  {
    KeptRunsText(p.runs);
    KeptRunsNonEmpty(p.runs);
    ConcatEmpty(RunTexts(KeptRuns(p.runs)));
  }

  function RawParagraphTexts(ps: seq<RawParagraph>): (ts: seq<string>)
    ensures |ts| == |ps| && forall i :: 0 <= i < |ps| ==> ts[i] == RawParagraphText(ps[i])
    decreases |ps|
  {
    if ps == [] then [] else RawParagraphTexts(ps[..|ps| - 1]) + [RawParagraphText(ps[|ps| - 1])]
  }

  /** The texts of the paragraphs read from a text body are its non-empty raw paragraph texts, in order. */
  lemma {:induction false} TextBodyTexts(ps: seq<RawParagraph>)
    ensures ParagraphTexts(TextBodyOf(ps)) == NonEmpty(RawParagraphTexts(ps))
    decreases |ps|
  {
    if ps != [] {
      var init := ps[..|ps| - 1];
      var last := ps[|ps| - 1];
      TextBodyTexts(init);
      ParagraphKept(last);
      assert RawParagraphTexts(ps) == RawParagraphTexts(init) + [RawParagraphText(last)];
      if ParagraphOf(last).runs != [] {
        assert TextBodyOf(ps) == TextBodyOf(init) + [ParagraphOf(last)];
        assert ParagraphTexts(TextBodyOf(ps)) == ParagraphTexts(TextBodyOf(init)) + [ParagraphText(ParagraphOf(last))];
      } else {
        assert TextBodyOf(ps) == TextBodyOf(init);
      }
    }
  }

  /** Each paragraph read from a text body has a run, and each of its runs has text, and so has it. */
  lemma {:induction false} TextBodyFilled(ps: seq<RawParagraph>)
    ensures forall i :: 0 <= i < |TextBodyOf(ps)| ==> TextBodyOf(ps)[i].runs != [] && ParagraphText(TextBodyOf(ps)[i]) != ""
    ensures forall i, j :: 0 <= i < |TextBodyOf(ps)| && 0 <= j < |TextBodyOf(ps)[i].runs| ==> TextBodyOf(ps)[i].runs[j].text != ""
    decreases |ps|
  {
    if ps != [] {
      TextBodyFilled(ps[..|ps| - 1]);
      ParagraphKept(ps[|ps| - 1]);
    }
  }

  // ---------------------------------------------------------------------
  // Shapes
  // ---------------------------------------------------------------------

  /** An `i64` attribute of an optional element, 0 when the element or the attribute is missing or unreadable. */
  function Coordinate(attrs: Option<AttrList>, name: string): I64 {
    if attrs.None? then 0
    else
      var v := Lookup(attrs.value, name);
      if v.None? then 0
      else match ParseI64(v.value)
        case Some(n) => n
        case None => 0
  }

  function OffsetOf(t: Option<RawTransform>): Option<AttrList> {
    if t.Some? then t.value.offset else None
  }

  function ExtentOf(t: Option<RawTransform>): Option<AttrList> {
    if t.Some? then t.value.extent else None
  }

  /** `parse_shape`, which never fails: the name defaults to "Shape", the position and size to 0. */
  function ShapeOf(sp: RawShape): ParsedShape {
    ParsedShape(
      if sp.name.Some? then sp.name.value else "Shape",
      sp.preset,
      if sp.textBody.Some? then TextBodyOf(sp.textBody.value) else [],
      Coordinate(OffsetOf(sp.transform), "x"), Coordinate(OffsetOf(sp.transform), "y"),
      Coordinate(ExtentOf(sp.transform), "cx"), Coordinate(ExtentOf(sp.transform), "cy"))
  }

  /** `SlideParser::parse_shape`. */
  method ParseShape(sp: RawShape) returns (shape: ParsedShape)
    ensures shape == ShapeOf(sp)
  {
    shape := NewShape(if sp.name.Some? then sp.name.value else "Shape");
    if sp.transform.Some? {
      if sp.transform.value.offset.Some? {
        shape := shape.(x := Coordinate(sp.transform.value.offset, "x"), y := Coordinate(sp.transform.value.offset, "y"));
      }
      if sp.transform.value.extent.Some? {
        shape := shape.(width := Coordinate(sp.transform.value.extent, "cx"), height := Coordinate(sp.transform.value.extent, "cy"));
      }
    }
    shape := shape.(shapeType := sp.preset);
    if sp.textBody.Some? {
      var paragraphs := ParseTextBody(sp.textBody.value);
      shape := shape.(paragraphs := paragraphs);
    }
  }

  /** A written offset and size read back as themselves. */
  lemma CoordinateRead(x: I64, name: string)
    ensures Coordinate(Some([(name, IntToString(x))]), name) == x
    ensures Coordinate(None, name) == 0
  {
    ParseI64Format(x);
  }

  /** A parsed shape's text lists its non-empty raw paragraph texts, one per line, and is empty exactly when there are none. */
  lemma ShapeTextOf(sp: RawShape)
    requires sp.textBody.Some?
    ensures ParagraphTexts(ShapeOf(sp).paragraphs) == NonEmpty(RawParagraphTexts(sp.textBody.value))
    ensures ShapeText(ShapeOf(sp)) == Join(NonEmpty(RawParagraphTexts(sp.textBody.value)), "\n")
    ensures ShapeText(ShapeOf(sp)) == "" <==> forall i :: 0 <= i < |sp.textBody.value| ==> RawParagraphText(sp.textBody.value[i]) == ""
  {
    var ps := sp.textBody.value;
    TextBodyTexts(ps);
    TextBodyFilled(ps);
    ShapeTextEmpty(ShapeOf(sp));
    NonEmptyKeeps(RawParagraphTexts(ps));
    if ShapeOf(sp).paragraphs != [] {
      assert ParagraphTexts(ShapeOf(sp).paragraphs)[0] in NonEmpty(RawParagraphTexts(ps));
    } else {
      forall i | 0 <= i < |ps|
        ensures RawParagraphText(ps[i]) == ""
      {
        assert RawParagraphTexts(ps)[i] in RawParagraphTexts(ps);
      }
    }
  }

  /** The placeholder's type, `default` when the placeholder has none; nothing when the shape is not a placeholder. */
  function PlaceholderType(sp: RawShape, default: string): Option<string> {
    if sp.placeholder.None? then None
    else if sp.placeholder.value.Some? then sp.placeholder.value
    else Some(default)
  }

  /** The shape's lower-cased name is the word or holds it. */
  predicate NameMentions(sp: RawShape, word: string) {
    sp.name.Some? && (ToLower(sp.name.value) == word || Contains(ToLower(sp.name.value), word))
  }

  /** `is_title_shape`: a title or centred-title placeholder, or a name mentioning "title". */
  predicate IsTitleShape(sp: RawShape) {
    var t := PlaceholderType(sp, "");
    t == Some("title") || t == Some("ctrTitle") || NameMentions(sp, "title")
  }

  /** `is_body_shape`: a body placeholder (the type defaults to "body"; an empty one counts), or a name mentioning "content". */
  predicate IsBodyShape(sp: RawShape) {
    var t := PlaceholderType(sp, "body");
    t == Some("body") || t == Some("") || NameMentions(sp, "content")
  }

  /**
   * A placeholder decides by its type: a title type makes a title shape, and a
   * placeholder with no type, or type "body" or "", is a body shape.  Whatever
   * the placeholder, a name holding the word decides too, in any letter case.
   */
  lemma ShapeRoles(sp: RawShape)
    ensures sp.placeholder == Some(Some("title")) || sp.placeholder == Some(Some("ctrTitle")) ==> IsTitleShape(sp)
    ensures sp.placeholder == Some(None) || sp.placeholder == Some(Some("body")) || sp.placeholder == Some(Some("")) ==> IsBodyShape(sp)
    ensures sp.placeholder == Some(None) && sp.name.None? ==> !IsTitleShape(sp)
    ensures sp.name.Some? ==> (NameMentions(sp, "title") <==> Contains(ToLower(sp.name.value), "title"))
  {
    if sp.name.Some? {
      var n := ToLower(sp.name.value);
      if n == "title" {
        assert OccursAt(n, "title", 0);
        OccursContains(n, "title", 0);
      }
    }
  }

  // ---------------------------------------------------------------------
  // Tables
  // ---------------------------------------------------------------------

  /** A span attribute, 1 when missing or unreadable. */
  function SpanOf(attrs: AttrList, name: string): U32 {
    var v := NumOf(Lookup(attrs, name));
    if v.Some? then v.value else 1
  }

  function CellOf(c: RawCell): ParsedTableCell {
    ParsedTableCell(TextOr(c.text), SpanOf(c.attrs, "rowSpan"), SpanOf(c.attrs, "gridSpan"))
  }

  function RowOf(cells: seq<RawCell>): (row: seq<ParsedTableCell>)
    ensures |row| == |cells| && forall i :: 0 <= i < |cells| ==> row[i] == CellOf(cells[i])
  {
    seq(|cells|, i requires 0 <= i < |cells| => CellOf(cells[i]))
  }

  /** The rows `parse_table_from_graphic_frame` keeps: each row with a cell, in order. */
  function TableRowsOf(rows: seq<seq<RawCell>>): seq<seq<ParsedTableCell>>
    decreases |rows|
  {
    if rows == [] then []
    else TableRowsOf(rows[..|rows| - 1]) + (if rows[|rows| - 1] != [] then [RowOf(rows[|rows| - 1])] else [])
  }

  /** `parse_table_from_graphic_frame`: nothing without a table or when no row has a cell. */
  function TableOf(frame: RawFrame): Option<ParsedTable> {
    if frame.None? then None
    else
      var rows := TableRowsOf(frame.value);
      if rows == [] then None else Some(ParsedTable(rows))
  }

  /** `SlideParser::parse_table_from_graphic_frame`. */
  method ParseTableFromFrame(frame: RawFrame) returns (table: Option<ParsedTable>)
    ensures table == TableOf(frame)
  {
    if frame.None? {
      return None;
    }
    var trs := frame.value;
    var rows: seq<seq<ParsedTableCell>> := [];
    for i := 0 to |trs|
      invariant rows == TableRowsOf(trs[..i])
    {
      var tcs := trs[i];
      var row: seq<ParsedTableCell> := [];
      for j := 0 to |tcs|
        invariant row == RowOf(tcs[..j])
      {
        row := row + [CellOf(tcs[j])];
      }
      assert tcs[..|tcs|] == tcs;
      assert trs[..i + 1][..i] == trs[..i];
      if row != [] {
        rows := rows + [row];
      }
    }
    assert trs[..|trs|] == trs;
    if rows == [] {
      table := None;
    } else {
      table := Some(ParsedTable(rows));
    }
  }

  /** `ParsedTable::row_count`. */
  function RowCount(t: ParsedTable): nat {
    |t.rows|
  }

  /** `ParsedTable::col_count`: the length of the first row, 0 without rows. */
  function ColCount(t: ParsedTable): nat {
    if t.rows == [] then 0 else |t.rows[0]|
  }

  /** The number of rows with at least one cell. */
  function FilledRows(rows: seq<seq<RawCell>>): nat
    decreases |rows|
  {
    if rows == [] then 0 else FilledRows(rows[..|rows| - 1]) + (if rows[|rows| - 1] != [] then 1 else 0)
  }

  /** The kept rows: one per row with a cell, the first of them read from the first such row. */
  lemma {:induction false} TableRowsKept(rows: seq<seq<RawCell>>)
    ensures |TableRowsOf(rows)| == FilledRows(rows)
    ensures TableRowsOf(rows) == [] <==> forall i :: 0 <= i < |rows| ==> rows[i] == []
    ensures forall k :: 0 <= k < |rows| && rows[k] != [] && (forall i :: 0 <= i < k ==> rows[i] == []) ==> TableRowsOf(rows)[0] == RowOf(rows[k])
    ensures forall i :: 0 <= i < |TableRowsOf(rows)| ==> TableRowsOf(rows)[i] != []
    decreases |rows|
  {
    if rows != [] {
      var init := rows[..|rows| - 1];
      TableRowsKept(init);
      assert forall i :: 0 <= i < |init| ==> init[i] == rows[i];
      if rows[|rows| - 1] == [] {
        assert TableRowsOf(rows) == TableRowsOf(init);
      } else {
        assert TableRowsOf(rows) == TableRowsOf(init) + [RowOf(rows[|rows| - 1])];
        assert TableRowsOf(rows) != [] && rows[|rows| - 1] != [];
      }
    }
  }

  /**
   * A frame yields a table exactly when it has a table with a row holding a
   * cell; the table then has one row per such row, and as many columns as the
   * first of them has cells, which is at least one.
   */
  lemma TableCounts(frame: RawFrame)
    ensures TableOf(frame).Some? <==> frame.Some? && exists i :: 0 <= i < |frame.value| && frame.value[i] != []
    ensures TableOf(frame).Some? ==> RowCount(TableOf(frame).value) == FilledRows(frame.value) > 0
    ensures TableOf(frame).Some? ==> ColCount(TableOf(frame).value) > 0
    ensures forall k :: (frame.Some? && 0 <= k < |frame.value| && frame.value[k] != [] && (forall i :: 0 <= i < k ==> frame.value[i] == [])
      ==> ColCount(TableOf(frame).value) == |frame.value[k]|)
  {
    if frame.Some? {
      TableRowsKept(frame.value);
    }
  }

  /** `ParsedTable::new` has no rows and so no columns. */
  lemma EmptyTableCounts()
    ensures RowCount(ParsedTable([])) == 0 && ColCount(ParsedTable([])) == 0
  {
  }

  // ---------------------------------------------------------------------
  // Slides
  // ---------------------------------------------------------------------

  /**
   * One shape of the tree: a title shape sets the title to its text; another
   * shape that is a body shape adds its non-empty paragraph texts to the body
   * text; every shape is listed.
   */
  function SlideStep(slide: ParsedSlide, sp: RawShape): ParsedSlide {
    var shape := ShapeOf(sp);
    var s := if IsTitleShape(sp) then slide.(title := Some(ShapeText(shape)))
             else if IsBodyShape(sp) then slide.(bodyText := slide.bodyText + NonEmpty(ParagraphTexts(shape.paragraphs)))
             else slide;
    s.(shapes := s.shapes + [shape])
  }

  /** The slide after the shapes of the tree, in order. */
  function ShapesRead(sps: seq<RawShape>): ParsedSlide
    decreases |sps|
  {
    if sps == [] then EMPTY_SLIDE else SlideStep(ShapesRead(sps[..|sps| - 1]), sps[|sps| - 1])
  }

  /** What one step does to each part of the slide. */
  lemma StepParts(slide: ParsedSlide, sp: RawShape)
    ensures SlideStep(slide, sp).shapes == slide.shapes + [ShapeOf(sp)]
    ensures SlideStep(slide, sp).title == if IsTitleShape(sp) then Some(ShapeText(ShapeOf(sp))) else slide.title
    ensures SlideStep(slide, sp).bodyText
      == if !IsTitleShape(sp) && IsBodyShape(sp) then slide.bodyText + NonEmpty(ParagraphTexts(ShapeOf(sp).paragraphs)) else slide.bodyText
    ensures SlideStep(slide, sp).tables == slide.tables
  {
  }

  /** The tables of the graphic frames that hold one, in order. */
  function TablesRead(frames: seq<RawFrame>): seq<ParsedTable>
    decreases |frames|
  {
    if frames == [] then []
    else
      var t := TableOf(frames[|frames| - 1]);
      TablesRead(frames[..|frames| - 1]) + (if t.Some? then [t.value] else [])
  }

  /** `SlideParser::parse`, after the XML parser: an empty slide when there is no shape tree. */
  function SlideOf(tree: Option<RawShapeTree>): ParsedSlide {
    if tree.None? then EMPTY_SLIDE
    else ShapesRead(tree.value.shapes).(tables := TablesRead(tree.value.frames))
  }

  /** `SlideParser::parse`: the shapes, then the graphic frames. */
  method ParseSlide(tree: Option<RawShapeTree>) returns (slide: ParsedSlide)
    ensures slide == SlideOf(tree)
  {
    slide := EMPTY_SLIDE;
    if tree.None? {
      return;
    }
    var sps := tree.value.shapes;
    for i := 0 to |sps|
      invariant slide == ShapesRead(sps[..i])
    {
      assert sps[..i + 1][..i] == sps[..i];
      var sp := sps[i];
      StepParts(slide, sp);
      var shape := ParseShape(sp);
      if IsTitleShape(sp) {
        slide := slide.(title := Some(ShapeText(shape)));
      } else if IsBodyShape(sp) {
        var bodyText := PushParagraphTexts(slide.bodyText, shape.paragraphs);
        slide := slide.(bodyText := bodyText);
      }
      slide := slide.(shapes := slide.shapes + [shape]);
    }
    assert sps[..|sps|] == sps;
    var tables := ParseFrames(tree.value.frames);
    slide := slide.(tables := tables);
  }

  /** The body-shape loop of `SlideParser::parse`: each paragraph text that is not empty is pushed. */
  method PushParagraphTexts(bodyText: seq<string>, paragraphs: seq<Paragraph>) returns (pushed: seq<string>)
    ensures pushed == bodyText + NonEmpty(ParagraphTexts(paragraphs))
  {
    pushed := bodyText;
    var ts := ParagraphTexts(paragraphs);
    for j := 0 to |paragraphs|
      invariant pushed == bodyText + NonEmpty(ts[..j])
    {
      NonEmptyStep(pushed, bodyText, ts, j);
      var text := ParagraphText(paragraphs[j]);
      if text != "" {
        pushed := pushed + [text];
      }
    }
    assert ts[..|paragraphs|] == ts;
  }

  /** The graphic-frame loop of `SlideParser::parse`: each table found is pushed. */
  method ParseFrames(frames: seq<RawFrame>) returns (tables: seq<ParsedTable>)
    ensures tables == TablesRead(frames)
  {
    tables := [];
    for i := 0 to |frames|
      invariant tables == TablesRead(frames[..i])
    {
      assert frames[..i + 1][..i] == frames[..i];
      var table := ParseTableFromFrame(frames[i]);
      if table.Some? {
        tables := tables + [table.value];
      }
    }
    assert frames[..|frames|] == frames;
  }

  /** Every shape of the tree is listed, in order, whatever its role. */
  lemma {:induction false} ShapesListed(sps: seq<RawShape>)
    ensures |ShapesRead(sps).shapes| == |sps|
    ensures forall i :: 0 <= i < |sps| ==> ShapesRead(sps).shapes[i] == ShapeOf(sps[i])
    decreases |sps|
  {
    if sps != [] {
      var init := sps[..|sps| - 1];
      ShapesListed(init);
      StepParts(ShapesRead(init), sps[|sps| - 1]);
      forall i | 0 <= i < |sps|
        ensures ShapesRead(sps).shapes[i] == ShapeOf(sps[i])
      {
        SnocAt(ShapesRead(init).shapes, ShapeOf(sps[|sps| - 1]), i);
        if i < |init| {
          assert init[i] == sps[i];
        }
      }
    }
  }

  /** The last title shape gives the title; without a title shape there is none. */
  lemma TitleLastWins(sps: seq<RawShape>)
    ensures ShapesRead(sps).title.None? <==> forall i :: 0 <= i < |sps| ==> !IsTitleShape(sps[i])
    ensures forall k :: (0 <= k < |sps| && IsTitleShape(sps[k]) && (forall j :: k < j < |sps| ==> !IsTitleShape(sps[j]))
      ==> ShapesRead(sps).title == Some(ShapeText(ShapeOf(sps[k]))))
  {
    TitleAbsent(sps);
    forall k | 0 <= k < |sps| && IsTitleShape(sps[k]) && (forall j :: k < j < |sps| ==> !IsTitleShape(sps[j]))
      ensures ShapesRead(sps).title == Some(ShapeText(ShapeOf(sps[k])))
    {
      TitleFromLast(sps, k);
    }
  }

  lemma {:induction false} TitleAbsent(sps: seq<RawShape>)
    ensures ShapesRead(sps).title.None? <==> forall i :: 0 <= i < |sps| ==> !IsTitleShape(sps[i])
    decreases |sps|
  {
    if sps != [] {
      var init := sps[..|sps| - 1];
      TitleAbsent(init);
      StepParts(ShapesRead(init), sps[|sps| - 1]);
      NoTitleSnoc(sps, init);
    }
  }

  /** No title shape among the shapes: none among all but the last, and the last is none. */
  lemma NoTitleSnoc(sps: seq<RawShape>, init: seq<RawShape>)
    requires sps != [] && init == sps[..|sps| - 1]
    ensures (forall i :: 0 <= i < |sps| ==> !IsTitleShape(sps[i]))
      <==> (forall i :: 0 <= i < |init| ==> !IsTitleShape(init[i])) && !IsTitleShape(sps[|sps| - 1])
  {
    assert forall i :: 0 <= i < |init| ==> init[i] == sps[i];
  }

  lemma {:induction false} TitleFromLast(sps: seq<RawShape>, k: nat)
    requires k < |sps| && IsTitleShape(sps[k]) && forall j :: k < j < |sps| ==> !IsTitleShape(sps[j])
    ensures ShapesRead(sps).title == Some(ShapeText(ShapeOf(sps[k])))
    decreases |sps|
  {
    var init := sps[..|sps| - 1];
    StepParts(ShapesRead(init), sps[|sps| - 1]);
    if k < |sps| - 1 {
      assert init[k] == sps[k];
      assert forall j :: k < j < |init| ==> init[j] == sps[j];
      TitleFromLast(init, k);
    }
  }

  /** The paragraph texts of the body shapes that are not title shapes, in order. */
  function BodyParagraphTexts(sps: seq<RawShape>): seq<string>
    decreases |sps|
  {
    if sps == [] then []
    else
      var sp := sps[|sps| - 1];
      BodyParagraphTexts(sps[..|sps| - 1])
        + (if !IsTitleShape(sp) && IsBodyShape(sp) then ParagraphTexts(ShapeOf(sp).paragraphs) else [])
  }

  /**
   * The body text is every paragraph text of the body shapes that are not
   * title shapes: the parser's check for an empty paragraph text never drops
   * one, since a paragraph is kept only with a run whose text is not empty.
   */
  lemma {:induction false} BodyTextComplete(sps: seq<RawShape>)
    ensures ShapesRead(sps).bodyText == BodyParagraphTexts(sps)
    ensures forall i :: 0 <= i < |ShapesRead(sps).bodyText| ==> ShapesRead(sps).bodyText[i] != ""
    decreases |sps|
  {
    if sps != [] {
      var sp := sps[|sps| - 1];
      BodyTextComplete(sps[..|sps| - 1]);
      StepParts(ShapesRead(sps[..|sps| - 1]), sp);
      if !IsTitleShape(sp) && IsBodyShape(sp) {
        var ts := ParagraphTexts(ShapeOf(sp).paragraphs);
        if sp.textBody.Some? {
          TextBodyFilled(sp.textBody.value);
        }
        NonEmptyAll(ts);
      }
    }
  }

  /** Each table comes from a frame, in order, and has a row with a cell. */
  lemma {:induction false} TablesHaveRows(frames: seq<RawFrame>)
    ensures |TablesRead(frames)| <= |frames|
    ensures forall i :: 0 <= i < |TablesRead(frames)| ==> RowCount(TablesRead(frames)[i]) > 0 && ColCount(TablesRead(frames)[i]) > 0
    decreases |frames|
  {
    if frames != [] {
      TablesHaveRows(frames[..|frames| - 1]);
      TableCounts(frames[|frames| - 1]);
    }
  }

  // ---------------------------------------------------------------------
  // All the text of a slide
  // ---------------------------------------------------------------------

  function ShapeTexts(shapes: seq<ParsedShape>): (ts: seq<string>)
    ensures |ts| == |shapes| && forall i :: 0 <= i < |shapes| ==> ts[i] == ShapeText(shapes[i])
    decreases |shapes|
  {
    if shapes == [] then [] else ShapeTexts(shapes[..|shapes| - 1]) + [ShapeText(shapes[|shapes| - 1])]
  }

  /** `ParsedSlide::all_text`, as a function of the slide. */
  function AllTextOf(slide: ParsedSlide): seq<string> {
    (if slide.title.Some? then [slide.title.value] else []) + slide.bodyText + NonEmpty(ShapeTexts(slide.shapes))
  }

  /** `ParsedSlide::all_text`: the title, the body text, then each shape's text that is not empty. */
  method AllText(slide: ParsedSlide) returns (texts: seq<string>)
    ensures texts == AllTextOf(slide)
  {
    texts := [];
    if slide.title.Some? {
      texts := texts + [slide.title.value];
    }
    texts := texts + slide.bodyText;
    var head := texts;
    var ts := ShapeTexts(slide.shapes);
    for i := 0 to |slide.shapes|
      invariant texts == head + NonEmpty(ts[..i])
    {
      NonEmptyStep(texts, head, ts, i);
      var text := ShapeText(slide.shapes[i]);
      if text != "" {
        texts := texts + [text];
      }
    }
    assert ts[..|slide.shapes|] == ts;
  }

  /**
   * The order of `all_text`: the title first when there is one, then the body
   * text unchanged, then texts that are each a non-empty shape text, with
   * every non-empty shape text among them.
   */
  lemma AllTextOrder(slide: ParsedSlide)
    ensures var n := if slide.title.Some? then 1 else 0;
      |AllTextOf(slide)| >= n + |slide.bodyText|
      && (slide.title.Some? ==> AllTextOf(slide)[0] == slide.title.value)
      && AllTextOf(slide)[n..n + |slide.bodyText|] == slide.bodyText
      && (forall t :: t in AllTextOf(slide)[n + |slide.bodyText|..] <==> t in ShapeTexts(slide.shapes) && t != "")
  {
    var n := if slide.title.Some? then 1 else 0;
    var pre := (if slide.title.Some? then [slide.title.value] else []) + slide.bodyText;
    NonEmptyKeeps(ShapeTexts(slide.shapes));
    assert AllTextOf(slide) == pre + NonEmpty(ShapeTexts(slide.shapes));
    assert AllTextOf(slide)[n + |slide.bodyText|..] == NonEmpty(ShapeTexts(slide.shapes));
  }
}
