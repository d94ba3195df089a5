/**
 * DrawingML text elements (`src/oxml/text.rs`): body, paragraph and run
 * properties, text runs, paragraphs and text bodies, how each is written as
 * XML, how the property sets are read back from an element's attributes, and
 * the plain text a paragraph and a body hold.
 *
 * Finding child elements is the XML parser's work; where a reader takes a
 * value from a child (a run's colour and font), that value is a parameter.
 */
module OxmlText {
  import opened Wrappers
  import opened Strings
  import opened XmlText
  import opened XmlAttrs

  // ---------------------------------------------------------------------
  // Body properties (a:bodyPr)
  // ---------------------------------------------------------------------

  datatype BodyProperties = BodyProperties(
    wrap: Option<string>,
    anchor: Option<string>,
    anchorCtr: bool,
    rtlCol: bool,
    leftInset: Option<U32>,
    rightInset: Option<U32>,
    topInset: Option<U32>,
    bottomInset: Option<U32>)

  /** `BodyProperties::default()`. */
  const DEFAULT_BODY_PROPERTIES := BodyProperties(None, None, false, false, None, None, None, None)

  /**
   * What `to_xml` pushes, in its order: wrap, anchor, rtlCol, then the four
   * insets.  `anchor_ctr` has no slot: it is never written.
   */
  function BodySlots(b: BodyProperties): (slots: seq<Slot>)
    ensures |slots| == 7 && DistinctNames(slots)
  {
    [("wrap", b.wrap), ("anchor", b.anchor), ("rtlCol", FlagText(b.rtlCol)),
     ("lIns", NumText(b.leftInset)), ("rIns", NumText(b.rightInset)),
     ("tIns", NumText(b.topInset)), ("bIns", NumText(b.bottomInset))]
  }

  /** `BodyProperties::to_xml`. */
  function BodyPrXml(b: BodyProperties): string {
    EmptyElement("a:bodyPr", Present(BodySlots(b)))
  }

  /** `BodyProperties::parse`, from the `a:bodyPr` element's attributes. */
  function ParseBodyProperties(attrs: AttrList): BodyProperties {
    BodyProperties(
      Lookup(attrs, "wrap"), Lookup(attrs, "anchor"),
      FlagOf(Lookup(attrs, "anchorCtr")), FlagOf(Lookup(attrs, "rtlCol")),
      NumOf(Lookup(attrs, "lIns")), NumOf(Lookup(attrs, "rIns")),
      NumOf(Lookup(attrs, "tIns")), NumOf(Lookup(attrs, "bIns")))
  }

  /**
   * Only properties with nothing set are written as the bare `<a:bodyPr/>`;
   * `anchor_ctr` does not count, since it is never written.
   */
  lemma BareBodyPr(b: BodyProperties)
    ensures BodyPrXml(b) == "<a:bodyPr/>" <==>
      b.wrap.None? && b.anchor.None? && !b.rtlCol
      && b.leftInset.None? && b.rightInset.None? && b.topInset.None? && b.bottomInset.None?
  {
    BareElement("a:bodyPr", BodySlots(b));
    BodySlotsUnset(b);
    assert "<" + "a:bodyPr" + "/>" == "<a:bodyPr/>";
  }

  /** Every slot is unset exactly when every written property is unset. */
  lemma BodySlotsUnset(b: BodyProperties)
    ensures var slots := BodySlots(b);
      (forall i :: 0 <= i < |slots| ==> slots[i].1.None?) <==>
      b.wrap.None? && b.anchor.None? && !b.rtlCol
      && b.leftInset.None? && b.rightInset.None? && b.topInset.None? && b.bottomInset.None?
  {
    var slots := BodySlots(b);
    assert (forall i :: 0 <= i < |slots| ==> slots[i].1.None?)
      <==> (slots[0].1.None? && slots[1].1.None? && slots[2].1.None? && slots[3].1.None?
            && slots[4].1.None? && slots[5].1.None? && slots[6].1.None?);
    assert slots[2].1.None? <==> !b.rtlCol;
  }

  /** Reading the written attributes back gives every property except `anchor_ctr`, which comes back off. */
  lemma BodyPropertiesRoundTrip(b: BodyProperties)
    ensures ParseBodyProperties(Present(BodySlots(b))) == b.(anchorCtr := false)
  {
    var slots := BodySlots(b);
    SlotRead(slots, 0);
    SlotRead(slots, 1);
    SlotRead(slots, 2);
    SlotRead(slots, 3);
    SlotRead(slots, 4);
    SlotRead(slots, 5);
    SlotRead(slots, 6);
    SlotAbsent(slots, "anchorCtr");
    TextsRead(b.leftInset, None, b.rtlCol);
    TextsRead(b.rightInset, None, b.rtlCol);
    TextsRead(b.topInset, None, b.rtlCol);
    TextsRead(b.bottomInset, None, b.rtlCol);
  }

  // ---------------------------------------------------------------------
  // Paragraph properties (a:pPr)
  // ---------------------------------------------------------------------

  datatype ParagraphProperties = ParagraphProperties(
    align: Option<string>,
    level: U32,
    indent: Option<I32>,
    marginLeft: Option<I32>,
    rtl: bool)

  const DEFAULT_PARAGRAPH_PROPERTIES := ParagraphProperties(None, 0, None, None, false)

  /** What `to_xml` pushes, in its order: algn, lvl (only above level 0), indent, marL, rtl. */
  function ParagraphSlots(p: ParagraphProperties): (slots: seq<Slot>)
    ensures |slots| == 5 && DistinctNames(slots)
  {
    [("algn", p.align), ("lvl", if p.level > 0 then Some(NatToString(p.level)) else None),
     ("indent", IntText(p.indent)), ("marL", IntText(p.marginLeft)), ("rtl", FlagText(p.rtl))]
  }

  /** `ParagraphProperties::to_xml`. */
  function PPrXml(p: ParagraphProperties): string {
    EmptyElement("a:pPr", Present(ParagraphSlots(p)))
  }

  /** `ParagraphProperties::parse`: a missing or unreadable `lvl` is level 0. */
  function ParseParagraphProperties(attrs: AttrList): ParagraphProperties {
    var level := NumOf(Lookup(attrs, "lvl"));
    ParagraphProperties(
      Lookup(attrs, "algn"), if level.Some? then level.value else 0,
      IntOf(Lookup(attrs, "indent")), IntOf(Lookup(attrs, "marL")), FlagOf(Lookup(attrs, "rtl")))
  }

  /** `lvl` is written, with the level in decimal, exactly when the level is above 0. */
  lemma LevelWrittenAboveZero(p: ParagraphProperties)
    ensures Lookup(Present(ParagraphSlots(p)), "lvl").Some? <==> p.level > 0
    ensures p.level > 0 ==> NumOf(Lookup(Present(ParagraphSlots(p)), "lvl")) == Some(p.level)
  {
    SlotRead(ParagraphSlots(p), 1);
    if p.level > 0 {
      ParseU32Format(p.level);
    }
  }

  /** Reading the written attributes back gives the properties unchanged. */
  lemma ParagraphPropertiesRoundTrip(p: ParagraphProperties)
    ensures ParseParagraphProperties(Present(ParagraphSlots(p))) == p
  {
    var slots := ParagraphSlots(p);
    SlotRead(slots, 0);
    LevelWrittenAboveZero(p);
    SlotRead(slots, 2);
    SlotRead(slots, 3);
    SlotRead(slots, 4);
    TextsRead(None, p.indent, p.rtl);
    TextsRead(None, p.marginLeft, p.rtl);
  }

  /** Only properties with nothing set, level 0 included, are written as the bare `<a:pPr/>`. */
  lemma BarePPr(p: ParagraphProperties)
    ensures PPrXml(p) == "<a:pPr/>" <==>
      p.align.None? && p.level == 0 && p.indent.None? && p.marginLeft.None? && !p.rtl
  {
    BareElement("a:pPr", ParagraphSlots(p));
    ParagraphSlotsUnset(p);
    assert "<" + "a:pPr" + "/>" == "<a:pPr/>";
  }

  /** Every slot is unset exactly when every written property is unset, level 0 counting as unset. */
  lemma ParagraphSlotsUnset(p: ParagraphProperties)
    ensures var slots := ParagraphSlots(p);
      (forall i :: 0 <= i < |slots| ==> slots[i].1.None?) <==>
      p.align.None? && p.level == 0 && p.indent.None? && p.marginLeft.None? && !p.rtl
  {
    var slots := ParagraphSlots(p);
    assert (forall i :: 0 <= i < |slots| ==> slots[i].1.None?)
      <==> slots[0].1.None? && slots[1].1.None? && slots[2].1.None? && slots[3].1.None? && slots[4].1.None?;
    assert slots[1].1.None? <==> p.level == 0;
    assert slots[4].1.None? <==> !p.rtl;
  }

  // ---------------------------------------------------------------------
  // Run properties (a:rPr)
  // ---------------------------------------------------------------------

  datatype RunProperties = RunProperties(
    lang: Option<string>,
    size: Option<U32>,
    bold: bool,
    italic: bool,
    underline: Option<string>,
    strike: Option<string>,
    color: Option<string>,
    fontFamily: Option<string>)

  const DEFAULT_RUN_PROPERTIES := RunProperties(None, None, false, false, None, None, None, None)

  function Bit(on: bool): string {
    if on then "1" else "0"
  }

  /**
   * What `to_xml` pushes, in its order: `lang="en-US"` whatever the language,
   * sz when set, b and i always, then u and strike when set.
   */
  function RunSlots(r: RunProperties): (slots: seq<Slot>)
    ensures |slots| == 6 && DistinctNames(slots)
  {
    [("lang", Some("en-US")), ("sz", NumText(r.size)), ("b", Some(Bit(r.bold))), ("i", Some(Bit(r.italic))),
     ("u", r.underline), ("strike", r.strike)]
  }

  /** The child elements: the colour as a solid fill, then the Latin typeface. */
  function RunChildren(r: RunProperties): string {
    (if r.color.Some? then "<a:solidFill><a:srgbClr val=\"" + r.color.value + "\"/></a:solidFill>" else "")
    + (if r.fontFamily.Some? then "<a:latin typeface=\"" + r.fontFamily.value + "\"/>" else "")
  }

  /** `RunProperties::to_xml`: self-closing without children. */
  function RPrXml(r: RunProperties): string {
    var open := "<a:rPr " + Join(Written(Present(RunSlots(r))), " ");
    if RunChildren(r) == "" then open + "/>" else open + ">" + RunChildren(r) + "</a:rPr>"
  }

  /**
   * `RunProperties::parse`: b and i are on only for "1"; `color` and `font` are
   * the `val` of the `a:srgbClr` under the element's `a:solidFill` and the
   * `typeface` of its `a:latin` child, which the XML parser finds.
   */
  function ParseRunProperties(attrs: AttrList, color: Option<string>, font: Option<string>): RunProperties {
    RunProperties(
      Lookup(attrs, "lang"), NumOf(Lookup(attrs, "sz")),
      FlagOf(Lookup(attrs, "b")), FlagOf(Lookup(attrs, "i")),
      Lookup(attrs, "u"), Lookup(attrs, "strike"), color, font)
  }

  /** lang, b and i are always written: lang as "en-US", b and i as "1" when on and "0" when off. */
  lemma RunAttrsAlwaysTagged(r: RunProperties)
    ensures Lookup(Present(RunSlots(r)), "lang") == Some("en-US")
    ensures Lookup(Present(RunSlots(r)), "b") == Some(if r.bold then "1" else "0")
    ensures Lookup(Present(RunSlots(r)), "i") == Some(if r.italic then "1" else "0")
  {
    var slots := RunSlots(r);
    SlotRead(slots, 0);
    SlotRead(slots, 2);
    SlotRead(slots, 3);
  }

  /** The element closes itself exactly when there is neither a colour nor a font. */
  lemma RPrSelfClosing(r: RunProperties)
    ensures EndsWith(RPrXml(r), "/>") <==> r.color.None? && r.fontFamily.None?
  {
    var x := RPrXml(r);
    if r.color.Some? || r.fontFamily.Some? {
      assert RunChildren(r) != "" by {
        assert RunChildren(r)[0] == '<';
      }
      assert x[|x| - 2] == 'r';
    }
  }

  /** Reading the written run properties back gives them with the language set to "en-US". */
  lemma RunPropertiesRoundTrip(r: RunProperties)
    ensures ParseRunProperties(Present(RunSlots(r)), r.color, r.fontFamily) == r.(lang := Some("en-US"))
  {
    var slots := RunSlots(r);
    RunAttrsAlwaysTagged(r);
    SlotRead(slots, 1);
    SlotRead(slots, 4);
    SlotRead(slots, 5);
    TextsRead(r.size, None, false);
  }

  // ---------------------------------------------------------------------
  // Runs, paragraphs, bodies
  // ---------------------------------------------------------------------

  datatype TextRun = TextRun(text: string, properties: RunProperties)

  /** `TextRun::new`: the text with default properties. */
  function NewRun(text: string): (run: TextRun)
    ensures run.text == text && run.properties == DEFAULT_RUN_PROPERTIES
  {
    TextRun(text, DEFAULT_RUN_PROPERTIES)
  }

  /** `TextRun::to_xml`: the properties, then the text escaped by the module's `escape_xml`. */
  function RunXml(run: TextRun): string {
    "<a:r>" + RPrXml(run.properties) + "<a:t>" + EscapeChained(run.text) + "</a:t></a:r>"
  }

  /**
   * The run's `a:t` holds its text with every special character replaced by its
   * entity: no markup character is left, and unescaping gives the text back.
   */
  lemma RunTextEscaped(run: TextRun)
    ensures RunXml(run) == "<a:r>" + RPrXml(run.properties) + "<a:t>" + EscapeXml(run.text) + "</a:t></a:r>"
    ensures Unescape(EscapeXml(run.text)) == run.text
    ensures forall i :: 0 <= i < |EscapeXml(run.text)| ==> !IsMarkup(EscapeXml(run.text)[i])
  {
    EscapeChainedIsEscapeXml(run.text);
    UnescapeEscape(run.text);
  }

  datatype TextParagraph = TextParagraph(properties: ParagraphProperties, runs: seq<TextRun>)

  /** The runs' elements, one after the other. */
  function RunsXml(runs: seq<TextRun>): string
    decreases |runs|
  {
    if runs == [] then "" else RunsXml(runs[..|runs| - 1]) + RunXml(runs[|runs| - 1])
  }

  /** `TextParagraph::to_xml`, as a function of the paragraph. */
  function ParagraphXml(p: TextParagraph): string {
    "<a:p>" + PPrXml(p.properties) + RunsXml(p.runs) + "</a:p>"
  }

  /** `TextParagraph::to_xml`: the properties, then each run pushed in turn. */
  method ParagraphToXml(p: TextParagraph) returns (xml: string)
    ensures xml == ParagraphXml(p)
  {
    var head := "<a:p>" + PPrXml(p.properties);
    xml := head;
    assert p.runs[..0] == [];
    for i := 0 to |p.runs|
      invariant xml == head + RunsXml(p.runs[..i])
    {
      RunsStep(xml, head, p.runs, i);
      xml := xml + RunXml(p.runs[i]);
    }
    assert p.runs[..|p.runs|] == p.runs;
    xml := xml + "</a:p>";
  }

  /** One pushed run extends the written runs by that run's element. */
  lemma RunsStep(x: string, head: string, runs: seq<TextRun>, i: nat)
    requires i < |runs| && x == head + RunsXml(runs[..i])
    ensures x + RunXml(runs[i]) == head + RunsXml(runs[..i + 1])
  {
    assert runs[..i + 1][..i] == runs[..i];
    AppendStep(x, head, RunsXml(runs[..i]), RunXml(runs[i]), RunsXml(runs[..i + 1]));
  }

  /** The runs' texts in order. */
  function RunTexts(runs: seq<TextRun>): (ts: seq<string>)
    ensures |ts| == |runs| && forall i :: 0 <= i < |runs| ==> ts[i] == runs[i].text
  {
    seq(|runs|, i requires 0 <= i < |runs| => runs[i].text)
  }

  /** `TextParagraph::text`: the runs' texts concatenated. */
  function ParagraphText(p: TextParagraph): string {
    Concat(RunTexts(p.runs))
  }

  /** The runs' escaped texts, as their `a:t` elements hold them. */
  function EscapedTexts(runs: seq<TextRun>): (ts: seq<string>)
    ensures |ts| == |runs| && forall i :: 0 <= i < |runs| ==> ts[i] == EscapeXml(runs[i].text)
  {
    seq(|runs|, i requires 0 <= i < |runs| => EscapeXml(runs[i].text))
  }

  /** The escaped texts, one after the other, are the escaped concatenation. */
  lemma {:induction false} EscapedTextsConcat(runs: seq<TextRun>)
    ensures Concat(EscapedTexts(runs)) == EscapeXml(Concat(RunTexts(runs)))
    decreases |runs|
  {
    if runs != [] {
      var init := runs[..|runs| - 1];
      EscapedTextsConcat(init);
      assert EscapedTexts(runs)[..|runs| - 1] == EscapedTexts(init);
      assert RunTexts(runs)[..|runs| - 1] == RunTexts(init);
      EscapeAppend(Concat(RunTexts(init)), runs[|runs| - 1].text);
    }
  }

  /** The paragraph's text is what its runs' `a:t` elements hold, unescaped and concatenated. */
  lemma ParagraphTextCarried(p: TextParagraph)
    ensures Unescape(Concat(EscapedTexts(p.runs))) == ParagraphText(p)
  {
    EscapedTextsConcat(p.runs);
    UnescapeEscape(ParagraphText(p));
  }

  datatype TextBody = TextBody(bodyProperties: BodyProperties, paragraphs: seq<TextParagraph>)

  /** The paragraphs' elements, one after the other. */
  function ParagraphsXml(ps: seq<TextParagraph>): string
    decreases |ps|
  {
    if ps == [] then "" else ParagraphsXml(ps[..|ps| - 1]) + ParagraphXml(ps[|ps| - 1])
  }

  /** `TextBody::to_xml`, as a function of the body. */
  function TextBodyXml(body: TextBody): string {
    "<p:txBody>" + BodyPrXml(body.bodyProperties) + "<a:lstStyle/>" + ParagraphsXml(body.paragraphs)
    + (if body.paragraphs == [] then "<a:p/>" else "") + "</p:txBody>"
  }

  /** `TextBody::to_xml`: properties, list style, each paragraph, and an empty paragraph when there is none. */
  method TextBodyToXml(body: TextBody) returns (xml: string)
    ensures xml == TextBodyXml(body)
  {
    var head := "<p:txBody>" + BodyPrXml(body.bodyProperties) + "<a:lstStyle/>";
    xml := head;
    var ps := body.paragraphs;
    assert ps[..0] == [];
    for i := 0 to |ps|
      invariant xml == head + ParagraphsXml(ps[..i])
    {
      var p := ParagraphToXml(ps[i]);
      ParagraphsStep(xml, head, ps, i);
      xml := xml + p;
    }
    assert ps[..|ps|] == ps;
    if |ps| == 0 {
      xml := xml + "<a:p/>";
    }
    xml := xml + "</p:txBody>";
  }

  /** One pushed paragraph extends the written paragraphs by that paragraph's element. */
  lemma ParagraphsStep(x: string, head: string, ps: seq<TextParagraph>, i: nat)
    requires i < |ps| && x == head + ParagraphsXml(ps[..i])
    ensures x + ParagraphXml(ps[i]) == head + ParagraphsXml(ps[..i + 1])
  {
    assert ps[..i + 1][..i] == ps[..i];
    AppendStep(x, head, ParagraphsXml(ps[..i]), ParagraphXml(ps[i]), ParagraphsXml(ps[..i + 1]));
  }

  /** A written text body always holds a paragraph: the paragraphs' own, or an empty `<a:p/>`. */
  lemma BodyHoldsParagraph(body: TextBody)
    ensures body.paragraphs == [] ==> Contains(TextBodyXml(body), "<a:p/>")
    ensures body.paragraphs != [] ==> Contains(TextBodyXml(body), "<a:p>")
  {
    if body.paragraphs == [] {
      EmptyBodyParagraph(body);
    } else {
      FilledBodyParagraph(body);
    }
  }

  lemma EmptyBodyParagraph(body: TextBody)
    requires body.paragraphs == []
    ensures Contains(TextBodyXml(body), "<a:p/>")
  {
    var head := "<p:txBody>" + BodyPrXml(body.bodyProperties) + "<a:lstStyle/>" + ParagraphsXml([]);
    MiddleContained(head, "<a:p/>", "");
    assert head + "<a:p/>" + "" == head + "<a:p/>";
    ContainsConcat(head + "<a:p/>", "</p:txBody>", "<a:p/>");
    assert TextBodyXml(body) == head + "<a:p/>" + "</p:txBody>";
  }

  lemma FilledBodyParagraph(body: TextBody)
    requires body.paragraphs != []
    ensures Contains(TextBodyXml(body), "<a:p>")
  {
    var head := "<p:txBody>" + BodyPrXml(body.bodyProperties) + "<a:lstStyle/>";
    var middle := ParagraphsXml(body.paragraphs);
    ParagraphsOpen(body.paragraphs);
    ContainsConcat(head, middle, "<a:p>");
    ContainsConcat(head + middle, "", "<a:p>");
    ContainsConcat(head + middle + "", "</p:txBody>", "<a:p>");
    assert TextBodyXml(body) == head + middle + "" + "</p:txBody>";
  }

  /** Written paragraphs, when there is at least one, hold an opening paragraph tag. */
  lemma ParagraphsOpen(ps: seq<TextParagraph>)
    requires ps != []
    ensures Contains(ParagraphsXml(ps), "<a:p>")
  {
    var last := ps[|ps| - 1];
    ParagraphOpen(last);
    ContainsConcat(ParagraphsXml(ps[..|ps| - 1]), ParagraphXml(last), "<a:p>");
  }

  /** A written paragraph holds its opening tag. */
  lemma ParagraphOpen(p: TextParagraph)
    ensures Contains(ParagraphXml(p), "<a:p>")
  {
    var open := "<a:p>";
    MiddleContained("", open, "");
    assert "" + open + "" == open;
    ContainsConcat(open, PPrXml(p.properties), open);
    ContainsConcat(open + PPrXml(p.properties), RunsXml(p.runs), open);
    ContainsConcat(open + PPrXml(p.properties) + RunsXml(p.runs), "</a:p>", open);
  }

  /** `TextBody::all_text`: the paragraphs' texts joined with "\n". */
  function AllText(body: TextBody): string {
    Join(ParagraphTexts(body.paragraphs), "\n")
  }

  function ParagraphTexts(ps: seq<TextParagraph>): (ts: seq<string>)
    ensures |ts| == |ps| && forall i :: 0 <= i < |ps| ==> ts[i] == ParagraphText(ps[i])
  {
    seq(|ps|, i requires 0 <= i < |ps| => ParagraphText(ps[i]))
  }

  /**
   * Splitting a body's text into lines gives back its paragraphs' texts, when
   * no paragraph text holds a line break or ends in "\r" and the last is not empty.
   */
  lemma AllTextLines(body: TextBody)
    requires body.paragraphs != [] && AllPlain(ParagraphTexts(body.paragraphs))
    requires ParagraphText(body.paragraphs[|body.paragraphs| - 1]) != []
    ensures Lines(AllText(body)) == ParagraphTexts(body.paragraphs)
  {
    LinesOfJoin(ParagraphTexts(body.paragraphs));
  }
}
