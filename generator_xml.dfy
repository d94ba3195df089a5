/**
 * The package-level XML the generator writes for a presentation of `n`
 * slides: `[Content_Types].xml`, the presentation's rels part and
 * `ppt/presentation.xml`, each built by a loop that pushes one line per slide;
 * the title-only slide; and the `SlideContent` builder.
 */
module GeneratorXml {
  import opened Wrappers
  import opened Strings
  import opened XmlText
  import opened PartPaths
  import opened Relationships
  import opened RepairText
  import RepairChecks
  import RepairEdits

  // ---------------------------------------------------------------------
  // SlideContent

  /** Font sizes are in points; `None` falls back to the writer's default. */
  datatype SlideContent = SlideContent(
    title: string,
    content: seq<string>,
    titleSize: Option<nat>,
    contentSize: Option<nat>,
    titleBold: bool,
    contentBold: bool)

  const DEFAULT_TITLE_SIZE: nat := 44
  const DEFAULT_CONTENT_SIZE: nat := 28

  /** `SlideContent::new`: no bullets, 44pt bold title, 28pt regular content. */
  function NewSlideContent(title: string): (c: SlideContent)
    ensures c.title == title && c.content == []
    ensures c.titleSize == Some(DEFAULT_TITLE_SIZE) && c.contentSize == Some(DEFAULT_CONTENT_SIZE)
    ensures c.titleBold && !c.contentBold
  {
    SlideContent(title, [], Some(DEFAULT_TITLE_SIZE), Some(DEFAULT_CONTENT_SIZE), true, false)
  }

  /** `add_bullet`: exactly one bullet more, at the end; nothing else changes. */
  function AddBullet(c: SlideContent, text: string): (r: SlideContent)
    ensures |r.content| == |c.content| + 1 && r.content[|c.content|] == text
    ensures r.content[..|c.content|] == c.content
    ensures r.(content := c.content) == c
  {
    c.(content := c.content + [text])
  }

  /** `title_size`: only the title size changes. */
  function WithTitleSize(c: SlideContent, size: nat): (r: SlideContent)
    ensures r.titleSize == Some(size) && r.(titleSize := c.titleSize) == c
  {
    c.(titleSize := Some(size))
  }

  /** `content_size`: only the content size changes. */
  function WithContentSize(c: SlideContent, size: nat): (r: SlideContent)
    ensures r.contentSize == Some(size) && r.(contentSize := c.contentSize) == c
  {
    c.(contentSize := Some(size))
  }

  /** `title_bold`: only the title weight changes. */
  function WithTitleBold(c: SlideContent, bold: bool): (r: SlideContent)
    ensures r.titleBold == bold && r.(titleBold := c.titleBold) == c
  {
    c.(titleBold := bold)
  }

  /** `content_bold`: only the content weight changes. */
  function WithContentBold(c: SlideContent, bold: bool): (r: SlideContent)
    ensures r.contentBold == bold && r.(contentBold := c.contentBold) == c
  {
    c.(contentBold := bold)
  }

  /** Bullets added one after another appear in the order they were added. */
  lemma BulletsInOrder(title: string, a: string, b: string)
    ensures AddBullet(AddBullet(NewSlideContent(title), a), b).content == [a, b]
  {
  }

  // ---------------------------------------------------------------------
  // Lines pushed one per slide

  /** Line breaks distribute over concatenated line lists. */
  lemma {:induction false} BrokenLinesAppend(a: seq<string>, b: seq<string>)
    ensures BrokenLines(a + b) == BrokenLines(a) + BrokenLines(b)
    decreases |b|
  {
    if b != [] {
      var init := b[..|b| - 1];
      assert (a + b)[..|a + b| - 1] == a + init;
      BrokenLinesAppend(a, init);
    } else {
      assert a + b == a;
    }
  }

  lemma BrokenLinesSnoc(ls: seq<string>, l: string)
    ensures BrokenLines(ls + [l]) == BrokenLines(ls) + "\n" + l
  {
    assert (ls + [l])[..|ls|] == ls;
  }

  /** Pushing a line break and a line onto a text built as `head + b`. */
  lemma AppendLine(x: string, head: string, b: string, line: string)
    requires x == head + b
    ensures x + "\n" + line == head + (b + "\n" + line)
  {
  }

  /** The element at `|h| + j` of `h + m + t` is `m[j]`. */
  lemma MiddleIndex(h: seq<string>, m: seq<string>, t: seq<string>, j: nat)
    requires j < |m|
    ensures |h| + j < |h + m + t| && (h + m + t)[|h| + j] == m[j]
  {
  }

  /** Whatever a line of a document holds, the document holds too. */
  lemma DocumentHas(first: string, head: string, ls: seq<string>, last: string, k: nat, pat: string)
    requires k < |ls| && Contains(ls[k], pat)
    ensures Contains(Document(first, head, ls, last), pat)
  {
    BrokenLinesHas(ls, k, pat);
    assert Document(first, head, ls, last) == (first + "\n" + head + BrokenLines(ls)) + ("\n" + last);
    ContainsConcat(first + "\n" + head, BrokenLines(ls), pat);
    ContainsConcat(first + "\n" + head + BrokenLines(ls), "\n" + last, pat);
  }

  /** Whatever a line holds, the broken lines hold too. */
  lemma {:induction false} BrokenLinesHas(ls: seq<string>, k: nat, pat: string)
    requires k < |ls| && Contains(ls[k], pat)
    ensures Contains(BrokenLines(ls), pat)
    decreases |ls|
  {
    var init := ls[..|ls| - 1];
    if k == |ls| - 1 {
      ContainsConcat(BrokenLines(init) + "\n", ls[k], pat);
    } else {
      BrokenLinesHas(init, k, pat);
      ContainsConcat(BrokenLines(init), "\n" + ls[|ls| - 1], pat);
      assert BrokenLines(ls) == BrokenLines(init) + ("\n" + ls[|ls| - 1]);
    }
  }

  /** A number written between a fixed prefix and suffix determines the number. */
  lemma NumberBetween(pre: string, post: string, a: nat, b: nat)
    requires pre + NatToString(a) + post == pre + NatToString(b) + post
    ensures a == b
  {
    var da, db := NatToString(a), NatToString(b);
    assert |da| == |db|;
    assert da == (pre + da + post)[|pre|..|pre| + |da|];
    assert db == (pre + db + post)[|pre|..|pre| + |db|];
    NatToStringInjective(a, b);
  }

  /** The decimal text of 1 and 2. */
  lemma SmallNumbers()
    ensures NatToString(1) == "1" && NatToString(2) == "2"
  {
  }

  // ---------------------------------------------------------------------
  // create_content_types_xml

  const CT_RELS: string := "application/vnd.openxmlformats-" + "package.relationships+xml"
  const CT_CORE_PROPS: string := "application/vnd.openxmlformats-" + "package.core-properties+xml"
  const CT_EXTENDED_PROPS: string := "application/vnd.openxmlformats-" + "officedocument.extended-properties+xml"

  /** `<Default Extension="…" ContentType="…"/>` */
  function DefaultElement(ext: string, ct: string): string {
    "<Default " + RepairChecks.DefaultAttr(ext) + " ContentType=\"" + ct + "\"/>"
  }

  /** `<Override PartName="/…" ContentType="…"/>` */
  function OverrideElement(p: string, ct: string): string {
    "<Override " + RepairChecks.OverrideAttr(p) + " ContentType=\"" + ct + "\"/>"
  }

  /** The lines before the slides: two defaults and the presentation's override. */
  const CT_HEAD_LINES: seq<string> := [
    DefaultElement("rels", CT_RELS),
    DefaultElement("xml", CT_XML),
    OverrideElement(PRESENTATION_PART, CT_PRESENTATION)]

  /** The lines after the slides: layout, master, theme and the two property parts. */
  const CT_TAIL_LINES: seq<string> := [
    OverrideElement(LayoutPath(1), CT_SLIDE_LAYOUT),
    OverrideElement(MasterPath(1), CT_SLIDE_MASTER),
    OverrideElement("ppt/theme/theme1.xml", CT_THEME),
    OverrideElement("docProps/core.xml", CT_CORE_PROPS),
    OverrideElement("docProps/app.xml", CT_EXTENDED_PROPS)]

  /** The override of slide `i`. */
  function SlideOverride(i: nat): string {
    OverrideElement(SlidePath(i), CT_SLIDE)
  }

  /** One override per slide 1..n, in slide order. */
  function SlideOverrides(n: nat): (r: seq<string>)
    ensures |r| == n && forall k :: 0 <= k < n ==> r[k] == SlideOverride(k + 1)
  {
    if n == 0 then [] else SlideOverrides(n - 1) + [SlideOverride(n)]
  }

  /** The content types a presentation of `n` slides gets. */
  function ContentTypesText(n: nat): string {
    Document(XML_DECL, RepairEdits.TYPES_OPEN, CT_HEAD_LINES + SlideOverrides(n) + CT_TAIL_LINES, RepairEdits.TYPES_CLOSE)
  }

  /** `create_content_types_xml`: the fixed head, one pushed override per slide, the fixed tail. */
  method CreateContentTypesXml(slides: nat) returns (xml: string)
    ensures xml == ContentTypesText(slides)
  {
    xml := XML_DECL + "\n" + RepairEdits.TYPES_OPEN + BrokenLines(CT_HEAD_LINES);
    assert CT_HEAD_LINES + SlideOverrides(0) == CT_HEAD_LINES;
    for i := 1 to slides + 1
      invariant xml == XML_DECL + "\n" + RepairEdits.TYPES_OPEN + BrokenLines(CT_HEAD_LINES + SlideOverrides(i - 1))
    {
      var head, done := XML_DECL + "\n" + RepairEdits.TYPES_OPEN, CT_HEAD_LINES + SlideOverrides(i - 1);
      SnocAssoc(CT_HEAD_LINES, SlideOverrides(i - 1), SlideOverride(i));
      BrokenLinesSnoc(done, SlideOverride(i));
      AppendLine(xml, head, BrokenLines(done), SlideOverride(i));
      xml := xml + "\n" + SlideOverride(i);
    }
    DocumentAssembled(xml, XML_DECL, RepairEdits.TYPES_OPEN, CT_HEAD_LINES + SlideOverrides(slides), CT_TAIL_LINES, RepairEdits.TYPES_CLOSE);
    xml := xml + BrokenLines(CT_TAIL_LINES) + "\n" + RepairEdits.TYPES_CLOSE;
  }

  lemma DocumentClosed(x: string, h: string, first: string, head: string, ls: seq<string>, last: string)
    requires h == first + "\n" + head && x == h + BrokenLines(ls)
    ensures x + "\n" + last == Document(first, head, ls, last)
  {
  }

  lemma SnocAssoc(h: seq<string>, m: seq<string>, x: string)
    ensures h + (m + [x]) == (h + m) + [x]
  {
  }

  /** A document's text pushed as its head, its first lines, its other lines and its closing line. */
  lemma DocumentAssembled(x: string, first: string, head: string, hm: seq<string>, t: seq<string>, last: string)
    requires x == first + "\n" + head + BrokenLines(hm)
    ensures x + BrokenLines(t) + "\n" + last == Document(first, head, hm + t, last)
  {
    BrokenLinesAppend(hm, t);
  }

  /** Every slide 1..n has a content type, as the repair engine's check reads it. */
  lemma ContentTypesCoverSlides(n: nat, i: nat)
    requires 1 <= i <= n
    ensures RepairChecks.Covered(ContentTypesText(n), SlidePath(i))
  {
    var h, m, t := CT_HEAD_LINES, SlideOverrides(n), CT_TAIL_LINES;
    MiddleIndex(h, m, t, i - 1);
    var attr := RepairChecks.OverrideAttr(SlidePath(i));
    OverrideHasAttr(SlidePath(i), CT_SLIDE);
    DocumentHas(XML_DECL, RepairEdits.TYPES_OPEN, h + m + t, RepairEdits.TYPES_CLOSE, |h| + i - 1, attr);
  }

  lemma OverrideHasAttr(p: string, ct: string)
    ensures Contains(OverrideElement(p, ct), RepairChecks.OverrideAttr(p))
  {
    var tail := " ContentType=\"" + ct + "\"/>";
    assert OverrideElement(p, ct) == "<Override " + RepairChecks.OverrideAttr(p) + tail;
    MiddleContained("<Override ", RepairChecks.OverrideAttr(p), tail);
  }

  /** Different slides get different overrides, so each slide has exactly one. */
  lemma SlideOverridesDistinct(n: nat, j: nat, k: nat)
    requires j < k < n
    ensures SlideOverrides(n)[j] != SlideOverrides(n)[k]
  {
    if SlideOverride(j + 1) == SlideOverride(k + 1) {
      OverrideElementInjective(SlidePath(j + 1), SlidePath(k + 1), CT_SLIDE);
      SlidePathInjective(j + 1, k + 1);
    }
  }

  /** Overrides with the same content type name the same part only when they are equal. */
  lemma OverrideElementInjective(p: string, q: string, ct: string)
    requires OverrideElement(p, ct) == OverrideElement(q, ct)
    ensures p == q
  {
    var pre, post := "<Override PartName=\"/", "\" ContentType=\"" + ct + "\"/>";
    assert OverrideElement(p, ct) == pre + p + post;
    assert OverrideElement(q, ct) == pre + q + post;
    assert p == (pre + p + post)[|pre|..|pre| + |p|];
    assert q == (pre + q + post)[|pre|..|pre| + |q|];
  }

  // ---------------------------------------------------------------------
  // create_presentation_rels_xml

  const THEME_TARGET: string := "theme/theme1.xml"

  /** The presentation's relationship to its theme. */
  function ThemeRel(): Relationship {
    Relationship("rId2", Theme, THEME_TARGET)
  }

  /** The relationship of slide `i`: id rId(i+2), target slides/slide{i}.xml. */
  function SlideRel(i: nat): Relationship {
    Relationship("rId" + NatToString(i + 2), Slide, SlideTarget(i))
  }

  /** Master, theme, then slides 1..n. */
  function PresentationRelsList(n: nat): (rs: seq<Relationship>)
    ensures |rs| == n + 2 && rs[0] == RepairChecks.MasterRel() && rs[1] == ThemeRel()
    ensures forall k :: 2 <= k < n + 2 ==> rs[k] == SlideRel(k - 1)
  {
    if n == 0 then [RepairChecks.MasterRel(), ThemeRel()] else PresentationRelsList(n - 1) + [SlideRel(n)]
  }

  /** The presentation rels a presentation of `n` slides gets: `Relationships::to_xml` of that list. */
  function PresentationRelsText(n: nat): string {
    RelsXml(PresentationRelsList(n))
  }

  /** `create_presentation_rels_xml`: master and theme, then one pushed relationship per slide. */
  method CreatePresentationRelsXml(slides: nat) returns (xml: string)
    ensures xml == PresentationRelsText(slides)
  {
    var head := RelsHead();
    xml := head + BrokenLines(ElementLines(PresentationRelsList(0)));
    for i := 1 to slides + 1
      invariant xml == head + BrokenLines(ElementLines(PresentationRelsList(i - 1)))
    {
      SlideRelStep(xml, head, i);
      xml := xml + "\n" + (INDENT + RelXml(SlideRel(i)));
    }
    RelsClosed(xml, PresentationRelsList(slides));
    xml := xml + "\n" + RELS_CLOSE;
  }

  /** What a relationships document holds before its first element line. */
  function RelsHead(): string {
    XML_DECL + "\n" + RELS_OPEN
  }

  lemma RelsClosed(x: string, rs: seq<Relationship>)
    requires x == RelsHead() + BrokenLines(ElementLines(rs))
    ensures x + "\n" + RELS_CLOSE == RelsXml(rs)
  {
    DocumentClosed(x, RelsHead(), XML_DECL, RELS_OPEN, ElementLines(rs), RELS_CLOSE);
  }

  lemma SlideRelStep(xml: string, head: string, i: nat)
    requires i >= 1 && xml == head + BrokenLines(ElementLines(PresentationRelsList(i - 1)))
    ensures xml + "\n" + (INDENT + RelXml(SlideRel(i))) == head + BrokenLines(ElementLines(PresentationRelsList(i)))
  {
    var rs, r := PresentationRelsList(i - 1), SlideRel(i);
    var line := INDENT + RelXml(r);
    assert PresentationRelsList(i) == rs + [r];
    ElementLinesSnoc(rs, r);
    BrokenLinesSnoc(ElementLines(rs), line);
    AppendLine(xml, head, BrokenLines(ElementLines(rs)), line);
  }

  lemma ElementLinesSnoc(rs: seq<Relationship>, r: Relationship)
    ensures ElementLines(rs + [r]) == ElementLines(rs) + [INDENT + RelXml(r)]
  {
    assert (rs + [r])[..|rs|] == rs;
  }

  /**
   * The ids run rId1, rId2, rId3, … in list order, as successive
   * `Relationships::add` calls number them.
   */
  lemma PresentationRelIdsConsecutive(n: nat, k: nat)
    requires k < n + 2
    ensures PresentationRelsList(n)[k].id == "rId" + NatToString(k + 1)
  {
    SmallNumbers();
  }

  /** The relationship of slide i resolves, from the presentation's rels part, to slide i's part. */
  lemma SlideRelResolves(i: nat)
    ensures ResolvePath(PRESENTATION_RELS_PART, SlideRel(i).target) == SlidePath(i)
  {
    var t := SlideTarget(i);
    SplitPresentationRels(PRESENTATION_RELS_PART);
    PlainDir("ppt");
    assert t[0] == 's';
    assert !StartsWith(t, "/") && !StartsWith(t, "../");
    ResolveInDir(PRESENTATION_RELS_PART, "ppt", "presentation.xml.rels", t);
    SlideTargetJoin(i);
  }

  lemma SlideTargetJoin(i: nat)
    ensures "ppt" + "/" + SlideTarget(i) == SlidePath(i)
  {
  }

  // ---------------------------------------------------------------------
  // create_presentation_xml

  /** The text up to and including the opening of the slide id list, naming the master's relationship. */
  function PresentationHead(masterRId: string): string {
    XML_DECL + "\n" + "<p:presentation " + RepairEdits.A_NS_DECL + " " + RepairEdits.R_NS_DECL + " "
    + RepairEdits.P_NS_DECL + " saveSubsetFonts=\"1\">" + "\n<p:sldMasterIdLst>"
    + "\n<p:sldMasterId id=\"2147483648\" r:id=\"" + masterRId + "\"/>" + "\n</p:sldMasterIdLst>" + "\n<p:sldIdLst>"
  }

  /** The text from the closing of the slide id list: the slide size, and the notes size with the two swapped. */
  function PresentationTail(width: nat, height: nat): string {
    "\n</p:sldIdLst>" + "\n<p:sldSz cx=\"" + NatToString(width) + "\" cy=\"" + NatToString(height) + "\" type=\"screen4x3\"/>"
    + "\n<p:notesSz cx=\"" + NatToString(height) + "\" cy=\"" + NatToString(width) + "\"/>" + "\n</p:presentation>"
  }

  /** A 4:3 slide, 10 by 7.5 inches in EMU. */
  const SLIDE_WIDTH: nat := 9144000
  const SLIDE_HEIGHT: nat := 6858000

  const PRESENTATION_HEAD: string := PresentationHead("rId1")
  const PRESENTATION_TAIL: string := PresentationTail(SLIDE_WIDTH, SLIDE_HEIGHT)

  /** The slide id entry of slide `i`: id 256+i, r:id rId(i+2). */
  function SldIdLine(i: nat): string {
    RepairEdits.SldIdEntry(256 + i, "rId" + NatToString(i + 2))
  }

  function SldIdLines(n: nat): (r: seq<string>)
    ensures |r| == n && forall k :: 0 <= k < n ==> r[k] == SldIdLine(k + 1)
  {
    if n == 0 then [] else SldIdLines(n - 1) + [SldIdLine(n)]
  }

  function PresentationText(n: nat): string {
    PRESENTATION_HEAD + BrokenLines(SldIdLines(n)) + PRESENTATION_TAIL
  }

  /** `create_presentation_xml`: the title argument is unused. */
  method CreatePresentationXml(title: string, slides: nat) returns (xml: string)
    ensures xml == PresentationText(slides)
  {
    xml := PRESENTATION_HEAD;
    for i := 1 to slides + 1
      invariant xml == PRESENTATION_HEAD + BrokenLines(SldIdLines(i - 1))
    {
      SldIdStep(xml, PRESENTATION_HEAD, i);
      xml := xml + "\n" + SldIdLine(i);
    }
    xml := xml + PRESENTATION_TAIL;
  }

  lemma SldIdStep(xml: string, head: string, i: nat)
    requires i >= 1 && xml == head + BrokenLines(SldIdLines(i - 1))
    ensures xml + "\n" + SldIdLine(i) == head + BrokenLines(SldIdLines(i))
  {
    BrokenLinesSnoc(SldIdLines(i - 1), SldIdLine(i));
  }

  /**
   * The k-th slide id entry names, by r:id, the relationship that the rels
   * part lists for slide k+1, whose target is that slide's part.
   */
  lemma SlideNumberingAgrees(n: nat, k: nat)
    requires k < n
    ensures SldIdLines(n)[k] == RepairEdits.SldIdEntry(257 + k, PresentationRelsList(n)[k + 2].id)
    ensures PresentationRelsList(n)[k + 2].relType == Slide
    ensures ResolvePath(PRESENTATION_RELS_PART, PresentationRelsList(n)[k + 2].target) == SlidePath(k + 1)
  {
    SlideRelResolves(k + 1);
  }

  /** Different slides get different slide ids. */
  lemma SldIdLinesDistinct(n: nat, j: nat, k: nat)
    requires j < k < n
    ensures SldIdLines(n)[j] != SldIdLines(n)[k]
  {
    var pre := SLIDE_ID_PREFIX;
    var post1, post2 := "\" r:id=\"" + "rId" + NatToString(j + 3) + "\"/>", "\" r:id=\"" + "rId" + NatToString(k + 3) + "\"/>";
    if SldIdLine(j + 1) == SldIdLine(k + 1) {
      SldIdPrefixed(j + 1, pre);
      SldIdPrefixed(k + 1, pre);
      IdDigitsEqual(pre, NatToString(257 + j), NatToString(257 + k), post1, post2);
      NatToStringInjective(257 + j, 257 + k);
    }
  }

  lemma SldIdPrefixed(i: nat, pre: string)
    requires pre == SLIDE_ID_PREFIX
    ensures SldIdLine(i) == pre + NatToString(256 + i) + ("\" r:id=\"" + "rId" + NatToString(i + 2) + "\"/>")
  {
  }

  /** Two digit runs after the same prefix and before a quote are equal when the texts are. */
  lemma IdDigitsEqual(pre: string, da: string, db: string, pa: string, pb: string)
    requires AllDigits(da) && AllDigits(db) && |pa| > 0 && |pb| > 0 && pa[0] == '"' && pb[0] == '"'
    requires pre + da + pa == pre + db + pb
    ensures da == db
  {
    var s := pre + da + pa;
    if |da| == |db| {
      assert da == s[|pre|..|pre| + |da|];
      assert db == (pre + db + pb)[|pre|..|pre| + |db|];
    } else {
      var m := if |da| < |db| then |da| else |db|;
      CharAt(pre, da, pa, m);
      CharAt(pre, db, pb, m);
      assert false;
    }
  }

  lemma CharAt(pre: string, d: string, p: string, i: nat)
    ensures i < |d| + |p| ==> (pre + d + p)[|pre| + i] == (if i < |d| then d[i] else p[i - |d|])
  {
  }

  // ---------------------------------------------------------------------
  // create_slide_xml

  /** The slide text up to the title run. */
  const SLIDE_HEAD: string :=
    XML_DECL + "\n<p:sld " + RepairEdits.A_NS_DECL + " " + RepairEdits.R_NS_DECL + " " + RepairEdits.P_NS_DECL + ">"
    + "\n<p:cSld>\n<p:spTree>\n<p:nvGrpSpPr>\n<p:cNvPr id=\"1\" name=\"\"/>\n<p:cNvGrpSpPr/>\n<p:nvPr/>"
    + "\n</p:nvGrpSpPr>\n<p:grpSpPr>\n<a:xfrm>\n<a:off x=\"0\" y=\"0\"/>\n<a:ext cx=\"0\" cy=\"0\"/>"
    + "\n<a:chOff x=\"0\" y=\"0\"/>\n<a:chExt cx=\"0\" cy=\"0\"/>\n</a:xfrm>\n</p:grpSpPr>"
    + "\n<p:sp>\n<p:nvSpPr>\n<p:cNvPr id=\"2\" name=\"Title 1\"/>\n<p:cNvSpPr>\n<a:spLocks noGrp=\"1\"/>"
    + "\n</p:cNvSpPr>\n<p:nvPr>\n<p:ph type=\"ctrTitle\"/>\n</p:nvPr>\n</p:nvSpPr>\n<p:spPr/>"
    + "\n<p:txBody>\n<a:bodyPr/>\n<a:lstStyle/>\n<a:p>\n<a:r>\n<a:rPr lang=\"en-US\" smtClean=\"0\"/>\n"

  /** The slide text after the title run. */
  const SLIDE_TAIL: string :=
    "\n</a:r>\n<a:endParaRPr lang=\"en-US\"/>\n</a:p>\n</p:txBody>\n</p:sp>\n</p:spTree>"
    + "\n</p:cSld>\n<p:clrMapOvr>\n<a:masterClrMapping/>\n</p:clrMapOvr>\n</p:sld>"

  /** The title slide 1 shows is the presentation title; slide n shows "Slide n". */
  function SlideTitle(slideNum: nat, title: string): string {
    if slideNum == 1 then title else "Slide " + NatToString(slideNum)
  }

  /** `create_slide_xml` as written: the title goes into the text unescaped. */
  function SlideXml(slideNum: nat, title: string): string {
    SLIDE_HEAD + TitleRun(SlideTitle(slideNum, title)) + SLIDE_TAIL
  }

  /** The title run's text element. */
  function TitleRun(text: string): string {
    "<a:t>" + text + "</a:t>"
  }

  /** `create_slide_xml` with the title escaped, as `create_slide_xml_with_content` does. */
  function SlideXmlFixed(slideNum: nat, title: string): string {
    SLIDE_HEAD + TitleRun(EscapeXml(SlideTitle(slideNum, title))) + SLIDE_TAIL
  }

  /**
   * Only the first slide shows the given title; the others show "Slide n"
   * and ignore it.  Escaping changes nothing but a first-slide title with
   * markup characters in it.
   */
  lemma TitleOnlyOnFirstSlide(slideNum: nat, t1: string, t2: string)
    ensures slideNum == 1 ==> SlideXml(slideNum, t1) == SLIDE_HEAD + TitleRun(t1) + SLIDE_TAIL
    ensures slideNum != 1 ==> SlideXml(slideNum, t1) == SlideXml(slideNum, t2)
    ensures slideNum != 1 ==> Contains(SlideXml(slideNum, t1), "Slide " + NatToString(slideNum))
    ensures slideNum != 1 || NoSpecial(t1) ==> SlideXmlFixed(slideNum, t1) == SlideXml(slideNum, t1)
  {
    if slideNum != 1 {
      var num := "Slide " + NatToString(slideNum);
      assert NoSpecial(num) by {
        assert NoSpecial("Slide ");
        assert forall i :: 0 <= i < |NatToString(slideNum)| ==> IsDigit(NatToString(slideNum)[i]);
      }
      EscapePlain(num);
      MiddleContained("<a:t>", num, "</a:t>");
      ContainsTrans(SlideXml(slideNum, t1), TitleRun(num), num) by {
        MiddleContained(SLIDE_HEAD, TitleRun(num), SLIDE_TAIL);
      }
    } else if NoSpecial(t1) {
      EscapePlain(t1);
    }
  }

  /**
   * With the title escaped, the title run's text holds no '<' and reads back
   * as the title, whatever the title is.
   */
  lemma FixedTitleWellFormed(title: string)
    ensures SlideXmlFixed(1, title) == SLIDE_HEAD + TitleRun(EscapeXml(title)) + SLIDE_TAIL
    ensures '<' !in EscapeXml(title) && Unescape(EscapeXml(title)) == title
  {
    UnescapeEscape(title);
    NoMarkupNoLt(EscapeXml(title));
  }

  lemma NoMarkupNoLt(e: string)
    requires forall i :: 0 <= i < |e| ==> !IsMarkup(e[i])
    ensures '<' !in e
  {
  }

  /**
   * As written, a first-slide title holding '<' (say "a<b") puts that bare
   * '<' between the title run's "<a:t>" and "</a:t>".
   */
  lemma UnescapedTitleBreaksRun(title: string)
    requires '<' in title
    ensures Contains(SlideXml(1, title), "<a:t>" + title + "</a:t>")
  {
    MiddleContained(SLIDE_HEAD, TitleRun(title), SLIDE_TAIL);
  }
}
