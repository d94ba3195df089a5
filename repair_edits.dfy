/**
 * The repairs of `PptxRepair` (src/oxml/repair.rs): one function per issue
 * kind, each a text edit of one or two parts, and the boilerplate parts
 * `repair_missing_part` generates.  Each repair comes with the lemma that it
 * removes what the matching check reported.
 */
module RepairEdits {
  import opened Wrappers
  import opened Strings
  import opened XmlText
  import opened RepairText
  import opened Packages
  import opened RepairIssues
  import opened Relationships
  import opened RepairChecks
  import opened PartPaths

  // ---------------------------------------------------------------------
  // Generated parts

  const TYPES_OPEN: string := "<Types xmlns=\"" + SCHEMAS + "/package/2006/content-types\">"
  const TYPES_CLOSE: string := "</Types>"
  const CT_RELS: string := "application/vnd.openxmlformats-" + "package.relationships+xml"

  function DefaultLine(ext: string, ct: string): string {
    "  <Default " + DefaultAttr(ext) + " ContentType=\"" + ct + "\"/>\n"
  }

  /** An `<Override>` entry and its line break, as both content-type writers emit it. */
  function OverrideLine(p: string, ct: string): string {
    "  <Override " + OverrideAttr(p) + " ContentType=\"" + ct + "\"/>\n"
  }

  /** The fixed head of the generated content types: the declaration, the root and four defaults. */
  const CONTENT_TYPES_HEAD: string :=
    XML_DECL + "\n" + TYPES_OPEN + "\n" + DefaultLine("rels", CT_RELS) + DefaultLine("xml", CT_XML)
    + DefaultLine("jpeg", "image/jpeg") + DefaultLine("png", "image/png")

  /** The parts `generate_content_types` writes an Override for. */
  predicate NeedsOverride(p: string) {
    EndsWith(p, ".xml") && p != CONTENT_TYPES_PART
  }

  function OverrideFor(p: string): string {
    if NeedsOverride(p) then OverrideLine(p, InferContentType(p)) else ""
  }

  /** The Override lines for the listed parts, in list order. */
  function Overrides(paths: seq<string>): string {
    if paths == [] then "" else Overrides(paths[..|paths| - 1]) + OverrideFor(paths[|paths| - 1])
  }

  /** `generate_content_types` for a package whose parts are `paths`. */
  function ContentTypesXml(paths: seq<string>): string {
    CONTENT_TYPES_HEAD + Overrides(paths) + TYPES_CLOSE
  }

  /** The relationship lines of a generated rels part, indented by two spaces. */
  function TemplateLines(rs: seq<Relationship>): (ls: seq<string>)
    ensures |ls| == |rs|
  {
    if rs == [] then [] else TemplateLines(rs[..|rs| - 1]) + ["  " + RelXml(rs[|rs| - 1])]
  }

  /** `generate_package_rels`: the main document, core and extended properties. */
  const PACKAGE_RELS_LINES: seq<string> := TemplateLines([
    Relationship("rId1", OfficeDocument, "ppt/presentation.xml"),
    Relationship("rId2", CoreProperties, "docProps/core.xml"),
    Relationship("rId3", ExtendedProperties, "docProps/app.xml")])
  const PACKAGE_RELS_XML: string := Document(XML_DECL, RELS_OPEN, PACKAGE_RELS_LINES, RELS_CLOSE)

  /** `generate_presentation_rels`: master, theme and the three property parts. */
  const PRESENTATION_RELS_LINES: seq<string> := TemplateLines([
    Relationship("rId1", SlideMaster, "slideMasters/slideMaster1.xml"),
    Relationship("rId2", Theme, "theme/theme1.xml"),
    Relationship("rId3", Custom(OFFICE_RELS + "presProps"), "presProps.xml"),
    Relationship("rId4", Custom(OFFICE_RELS + "viewProps"), "viewProps.xml"),
    Relationship("rId5", Custom(OFFICE_RELS + "tableStyles"), "tableStyles.xml")])
  const PRESENTATION_RELS_XML: string := Document(XML_DECL, RELS_OPEN, PRESENTATION_RELS_LINES, RELS_CLOSE)

  /** The three namespace declarations the repairs know. */
  const P_NS_DECL: string := "xmlns:p=\"" + SCHEMAS + "/presentationml/2006/main\""
  const A_NS_DECL: string := "xmlns:a=\"" + SCHEMAS + "/drawingml/2006/main\""
  const R_NS_DECL: string := "xmlns:r=\"" + SCHEMAS + "/officeDocument/2006/relationships\""

  /** `generate_presentation_xml`: one master, an empty slide list, a 4:3 slide size. */
  const PRESENTATION_XML: string :=
    XML_DECL + "\n" + "<p:presentation " + A_NS_DECL + " " + R_NS_DECL + " " + P_NS_DECL + ">\n"
    + "  <p:sldMasterIdLst>\n"
    + "    <p:sldMasterId id=\"2147483648\" r:id=\"rId1\"/>\n"
    + "  </p:sldMasterIdLst>\n"
    + "  <p:sldIdLst/>\n"
    + "  <p:sldSz cx=\"9144000\" cy=\"6858000\"/>\n"
    + "  <p:notesSz cx=\"6858000\" cy=\"9144000\"/>\n"
    + "</p:presentation>"

  /** Text that opens with a '<' is not blank. */
  lemma AngleNotBlank(s: string)
    requires |s| > 0 && s[0] == '<'
    ensures !Blank(s)
  {
  }

  lemma DeclFirst()
    ensures |XML_DECL| > 0 && XML_DECL[0] == '<'
  {
  }

  /** A rels part built on the declaration is not blank. */
  lemma RelsTemplateNotBlank(ls: seq<string>)
    ensures !Blank(Document(XML_DECL, RELS_OPEN, ls, RELS_CLOSE))
  {
    DeclFirst();
    AngleNotBlank(Document(XML_DECL, RELS_OPEN, ls, RELS_CLOSE));
  }

  lemma ContentTypesNotBlank(paths: seq<string>)
    ensures !Blank(ContentTypesXml(paths))
  {
    DeclFirst();
    AngleNotBlank(ContentTypesXml(paths));
  }

  lemma PresentationNotBlank()
    ensures !Blank(PRESENTATION_XML)
  {
    DeclFirst();
    AngleNotBlank(PRESENTATION_XML);
  }

  /** The content a missing part is generated with, for the four parts there is a template for. */
  function GeneratedPart(pkg: Package, path: string): (r: Option<string>)
    ensures r.Some? <==> IsRequiredPath(path)
    ensures r.Some? ==> !Blank(r.value)
  {
    if path == CONTENT_TYPES_PART then
      ContentTypesNotBlank(pkg.order);
      Some(ContentTypesXml(pkg.order))
    else if path == PACKAGE_RELS_PART then
      RelsTemplateNotBlank(PACKAGE_RELS_LINES);
      Some(PACKAGE_RELS_XML)
    else if path == PRESENTATION_PART then
      PresentationNotBlank();
      Some(PRESENTATION_XML)
    else if path == PRESENTATION_RELS_PART then
      RelsTemplateNotBlank(PRESENTATION_RELS_LINES);
      Some(PRESENTATION_RELS_XML)
    else None
  }

  /** Every part that needs one has its Override among the generated lines. */
  lemma {:induction false} OverridesHas(paths: seq<string>, p: string)
    requires p in paths && NeedsOverride(p)
    ensures Contains(Overrides(paths), OverrideAttr(p))
  {
    var init, last := paths[..|paths| - 1], paths[|paths| - 1];
    assert paths == init + [last];
    if p == last {
      OverrideLineHas(p, InferContentType(p));
    } else {
      OverridesHas(init, p);
    }
    ContainsConcat(Overrides(init), OverrideFor(last), OverrideAttr(p));
  }

  lemma OverrideLineHas(p: string, ct: string)
    ensures Contains(OverrideLine(p, ct), OverrideAttr(p))
  {
    var a, c := "  <Override ", " ContentType=\"" + ct + "\"/>\n";
    assert OverrideLine(p, ct) == a + OverrideAttr(p) + c;
    OccursContains(OverrideLine(p, ct), OverrideAttr(p), |a|);
  }

  /**
   * The generated content types cover every XML part of the package it was
   * generated for by an Override naming it.
   */
  lemma GeneratedContentTypesCover(paths: seq<string>, p: string)
    requires p in paths && NeedsOverride(p)
    ensures Contains(ContentTypesXml(paths), OverrideAttr(p)) && Covered(ContentTypesXml(paths), p)
  {
    OverridesHas(paths, p);
    ContainsConcat(CONTENT_TYPES_HEAD, Overrides(paths), OverrideAttr(p));
    ContainsConcat(CONTENT_TYPES_HEAD + Overrides(paths), TYPES_CLOSE, OverrideAttr(p));
  }

  // ---------------------------------------------------------------------
  // repair_missing_part

  /** `repair_missing_part`: generate the part, or fail for a part there is no template for. */
  function RepairMissingPart(pkg: Package, path: string): (r: Result<Package>)
    ensures r.Ok? <==> IsRequiredPath(path)
    ensures r.Ok? ==> r.value.Has(path) && !Blank(r.value.parts[path])
    ensures r.Ok? ==> forall q :: q != path ==> r.value.Get(q) == pkg.Get(q)
    ensures r.Err? ==> r.error == Generic("Cannot generate part: " + path)
    ensures r.Ok? && pkg.Valid() ==> r.value.Valid()
  {
    match GeneratedPart(pkg, path)
    case None => Err(Generic("Cannot generate part: " + path))
    case Some(content) =>
      var q := pkg.Add(path, content);
      assert q.Get(path) == Some(content);
      Ok(q)
  }

  /** After the repair the required part is neither missing nor blank. */
  lemma MissingPartRepaired(pkg: Package, path: string, description: string, q: Package)
    requires RepairMissingPart(pkg, path) == Ok(q)
    ensures MissingPart(path, description) !in MissingParts(q, REQUIRED_PARTS)
    ensures XmlIssue(q, path) == []
  {
    MissingPartsIff(q, REQUIRED_PARTS, MissingPart(path, description));
  }

  /** A regenerated content types part leaves no XML part uncovered. */
  lemma ContentTypesRepaired(pkg: Package, path: string, q: Package, issue: RepairIssue)
    requires path == CONTENT_TYPES_PART && RepairMissingPart(pkg, path) == Ok(q)
    requires issue in ContentTypeIssues(q)
    ensures !EndsWith(issue.path, ".xml")
  {
    var ct := ContentTypesXml(pkg.order);
    assert q == pkg.Add(path, ct);
    if EndsWith(issue.path, ".xml") {
      assert issue.path in pkg.order;
      GeneratedContentTypesCover(pkg.order, issue.path);
    }
  }

  // ---------------------------------------------------------------------
  // repair_invalid_xml, attempt_xml_repair

  /** The text with an XML declaration in front, unless its trimmed form already starts with one. */
  function WithDeclaration(xml: string): string {
    if StartsWith(Trim(xml), "<?xml") then xml else XML_DECL + "\n" + xml
  }

  /**
   * `attempt_xml_repair`: the declaration is ensured and every '&' that does
   * not open a known entity becomes "&amp;".  The result is never blank, and
   * it is the intended insertion whenever no unknown name is closed by ';'
   * (such a ';' is dropped, see `UnknownEntityLosesSemicolon`).
   */
  function XmlRepaired(xml: string): (r: string)
    ensures !StartsWith(Trim(xml), "<?xml") ==> StartsWith(r, XML_DECL)
    ensures !Blank(r)
    ensures NoUnknownEntity(WithDeclaration(xml)) ==> r == InsertAmp(WithDeclaration(xml))
  {
    DeclaredText(xml);
    EscapeAmps(WithDeclaration(xml))
  }

  lemma DeclaredText(xml: string)
    ensures !StartsWith(Trim(xml), "<?xml") ==> StartsWith(EscapeAmps(WithDeclaration(xml)), XML_DECL)
    ensures !Blank(EscapeAmps(WithDeclaration(xml)))
    ensures NoUnknownEntity(WithDeclaration(xml)) ==> EscapeAmps(WithDeclaration(xml)) == InsertAmp(WithDeclaration(xml))
  {
    var s := WithDeclaration(xml);
    if NoUnknownEntity(s) {
      EscapeAmpsAgrees(s);
    }
    if StartsWith(Trim(xml), "<?xml") {
      TrimEmptyIffBlank(xml);
      EscapeAmpsNotBlank(xml);
    } else {
      DeclAmpFree();
      EscapeAmpsNoAmpPrefix(XML_DECL, "\n" + xml);
      assert s == XML_DECL + ("\n" + xml);
      DeclFirst();
      AngleNotBlank(EscapeAmps(s));
    }
  }

  lemma DeclAmpFree()
    ensures '&' !in XML_DECL
  {
  }

  /** The scan keeps every character but a consumed ';', so text that was not blank stays so. */
  lemma {:induction false} EscapeAmpsNotBlank(s: string)
    requires !Blank(s)
    ensures !Blank(EscapeAmps(s))
    decreases |s|
  {
    if IsWhitespace(s[0]) {
      assert s[0] != '&';
      var i :| 0 <= i < |s| && !IsWhitespace(s[i]);
      assert !IsWhitespace(s[1..][i - 1]);
      EscapeAmpsNotBlank(s[1..]);
      var j :| 0 <= j < |EscapeAmps(s[1..])| && !IsWhitespace(EscapeAmps(s[1..])[j]);
      assert EscapeAmps(s)[j + 1] == EscapeAmps(s[1..])[j];
    } else if s[0] == '&' {
      assert AmpStep(s[1..]).0[0] == '&';
      assert EscapeAmps(s)[0] == '&';
    } else {
      assert EscapeAmps(s)[0] == s[0];
    }
  }

  /** `repair_invalid_xml`: rewrite the part with the repaired text; an absent part is left alone. */
  function RepairInvalidXml(pkg: Package, path: string): (r: Package)
    ensures (r.Has(path) <==> pkg.Has(path)) && (pkg.Valid() ==> r.Valid() && r.order == pkg.order)
    ensures path in r.parts ==> r.parts[path] == XmlRepaired(pkg.parts[path]) && !Blank(r.parts[path])
    ensures forall q :: q != path ==> r.Get(q) == pkg.Get(q)
  {
    match pkg.Get(path)
    case None => pkg
    case Some(content) =>
      assert pkg.Valid() ==> path in pkg.order;
      var q := pkg.Add(path, XmlRepaired(content));
      assert q.Get(path) == Some(XmlRepaired(content));
      q
  }

  /** After the repair the part passes `validate_xml`. */
  lemma InvalidXmlRepaired(pkg: Package, path: string)
    ensures XmlIssue(RepairInvalidXml(pkg, path), path) == []
  {
  }

  // ---------------------------------------------------------------------
  // repair_broken_relationship, repair_orphan_slide: dropping lines

  /** The lines that do not contain `pat`, in order (`filter(|line| !line.contains(pat))`). */
  function LinesWithout(ls: seq<string>, pat: string): (r: seq<string>)
    ensures forall i :: 0 <= i < |r| ==> !Contains(r[i], pat)
    ensures forall l :: l in r <==> l in ls && !Contains(l, pat)
  {
    if ls == [] then []
    else
      var last := ls[|ls| - 1];
      LinesWithout(ls[..|ls| - 1], pat) + (if Contains(last, pat) then [] else [last])
  }

  /** The text with every line holding `pat` removed, the rest joined with line breaks. */
  function DropLines(content: string, pat: string): (r: string)
    ensures |pat| > 0 && '\n' !in pat ==> !Contains(r, pat)
  {
    KeptLinesLack(content, pat);
    Join(LinesWithout(Lines(content), pat), "\n")
  }

  lemma KeptLinesLack(content: string, pat: string)
    ensures |pat| > 0 && '\n' !in pat ==> !Contains(Join(LinesWithout(Lines(content), pat), "\n"), pat)
  {
    if |pat| > 0 && '\n' !in pat {
      JoinLacks(LinesWithout(Lines(content), pat), pat);
    }
  }

  /** Rewrites the part at `path` with `DropLines`; an absent part is left alone. */
  function DropLinesIn(pkg: Package, path: string, pat: string): (r: Package)
    ensures (r.Has(path) <==> pkg.Has(path)) && (pkg.Valid() ==> r.Valid() && r.order == pkg.order)
    ensures forall q :: q != path ==> r.Get(q) == pkg.Get(q)
    ensures pkg.Get(path).Some? ==> r.Get(path) == Some(DropLines(pkg.Get(path).value, pat))
  {
    match pkg.Get(path)
    case None => pkg
    case Some(content) =>
      assert pkg.Valid() ==> path in pkg.order;
      pkg.Add(path, DropLines(content, pat))
  }

  /** `format!("Id=\"{}\"", rel_id)`, written as `ExtractAttribute` states its match. */
  function IdPattern(relId: string): string {
    "Id" + "=\"" + relId + "\""
  }

  /** `repair_broken_relationship`: drop the lines of the rels part that carry the id. */
  function RepairBrokenRelationship(pkg: Package, source: string, relId: string): (r: Package)
    ensures (r.Has(source) <==> pkg.Has(source)) && (pkg.Valid() ==> r.Valid() && r.order == pkg.order)
    ensures forall q :: q != source ==> r.Get(q) == pkg.Get(q)
    ensures pkg.Get(source).Some? ==> r.Get(source) == Some(DropLines(pkg.Get(source).value, IdPattern(relId)))
  {
    DropLinesIn(pkg, source, IdPattern(relId))
  }

  /** A text without the id's pattern reports no broken relationship with that id. */
  lemma DroppedIdUnreported(pkg: Package, source: string, text: string, target: string, relId: string)
    requires relId != "" && !Contains(text, IdPattern(relId))
    ensures BrokenRelationship(source, target, relId) !in RelsLinesIssues(pkg, source, Lines(text))
  {
    var issue := BrokenRelationship(source, target, relId);
    if issue in RelsLinesIssues(pkg, source, Lines(text)) {
      var k := IssueLineHasId(pkg, source, Lines(text), issue);
      LineContained(text, k, IdPattern(relId));
    }
  }

  lemma IdPatternShape(relId: string)
    ensures '\n' !in relId ==> '\n' !in IdPattern(relId)
    ensures |IdPattern(relId)| > 0
  {
  }

  /** A reported relationship with a non-empty id comes from a line carrying that id. */
  lemma IssueLineHasId(pkg: Package, source: string, lines: seq<string>, issue: RepairIssue) returns (k: nat)
    requires issue in RelsLinesIssues(pkg, source, lines) && issue.BrokenRelationship? && issue.relId != ""
    ensures k < |lines| && Contains(lines[k], IdPattern(issue.relId))
  {
    var t;
    k, t := RelsLinesIssuesFrom(pkg, source, lines, issue);
    IdLineHasPattern(lines[k], issue.relId);
  }

  lemma IdLineHasPattern(line: string, relId: string)
    requires relId != "" && IdOrEmpty(line) == relId
    ensures Contains(line, IdPattern(relId))
  {
    assert ExtractAttribute(line, "Id") == Some(relId);
  }

  /**
   * After the repair the rels part reports no broken relationship with that
   * (non-empty) id: every line that carried it is gone.
   */
  lemma BrokenRelationshipRepaired(pkg: Package, source: string, target: string, relId: string)
    requires relId != "" && '\n' !in relId
    ensures BrokenRelationship(source, target, relId) !in RelsFileIssues(RepairBrokenRelationship(pkg, source, relId), source)
  {
    var q := RepairBrokenRelationship(pkg, source, relId);
    match pkg.Get(source)
    case None =>
    case Some(content) =>
      IdPatternShape(relId);
      DroppedIdUnreported(q, source, DropLines(content, IdPattern(relId)), target, relId);
  }

  /** The target a slide path is written as in the presentation rels: "ppt/" removed. */
  function SlideTarget(slidePath: string): string {
    Replace(slidePath, "ppt/", "")
  }

  /** `format!("Target=\"{}\"", slide_target)`, written as `ExtractAttribute` states its match. */
  function TargetPattern(target: string): string {
    "Target" + "=\"" + target + "\""
  }

  /** `repair_orphan_slide`: drop the presentation rels lines that target the slide. */
  function RepairOrphanSlide(pkg: Package, slidePath: string): (r: Package)
    ensures (r.Has(PRESENTATION_RELS_PART) <==> pkg.Has(PRESENTATION_RELS_PART)) && (pkg.Valid() ==> r.Valid() && r.order == pkg.order)
    ensures forall q :: q != PRESENTATION_RELS_PART ==> r.Get(q) == pkg.Get(q)
    ensures pkg.Get(PRESENTATION_RELS_PART).Some? && '\n' !in slidePath ==>
      r.Get(PRESENTATION_RELS_PART).Some? && !Contains(r.Get(PRESENTATION_RELS_PART).value, TargetPattern(SlideTarget(slidePath)))
  {
    ReplaceKeepsNewlineFree(slidePath);
    DropLinesIn(pkg, PRESENTATION_RELS_PART, TargetPattern(SlideTarget(slidePath)))
  }

  lemma ReplaceKeepsNewlineFree(slidePath: string)
    ensures '\n' !in slidePath ==> '\n' !in TargetPattern(SlideTarget(slidePath))
  {
    ReplaceSubset(slidePath, "ppt/", "");
  }

  /** Replacing with an empty string only removes characters. */
  lemma {:induction false} ReplaceSubset(s: string, pat: string, rep: string)
    requires |pat| > 0
    ensures forall c :: c in Replace(s, pat, rep) ==> c in s || c in rep
    decreases |s|
  {
    if |s| >= |pat| {
      if s[..|pat|] == pat {
        ReplaceSubset(s[|pat|..], pat, rep);
      } else {
        ReplaceSubset(s[1..], pat, rep);
      }
    }
  }

  /** A slide path under "ppt/" is written relative to "ppt/": the prefix goes. */
  lemma SlideTargetOf(rest: string)
    requires !Contains(rest, "ppt/")
    ensures SlideTarget("ppt/" + rest) == rest
  {
    var s := "ppt/" + rest;
    assert s[..4] == "ppt/" && s[4..] == rest;
    ReplaceAbsent(rest, "ppt/", "");
  }

  /** A text without the target's pattern has no line whose Target reads back as it. */
  lemma TargetUnread(text: string, target: string)
    requires !Contains(text, TargetPattern(target))
    ensures forall i :: 0 <= i < |Lines(text)| ==> ExtractAttribute(Lines(text)[i], "Target") != Some(target)
  {
    forall i | 0 <= i < |Lines(text)| && ExtractAttribute(Lines(text)[i], "Target") == Some(target)
      ensures false
    {
      LineContained(text, i, TargetPattern(target));
    }
  }

  /**
   * After the repair no line of the presentation rels has the slide's target,
   * written relative to "ppt/", as its Target.
   */
  lemma OrphanSlideRepaired(pkg: Package, rest: string)
    requires pkg.Has(PRESENTATION_RELS_PART) && !Contains(rest, "ppt/") && '\n' !in rest
    ensures var r := RepairOrphanSlide(pkg, "ppt/" + rest);
      r.Has(PRESENTATION_RELS_PART) && var lines := Lines(r.parts[PRESENTATION_RELS_PART]);
      forall i :: 0 <= i < |lines| ==> ExtractAttribute(lines[i], "Target") != Some(rest)
  {
    SlideTargetOf(rest);
    var r := RepairOrphanSlide(pkg, "ppt/" + rest);
    assert r.Get(PRESENTATION_RELS_PART).Some?;
    TargetUnread(r.parts[PRESENTATION_RELS_PART], rest);
  }

  /**
   * The slide-master relationship is taken for a slide: validation reports
   * its target as an orphan slide, and repairing that issue removes the
   * master's relationship line from the presentation rels.
   */
  lemma MasterRelationshipDropped(pkg: Package)
    requires pkg.Get(PRESENTATION_RELS_PART) == Some(RelsXml([MasterRel()]))
    ensures OrphanSlide("ppt/" + MASTER_TARGET) in ValidationIssues(pkg)
    ensures var r := RepairOrphanSlide(pkg, "ppt/" + MASTER_TARGET);
      r.Has(PRESENTATION_RELS_PART) && var lines := Lines(r.parts[PRESENTATION_RELS_PART]);
      forall i :: 0 <= i < |lines| ==> ExtractAttribute(lines[i], "Target") != Some(MASTER_TARGET)
  {
    MasterReportedAsOrphan(pkg);
    ReferenceIssueValidated(pkg, OrphanSlide("ppt/" + MASTER_TARGET));
    MasterTargetPlain(MASTER_TARGET);
    OrphanSlideRepaired(pkg, MASTER_TARGET);
  }

  lemma ReferenceIssueValidated(pkg: Package, issue: RepairIssue)
    requires issue in SlideReferenceIssues(pkg, true)
    ensures issue in ValidationIssues(pkg)
  {
  }

  lemma MasterTargetPlain(t: string)
    requires t == MASTER_TARGET
    ensures !Contains(t, "ppt/") && '\n' !in t
  {
    MissingCharNotContained(t, "ppt/", 0);
  }

  // ---------------------------------------------------------------------
  // repair_missing_slide_reference, add_slide_to_presentation

  /** The id the repair gives the new relationship: one past the largest "rId<n>". */
  function NextRelId(xml: string): string {
    "rId" + NatToString(FindMaxRelId(xml) + 1)
  }

  /** The relationship line the repair adds for a slide. */
  function SlideRelLine(relId: string, target: string): string {
    "  " + RelXml(Relationship(relId, Slide, target))
  }

  /** The presentation rels with the slide's relationship added before its closing tag. */
  function AddedSlideRel(xml: string, slidePath: string): string {
    Replace(xml, RELS_CLOSE, SlideRelLine(NextRelId(xml), SlideTarget(slidePath)) + "\n" + RELS_CLOSE)
  }

  const SLD_ID_LST_CLOSE: string := "</p:sldIdLst>"
  const SLD_ID_LST_EMPTY: string := "<p:sldIdLst/>"
  const SLD_MASTER_ID_LST_CLOSE: string := "</p:sldMasterIdLst>"

  /** The entry `add_slide_to_presentation` writes into the slide id list. */
  function SldIdEntry(id: nat, relId: string): string {
    SLIDE_ID_PREFIX + NatToString(id) + "\" r:id=\"" + relId + "\"/>"
  }

  /**
   * The entry goes before the list's closing tag, into an empty list, or in a
   * new list after the master id list, whichever the text offers first.
   */
  function InsertSldId(xml: string, entry: string): string {
    if Contains(xml, SLD_ID_LST_CLOSE) then
      Replace(xml, SLD_ID_LST_CLOSE, entry + "\n" + SLD_ID_LST_CLOSE)
    else if Contains(xml, SLD_ID_LST_EMPTY) then
      Replace(xml, SLD_ID_LST_EMPTY, "<p:sldIdLst>" + entry + SLD_ID_LST_CLOSE)
    else
      Replace(xml, SLD_MASTER_ID_LST_CLOSE, SLD_MASTER_ID_LST_CLOSE + "\n<p:sldIdLst>" + entry + SLD_ID_LST_CLOSE)
  }

  /** The presentation with an entry for `relId` under the next free slide id. */
  function AddedSldId(xml: string, relId: string): string {
    InsertSldId(xml, SldIdEntry(FindMaxSlideId(xml) + 1, relId))
  }

  /** `add_slide_to_presentation`: an absent presentation part is left alone. */
  function AddSlideToPresentation(pkg: Package, relId: string): (r: Package)
    ensures (r.Has(PRESENTATION_PART) <==> pkg.Has(PRESENTATION_PART)) && (pkg.Valid() ==> r.Valid() && r.order == pkg.order)
    ensures forall q :: q != PRESENTATION_PART ==> r.Get(q) == pkg.Get(q)
    ensures pkg.Get(PRESENTATION_PART).Some? ==> r.Get(PRESENTATION_PART) == Some(AddedSldId(pkg.Get(PRESENTATION_PART).value, relId))
  {
    match pkg.Get(PRESENTATION_PART)
    case None => pkg
    case Some(xml) =>
      assert pkg.Valid() ==> PRESENTATION_PART in pkg.order;
      pkg.Add(PRESENTATION_PART, AddedSldId(xml, relId))
  }

  /**
   * `repair_missing_slide_reference`: add a slide relationship under the next
   * free id, then list that id in the presentation; nothing happens without
   * a presentation rels part.
   */
  function RepairMissingSlideReference(pkg: Package, slidePath: string): (r: Package)
    ensures (r.Has(PRESENTATION_RELS_PART) <==> pkg.Has(PRESENTATION_RELS_PART)) && (pkg.Valid() ==> r.Valid() && r.order == pkg.order)
    ensures (r.Has(PRESENTATION_PART) <==> pkg.Has(PRESENTATION_PART))
    ensures forall q :: q != PRESENTATION_RELS_PART && q != PRESENTATION_PART ==> r.Get(q) == pkg.Get(q)
    ensures pkg.Get(PRESENTATION_RELS_PART).None? ==> r == pkg
    ensures pkg.Get(PRESENTATION_RELS_PART).Some? ==>
      var xml := pkg.Get(PRESENTATION_RELS_PART).value;
      r.Get(PRESENTATION_RELS_PART) == Some(AddedSlideRel(xml, slidePath))
      && (pkg.Get(PRESENTATION_PART).Some? ==>
        r.Get(PRESENTATION_PART) == Some(AddedSldId(pkg.Get(PRESENTATION_PART).value, NextRelId(xml))))
  {
    match pkg.Get(PRESENTATION_RELS_PART)
    case None => pkg
    case Some(xml) =>
      assert pkg.Valid() ==> PRESENTATION_RELS_PART in pkg.order;
      var q := pkg.Add(PRESENTATION_RELS_PART, AddedSlideRel(xml, slidePath));
      AddSlideToPresentation(q, NextRelId(xml))
  }

  /** The new id is made of "rId" and digits, so it holds no quote and no 'T'. */
  lemma NextRelIdPlain(xml: string)
    ensures '"' !in NextRelId(xml) && 'T' !in NextRelId(xml)
  {
    var digits := NatToString(FindMaxRelId(xml) + 1);
    forall c | c in digits ensures IsDigit(c) {
      var i :| 0 <= i < |digits| && digits[i] == c;
    }
  }

  /**
   * The added line, read either by the reference check as written or by the
   * slide-type test, references `"ppt/" + target` and carries the new id.
   */
  lemma SlideRelLineRef(relId: string, target: string)
    requires '"' !in relId && 'T' !in relId && '"' !in target
    requires !StartsWith(target, "/")
    ensures ExtractAttribute(SlideRelLine(relId, target), "Id") == Some(relId)
    ensures LineRef(SlideRelLine(relId, target), true) == Some("ppt/" + target)
    ensures LineRef(SlideRelLine(relId, target), false) == Some("ppt/" + target)
  {
    var line := SlideRelLine(relId, target);
    PredefinedUriChars(Slide);
    RelXmlReadBack(line, "  ", Relationship(relId, Slide, target));
    SlideTypedLineRef(line, target);
    TypedLineSelected(line);
  }

  /** A line typed as a slide relationship references its target. */
  lemma SlideTypedLineRef(line: string, target: string)
    requires ExtractAttribute(line, "Type") == Some(Uri(Slide)) && ExtractAttribute(line, "Target") == Some(target)
    requires !StartsWith(target, "/")
    ensures LineRef(line, false) == Some("ppt/" + target)
  {
    assert "Target" + "=\"" + target + "\"" == "Target=" + ("\"" + target + "\"");
    PrefixContained(line, "Target=", "\"" + target + "\"");
  }

  /** Replacing an anchor `tag` by `add + tag` puts `add` into the text. */
  lemma InsertedBefore(xml: string, tag: string, add: string)
    requires |tag| > 0 && Contains(xml, tag)
    ensures Contains(Replace(xml, tag, add + tag), add)
  {
    ReplacePlacesRep(xml, tag, add + tag);
    PrefixContained(Replace(xml, tag, add + tag), add, tag);
  }

  /**
   * With a closing tag to anchor it, the presentation rels gains the slide's
   * line, which the reference check reads back as the slide, under an id
   * no existing "rId<n>" uses.
   */
  lemma MissingSlideReferenceRepaired(xml: string, rest: string, i: nat)
    requires Contains(xml, RELS_CLOSE)
    requires !Contains(rest, "ppt/") && '"' !in rest && !StartsWith(rest, "/")
    ensures Contains(AddedSlideRel(xml, "ppt/" + rest), SlideRelLine(NextRelId(xml), rest))
    ensures LineRef(SlideRelLine(NextRelId(xml), rest), true) == Some("ppt/" + rest)
    ensures i < |xml| ==> MatchAt(xml, REL_ID_PREFIX, i) != Some(FindMaxRelId(xml) + 1)
  {
    SlideTargetOf(rest);
    var line := SlideRelLine(NextRelId(xml), rest);
    assert line + "\n" + RELS_CLOSE == (line + "\n") + RELS_CLOSE;
    InsertedBefore(xml, RELS_CLOSE, line + "\n");
    PrefixContained(AddedSlideRel(xml, "ppt/" + rest), line, "\n");
    NextRelIdPlain(xml);
    SlideRelLineRef(NextRelId(xml), rest);
    if i < |xml| {
      NextRelIdIsFresh(xml, i);
    }
  }

  /**
   * The entry lands in the presentation exactly when one of the three anchors
   * is there; without any the text is unchanged.
   */
  lemma SldIdInserted(xml: string, entry: string)
    ensures Contains(xml, SLD_ID_LST_CLOSE) || Contains(xml, SLD_ID_LST_EMPTY) || Contains(xml, SLD_MASTER_ID_LST_CLOSE)
      ==> Contains(InsertSldId(xml, entry), entry)
    ensures !Contains(xml, SLD_ID_LST_CLOSE) && !Contains(xml, SLD_ID_LST_EMPTY) && !Contains(xml, SLD_MASTER_ID_LST_CLOSE)
      ==> InsertSldId(xml, entry) == xml
  {
    var r := InsertSldId(xml, entry);
    if Contains(xml, SLD_ID_LST_CLOSE) {
      assert entry + "\n" + SLD_ID_LST_CLOSE == (entry + "\n") + SLD_ID_LST_CLOSE;
      InsertedBefore(xml, SLD_ID_LST_CLOSE, entry + "\n");
      PrefixContained(r, entry, "\n");
    } else if Contains(xml, SLD_ID_LST_EMPTY) {
      ReplacePlacesRep(xml, SLD_ID_LST_EMPTY, "<p:sldIdLst>" + entry + SLD_ID_LST_CLOSE);
      InfixContained(r, "<p:sldIdLst>", entry, SLD_ID_LST_CLOSE);
    } else if Contains(xml, SLD_MASTER_ID_LST_CLOSE) {
      var a := SLD_MASTER_ID_LST_CLOSE + "\n<p:sldIdLst>";
      assert SLD_MASTER_ID_LST_CLOSE + "\n<p:sldIdLst>" + entry + SLD_ID_LST_CLOSE == a + entry + SLD_ID_LST_CLOSE;
      ReplacePlacesRep(xml, SLD_MASTER_ID_LST_CLOSE, a + entry + SLD_ID_LST_CLOSE);
      InfixContained(r, a, entry, SLD_ID_LST_CLOSE);
    } else {
      ReplaceAbsent(xml, SLD_MASTER_ID_LST_CLOSE, SLD_MASTER_ID_LST_CLOSE + "\n<p:sldIdLst>" + entry + SLD_ID_LST_CLOSE);
    }
  }

  /** The entry names the next slide id, which no existing `<p:sldId id="<n>"` uses, and reads back as it. */
  lemma SldIdEntryFresh(xml: string, relId: string, i: nat)
    requires FindMaxSlideId(xml) + 1 < U32_LIMIT
    ensures var entry := SldIdEntry(FindMaxSlideId(xml) + 1, relId);
      MatchAt(entry, SLIDE_ID_PREFIX, 0) == Some(FindMaxSlideId(xml) + 1)
    ensures i < |xml| ==> MatchAt(xml, SLIDE_ID_PREFIX, i) != Some(FindMaxSlideId(xml) + 1)
    ensures i < |xml| && MatchAt(xml, SLIDE_ID_PREFIX, i).Some? ==>
      MatchAt(xml, SLIDE_ID_PREFIX, i).value < FindMaxSlideId(xml) + 1
  {
    var n := FindMaxSlideId(xml) + 1;
    var entry := SldIdEntry(n, relId);
    var digits := NatToString(n);
    assert entry[..|SLIDE_ID_PREFIX|] == SLIDE_ID_PREFIX;
    assert entry[|SLIDE_ID_PREFIX|..|SLIDE_ID_PREFIX| + |digits|] == digits;
    assert entry[|SLIDE_ID_PREFIX| + |digits|] == '"';
    WrittenMatch(entry, SLIDE_ID_PREFIX, 0, n);
    if i < |xml| {
      NextSlideIdIsFresh(xml, i);
    }
  }

  // ---------------------------------------------------------------------
  // repair_invalid_content_type

  /** The content types with an Override for `path` added before the closing tag. */
  function AddedOverride(ct: string, path: string): string {
    Replace(ct, TYPES_CLOSE, OverrideLine(path, InferContentType(path)) + TYPES_CLOSE)
  }

  /**
   * As written, both content-type repairs give a slide layout the slide
   * content type: the Override the regenerated part lists for it and the one
   * `repair_invalid_content_type` adds.
   */
  lemma LayoutOverrideAsWritten(n: nat, ct: string)
    ensures OverrideFor(LayoutPath(n)) == OverrideLine(LayoutPath(n), CT_SLIDE)
    ensures AddedOverride(ct, LayoutPath(n)) == Replace(ct, TYPES_CLOSE, OverrideLine(LayoutPath(n), CT_SLIDE) + TYPES_CLOSE)
  {
    LayoutContentType(n);
    LayoutPathParts(n);
    assert LayoutPath(n)[0] != CONTENT_TYPES_PART[0];
  }

  /** `repair_invalid_content_type`: an absent content types part is left alone. */
  function RepairInvalidContentType(pkg: Package, path: string): (r: Package)
    ensures (r.Has(CONTENT_TYPES_PART) <==> pkg.Has(CONTENT_TYPES_PART)) && (pkg.Valid() ==> r.Valid() && r.order == pkg.order)
    ensures forall q :: q != CONTENT_TYPES_PART ==> r.Get(q) == pkg.Get(q)
    ensures pkg.Get(CONTENT_TYPES_PART).Some? ==>
      r.Get(CONTENT_TYPES_PART) == Some(AddedOverride(pkg.Get(CONTENT_TYPES_PART).value, path))
  {
    match pkg.Get(CONTENT_TYPES_PART)
    case None => pkg
    case Some(ct) =>
      assert pkg.Valid() ==> CONTENT_TYPES_PART in pkg.order;
      pkg.Add(CONTENT_TYPES_PART, AddedOverride(ct, path))
  }

  /** With a closing tag to anchor it, the new Override covers the part. */
  lemma OverrideAdded(ct: string, path: string)
    requires Contains(ct, TYPES_CLOSE)
    ensures Covered(AddedOverride(ct, path), path)
  {
    var line := OverrideLine(path, InferContentType(path));
    InsertedBefore(ct, TYPES_CLOSE, line);
    OverrideLineHas(path, InferContentType(path));
    ContainsTrans(AddedOverride(ct, path), line, OverrideAttr(path));
  }

  /** After the repair the part is no longer reported as lacking a content type. */
  lemma ContentTypeRepaired(pkg: Package, path: string, ct: string)
    requires pkg.Get(CONTENT_TYPES_PART) == Some(ct) && Contains(ct, TYPES_CLOSE)
    ensures InvalidContentType(path) !in ContentTypeIssues(RepairInvalidContentType(pkg, path))
  {
    OverrideAdded(ct, path);
  }

  // ---------------------------------------------------------------------
  // repair_missing_namespace

  /** The declaration added for a namespace prefix; other prefixes are not handled. */
  function NamespaceDecl(ns: string): (r: Option<string>)
    ensures r.Some? <==> ns == "p" || ns == "a" || ns == "r"
  {
    if ns == "p" then Some(P_NS_DECL)
    else if ns == "a" then Some(A_NS_DECL)
    else if ns == "r" then Some(R_NS_DECL)
    else None
  }

  /**
   * The text with `decl` added just before the first '>', or None when there
   * is no '>' or the text before it already holds the declaration.
   */
  function InsertNamespace(xml: string, decl: string): (r: Option<string>)
  {
    match Find(xml, ">")
    case None => None
    case Some(pos) =>
      if Contains(xml[..pos], decl) then None
      else Some(xml[..pos] + " " + decl + xml[pos..])
  }

  /**
   * The text up to its first '>' holds `decl`.  That is the root element's
   * start tag only when the part has no XML declaration; otherwise it is the
   * declaration itself.
   */
  predicate FirstTagDeclares(xml: string, decl: string) {
    match Find(xml, ">")
    case None => false
    case Some(pos) => Contains(xml[..pos], decl)
  }

  /**
   * `repair_missing_namespace`: for a known prefix, the declaration goes in,
   * after a space, just before the first '>' of the part, unless the text
   * before that '>' already holds it.  An absent part, an unknown prefix or a
   * text without '>' leaves the package as it was.
   */
  function RepairMissingNamespace(pkg: Package, path: string, ns: string): (r: Package)
    ensures (r.Has(path) <==> pkg.Has(path)) && (pkg.Valid() ==> r.Valid() && r.order == pkg.order)
    ensures forall q :: q != path ==> r.Get(q) == pkg.Get(q)
    ensures NamespaceDecl(ns).None? || !pkg.Has(path) ==> r == pkg
    ensures pkg.Has(path) && !Contains(pkg.parts[path], ">") ==> r == pkg
    ensures pkg.Has(path) && NamespaceDecl(ns).Some? && Contains(pkg.parts[path], ">") ==>
      var xml, decl, pos := pkg.parts[path], NamespaceDecl(ns).value, Find(pkg.parts[path], ">").value;
      r.parts[path] == if Contains(xml[..pos], decl) then xml else xml[..pos] + " " + decl + xml[pos..]
  {
    match pkg.Get(path)
    case None => pkg
    case Some(xml) =>
      match NamespaceDecl(ns)
      case None => pkg
      case Some(decl) =>
        match InsertNamespace(xml, decl)
        case None => pkg
        case Some(repaired) =>
          assert pkg.Valid() ==> path in pkg.order;
          pkg.Add(path, repaired)
  }

  /**
   * Whenever the text has a '>', the repaired text holds the declaration
   * before its first '>', and a second repair changes nothing.
   */
  lemma NamespaceInserted(xml: string, decl: string)
    requires '>' !in decl && Contains(xml, ">")
    ensures InsertNamespace(xml, decl).None? <==> FirstTagDeclares(xml, decl)
    ensures InsertNamespace(xml, decl).Some? ==>
      var r := InsertNamespace(xml, decl).value;
      FirstTagDeclares(r, decl) && InsertNamespace(r, decl).None?
  {
    var pos := Find(xml, ">").value;
    if !Contains(xml[..pos], decl) {
      var head := xml[..pos] + " " + decl;
      var r := head + xml[pos..];
      forall j | 0 <= j < |head| ensures !OccursAt(r, ">", j) {
        OccursAtChar(r, '>', j);
        if j < pos {
          assert !OccursAt(xml, ">", j);
          OccursAtChar(xml, '>', j);
        } else if j > pos {
          assert r[j] == decl[j - pos - 1];
        }
      }
      assert r[|head|..|head| + 1] == xml[pos..pos + 1];
      FindIs(r, ">", |head|);
      assert r[..|head|] == head;
      assert head[pos + 1..] == decl;
      OccursContains(head, decl, pos + 1);
    }
  }

  // ---------------------------------------------------------------------
  // repair_empty_element

  function EmptyTag(element: string): string {
    "<" + element + "/>"
  }

  function FilledTag(element: string): string {
    "<" + element + "></" + element + ">"
  }

  /** `repair_empty_element`: every `<e/>` of the part becomes `<e></e>`. */
  function RepairEmptyElement(pkg: Package, path: string, element: string): (r: Package)
    ensures (r.Has(path) <==> pkg.Has(path)) && (pkg.Valid() ==> r.Valid() && r.order == pkg.order)
    ensures forall q :: q != path ==> r.Get(q) == pkg.Get(q)
    ensures pkg.Get(path).Some? ==> r.Get(path) == Some(Replace(pkg.Get(path).value, EmptyTag(element), FilledTag(element)))
  {
    match pkg.Get(path)
    case None => pkg
    case Some(xml) =>
      assert pkg.Valid() ==> path in pkg.order;
      pkg.Add(path, Replace(xml, EmptyTag(element), FilledTag(element)))
  }

  /** The filled form appears exactly when the empty form was there; otherwise the text is unchanged. */
  lemma EmptyElementFilled(xml: string, element: string)
    ensures Contains(xml, EmptyTag(element)) ==> Contains(Replace(xml, EmptyTag(element), FilledTag(element)), FilledTag(element))
    ensures !Contains(xml, EmptyTag(element)) ==> Replace(xml, EmptyTag(element), FilledTag(element)) == xml
  {
    if Contains(xml, EmptyTag(element)) {
      ReplacePlacesRep(xml, EmptyTag(element), FilledTag(element));
    } else {
      ReplaceAbsent(xml, EmptyTag(element), FilledTag(element));
    }
  }

  // ---------------------------------------------------------------------
  // repair_issue

  /**
   * `repair_issue`: the repair for the issue's kind.  Only a corrupted entry
   * and a missing part without a template fail, and then nothing changes.
   */
  function RepairIssueOn(pkg: Package, issue: RepairIssue): (r: Result<Package>)
    ensures r.Ok? <==> RepairSucceeds(issue)
    ensures r.Ok? && pkg.Valid() ==> r.value.Valid()
    ensures r.Err? ==> r.error == if issue.CorruptedEntry? then Generic("Cannot repair corrupted entry")
      else Generic("Cannot generate part: " + issue.path)
  {
    match issue
    case MissingPart(path, _) => RepairMissingPart(pkg, path)
    case InvalidXml(path, _) => Ok(RepairInvalidXml(pkg, path))
    case BrokenRelationship(source, _, relId) => Ok(RepairBrokenRelationship(pkg, source, relId))
    case MissingSlideReference(slidePath) => Ok(RepairMissingSlideReference(pkg, slidePath))
    case OrphanSlide(slidePath) => Ok(RepairOrphanSlide(pkg, slidePath))
    case InvalidContentType(path) => Ok(RepairInvalidContentType(pkg, path))
    case CorruptedEntry(_, _) => Err(Generic("Cannot repair corrupted entry"))
    case MissingNamespace(path, ns) => Ok(RepairMissingNamespace(pkg, path, ns))
    case EmptyRequiredElement(path, element) => Ok(RepairEmptyElement(pkg, path, element))
  }
}
