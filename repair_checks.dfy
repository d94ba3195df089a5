/**
 * What `PptxRepair::validate` reports about a package (src/oxml/repair.rs):
 * the five checks, each as the list of issues it pushes, in the order it
 * pushes them.  The methods of the `PptxRepair` class are proved against
 * these functions.
 */
module RepairChecks {
  import opened Wrappers
  import opened Strings
  import opened RepairText
  import opened Packages
  import opened RepairIssues
  import opened Relationships
  import opened XmlText
  import opened PartPaths

  /** `REQUIRED_PARTS`: each required part with the description its issue carries. */
  const REQUIRED_PARTS: seq<(string, string)> := [
    (CONTENT_TYPES_PART, "Content types definition"),
    (PACKAGE_RELS_PART, "Package relationships"),
    (PRESENTATION_PART, "Presentation document"),
    (PRESENTATION_RELS_PART, "Presentation relationships")]

  /** The parts `repair_missing_part` knows how to generate. */
  predicate IsRequiredPath(path: string) {
    path == CONTENT_TYPES_PART || path == PACKAGE_RELS_PART || path == PRESENTATION_PART
    || path == PRESENTATION_RELS_PART
  }

  // ---------------------------------------------------------------------
  // check_required_parts

  /** The `MissingPart` issues for the listed parts, in list order. */
  function MissingParts(pkg: Package, req: seq<(string, string)>): (r: seq<RepairIssue>)
    ensures forall i :: 0 <= i < |r| ==> r[i].MissingPart?
  {
    if req == [] then []
    else
      var last := req[|req| - 1];
      MissingParts(pkg, req[..|req| - 1]) + (if pkg.Has(last.0) then [] else [MissingPart(last.0, last.1)])
  }

  /** A required part is reported exactly when the package lacks it. */
  lemma {:induction false} MissingPartsIff(pkg: Package, req: seq<(string, string)>, issue: RepairIssue)
    ensures issue in MissingParts(pkg, req) <==>
      issue.MissingPart? && (issue.path, issue.description) in req && !pkg.Has(issue.path)
  {
    if req != [] {
      var init := req[..|req| - 1];
      MissingPartsIff(pkg, init, issue);
      assert req == init + [req[|req| - 1]];
    }
  }

  /** Only the four generated parts can be reported missing. */
  lemma RequiredPartsGenerated(pkg: Package, issue: RepairIssue)
    requires issue in MissingParts(pkg, REQUIRED_PARTS)
    ensures IsRequiredPath(issue.path)
  {
    MissingPartsIff(pkg, REQUIRED_PARTS, issue);
  }

  // ---------------------------------------------------------------------
  // check_xml_validity, validate_xml

  /** Nothing but whitespace. */
  predicate Blank(s: string) {
    forall i :: 0 <= i < |s| ==> IsWhitespace(s[i])
  }

  /**
   * `validate_xml`: an error message, or None when the text passes.  Its
   * character scan only sets flags it never reads, so only blank text fails.
   */
  function ValidateXml(xml: string): (r: Option<string>)
    ensures r.Some? <==> Blank(xml)
    ensures r.Some? ==> r.value == "Empty XML content"
  {
    TrimEmptyIffBlank(xml);
    if Trim(xml) == [] then Some("Empty XML content") else None
  }

  lemma TrimEmptyIffBlank(s: string)
    ensures Trim(s) == [] <==> Blank(s)
  {
    if Blank(s) {
      BlankTrimEmpty(s);
    }
    if Trim(s) == [] {
      TrimEmptyBlank(s);
    }
  }

  lemma BlankTrimEmpty(s: string)
    requires Blank(s)
    ensures Trim(s) == []
  {
    TrimStartFirst(s);
  }

  lemma TrimStartFirst(s: string)
    ensures |TrimStart(s)| > 0 ==> TrimStart(s)[0] == s[|s| - |TrimStart(s)|]
  {
  }

  lemma TrimEmptyBlank(s: string)
    requires Trim(s) == []
    ensures Blank(s)
  {
    assert |TrimStart(s)| == 0;
  }

  /** The parts the XML check looks at. */
  predicate IsXmlPath(p: string) {
    EndsWith(p, ".xml") || EndsWith(p, ".rels")
  }

  function XmlIssue(pkg: Package, p: string): seq<RepairIssue> {
    if IsXmlPath(p) && p in pkg.parts && ValidateXml(pkg.parts[p]).Some? then
      [InvalidXml(p, ValidateXml(pkg.parts[p]).value)]
    else []
  }

  /** The `InvalidXml` issues for the listed parts, in list order. */
  function XmlIssues(pkg: Package, paths: seq<string>): (r: seq<RepairIssue>)
    ensures forall i :: 0 <= i < |r| ==> r[i].InvalidXml?
  {
    if paths == [] then [] else XmlIssues(pkg, paths[..|paths| - 1]) + XmlIssue(pkg, paths[|paths| - 1])
  }

  /** An XML or rels part is reported exactly when its content is blank. */
  lemma {:induction false} XmlIssuesIff(pkg: Package, paths: seq<string>, issue: RepairIssue)
    ensures issue in XmlIssues(pkg, paths) <==>
      issue.InvalidXml? && issue.path in paths && IsXmlPath(issue.path) && issue.path in pkg.parts
      && Blank(pkg.parts[issue.path]) && issue.error == "Empty XML content"
  {
    if paths != [] {
      var init := paths[..|paths| - 1];
      XmlIssuesIff(pkg, init, issue);
      assert paths == init + [paths[|paths| - 1]];
    }
  }

  // ---------------------------------------------------------------------
  // check_relationships, check_rels_file

  predicate IsExternal(target: string) {
    StartsWith(target, "http://") || StartsWith(target, "https://")
  }

  /** `extract_attribute(line, "Id").unwrap_or_default()`. */
  function IdOrEmpty(line: string): string {
    match ExtractAttribute(line, "Id")
    case None => ""
    case Some(id) => id
  }

  /**
   * The issue one line of a rels part gives: a relationship line whose local
   * target resolves to no part, unless the target climbs with "..".
   */
  function LineIssue(pkg: Package, relsPath: string, line: string): (r: seq<RepairIssue>)
    ensures |r| <= 1
    ensures r != [] ==> exists t ::
      ExtractAttribute(line, "Target") == Some(t) && !IsExternal(t) && !Contains(t, "..")
      && r[0] == BrokenRelationship(relsPath, ResolvePath(relsPath, t), IdOrEmpty(line))
      && !pkg.Has(ResolvePath(relsPath, t))
  {
    if Contains(line, "Relationship") && Contains(line, "Target=") then
      match ExtractAttribute(line, "Target")
      case None => []
      case Some(target) =>
        if IsExternal(target) then []
        else
          var full := ResolvePath(relsPath, target);
          if !pkg.Has(full) && !Contains(target, "..") then [BrokenRelationship(relsPath, full, IdOrEmpty(line))]
          else []
    else []
  }

  /** The issues of the listed lines of one rels part, in line order. */
  function RelsLinesIssues(pkg: Package, relsPath: string, lines: seq<string>): (r: seq<RepairIssue>)
    ensures forall i :: 0 <= i < |r| ==> r[i].BrokenRelationship? && r[i].source == relsPath
  {
    if lines == [] then []
    else RelsLinesIssues(pkg, relsPath, lines[..|lines| - 1]) + LineIssue(pkg, relsPath, lines[|lines| - 1])
  }

  /** Every reported relationship comes from a line of the part with a local target that is missing. */
  lemma {:induction false} RelsLinesIssuesFrom(pkg: Package, relsPath: string, lines: seq<string>, issue: RepairIssue)
    returns (k: nat, t: string)
    requires issue in RelsLinesIssues(pkg, relsPath, lines)
    ensures !pkg.Has(issue.target)
    ensures k < |lines| && ExtractAttribute(lines[k], "Target") == Some(t)
    ensures !IsExternal(t) && !Contains(t, "..") && issue.target == ResolvePath(relsPath, t)
    ensures issue.relId == IdOrEmpty(lines[k])
  {
    var init := lines[..|lines| - 1];
    if issue in RelsLinesIssues(pkg, relsPath, init) {
      k, t := RelsLinesIssuesFrom(pkg, relsPath, init, issue);
      assert lines[k] == init[k];
    } else {
      k := |lines| - 1;
      t := ExtractAttribute(lines[k], "Target").value;
    }
  }

  /** `check_rels_file`: nothing when the part is absent. */
  function RelsFileIssues(pkg: Package, relsPath: string): seq<RepairIssue> {
    match pkg.Get(relsPath)
    case None => []
    case Some(content) => RelsLinesIssues(pkg, relsPath, Lines(content))
  }

  predicate IsSlideRelsPath(p: string) {
    StartsWith(p, "ppt/slides/_rels/") && EndsWith(p, ".xml.rels")
  }

  /** The slide rels parts, in storage order. */
  function SlideRelsPaths(paths: seq<string>): (r: seq<string>)
    ensures forall p :: p in r <==> p in paths && IsSlideRelsPath(p)
  {
    if paths == [] then []
    else
      var last := paths[|paths| - 1];
      SlideRelsPaths(paths[..|paths| - 1]) + (if IsSlideRelsPath(last) then [last] else [])
  }

  function SlideRelsIssues(pkg: Package, relsPaths: seq<string>): seq<RepairIssue> {
    if relsPaths == [] then []
    else SlideRelsIssues(pkg, relsPaths[..|relsPaths| - 1]) + RelsFileIssues(pkg, relsPaths[|relsPaths| - 1])
  }

  /** `check_relationships`: the package rels, the presentation rels, then every slide rels part. */
  function RelationshipIssues(pkg: Package): seq<RepairIssue> {
    RelsFileIssues(pkg, PACKAGE_RELS_PART) + RelsFileIssues(pkg, PRESENTATION_RELS_PART)
    + SlideRelsIssues(pkg, SlideRelsPaths(pkg.order))
  }

  lemma {:induction false} SlideRelsIssuesKind(pkg: Package, relsPaths: seq<string>, issue: RepairIssue)
    requires issue in SlideRelsIssues(pkg, relsPaths)
    ensures issue.BrokenRelationship? && !pkg.Has(issue.target)
  {
    var init := relsPaths[..|relsPaths| - 1];
    if issue in SlideRelsIssues(pkg, init) {
      SlideRelsIssuesKind(pkg, init, issue);
    } else {
      RelsFileIssuesKind(pkg, relsPaths[|relsPaths| - 1], issue);
    }
  }

  lemma RelsFileIssuesKind(pkg: Package, relsPath: string, issue: RepairIssue)
    requires issue in RelsFileIssues(pkg, relsPath)
    ensures issue.BrokenRelationship? && !pkg.Has(issue.target)
  {
    var _, _ := RelsLinesIssuesFrom(pkg, relsPath, Lines(pkg.parts[relsPath]), issue);
  }

  /** Every relationship the check reports points at a part the package does not have. */
  lemma RelationshipIssuesMissing(pkg: Package, issue: RepairIssue)
    requires issue in RelationshipIssues(pkg)
    ensures issue.BrokenRelationship? && !pkg.Has(issue.target)
  {
    if issue in RelsFileIssues(pkg, PACKAGE_RELS_PART) {
      RelsFileIssuesKind(pkg, PACKAGE_RELS_PART, issue);
    } else if issue in RelsFileIssues(pkg, PRESENTATION_RELS_PART) {
      RelsFileIssuesKind(pkg, PRESENTATION_RELS_PART, issue);
    } else {
      SlideRelsIssuesKind(pkg, SlideRelsPaths(pkg.order), issue);
    }
  }

  // ---------------------------------------------------------------------
  // check_slide_references

  /** As written, every line with "slide" and "Target=" names a slide, slideLayout and slideMaster lines included. */
  predicate SlideLineAsWritten(line: string) {
    Contains(line, "slide") && Contains(line, "Target=")
  }

  /** The intended test: the line is a relationship of the slide type. */
  predicate SlideLine(line: string) {
    Contains(line, "Target=") && ExtractAttribute(line, "Type") == Some(Uri(Slide))
  }

  /**
   * Every line the type test selects the test as written selects too, and
   * reads the same target from it: the slide type's URI holds "slide".
   */
  lemma TypedLineSelected(line: string)
    requires SlideLine(line)
    ensures SlideLineAsWritten(line) && LineRef(line, true) == LineRef(line, false)
  {
    var u := Uri(Slide);
    InfixContained(line, "Type" + "=\"", u, "\"");
    assert u == OFFICE_RELS + "slide" + "";
    MiddleContained(OFFICE_RELS, "slide", "");
    ContainsTrans(line, u, "slide");
  }

  predicate Selected(line: string, asWritten: bool) {
    if asWritten then SlideLineAsWritten(line) else SlideLine(line)
  }

  /** A target of the presentation rels as a package path: absolute, or under "ppt/". */
  function SlideTargetPath(target: string): string {
    if StartsWith(target, "/") then target[1..] else "ppt/" + target
  }

  /** The slide path one line of the presentation rels references, if any. */
  function LineRef(line: string, asWritten: bool): Option<string> {
    if Selected(line, asWritten) then
      match ExtractAttribute(line, "Target")
      case None => None
      case Some(t) => Some(SlideTargetPath(t))
    else None
  }

  /** The referenced slide paths, once each, in first-appearance order (a `HashSet`). */
  function ReferencedFrom(lines: seq<string>, asWritten: bool): (r: seq<string>)
    ensures Distinct(r)
  {
    if lines == [] then []
    else
      var prev := ReferencedFrom(lines[..|lines| - 1], asWritten);
      match LineRef(lines[|lines| - 1], asWritten)
      case None => prev
      case Some(s) => if s in prev then prev else prev + [s]
  }

  /** Every slide path a line references is in the set. */
  lemma {:induction false} ReferencedHas(lines: seq<string>, asWritten: bool, k: nat, s: string)
    requires k < |lines| && LineRef(lines[k], asWritten) == Some(s)
    ensures s in ReferencedFrom(lines, asWritten)
  {
    if k < |lines| - 1 {
      ReferencedHas(lines[..|lines| - 1], asWritten, k, s);
    }
  }

  /** Every path in the set is referenced by some line. */
  lemma {:induction false} ReferencedSource(lines: seq<string>, asWritten: bool, s: string) returns (k: nat)
    requires s in ReferencedFrom(lines, asWritten)
    ensures k < |lines| && LineRef(lines[k], asWritten) == Some(s)
  {
    var init := lines[..|lines| - 1];
    if s in ReferencedFrom(init, asWritten) {
      k := ReferencedSource(init, asWritten, s);
      assert init[k] == lines[k];
    } else {
      k := |lines| - 1;
    }
  }

  /** The slides the presentation rels part references. */
  function Referenced(pkg: Package, asWritten: bool): seq<string> {
    match pkg.Get(PRESENTATION_RELS_PART)
    case None => []
    case Some(content) => ReferencedFrom(Lines(content), asWritten)
  }

  predicate IsSlidePart(p: string) {
    StartsWith(p, "ppt/slides/slide") && EndsWith(p, ".xml") && !Contains(p, "_rels")
  }

  /** The slide parts, in storage order. */
  function SlideParts(paths: seq<string>): (r: seq<string>)
    ensures forall p :: p in r <==> p in paths && IsSlidePart(p)
    ensures Distinct(paths) ==> Distinct(r)
  {
    if paths == [] then []
    else
      var init := paths[..|paths| - 1];
      var last := paths[|paths| - 1];
      assert Distinct(paths) ==> Distinct(init) && last !in init;
      SlideParts(init) + (if IsSlidePart(last) then [last] else [])
  }

  /** An `OrphanSlide` for each reference without a slide part. */
  function OrphanIssues(refs: seq<string>, actual: seq<string>): (r: seq<RepairIssue>)
    ensures forall issue :: issue in r <==> issue.OrphanSlide? && issue.slidePath in refs && issue.slidePath !in actual
  {
    if refs == [] then []
    else
      var last := refs[|refs| - 1];
      OrphanIssues(refs[..|refs| - 1], actual) + (if last in actual then [] else [OrphanSlide(last)])
  }

  /** A `MissingSlideReference` for each slide part nobody references. */
  function UnreferencedIssues(actual: seq<string>, refs: seq<string>): (r: seq<RepairIssue>)
    ensures forall issue :: issue in r <==>
      issue.MissingSlideReference? && issue.slidePath in actual && issue.slidePath !in refs
  {
    if actual == [] then []
    else
      var last := actual[|actual| - 1];
      UnreferencedIssues(actual[..|actual| - 1], refs) + (if last in refs then [] else [MissingSlideReference(last)])
  }

  /** `check_slide_references`: orphans first, then unreferenced slides. */
  function SlideReferenceIssues(pkg: Package, asWritten: bool): seq<RepairIssue> {
    var refs := Referenced(pkg, asWritten);
    var actual := SlideParts(pkg.order);
    OrphanIssues(refs, actual) + UnreferencedIssues(actual, refs)
  }

  /**
   * A referenced path without a slide part is an orphan, a slide part without
   * a reference is unreferenced, and nothing else is reported.
   */
  lemma SlideReferenceIssuesIff(pkg: Package, asWritten: bool, issue: RepairIssue)
    ensures issue in SlideReferenceIssues(pkg, asWritten) <==>
      (issue.OrphanSlide? && issue.slidePath in Referenced(pkg, asWritten) && !(issue.slidePath in pkg.order && IsSlidePart(issue.slidePath)))
      || (issue.MissingSlideReference? && issue.slidePath in pkg.order && IsSlidePart(issue.slidePath)
          && issue.slidePath !in Referenced(pkg, asWritten))
  {
  }

  // ---------------------------------------------------------------------
  // The slide master read as a slide reference

  /** Lines that reference nothing leave the set empty. */
  lemma {:induction false} ReferencedNone(lines: seq<string>, asWritten: bool)
    requires forall k :: 0 <= k < |lines| ==> LineRef(lines[k], asWritten).None?
    ensures ReferencedFrom(lines, asWritten) == []
  {
    if lines != [] {
      var init := lines[..|lines| - 1];
      forall k | 0 <= k < |init| ensures LineRef(init[k], asWritten).None? {
        assert init[k] == lines[k];
      }
      ReferencedNone(init, asWritten);
    }
  }

  /** A line without "Ta" has no "Target=" and is never selected. */
  lemma NoTargetUnselected(line: string)
    requires 'T' !in line || NoBigram(line, 'T', 'a')
    ensures LineRef(line, true).None? && LineRef(line, false).None?
  {
    if 'T' !in line {
      MissingCharNotContained(line, "Target=", 0);
    } else {
      MissingBigramNotContained(line, "Target=", 0);
    }
  }

  /** An attribute value starting with "slide" puts "slide" and "Target=" on the line. */
  lemma SlideInTarget(line: string, target: string, rest: string)
    requires Contains(line, "Target" + "=\"" + target + "\"")
    requires target == "slide" + rest
    ensures SlideLineAsWritten(line)
  {
    var a, q := "Target" + "=\"", "\"";
    assert a + target + q == a + "slide" + (rest + q);
    InfixContained(line, a, "slide", rest + q);
    assert a + target + q == "Target=" + (q + target + q);
    PrefixContained(line, "Target=", q + target + q);
  }

  /**
   * A line whose type is not the slide type and whose target starts with
   * "slide": the test as written selects it, the type test does not.
   */
  lemma SlidePrefixedTarget(line: string, typeUri: string, target: string, rest: string)
    requires ExtractAttribute(line, "Type") == Some(typeUri) && typeUri != Uri(Slide)
    requires ExtractAttribute(line, "Target") == Some(target)
    requires target == "slide" + rest
    ensures LineRef(line, true) == Some("ppt/" + target)
    ensures LineRef(line, false).None?
  {
    SlideInTarget(line, target, rest);
    assert target[0] != '/';
  }

  /** Of four lines, only the third can add a reference. */
  lemma ThirdLineRef(lines: seq<string>, d: string, o: string, e: string, c: string, w: bool)
    requires lines == [d, o, e, c]
    requires LineRef(d, w).None? && LineRef(o, w).None? && LineRef(c, w).None?
    ensures LineRef(e, w).Some? ==> LineRef(e, w).value in ReferencedFrom(lines, w)
    ensures LineRef(e, w).None? ==> ReferencedFrom(lines, w) == []
  {
    if LineRef(e, w).Some? {
      ReferencedHas(lines, w, 2, LineRef(e, w).value);
    } else {
      ReferencedNone(lines, w);
    }
  }

  lemma FrameUnselected()
    ensures LineRef(XML_DECL, true).None? && LineRef(XML_DECL, false).None?
    ensures LineRef(RELS_OPEN, true).None? && LineRef(RELS_OPEN, false).None?
    ensures LineRef(RELS_CLOSE, true).None? && LineRef(RELS_CLOSE, false).None?
  {
    DeclLacksTa();
    OpenCloseLackT();
    NoTargetUnselected(XML_DECL);
    NoTargetUnselected(RELS_OPEN);
    NoTargetUnselected(RELS_CLOSE);
  }

  const MASTER_TARGET: string := "slideMasters/slideMaster1.xml"

  /** The presentation's relationship to its first slide master, as a generated package has it. */
  function MasterRel(): Relationship {
    Relationship("rId1", SlideMaster, MASTER_TARGET)
  }

  lemma MasterPlainAt()
    ensures PlainAt("rId1") && PlainAt(MASTER_TARGET) && PlainAt(INDENT)
  {
  }

  lemma MasterRelChars()
    ensures PlainName(MasterRel().id) && PlainName(MasterRel().target) && PlainName(INDENT)
  {
    MasterPlainAt();
    PlainFromPositions("rId1");
    PlainFromPositions(MASTER_TARGET);
    PlainFromPositions(INDENT);
  }

  lemma MasterUriNotSlide()
    ensures Uri(SlideMaster) != Uri(Slide)
  {
    assert |Uri(SlideMaster)| == |Uri(Slide)| + 6;
  }

  lemma MasterTargetSplit()
    ensures MASTER_TARGET == "slide" + "Masters/slideMaster1.xml"
  {
  }

  /** The element line of the master: a reference as written, none as intended. */
  lemma MasterLineRef(line: string, r: Relationship)
    requires r == MasterRel() && line == INDENT + RelXml(r)
    ensures LineRef(line, true) == Some("ppt/" + MASTER_TARGET)
    ensures LineRef(line, false).None?
  {
    MasterRelChars();
    PredefinedUriChars(SlideMaster);
    RelXmlReadBack(line, INDENT, r);
    MasterUriNotSlide();
    MasterTargetSplit();
    SlidePrefixedTarget(line, Uri(r.relType), r.target, "Masters/slideMaster1.xml");
  }

  lemma MasterNotSlidePart(p: string)
    requires p == "ppt/" + MASTER_TARGET
    ensures !IsSlidePart(p)
  {
    assert p[9] == 'M';
  }

  /** The presentation rels part with only the master relationship, line by line. */
  lemma MasterRelsLines(content: string, e: string)
    requires content == RelsXml([MasterRel()]) && e == INDENT + RelXml(MasterRel())
    ensures Lines(content) == [XML_DECL, RELS_OPEN, e, RELS_CLOSE]
  {
    var rs := [MasterRel()];
    MasterRelChars();
    assert OneLine(rs[0]);
    RelsXmlLines(rs);
    ElementLinesAt(rs, 0);
    assert ElementLines(rs) == [e];
  }

  /**
   * A presentation rels part holding only the slide-master relationship: the
   * test as written takes the master for a slide and reports it as an orphan
   * slide; the relationship-type test references no slide at all.
   */
  lemma MasterReportedAsOrphan(pkg: Package)
    requires pkg.Get(PRESENTATION_RELS_PART) == Some(RelsXml([MasterRel()]))
    ensures OrphanSlide("ppt/" + MASTER_TARGET) in SlideReferenceIssues(pkg, true)
    ensures Referenced(pkg, false) == []
  {
    var content := RelsXml([MasterRel()]);
    var e := INDENT + RelXml(MasterRel());
    var p := "ppt/" + MASTER_TARGET;
    MasterRelsLines(content, e);
    FrameUnselected();
    MasterLineRef(e, MasterRel());
    ThirdLineRef(Lines(content), XML_DECL, RELS_OPEN, e, RELS_CLOSE, true);
    ThirdLineRef(Lines(content), XML_DECL, RELS_OPEN, e, RELS_CLOSE, false);
    MasterNotSlidePart(p);
    SlideReferenceIssuesIff(pkg, true, OrphanSlide(p));
  }


  // ---------------------------------------------------------------------
  // check_content_types

  /** `rsplit('.').next()`: the text after the last '.', or the whole path. */
  function Extension(p: string): (r: string)
    ensures '.' !in r
    ensures r == p || (|r| < |p| && p == p[..|p| - |r| - 1] + "." + r)
  {
    match LastIndexOf(p, '.')
    case None => p
    case Some(k) =>
      assert p == p[..k] + "." + p[k + 1..];
      p[k + 1..]
  }

  function OverrideAttr(p: string): string {
    "PartName=\"/" + p + "\""
  }

  function DefaultAttr(ext: string): string {
    "Extension=\"" + ext + "\""
  }

  /** A part is covered by an Override naming it or by a Default for its extension; rels parts are exempt. */
  predicate Covered(ct: string, p: string) {
    Contains(ct, OverrideAttr(p)) || Contains(ct, DefaultAttr(Extension(p))) || EndsWith(p, ".rels")
  }

  function ContentTypeIssue(ct: string, p: string): seq<RepairIssue> {
    if p != CONTENT_TYPES_PART && !Covered(ct, p) then [InvalidContentType(p)] else []
  }

  function ContentTypeIssuesFor(ct: string, paths: seq<string>): (r: seq<RepairIssue>)
    ensures forall issue :: issue in r <==>
      issue.InvalidContentType? && issue.path in paths && issue.path != CONTENT_TYPES_PART && !Covered(ct, issue.path)
  {
    if paths == [] then []
    else ContentTypeIssuesFor(ct, paths[..|paths| - 1]) + ContentTypeIssue(ct, paths[|paths| - 1])
  }

  /** `check_content_types`: nothing when the content types part is absent. */
  function ContentTypeIssues(pkg: Package): seq<RepairIssue> {
    match pkg.Get(CONTENT_TYPES_PART)
    case None => []
    case Some(ct) => ContentTypeIssuesFor(ct, pkg.order)
  }

  // ---------------------------------------------------------------------
  // validate

  /** `validate`: the five checks in their fixed order. */
  function ValidationIssues(pkg: Package): seq<RepairIssue> {
    MissingParts(pkg, REQUIRED_PARTS) + XmlIssues(pkg, pkg.order) + RelationshipIssues(pkg)
    + SlideReferenceIssues(pkg, true) + ContentTypeIssues(pkg)
  }

  /** A repair of this issue succeeds: everything but a corrupted entry or an unknown missing part. */
  predicate RepairSucceeds(issue: RepairIssue) {
    !issue.CorruptedEntry? && (issue.MissingPart? ==> IsRequiredPath(issue.path))
  }

  /**
   * Validation only reports issues whose repair succeeds, so `repair` never
   * leaves one unrepaired.
   */
  lemma ValidationIssuesRepairable(pkg: Package, issue: RepairIssue)
    requires issue in ValidationIssues(pkg)
    ensures RepairSucceeds(issue) && IsRepairable(issue)
  {
    if issue in MissingParts(pkg, REQUIRED_PARTS) {
      RequiredPartsGenerated(pkg, issue);
    } else if issue in XmlIssues(pkg, pkg.order) {
      XmlIssuesIff(pkg, pkg.order, issue);
    } else if issue in RelationshipIssues(pkg) {
      RelationshipIssuesMissing(pkg, issue);
    } else if issue in SlideReferenceIssues(pkg, true) {
      SlideReferenceIssuesIff(pkg, true, issue);
    }
  }
}
