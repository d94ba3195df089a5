/**
 * The `PptxRepair` engine of src/oxml/repair.rs: it holds a package and the
 * issues the last validation pushed.  `Validate` clears the list and runs
 * the five checks; `Repair` validates, attempts every issue in turn and
 * validates again.  Each method is proved against the functions of
 * `RepairChecks` and `RepairEdits`.
 */
module Repair {
  import opened Wrappers
  import opened Strings
  import opened XmlText
  import opened RepairText
  import opened Packages
  import opened RepairIssues
  import opened Relationships
  import opened RepairChecks
  import opened PartPaths
  import opened RepairEdits

  class PptxRepair {
    var package: Package
    var issues: seq<RepairIssue>

    /** `open` / `from_bytes`, once the archive has been read into a package. */
    constructor (pkg: Package)
      ensures package == pkg && issues == []
    {
      package := pkg;
      issues := [];
    }

    /** `check_required_parts`. */
    method CheckRequiredParts() returns (found: seq<RepairIssue>)
      ensures found == MissingParts(package, REQUIRED_PARTS)
    {
      found := [];
      var i := 0;
      while i < |REQUIRED_PARTS|
        invariant 0 <= i <= |REQUIRED_PARTS|
        invariant found == MissingParts(package, REQUIRED_PARTS[..i])
      {
        var (path, description) := REQUIRED_PARTS[i];
        if !package.Has(path) {
          found := found + [MissingPart(path, description)];
        }
        assert REQUIRED_PARTS[..i + 1][..i] == REQUIRED_PARTS[..i];
        i := i + 1;
      }
      assert REQUIRED_PARTS[..i] == REQUIRED_PARTS;
    }

    /** `check_xml_validity`: every XML and rels part goes through `validate_xml`. */
    method CheckXmlValidity() returns (found: seq<RepairIssue>)
      ensures found == XmlIssues(package, package.order)
    {
      found := XmlIssuesOf(package, package.order);
    }

    /** `check_rels_file`: every relationship line whose local target is missing. */
    method CheckRelsFile(relsPath: string) returns (found: seq<RepairIssue>)
      ensures found == RelsFileIssues(package, relsPath)
    {
      found := [];
      match package.Get(relsPath)
      case None =>
      case Some(content) =>
        var lines := Lines(content);
        var i := 0;
        while i < |lines|
          invariant 0 <= i <= |lines|
          invariant found == RelsLinesIssues(package, relsPath, lines[..i])
        {
          var line := lines[i];
          if Contains(line, "Relationship") && Contains(line, "Target=") {
            match ExtractAttribute(line, "Target")
            case None =>
            case Some(target) =>
              var relId := IdOrEmpty(line);
              if !IsExternal(target) {
                var full := ResolvePath(relsPath, target);
                if !package.Has(full) && !Contains(target, "..") {
                  found := found + [BrokenRelationship(relsPath, full, relId)];
                }
              }
          }
          assert lines[..i + 1][..i] == lines[..i];
          i := i + 1;
        }
        assert lines[..i] == lines;
    }

    /** `check_relationships`: the package rels, the presentation rels, then each slide rels part. */
    method CheckRelationships() returns (found: seq<RepairIssue>)
      ensures found == RelationshipIssues(package)
    {
      var packageRels := CheckRelsFile(PACKAGE_RELS_PART);
      var presentationRels := CheckRelsFile(PRESENTATION_RELS_PART);
      var slideRels := SlideRelsPaths(package.order);
      var fromSlides: seq<RepairIssue> := [];
      var j := 0;
      while j < |slideRels|
        invariant 0 <= j <= |slideRels|
        invariant fromSlides == SlideRelsIssues(package, slideRels[..j])
      {
        var more := CheckRelsFile(slideRels[j]);
        fromSlides := fromSlides + more;
        assert slideRels[..j + 1][..j] == slideRels[..j];
        j := j + 1;
      }
      assert slideRels[..j] == slideRels;
      found := packageRels + presentationRels + fromSlides;
    }

    /**
     * `check_slide_references`: a line of the presentation rels counts as a
     * slide reference when it contains "slide" and "Target=" (so slideMaster
     * and slideLayout lines count too).  The referenced set is kept in
     * first-appearance order.
     */
    method CheckSlideReferences() returns (found: seq<RepairIssue>)
      ensures found == SlideReferenceIssues(package, true)
    {
      var referenced := ReferencedSlides();
      var actual := SlideParts(package.order);
      var orphans := OrphansOf(referenced, actual);
      var unreferenced := UnreferencedOf(actual, referenced);
      found := orphans + unreferenced;
    }

    /** The slide paths the presentation rels references, once each. */
    method ReferencedSlides() returns (referenced: seq<string>)
      ensures referenced == Referenced(package, true)
    {
      referenced := [];
      match package.Get(PRESENTATION_RELS_PART)
      case None =>
      case Some(content) =>
        referenced := ReferencedLines(Lines(content));
    }

    /** `check_content_types`: every part needs an Override, a Default for its extension, or to be a rels part. */
    method CheckContentTypes() returns (found: seq<RepairIssue>)
      ensures found == ContentTypeIssues(package)
    {
      match package.Get(CONTENT_TYPES_PART)
      case None =>
        found := [];
      case Some(ct) =>
        found := ContentTypeIssuesOf(ct, package.order);
    }

    /** `validate`: the issues of the five checks, in check order; the package is untouched. */
    method Validate() returns (found: seq<RepairIssue>)
      modifies this
      ensures package == old(package)
      ensures issues == ValidationIssues(package) && found == issues
    {
      var required := CheckRequiredParts();
      var xml := CheckXmlValidity();
      var relationships := CheckRelationships();
      var references := CheckSlideReferences();
      var contentTypes := CheckContentTypes();
      issues := required + xml + relationships + references + contentTypes;
      found := issues;
    }

    /**
     * `repair`: validate; with nothing found the package is valid as it is.
     * Otherwise every issue is attempted in turn (a corrupted entry is not
     * repairable and is not attempted), recorded as repaired or unrepaired by
     * the outcome, and the package is validated again.
     */
    method Repair() returns (result: RepairResult)
      modifies this
      ensures result.issuesFound == ValidationIssues(old(package))
      ensures package == RepairedPackage(old(package), result.issuesFound)
      ensures result.issuesRepaired == Succeeding(result.issuesFound)
      ensures result.issuesUnrepaired == Failing(result.issuesFound)
      ensures FullyRepaired(result)
      ensures result.isValid <==> ValidationIssues(package) == []
      ensures issues == ValidationIssues(package)
      ensures old(package).Valid() ==> package.Valid()
    {
      var found := Validate();
      if found == [] {
        result := RepairResult(found, [], [], true);
        return;
      }
      ghost var start := package;
      var repaired, unrepaired := AttemptAll(found);
      NothingUnrepaired(start);
      RepairedValid(start, found);
      var remaining := Validate();
      result := RepairResult(found, repaired, unrepaired, remaining == []);
    }

    /** The loop of `repair` over the found issues. */
    method AttemptAll(found: seq<RepairIssue>) returns (repaired: seq<RepairIssue>, unrepaired: seq<RepairIssue>)
      modifies this
      ensures package == RepairedPackage(old(package), found)
      ensures repaired == Succeeding(found) && unrepaired == Failing(found)
    {
      repaired, unrepaired := [], [];
      ghost var start := package;
      var i := 0;
      while i < |found|
        invariant 0 <= i <= |found|
        invariant package == RepairedPackage(start, found[..i])
        invariant repaired == Succeeding(found[..i]) && unrepaired == Failing(found[..i])
      {
        var issue := found[i];
        AttemptStep(start, found, i);
        var ok := Attempt(issue);
        if ok {
          repaired := repaired + [issue];
        } else {
          unrepaired := unrepaired + [issue];
        }
        i := i + 1;
      }
      assert found[..i] == found;
    }

    /** One turn of the loop: a repairable issue is repaired, and the outcome reported. */
    method Attempt(issue: RepairIssue) returns (ok: bool)
      modifies this
      ensures ok == RepairSucceeds(issue)
      ensures package == AfterRepair(old(package), issue)
    {
      if IsRepairable(issue) {
        var outcome := RepairOne(issue);
        ok := outcome.Ok?;
      } else {
        ok := false;
      }
    }

    /**
     * `repair_issue`: the repair for the issue's kind.  The package becomes
     * what `RepairIssueOn` gives, and stays as it was when that fails.
     */
    method RepairOne(issue: RepairIssue) returns (outcome: Result<()>)
      modifies this
      ensures outcome.Ok? <==> RepairSucceeds(issue)
      ensures outcome.Ok? ==> RepairIssueOn(old(package), issue) == Ok(package)
      ensures outcome.Err? ==> package == old(package) && RepairIssueOn(old(package), issue) == Err(outcome.error)
      ensures issues == old(issues)
    {
      match issue
      case MissingPart(path, _) =>
        outcome := RepairMissingPart(path);
      case InvalidXml(path, _) =>
        RepairInvalidXml(path);
        outcome := Ok(());
      case BrokenRelationship(source, _, relId) =>
        package := RepairBrokenRelationship(package, source, relId);
        outcome := Ok(());
      case MissingSlideReference(slidePath) =>
        package := RepairMissingSlideReference(package, slidePath);
        outcome := Ok(());
      case OrphanSlide(slidePath) =>
        package := RepairOrphanSlide(package, slidePath);
        outcome := Ok(());
      case InvalidContentType(path) =>
        package := RepairInvalidContentType(package, path);
        outcome := Ok(());
      case CorruptedEntry(_, _) =>
        outcome := Err(Generic("Cannot repair corrupted entry"));
      case MissingNamespace(path, ns) =>
        package := RepairMissingNamespace(package, path, ns);
        outcome := Ok(());
      case EmptyRequiredElement(path, element) =>
        package := RepairEmptyElement(package, path, element);
        outcome := Ok(());
    }

    /** `repair_missing_part`: store the generated template, or fail for a part without one. */
    method RepairMissingPart(path: string) returns (outcome: Result<()>)
      modifies this
      ensures outcome.Ok? ==> RepairEdits.RepairMissingPart(old(package), path) == Ok(package)
      ensures outcome.Err? ==>
        package == old(package) && RepairEdits.RepairMissingPart(old(package), path) == Err(outcome.error)
      ensures issues == old(issues)
    {
      var generated := GeneratePart(path);
      match generated
      case None =>
        outcome := Err(Generic("Cannot generate part: " + path));
      case Some(content) =>
        package := package.Add(path, content);
        outcome := Ok(());
    }

    /** The match of `repair_missing_part`: the template for one of the four parts, if it is one. */
    method GeneratePart(path: string) returns (content: Option<string>)
      ensures content == GeneratedPart(package, path)
    {
      if path == CONTENT_TYPES_PART {
        var xml := GenerateContentTypes();
        content := Some(xml);
      } else if path == PACKAGE_RELS_PART {
        content := Some(PACKAGE_RELS_XML);
      } else if path == PRESENTATION_PART {
        content := Some(PRESENTATION_XML);
      } else if path == PRESENTATION_RELS_PART {
        content := Some(PRESENTATION_RELS_XML);
      } else {
        content := None;
      }
    }

    /** `repair_invalid_xml`: rewrite a present part with its repaired text. */
    method RepairInvalidXml(path: string)
      modifies this
      ensures package == RepairEdits.RepairInvalidXml(old(package), path)
      ensures issues == old(issues)
    {
      match package.Get(path)
      case None =>
      case Some(content) =>
        var repaired := AttemptXmlRepair(content);
        package := package.Add(path, repaired);
    }

    /**
     * `generate_content_types`: the fixed head, then an Override for every
     * XML part but the content types part itself, in part order, then the
     * closing tag.
     */
    method GenerateContentTypes() returns (content: string)
      ensures content == ContentTypesXml(package.order)
    {
      var overrides := OverridesOf(package.order);
      content := CONTENT_TYPES_HEAD + overrides + TYPES_CLOSE;
    }
  }

  /**
   * The package after `repair` has attempted `issues` in order: each issue's
   * repair applies to what the earlier ones left, and a failed one changes
   * nothing.
   */
  function RepairedPackage(pkg: Package, issues: seq<RepairIssue>): Package
    decreases |issues|
  {
    if issues == [] then pkg
    else
      AfterRepair(RepairedPackage(pkg, issues[..|issues| - 1]), issues[|issues| - 1])
  }

  /** The package after one attempted repair: unchanged when the repair fails. */
  function AfterRepair(pkg: Package, issue: RepairIssue): (r: Package)
    ensures pkg.Valid() ==> r.Valid()
  {
    match RepairIssueOn(pkg, issue)
    case Ok(q) => q
    case Err(_) => pkg
  }

  /** One more attempted issue: one more repair, and one more record on the side its outcome picks. */
  lemma AttemptStep(pkg: Package, issues: seq<RepairIssue>, i: nat)
    requires i < |issues|
    ensures RepairedPackage(pkg, issues[..i + 1]) == AfterRepair(RepairedPackage(pkg, issues[..i]), issues[i])
    ensures Succeeding(issues[..i + 1]) == Succeeding(issues[..i]) + (if RepairSucceeds(issues[i]) then [issues[i]] else [])
    ensures Failing(issues[..i + 1]) == Failing(issues[..i]) + (if RepairSucceeds(issues[i]) then [] else [issues[i]])
  {
    assert issues[..i + 1][..i] == issues[..i] && issues[..i + 1][i] == issues[i];
  }

  /** Repairing keeps a well-formed package well-formed, however many issues are attempted. */
  lemma {:induction false} RepairedValid(pkg: Package, issues: seq<RepairIssue>)
    ensures pkg.Valid() ==> RepairedPackage(pkg, issues).Valid()
    decreases |issues|
  {
    if issues != [] {
      RepairedValid(pkg, issues[..|issues| - 1]);
    }
  }

  /** The issues `repair` records as repaired, in the order attempted. */
  function Succeeding(issues: seq<RepairIssue>): (r: seq<RepairIssue>)
    ensures |r| <= |issues|
    ensures forall x :: x in r <==> x in issues && RepairSucceeds(x)
  {
    if issues == [] then []
    else
      var last := issues[|issues| - 1];
      Succeeding(issues[..|issues| - 1]) + (if RepairSucceeds(last) then [last] else [])
  }

  /** The issues `repair` records as unrepaired: not repairable, or the repair failed. */
  function Failing(issues: seq<RepairIssue>): (r: seq<RepairIssue>)
    ensures |r| <= |issues|
    ensures forall x :: x in r <==> x in issues && !RepairSucceeds(x)
  {
    if issues == [] then []
    else
      var last := issues[|issues| - 1];
      Failing(issues[..|issues| - 1]) + (if RepairSucceeds(last) then [] else [last])
  }

  /** Every issue validation reports is repaired: `repair` leaves none unrepaired. */
  lemma NothingUnrepaired(pkg: Package)
    ensures Failing(ValidationIssues(pkg)) == []
    ensures Succeeding(ValidationIssues(pkg)) == ValidationIssues(pkg)
  {
    var found := ValidationIssues(pkg);
    forall issue | issue in found {
      ValidationIssuesRepairable(pkg, issue);
    }
    AllSucceeding(found);
  }

  lemma {:induction false} AllSucceeding(issues: seq<RepairIssue>)
    requires forall x :: x in issues ==> RepairSucceeds(x)
    ensures Failing(issues) == [] && Succeeding(issues) == issues
  {
    if issues != [] {
      var init := issues[..|issues| - 1];
      assert issues == init + [issues[|issues| - 1]];
      AllSucceeding(init);
    }
  }

  /** Every attempted issue is recorded exactly once: as repaired or as unrepaired. */
  lemma {:induction false} RecordedOnce(issues: seq<RepairIssue>)
    ensures |Succeeding(issues)| + |Failing(issues)| == |issues|
  {
    if issues != [] {
      RecordedOnce(issues[..|issues| - 1]);
    }
  }

  /** The loop of `check_xml_validity` over the part paths. */
  method XmlIssuesOf(pkg: Package, paths: seq<string>) returns (found: seq<RepairIssue>)
    ensures found == XmlIssues(pkg, paths)
  {
    found := [];
    var i := 0;
    while i < |paths|
      invariant 0 <= i <= |paths|
      invariant found == XmlIssues(pkg, paths[..i])
    {
      var path := paths[i];
      XmlIssuesStep(pkg, paths, i);
      if IsXmlPath(path) {
        match pkg.Get(path)
        case None =>
        case Some(content) =>
          match ValidateXml(content)
          case None =>
          case Some(e) =>
            found := found + [InvalidXml(path, e)];
      }
      i := i + 1;
    }
    assert paths[..i] == paths;
  }

  lemma XmlIssuesStep(pkg: Package, paths: seq<string>, i: nat)
    requires i < |paths|
    ensures XmlIssues(pkg, paths[..i + 1]) == XmlIssues(pkg, paths[..i]) + XmlIssue(pkg, paths[i])
  {
    assert paths[..i + 1][..i] == paths[..i];
  }

  /** The loop of `check_content_types` over the part paths. */
  method ContentTypeIssuesOf(ct: string, paths: seq<string>) returns (found: seq<RepairIssue>)
    ensures found == ContentTypeIssuesFor(ct, paths)
  {
    found := [];
    var i := 0;
    while i < |paths|
      invariant 0 <= i <= |paths|
      invariant found == ContentTypeIssuesFor(ct, paths[..i])
    {
      var part := paths[i];
      ContentTypeIssuesStep(ct, paths, i);
      if part != CONTENT_TYPES_PART {
        var hasOverride := Contains(ct, OverrideAttr(part));
        var extension := Extension(part);
        var hasDefault := Contains(ct, DefaultAttr(extension));
        if !hasOverride && !hasDefault && !EndsWith(part, ".rels") {
          found := found + [InvalidContentType(part)];
        }
      }
      i := i + 1;
    }
    assert paths[..i] == paths;
  }

  lemma ContentTypeIssuesStep(ct: string, paths: seq<string>, i: nat)
    requires i < |paths|
    ensures ContentTypeIssuesFor(ct, paths[..i + 1]) == ContentTypeIssuesFor(ct, paths[..i]) + ContentTypeIssue(ct, paths[i])
  {
    assert paths[..i + 1][..i] == paths[..i];
  }

  /** The loop of `generate_content_types` over the part paths. */
  method OverridesOf(paths: seq<string>) returns (overrides: string)
    ensures overrides == Overrides(paths)
  {
    overrides := "";
    var i := 0;
    while i < |paths|
      invariant 0 <= i <= |paths|
      invariant overrides == Overrides(paths[..i])
    {
      var path := paths[i];
      if EndsWith(path, ".xml") && path != CONTENT_TYPES_PART {
        overrides := overrides + OverrideLine(path, InferContentType(path));
      }
      assert paths[..i + 1][..i] == paths[..i] && paths[..i + 1][i] == path;
      i := i + 1;
    }
    assert paths[..i] == paths;
  }

  /** The first loop of `check_slide_references`: references without a slide part. */
  method OrphansOf(refs: seq<string>, actual: seq<string>) returns (orphans: seq<RepairIssue>)
    ensures orphans == OrphanIssues(refs, actual)
  {
    orphans := [];
    var k := 0;
    while k < |refs|
      invariant 0 <= k <= |refs|
      invariant orphans == OrphanIssues(refs[..k], actual)
    {
      var path := refs[k];
      OrphansStep(refs, actual, k);
      if path !in actual {
        orphans := orphans + [OrphanSlide(path)];
      }
      k := k + 1;
    }
    assert refs[..k] == refs;
  }

  lemma OrphansStep(refs: seq<string>, actual: seq<string>, k: nat)
    requires k < |refs|
    ensures OrphanIssues(refs[..k + 1], actual)
      == OrphanIssues(refs[..k], actual) + (if refs[k] in actual then [] else [OrphanSlide(refs[k])])
  {
    assert refs[..k + 1][..k] == refs[..k];
  }

  /** The second loop of `check_slide_references`: slide parts nobody references. */
  method UnreferencedOf(actual: seq<string>, refs: seq<string>) returns (unreferenced: seq<RepairIssue>)
    ensures unreferenced == UnreferencedIssues(actual, refs)
  {
    unreferenced := [];
    var m := 0;
    while m < |actual|
      invariant 0 <= m <= |actual|
      invariant unreferenced == UnreferencedIssues(actual[..m], refs)
    {
      var path := actual[m];
      UnreferencedStep(actual, refs, m);
      if path !in refs {
        unreferenced := unreferenced + [MissingSlideReference(path)];
      }
      m := m + 1;
    }
    assert actual[..m] == actual;
  }

  lemma UnreferencedStep(actual: seq<string>, refs: seq<string>, m: nat)
    requires m < |actual|
    ensures UnreferencedIssues(actual[..m + 1], refs)
      == UnreferencedIssues(actual[..m], refs) + (if actual[m] in refs then [] else [MissingSlideReference(actual[m])])
  {
    assert actual[..m + 1][..m] == actual[..m];
  }

  /** The loop of `check_slide_references` over the presentation rels lines. */
  method ReferencedLines(lines: seq<string>) returns (referenced: seq<string>)
    ensures referenced == ReferencedFrom(lines, true)
  {
    referenced := [];
    var i := 0;
    while i < |lines|
      invariant 0 <= i <= |lines|
      invariant referenced == ReferencedFrom(lines[..i], true)
    {
      var line := lines[i];
      if Contains(line, "slide") && Contains(line, "Target=") {
        match ExtractAttribute(line, "Target")
        case None =>
        case Some(target) =>
          var full := if StartsWith(target, "/") then target[1..] else "ppt/" + target;
          if full !in referenced {
            referenced := referenced + [full];
          }
      }
      assert lines[..i + 1][..i] == lines[..i] && lines[..i + 1][i] == line;
      i := i + 1;
    }
    assert lines[..i] == lines;
  }

  /**
   * `attempt_xml_repair`: the declaration is put in front when the trimmed
   * text lacks one, then one pass copies the text, escaping every '&' that
   * does not open a known entity.
   */
  method AttemptXmlRepair(xml: string) returns (repaired: string)
    ensures repaired == XmlRepaired(xml)
  {
    var s := xml;
    if !StartsWith(Trim(s), "<?xml") {
      s := XML_DECL + "\n" + s;
    }
    assert s == WithDeclaration(xml);
    repaired := EscapeAmpersands(s);
  }

  /** The character pass of `attempt_xml_repair`. */
  method EscapeAmpersands(s: string) returns (result: string)
    ensures result == EscapeAmps(s)
  {
    result := [];
    var i := 0;
    assert s[0..] == s;
    while i < |s|
      invariant 0 <= i <= |s|
      invariant result + EscapeAmps(s[i..]) == EscapeAmps(s)
    {
      var piece, next := EscapeAt(s, i);
      result := result + piece;
      i := next;
    }
    assert s[|s|..] == [];
  }

  /** One character of the pass: copied, or an '&' with what follows it. */
  method EscapeAt(s: string, i: nat) returns (piece: string, next: nat)
    requires i < |s|
    ensures i < next <= |s| && piece + EscapeAmps(s[next..]) == EscapeAmps(s[i..])
  {
    if s[i] != '&' {
      piece, next := [s[i]], i + 1;
      EscapePlainStep(s, i);
    } else {
      var rest := s[i + 1..];
      var consumed;
      piece, consumed := ScanEntity(rest);
      EscapeAmpStep(s, i, piece, consumed);
      next := i + 1 + consumed;
    }
  }

  /**
   * The inner loop after an '&': collect entity characters until a ';', any
   * other character, the end, or the cap; then emit the kept entity, or
   * "&amp;" and what was collected (a ';' that closed it is consumed and dropped).
   */
  method ScanEntity(rest: string) returns (text: string, consumed: nat)
    ensures text == AmpStep(rest).0 && consumed == AmpStep(rest).1
  {
    var m := 0;
    while m < ENTITY_CAP && m < |rest| && IsEntityChar(rest[m])
      invariant m <= ENTITY_CAP && m <= |rest|
      invariant forall j :: 0 <= j < m ==> IsEntityChar(rest[j])
      invariant EntityRunFrom(rest, m) == EntityRun(rest)
    {
      m := m + 1;
    }
    assert m == EntityRun(rest);
    var closed := m < ENTITY_CAP && m < |rest| && rest[m] == ';';
    if closed && KnownName(rest[..m]) {
      text, consumed := "&" + rest[..m] + ";", m + 1;
    } else if closed {
      text, consumed := "&amp;" + rest[..m], m + 1;
    } else {
      text, consumed := "&amp;" + rest[..m], m;
    }
  }

  /** A plain character at position `i` is copied. */
  lemma EscapePlainStep(s: string, i: nat)
    requires i < |s| && s[i] != '&'
    ensures EscapeAmps(s[i..]) == [s[i]] + EscapeAmps(s[i + 1..])
  {
    var t := s[i..];
    assert t[0] == s[i] && t[1..] == s[i + 1..];
    EscapeFirst(t);
  }

  /** An '&' at position `i` takes its step: the text it emits, then the pass resumes after what it consumed. */
  lemma EscapeAmpStep(s: string, i: nat, text: string, n: nat)
    requires i < |s| && s[i] == '&'
    requires text == AmpStep(s[i + 1..]).0 && n == AmpStep(s[i + 1..]).1
    ensures i + 1 + n <= |s| && text + EscapeAmps(s[i + 1 + n..]) == EscapeAmps(s[i..])
  {
    var t := s[i..];
    assert t[0] == s[i] && t[1..] == s[i + 1..];
    EscapeFirst(t);
    assert t[1 + n..] == s[i + 1 + n..];
  }

  lemma EscapeFirst(t: string)
    requires |t| > 0
    ensures t[0] != '&' ==> EscapeAmps(t) == [t[0]] + EscapeAmps(t[1..])
    ensures t[0] == '&' ==> EscapeAmps(t) == AmpStep(t[1..]).0 + EscapeAmps(t[1 + AmpStep(t[1..]).1..])
  {
  }
}
