/** The issues the repair engine reports, their severity, and the summary of a repair run. */
module RepairIssues {
  import opened Strings

  datatype RepairIssue =
    | MissingPart(path: string, description: string)
    | InvalidXml(path: string, error: string)
    | BrokenRelationship(source: string, target: string, relId: string)
    | MissingSlideReference(slidePath: string)
    | OrphanSlide(slidePath: string)
    | InvalidContentType(path: string)
    | CorruptedEntry(path: string, error: string)
    | MissingNamespace(path: string, namespace: string)
    | EmptyRequiredElement(path: string, element: string)

  /** Severity from 1 to 3, where 3 is critical. */
  function Severity(issue: RepairIssue): (r: nat)
    ensures 1 <= r <= 3
    ensures r == 3 <==> issue.MissingPart? || issue.InvalidXml? || issue.CorruptedEntry?
    ensures r == 1 <==> issue.OrphanSlide? || issue.EmptyRequiredElement?
  {
    match issue
    case MissingPart(_, _) => 3
    case InvalidXml(_, _) => 3
    case BrokenRelationship(_, _, _) => 2
    case MissingSlideReference(_) => 2
    case OrphanSlide(_) => 1
    case InvalidContentType(_) => 2
    case CorruptedEntry(_, _) => 3
    case MissingNamespace(_, _) => 2
    case EmptyRequiredElement(_, _) => 1
  }

  /** Whether the engine attempts a repair for this kind of issue. */
  function IsRepairable(issue: RepairIssue): (r: bool)
    ensures r <==> !issue.CorruptedEntry?
  {
    match issue
    case CorruptedEntry(_, _) => false
    case _ => true
  }

  /** The human-readable description; it names the part the issue is about. */
  function Description(issue: RepairIssue): (r: string)
    ensures HasPath(issue) ==> Contains(r, issue.path)
    ensures issue.MissingSlideReference? || issue.OrphanSlide? ==> Contains(r, issue.slidePath)
    ensures issue.BrokenRelationship? ==> Contains(r, issue.source) && Contains(r, issue.target)
  {
    match issue
    case MissingPart(path, description) =>
      Mentions("Missing required part '", path, "': " + description)
    case InvalidXml(path, error) =>
      Mentions("Invalid XML in '", path, "': " + error)
    case BrokenRelationship(source, target, relId) =>
      var tail := " (" + relId + ")";
      var r := "Broken relationship in '" + source + "': " + relId + " -> " + target + tail;
      assert r == Mentions("Broken relationship in '", source, "': " + relId + " -> " + target + tail);
      assert r == Mentions("Broken relationship in '" + source + "': " + relId + " -> ", target, tail);
      r
    case MissingSlideReference(slidePath) =>
      Mentions("Slide '", slidePath, "' exists but not referenced in presentation")
    case OrphanSlide(slidePath) =>
      Mentions("Orphan slide reference: '", slidePath, "' does not exist")
    case InvalidContentType(path) =>
      Mentions("Invalid or missing content type for '", path, "'")
    case CorruptedEntry(path, error) =>
      Mentions("Corrupted ZIP entry '", path, "': " + error)
    case MissingNamespace(path, namespace) =>
      Mentions("Missing namespace '" + namespace + "' in '", path, "'")
    case EmptyRequiredElement(path, element) =>
      Mentions("Empty required element '" + element + "' in '", path, "'")
  }

  /** The kinds of issue that carry a `path` field. */
  predicate HasPath(issue: RepairIssue) {
    issue.MissingPart? || issue.InvalidXml? || issue.InvalidContentType? || issue.CorruptedEntry?
    || issue.MissingNamespace? || issue.EmptyRequiredElement?
  }

  /** A message with `x` spliced in between `before` and `after`. */
  function Mentions(before: string, x: string, after: string): (r: string)
    ensures r == before + x + after && Contains(r, x)
  {
    assert (before + x + after)[|before|..|before| + |x|] == x;
    OccursContains(before + x + after, x, |before|);
    before + x + after
  }

  /** The outcome of `repair`. */
  datatype RepairResult = RepairResult(
    issuesFound: seq<RepairIssue>,
    issuesRepaired: seq<RepairIssue>,
    issuesUnrepaired: seq<RepairIssue>,
    isValid: bool)

  function NewResult(): (r: RepairResult)
    ensures r.issuesFound == [] && r.issuesRepaired == [] && r.issuesUnrepaired == [] && r.isValid
    ensures TotalIssues(r) == 0 && FullyRepaired(r)
  {
    RepairResult([], [], [], true)
  }

  function TotalIssues(r: RepairResult): nat {
    |r.issuesFound|
  }

  /** The number of issues of severity 3 among `issues`. */
  function CountCritical(issues: seq<RepairIssue>): (n: nat)
    ensures n <= |issues|
    ensures n == 0 <==> forall i :: 0 <= i < |issues| ==> Severity(issues[i]) < 3
    ensures n == |issues| <==> forall i :: 0 <= i < |issues| ==> Severity(issues[i]) == 3
  {
    if issues == [] then 0
    else (if Severity(issues[0]) == 3 then 1 else 0) + CountCritical(issues[1..])
  }

  function CriticalIssues(r: RepairResult): nat {
    CountCritical(r.issuesFound)
  }

  lemma {:induction false} CountCriticalAppend(a: seq<RepairIssue>, b: seq<RepairIssue>)
    ensures CountCritical(a + b) == CountCritical(a) + CountCritical(b)
  {
    if a != [] {
      assert (a + b)[1..] == a[1..] + b && (a + b)[0] == a[0];
      CountCriticalAppend(a[1..], b);
    } else {
      assert a + b == b;
    }
  }

  function FullyRepaired(r: RepairResult): bool {
    r.issuesUnrepaired == []
  }
}
