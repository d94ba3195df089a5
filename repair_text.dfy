/**
 * The text-level helpers of the repair engine (src/oxml/repair.rs): attribute
 * extraction, relationship target resolution, the highest-id scans and the
 * content-type guess for a part path.
 */
module RepairText {
  import opened Wrappers
  import opened Strings
  import opened PartPaths
  import opened XmlText

  // ---------------------------------------------------------------------
  // extract_attribute

  /** The value of the first `attr="…"` in `line`, up to the next double quote. */
  function ExtractAttribute(line: string, attr: string): (r: Option<string>)
    ensures r.Some? ==> '"' !in r.value && Contains(line, attr + "=\"" + r.value + "\"")
    ensures !Contains(line, attr + "=\"") ==> r.None?
  {
    var pattern := attr + "=\"";
    match Find(line, pattern)
    case None => None
    case Some(start) =>
      var valueStart := start + |pattern|;
      match Find(line[valueStart..], "\"")
      case None => None
      case Some(end) =>
        var v := line[valueStart..valueStart + end];
        ValueFound(line, pattern, start, end);
        OccursContains(line, attr + "=\"" + v + "\"", start);
        Some(v)
  }

  /** The text from a match of `pattern` to the first quote after it is the pattern, a quote-free value and the quote. */
  lemma ValueFound(line: string, pattern: string, start: nat, end: nat)
    requires OccursAt(line, pattern, start)
    requires Find(line[start + |pattern|..], "\"") == Some(end)
    ensures var v := line[start + |pattern|..start + |pattern| + end];
      '"' !in v && line[start..start + |pattern| + end + 1] == pattern + v + "\""
  {
    var vs := start + |pattern|;
    var tail := line[vs..];
    var v := line[vs..vs + end];
    forall m | 0 <= m < |v| ensures v[m] != '"' {
      assert !OccursAt(tail, "\"", m);
      OccursAtChar(tail, '"', m);
      assert v[m] == tail[m];
    }
    var w, want := line[start..vs + end + 1], pattern + v + "\"";
    forall n | 0 <= n < |w| ensures w[n] == want[n] {
      if n < |pattern| {
        assert line[start..start + |pattern|][n] == pattern[n];
      } else if n == |pattern| + end {
        OccursAtChar(tail, '"', end);
      }
    }
    assert |w| == |want|;
  }

  /** `extract_attribute` finds the value that follows the first `attr="` and runs up to the next quote. */
  lemma ExtractAttributeAt(line: string, attr: string, k: nat, v: string)
    requires Find(line, attr + "=\"") == Some(k)
    requires OccursAt(line, v + "\"", k + |attr| + 2)
    requires '"' !in v
    ensures ExtractAttribute(line, attr) == Some(v)
  {
    var a := k + |attr| + 2;
    var tail := line[a..];
    assert tail[..|v| + 1] == line[a..a + |v| + 1];
    QuoteEndsValue(tail, v);
    assert line[a..a + |v|] == tail[..|v|];
  }

  /** In a text that starts with `v"`, the first quote ends `v`. */
  lemma QuoteEndsValue(tail: string, v: string)
    requires OccursAt(tail, v + "\"", 0) && '"' !in v
    ensures Find(tail, "\"") == Some(|v|) && tail[..|v|] == v
  {
    assert tail[..|v| + 1] == v + "\"";
    assert OccursAt(tail, "\"", |v|) by {
      assert tail[|v|..|v| + 1] == [tail[|v|]];
    }
    forall j | 0 <= j < |v| ensures !OccursAt(tail, "\"", j) {
      assert tail[j] == v[j];
    }
    FindIs(tail, "\"", |v|);
    assert tail[..|v|] == tail[..|v| + 1][..|v|];
  }

  /**
   * Reading back an attribute written as `attr="v"`: when nothing before it
   * already reads as `attr="`, the value comes back unchanged.
   */
  lemma ExtractAttributeWritten(line: string, pre: string, attr: string, v: string, post: string)
    requires line == pre + Attr(attr, v) + post
    requires !Contains(pre + attr + "=", attr + "=\"")
    requires '"' !in v
    ensures ExtractAttribute(line, attr) == Some(v)
  {
    WrittenPatternFirst(line, pre, attr, v, post);
    WrittenValueAt(line, pre, attr, v, post);
    ExtractAttributeAt(line, attr, |pre|, v);
  }

  /** The written `attr="` is the first one in the line. */
  lemma WrittenPatternFirst(line: string, pre: string, attr: string, v: string, post: string)
    requires line == pre + Attr(attr, v) + post
    requires !Contains(pre + attr + "=", attr + "=\"")
    ensures Find(line, attr + "=\"") == Some(|pre|)
  {
    var pattern := attr + "=\"";
    var head := pre + attr + "=";
    assert OccursAt(line, pattern, |pre|) by {
      assert line[|pre|..|pre| + |pattern|] == pattern;
    }
    forall j | 0 <= j < |pre| ensures !OccursAt(line, pattern, j) {
      if OccursAt(line, pattern, j) {
        assert line[j..j + |pattern|] == head[j..j + |pattern|];
        OccursContains(head, pattern, j);
      }
    }
    FindIs(line, pattern, |pre|);
  }

  /** The written value and its closing quote follow the written `attr="`. */
  lemma WrittenValueAt(line: string, pre: string, attr: string, v: string, post: string)
    requires line == pre + Attr(attr, v) + post
    ensures OccursAt(line, v + "\"", |pre| + |attr| + 2)
  {
    assert line[|pre| + |attr| + 2..|pre| + |attr| + 2 + |v| + 1] == v + "\"";
  }

  // ---------------------------------------------------------------------
  // resolve_path

  /** The text before the last '/', or "" when there is none (`rsplit_once('/')`). */
  function DirName(path: string): (r: string)
    ensures |r| <= |path| && r == path[..|r|]
  {
    match LastIndexOf(path, '/')
    case None => ""
    case Some(k) => path[..k]
  }

  /**
   * The part a relationship target points at, seen from the rels part
   * `relsPath`: a leading '/' is absolute; otherwise the target is taken
   * relative to the directory that owns the rels part, and a leading "../"
   * climbs one directory (every leading "../" is stripped).
   */
  function ResolvePath(relsPath: string, target: string): string {
    if StartsWith(target, "/") then target[1..]
    else
      var relsDir := DirName(relsPath);
      var baseDir := TrimEndChar(Replace(relsDir, "_rels", ""), '/');
      if StartsWith(target, "../") then
        DirName(baseDir) + "/" + TrimStartMatches(target, "../")
      else if baseDir == "" then target
      else baseDir + "/" + target
  }

  lemma ResolveAbsolute(relsPath: string, t: string)
    ensures ResolvePath(relsPath, "/" + t) == t
  {
    assert ("/" + t)[1..] == t;
  }

  /** `LastIndexOf` finds a separator followed by a '/'-free tail. */
  lemma LastSlash(a: string, b: string)
    requires '/' !in b
    ensures LastIndexOf(a + "/" + b, '/') == Some(|a|)
  {
    var s := a + "/" + b;
    assert s[|a|] == '/';
    forall j | |a| < j < |s| ensures s[j] != '/' {
      assert s[j] == b[j - |a| - 1];
    }
    LastIndexIs(s, '/', |a|);
  }

  /** `Replace` leaves a prefix alone when no occurrence starts inside it. */
  lemma {:induction false} ReplaceKeepsPrefix(a: string, b: string, pat: string, rep: string)
    requires |pat| > 0
    requires forall j :: 0 <= j < |a| ==> !OccursAt(a + b, pat, j)
    ensures Replace(a + b, pat, rep) == a + Replace(b, pat, rep)
    decreases |a|
  {
    if a == [] {
      assert a + b == b;
    } else if |a + b| < |pat| {
      ReplaceAbsent(b, pat, rep);
    } else {
      NoOccurShift(a, b, pat);
      ReplaceKeepsPrefix(a[1..], b, pat, rep);
      ReplaceFirstKept(a, b, pat, rep);
    }
  }

  /** Dropping the first character of `a` keeps `a`'s positions free of `pat`. */
  lemma NoOccurShift(a: string, b: string, pat: string)
    requires |a| > 0
    requires forall j :: 0 <= j < |a| ==> !OccursAt(a + b, pat, j)
    ensures forall j :: 0 <= j < |a| - 1 ==> !OccursAt(a[1..] + b, pat, j)
  {
    var s := a + b;
    var t := s[1..];
    assert t == a[1..] + b;
    forall j | 0 <= j < |a| - 1 ensures !OccursAt(t, pat, j) {
      if OccursAt(t, pat, j) {
        assert OccursAt(s, t, 1);
        OccursInside(s, t, 1, pat, j);
      }
    }
  }

  /** `replace` copies a first character where `pat` does not start. */
  lemma ReplaceFirstKept(a: string, b: string, pat: string, rep: string)
    requires |pat| > 0 && |a| > 0 && |a + b| >= |pat| && !OccursAt(a + b, pat, 0)
    requires Replace(a[1..] + b, pat, rep) == a[1..] + Replace(b, pat, rep)
    ensures Replace(a + b, pat, rep) == a + Replace(b, pat, rep)
  {
    var s, t := a + b, a[1..] + b;
    ReplaceUnfoldKept(s, t, pat, rep);
    assert s[0] == a[0];
    ConsTail(a, Replace(b, pat, rep));
  }

  lemma ReplaceUnfoldKept(s: string, t: string, pat: string, rep: string)
    requires |pat| > 0 && |s| >= |pat| && !OccursAt(s, pat, 0) && t == s[1..]
    ensures Replace(s, pat, rep) == [s[0]] + Replace(t, pat, rep)
  {
  }

  /** The rels directory `relsDir` of a part directory `dir`, with "_rels" taken out, is `dir` again. */
  lemma BaseDirOf(relsDir: string, dir: string)
    requires relsDir == dir + "/_rels"
    requires |dir| > 0 && dir[|dir| - 1] != '/' && !Contains(dir, "_rels")
    ensures TrimEndChar(Replace(relsDir, "_rels", ""), '/') == dir
  {
    var a := dir + "/";
    assert relsDir == a + "_rels";
    RelsOnlyAtEnd(relsDir, dir);
    ReplaceKeepsPrefix(a, "_rels", "_rels", "");
    assert Replace("_rels", "_rels", "") == "";
    assert a + "" == a;
    assert a[..|a| - 1] == dir;
  }

  /** In `dir + "/_rels"`, "_rels" occurs only at the end when `dir` lacks it. */
  lemma RelsOnlyAtEnd(relsDir: string, dir: string)
    requires relsDir == dir + "/_rels"
    requires !Contains(dir, "_rels")
    ensures forall j :: 0 <= j < |dir| + 1 ==> !OccursAt(relsDir, "_rels", j)
  {
    forall j | 0 <= j && j + 5 <= |dir| ensures !OccursAt(relsDir, "_rels", j) {
      if OccursAt(relsDir, "_rels", j) {
        assert relsDir[j..j + 5] == dir[j..j + 5];
        OccursContains(dir, "_rels", j);
      }
    }
    forall j | 0 <= j <= |dir| < j + 5 ensures !OccursAt(relsDir, "_rels", j) {
      assert relsDir[|dir|] == '/';
      assert relsDir[j..j + 5][|dir| - j] == relsDir[|dir|];
    }
  }

  /**
   * A plain target in the rels part `relsPath` of directory `dir` resolves
   * inside `dir`.
   */
  lemma ResolveInDir(relsPath: string, dir: string, name: string, t: string)
    requires relsPath == dir + "/_rels/" + name
    requires |dir| > 0 && dir[|dir| - 1] != '/' && !Contains(dir, "_rels")
    requires '/' !in name
    requires !StartsWith(t, "/") && !StartsWith(t, "../")
    ensures ResolvePath(relsPath, t) == dir + "/" + t
  {
    var relsDir := dir + "/_rels";
    assert relsPath == relsDir + "/" + name;
    LastSlash(relsDir, name);
    assert relsPath[..|relsDir|] == relsDir;
    assert DirName(relsPath) == relsDir;
    BaseDirOf(relsDir, dir);
  }

  /** The package-level rels part "_rels/{name}" resolves targets from the package root. */
  lemma ResolveAtRoot(relsPath: string, name: string, t: string)
    requires relsPath == "_rels/" + name
    requires '/' !in name
    requires !StartsWith(t, "/") && !StartsWith(t, "../")
    ensures ResolvePath(relsPath, t) == t
  {
    assert relsPath == "_rels" + "/" + name;
    LastSlash("_rels", name);
    assert relsPath[..5] == "_rels";
    assert DirName(relsPath) == "_rels";
    assert Replace("_rels", "_rels", "") == "" by {
      assert "_rels"[..5] == "_rels" && "_rels"[5..] == "";
    }
  }

  /** A "../" target climbs one directory above `dir`. */
  lemma ResolveUp(relsPath: string, dir: string, name: string, t: string)
    requires relsPath == dir + "/_rels/" + name
    requires |dir| > 0 && dir[|dir| - 1] != '/' && !Contains(dir, "_rels")
    requires '/' !in name
    requires !StartsWith(t, "../")
    ensures ResolvePath(relsPath, "../" + t) == DirName(dir) + "/" + t
  {
    var relsDir := dir + "/_rels";
    assert relsPath == relsDir + "/" + name;
    LastSlash(relsDir, name);
    assert relsPath[..|relsDir|] == relsDir;
    assert DirName(relsPath) == relsDir;
    BaseDirOf(relsDir, dir);
    var up := "../" + t;
    assert up[..3] == "../" && up[..1] == ".";
    assert up[3..] == t;
    assert TrimStartMatches(up, "../") == t;
  }

  /** The presentation's own rels part resolves "slides/slide1.xml" to "ppt/slides/slide1.xml". */
  lemma ResolvePresentationSlide()
    ensures ResolvePath("ppt/_rels/presentation.xml.rels", "slides/slide1.xml") == "ppt/slides/slide1.xml"
  {
    SplitPresentationRels("ppt/_rels/presentation.xml.rels");
    PlainDir("ppt");
    PlainTarget("slides/slide1.xml");
    JoinPpt("slides/slide1.xml");
    ResolveInDir("ppt/_rels/presentation.xml.rels", "ppt", "presentation.xml.rels", "slides/slide1.xml");
  }

  lemma SplitPresentationRels(relsPath: string)
    requires relsPath == "ppt/_rels/presentation.xml.rels"
    ensures relsPath == "ppt" + "/_rels/" + "presentation.xml.rels" && '/' !in "presentation.xml.rels"
  {
    PresentationRelsWords();
    PresentationRelsName("presentation.xml.rels");
  }

  lemma PresentationRelsWords()
    ensures "ppt/_rels/presentation.xml.rels" == "ppt" + "/_rels/" + "presentation.xml.rels"
  {
  }

  lemma PresentationRelsName(name: string)
    requires name == "presentation.xml.rels"
    ensures '/' !in name
  {
    forall k | 0 <= k < |name| ensures name[k] != '/' {
    }
  }

  lemma JoinPpt(target: string)
    requires target == "slides/slide1.xml"
    ensures "ppt" + "/" + target == "ppt/slides/slide1.xml"
  {
  }

  /** A directory name without an underscore or a trailing '/' holds no "_rels". */
  lemma PlainDir(dir: string)
    requires |dir| > 0 && dir[|dir| - 1] != '/' && '_' !in dir
    ensures |dir| > 0 && dir[|dir| - 1] != '/' && !Contains(dir, "_rels")
  {
    MissingCharNotContained(dir, "_rels", 0);
  }

  /** A target starting with a letter is neither absolute nor "../"-relative. */
  lemma PlainTarget(target: string)
    requires |target| > 0 && 'a' <= target[0] <= 'z'
    ensures !StartsWith(target, "/") && !StartsWith(target, "../")
  {
    FirstCharNotPrefix(target, "/");
    FirstCharNotPrefix(target, "../");
  }

  /** The package rels part "_rels/.rels" resolves from the root. */
  lemma ResolvePackageRoot()
    ensures ResolvePath("_rels/.rels", "ppt/presentation.xml") == "ppt/presentation.xml"
  {
    assert "_rels/.rels" == "_rels/" + ".rels" && '/' !in ".rels";
    PlainTarget("ppt/presentation.xml");
    ResolveAtRoot("_rels/.rels", ".rels", "ppt/presentation.xml");
  }

  /** A slide's "../slideLayouts/…" target lands in "ppt/slideLayouts". */
  lemma ResolveSlideLayout()
    ensures ResolvePath("ppt/slides/_rels/slide1.xml.rels", "../slideLayouts/slideLayout1.xml")
         == "ppt/slideLayouts/slideLayout1.xml"
  {
    SplitSlideRels("ppt/slides/_rels/slide1.xml.rels");
    PlainDir("ppt/slides");
    SplitLayoutTarget("../slideLayouts/slideLayout1.xml");
    PlainTarget("slideLayouts/slideLayout1.xml");
    PptSlidesParent("ppt/slides");
    ResolveUp("ppt/slides/_rels/slide1.xml.rels", "ppt/slides", "slide1.xml.rels", "slideLayouts/slideLayout1.xml");
    JoinPptLayout("slideLayouts/slideLayout1.xml");
  }

  lemma SplitSlideRels(relsPath: string)
    requires relsPath == "ppt/slides/_rels/slide1.xml.rels"
    ensures relsPath == "ppt/slides" + "/_rels/" + "slide1.xml.rels" && '/' !in "slide1.xml.rels"
  {
  }

  lemma SplitLayoutTarget(target: string)
    requires target == "../slideLayouts/slideLayout1.xml"
    ensures target == "../" + "slideLayouts/slideLayout1.xml"
  {
  }

  lemma JoinPptLayout(rest: string)
    requires rest == "slideLayouts/slideLayout1.xml"
    ensures "ppt" + "/" + rest == "ppt/slideLayouts/slideLayout1.xml"
  {
  }

  lemma PptSlidesParent(dir: string)
    requires dir == "ppt/slides"
    ensures DirName(dir) == "ppt"
  {
    assert dir == "ppt" + "/" + "slides";
    LastSlash("ppt", "slides");
    assert dir[..3] == "ppt";
  }
  // ---------------------------------------------------------------------
  // attempt_xml_repair: the bare-ampersand scan

  /** Characters the scan collects after an '&' (`is_alphanumeric`, '#', 'x'). */
  predicate IsEntityChar(c: char) {
    IsAlphanumeric(c) || c == '#'
  }

  /** The scan stops collecting once "&" plus the collected characters exceeds 10 bytes. */
  const ENTITY_CAP: nat := 10

  /** How many entity characters the scan collects from the text after an '&'. */
  function EntityRun(r: string): (m: nat)
    ensures m <= ENTITY_CAP && m <= |r|
    ensures forall k :: 0 <= k < m ==> IsEntityChar(r[k])
    ensures m < ENTITY_CAP && m < |r| ==> !IsEntityChar(r[m])
  {
    EntityRunFrom(r, 0)
  }

  function EntityRunFrom(r: string, k: nat): (m: nat)
    requires k <= ENTITY_CAP && k <= |r|
    requires forall j :: 0 <= j < k ==> IsEntityChar(r[j])
    ensures k <= m <= ENTITY_CAP && m <= |r|
    ensures forall j :: 0 <= j < m ==> IsEntityChar(r[j])
    ensures m < ENTITY_CAP && m < |r| ==> !IsEntityChar(r[m])
    decreases ENTITY_CAP - k
  {
    if k == ENTITY_CAP || k == |r| || !IsEntityChar(r[k]) then k
    else EntityRunFrom(r, k + 1)
  }

  /** The entity names the scan keeps: the five predefined ones and numeric references. */
  predicate KnownName(t: string) {
    t == "amp" || t == "lt" || t == "gt" || t == "quot" || t == "apos" || (|t| > 0 && t[0] == '#')
  }

  /** The collected run is closed by a ';' the scan consumes. */
  predicate Closed(r: string) {
    var m := EntityRun(r);
    m < ENTITY_CAP && m < |r| && r[m] == ';'
  }

  /** An '&' followed by `r` opens a known entity that the scan keeps. */
  predicate KeptAmp(r: string) {
    Closed(r) && KnownName(r[..EntityRun(r)])
  }

  /**
   * What the scan emits for an '&' followed by `r`, and how many characters
   * of `r` it consumes, as written: an unknown name closed by ';' loses the ';'.
   */
  function AmpStep(r: string): (step: (string, nat))
    ensures step.1 == EntityRun(r) + (if Closed(r) then 1 else 0) && step.1 <= |r|
    ensures step.0 == if KeptAmp(r) then "&" + r[..step.1] else "&amp;" + r[..EntityRun(r)]
  {
    var m := EntityRun(r);
    if Closed(r) then
      if KnownName(r[..m]) then ("&" + r[..m] + ";", m + 1) else ("&amp;" + r[..m], m + 1)
    else ("&amp;" + r[..m], m)
  }

  /** The same step keeping the ';' of an unknown name. */
  function AmpStepFixed(r: string): (step: (string, nat))
    ensures step.1 <= |r|
    ensures step.0 == (if KeptAmp(r) then "&" else "&amp;") + r[..step.1]
  {
    var m := EntityRun(r);
    if Closed(r) then
      assert r[..m + 1] == r[..m] + ";";
      if KnownName(r[..m]) then ("&" + r[..m] + ";", m + 1) else ("&amp;" + r[..m] + ";", m + 1)
    else ("&amp;" + r[..m], m)
  }

  /** The bare-ampersand scan of `attempt_xml_repair`, as written. */
  function EscapeAmps(s: string): string
    decreases |s|
  {
    if s == [] then []
    else if s[0] != '&' then [s[0]] + EscapeAmps(s[1..])
    else
      var step := AmpStep(s[1..]);
      step.0 + EscapeAmps(s[1 + step.1..])
  }

  /** The scan with the ';' of an unknown name kept. */
  function EscapeAmpsFixed(s: string): string
    decreases |s|
  {
    if s == [] then []
    else if s[0] != '&' then [s[0]] + EscapeAmpsFixed(s[1..])
    else
      var step := AmpStepFixed(s[1..]);
      step.0 + EscapeAmpsFixed(s[1 + step.1..])
  }

  /**
   * The intended repair, stated position by position: "amp;" goes in after
   * every '&' that does not open a known entity, and nothing else changes.
   */
  function InsertAmp(s: string): (r: string)
    ensures |r| >= |s|
    decreases |s|
  {
    if s == [] then []
    else if s[0] == '&' && !KeptAmp(s[1..]) then "&amp;" + InsertAmp(s[1..])
    else [s[0]] + InsertAmp(s[1..])
  }

  /** Text without '&' passes through `InsertAmp` unchanged in front of the rest. */
  lemma {:induction false} InsertAmpNoAmpPrefix(a: string, b: string)
    requires '&' !in a
    ensures InsertAmp(a + b) == a + InsertAmp(b)
    decreases |a|
  {
    if a != [] {
      assert (a + b)[0] == a[0] && (a + b)[1..] == a[1..] + b;
      InsertAmpNoAmpPrefix(a[1..], b);
    } else {
      assert a + b == b;
    }
  }

  /** The corrected scan is exactly the positional insertion. */
  lemma {:induction false} EscapeAmpsFixedIsInsertAmp(s: string)
    ensures EscapeAmpsFixed(s) == InsertAmp(s)
    decreases |s|
  {
    if s != [] {
      if s[0] != '&' {
        EscapeAmpsFixedIsInsertAmp(s[1..]);
      } else {
        var r := s[1..];
        var n := AmpStepFixed(r).1;
        EscapeAmpsFixedIsInsertAmp(r[n..]);
        FixedAmpUnfold(s, r, n);
        InsertAmpUnfold(s, r);
        StepHasNoAmp(r);
        AmpCaseAgrees(EscapeAmpsFixed(s), InsertAmp(s), if KeptAmp(r) then "&" else "&amp;", r, n);
      }
    }
  }

  /** Sequence bookkeeping for one '&' step: both sides are `head`, the consumed text, and the rest. */
  lemma AmpCaseAgrees(fixed: string, inserted: string, head: string, r: string, n: nat)
    requires n <= |r| && '&' !in r[..n]
    requires fixed == head + r[..n] + EscapeAmpsFixed(r[n..])
    requires inserted == head + InsertAmp(r)
    requires EscapeAmpsFixed(r[n..]) == InsertAmp(r[n..])
    ensures fixed == inserted
  {
    InsertAmpSplit(r, n);
  }

  lemma InsertAmpSplit(r: string, n: nat)
    requires n <= |r| && '&' !in r[..n]
    ensures InsertAmp(r) == r[..n] + InsertAmp(r[n..])
  {
    var a, b := r[..n], r[n..];
    InsertAmpNoAmpPrefix(a, b);
    assert a + b == r;
  }

  lemma FixedAmpUnfold(s: string, r: string, n: nat)
    requires |s| > 0 && s[0] == '&' && r == s[1..] && n == AmpStepFixed(r).1
    ensures EscapeAmpsFixed(s) == (if KeptAmp(r) then "&" else "&amp;") + r[..n] + EscapeAmpsFixed(r[n..])
  {
    assert s[1 + n..] == r[n..];
  }

  lemma InsertAmpUnfold(s: string, r: string)
    requires |s| > 0 && s[0] == '&' && r == s[1..]
    ensures InsertAmp(s) == (if KeptAmp(r) then "&" else "&amp;") + InsertAmp(r)
  {
  }

  /** What one step consumes holds no '&'. */
  lemma StepHasNoAmp(r: string)
    ensures '&' !in r[..AmpStepFixed(r).1]
  {
    var n := AmpStepFixed(r).1;
    var m := EntityRun(r);
    forall k | 0 <= k < n ensures r[..n][k] != '&' {
      if k < m {
        assert IsEntityChar(r[k]);
      } else {
        assert r[k] == ';';
      }
    }
  }

  /** Text without '&' is left alone, by both scans. */
  lemma {:induction false} EscapeAmpsNoAmp(s: string)
    requires '&' !in s
    ensures EscapeAmps(s) == s && EscapeAmpsFixed(s) == s
    decreases |s|
  {
    if s != [] {
      EscapeAmpsNoAmp(s[1..]);
    }
  }

  /** A prefix without '&' is copied, and the scan carries on after it. */
  lemma {:induction false} EscapeAmpsNoAmpPrefix(a: string, b: string)
    requires '&' !in a
    ensures EscapeAmps(a + b) == a + EscapeAmps(b)
    decreases |a|
  {
    if a != [] {
      assert (a + b)[0] == a[0] && (a + b)[1..] == a[1..] + b;
      EscapeAmpsNoAmpPrefix(a[1..], b);
    } else {
      assert a + b == b;
    }
  }

  /** The '&' steps where the scan as written drops a ';': a closed name that is not a known entity. */
  predicate LosesSemicolon(r: string) {
    Closed(r) && !KnownName(r[..EntityRun(r)])
  }

  /** Text in which no '&' opens an unknown name closed by ';'. */
  predicate NoUnknownEntity(s: string) {
    forall i :: 0 <= i < |s| && s[i] == '&' ==> !LosesSemicolon(s[i + 1..])
  }

  lemma NoUnknownSuffix(s: string, n: nat)
    requires NoUnknownEntity(s) && n <= |s|
    ensures NoUnknownEntity(s[n..])
  {
    forall i | 0 <= i < |s[n..]| && s[n..][i] == '&' ensures !LosesSemicolon(s[n..][i + 1..]) {
      assert s[n..][i + 1..] == s[n + i + 1..];
    }
  }

  /**
   * Where no unknown name is closed by ';', the scan as written is the
   * intended repair: "amp;" after every '&' that does not open a known entity.
   */
  lemma {:induction false} EscapeAmpsAgrees(s: string)
    requires NoUnknownEntity(s)
    ensures EscapeAmps(s) == EscapeAmpsFixed(s) == InsertAmp(s)
    decreases |s|
  {
    EscapeAmpsFixedIsInsertAmp(s);
    if s != [] {
      if s[0] != '&' {
        NoUnknownSuffix(s, 1);
        EscapeAmpsAgrees(s[1..]);
      } else {
        assert !LosesSemicolon(s[0 + 1..]);
        var n := 1 + AmpStep(s[1..]).1;
        NoUnknownSuffix(s, n);
        EscapeAmpsAgrees(s[n..]);
      }
    }
  }

  /** A known entity such as "&amp;" or "&#169;" is kept as it is. */
  lemma KnownEntityKept(name: string, rest: string)
    requires 0 < |name| < ENTITY_CAP && KnownName(name)
    requires forall k :: 0 <= k < |name| ==> IsEntityChar(name[k])
    ensures EscapeAmps("&" + name + ";" + rest) == "&" + name + ";" + EscapeAmps(rest)
    ensures EscapeAmpsFixed("&" + name + ";" + rest) == "&" + name + ";" + EscapeAmpsFixed(rest)
  {
    var s := "&" + name + ";" + rest;
    var r := s[1..];
    assert r == name + ";" + rest;
    EntityRunIs(r, |name|);
    assert r[..|name|] == name;
    assert s[1 + |name| + 1..] == rest;
  }

  /** A run of `m` entity characters, ended by a non-entity character, is what the scan collects. */
  lemma EntityRunIs(r: string, m: nat)
    requires m < ENTITY_CAP && m < |r| && !IsEntityChar(r[m])
    requires forall k :: 0 <= k < m ==> IsEntityChar(r[k])
    ensures EntityRun(r) == m
  {
    EntityRunFromIs(r, 0, m);
  }

  lemma {:induction false} EntityRunFromIs(r: string, k: nat, m: nat)
    requires k <= m < ENTITY_CAP && m < |r| && !IsEntityChar(r[m])
    requires forall j :: 0 <= j < m ==> IsEntityChar(r[j])
    ensures EntityRunFrom(r, k) == m
    decreases m - k
  {
    if k < m {
      EntityRunFromIs(r, k + 1, m);
    }
  }

  /** An '&' followed by a character that cannot start a name or close one becomes "&amp;". */
  lemma BareAmpEscaped(rest: string)
    requires |rest| > 0 && !IsEntityChar(rest[0]) && rest[0] != ';'
    ensures EscapeAmps("&" + rest) == "&amp;" + EscapeAmps(rest)
  {
    var s := "&" + rest;
    assert s[1..] == rest;
    EntityRunIs(rest, 0);
    assert !Closed(rest);
    assert rest[..0] == [];
  }

  /** Between '&'-free texts, a bare '&' becomes "&amp;" and nothing else changes ("A & B" gives "A &amp; B"). */
  lemma BareAmpBetween(a: string, rest: string)
    requires '&' !in a && '&' !in rest
    requires |rest| > 0 && !IsEntityChar(rest[0]) && rest[0] != ';'
    ensures EscapeAmps(a + "&" + rest) == a + "&amp;" + rest
  {
    var t := "&" + rest;
    assert a + "&" + rest == a + t;
    EscapeAmpsNoAmpPrefix(a, t);
    BareAmpEscaped(rest);
    EscapeAmpsNoAmp(rest);
  }

  /**
   * As written, an unknown entity loses its ';': "&nbsp;" becomes "&amp;nbsp",
   * where the intended repair gives "&amp;nbsp;".
   */
  lemma UnknownEntityLosesSemicolon()
    ensures EscapeAmps("&nbsp;") == "&amp;nbsp"
    ensures InsertAmp("&nbsp;") == "&amp;nbsp;"
  {
    NbspAsWritten("&nbsp;");
    NbspFixed("&nbsp;");
  }

  lemma NbspAsWritten(s: string)
    requires s == "&nbsp;"
    ensures EscapeAmps(s) == "&amp;nbsp"
  {
    NbspRun(s, s[1..]);
  }

  lemma NbspFixed(s: string)
    requires s == "&nbsp;"
    ensures InsertAmp(s) == "&amp;nbsp;"
  {
    NbspRun(s, s[1..]);
    EscapeAmpsFixedIsInsertAmp(s);
  }

  /** After the '&' of "&nbsp;" the scan collects "nbsp", which is not a known name. */
  lemma NbspRun(s: string, r: string)
    requires s == "&nbsp;" && r == s[1..]
    ensures r == "nbsp;" && EntityRun(r) == 4 && r[..4] == "nbsp" && !KnownName("nbsp")
  {
    EntityRunIs(r, 4);
  }

  // ---------------------------------------------------------------------
  // find_max_rel_id and find_max_slide_id

  /** How many ASCII digits follow position `j`. */
  function DigitRunLen(s: string, j: nat): (d: nat)
    requires j <= |s|
    ensures j + d <= |s| && AllDigits(s[j..j + d]) && (j + d == |s| || !IsDigit(s[j + d]))
    decreases |s| - j
  {
    if j == |s| || !IsDigit(s[j]) then 0
    else
      var d := DigitRunLen(s, j + 1);
      assert s[j..j + 1 + d] == [s[j]] + s[j + 1..j + 1 + d];
      1 + d
  }

  /**
   * The number captured by a match of `prefix`, one or more digits, and a
   * closing quote, starting at `i`; None when there is no match there or the
   * number does not parse as a u32.  The prefixes used cannot overlap their
   * own matches, so the matches a left-to-right regex scan finds are exactly
   * the positions where this is defined.
   */
  function MatchAt(s: string, prefix: string, i: nat): (r: Option<nat>)
    ensures r.Some? ==> OccursAt(s, prefix, i) && r.value < U32_LIMIT
  {
    if !OccursAt(s, prefix, i) then None
    else
      var j := i + |prefix|;
      var d := DigitRunLen(s, j);
      if d > 0 && j + d < |s| && s[j + d] == '"' then ParseU32(s[j..j + d]) else None
  }

  /** The numbers of the matches that start before `n`, in text order. */
  function MatchValues(s: string, prefix: string, n: nat): (vs: seq<nat>)
    requires n <= |s|
  {
    if n == 0 then []
    else
      var rest := MatchValues(s, prefix, n - 1);
      match MatchAt(s, prefix, n - 1)
      case None => rest
      case Some(v) => rest + [v]
  }

  /** Every match before `n` contributes its value. */
  lemma {:induction false} MatchValuesHas(s: string, prefix: string, n: nat, i: nat)
    requires i < n <= |s| && MatchAt(s, prefix, i).Some?
    ensures MatchAt(s, prefix, i).value in MatchValues(s, prefix, n)
    decreases n
  {
    if i < n - 1 {
      MatchValuesHas(s, prefix, n - 1, i);
    }
  }

  /** Every value collected comes from a match before `n`. */
  lemma {:induction false} MatchValuesFrom(s: string, prefix: string, n: nat, v: nat) returns (i: nat)
    requires n <= |s| && v in MatchValues(s, prefix, n)
    ensures i < n && MatchAt(s, prefix, i) == Some(v)
    decreases n
  {
    var rest := MatchValues(s, prefix, n - 1);
    if v in rest {
      i := MatchValuesFrom(s, prefix, n - 1, v);
    } else {
      i := n - 1;
    }
  }

  /** `.max().unwrap_or(default)`. */
  function MaxOr(vs: seq<nat>, default: nat): (m: nat)
    ensures vs == [] ==> m == default
    ensures vs != [] ==> m in vs && forall v :: v in vs ==> v <= m
  {
    if vs == [] then default
    else if |vs| == 1 then vs[0]
    else
      var m := MaxOr(vs[..|vs| - 1], default);
      assert vs == vs[..|vs| - 1] + [vs[|vs| - 1]];
      if vs[|vs| - 1] > m then vs[|vs| - 1] else m
  }

  const REL_ID_PREFIX: string := "Id=\"rId"
  const SLIDE_ID_PREFIX: string := "<p:sldId id=\""

  /** `find_max_rel_id`: the largest `Id="rId<n>"`, or 0 when there is none. */
  function FindMaxRelId(xml: string): nat {
    MaxOr(MatchValues(xml, REL_ID_PREFIX, |xml|), 0)
  }

  /** `find_max_slide_id`: the largest `<p:sldId id="<n>"`, or 255 when there is none. */
  function FindMaxSlideId(xml: string): nat {
    MaxOr(MatchValues(xml, SLIDE_ID_PREFIX, |xml|), 255)
  }

  /** The scan's result is the default exactly when nothing matches, and bounds every match otherwise. */
  lemma FindMaxBounds(xml: string, prefix: string, default: nat)
    ensures var m := MaxOr(MatchValues(xml, prefix, |xml|), default);
      (forall i :: 0 <= i < |xml| && MatchAt(xml, prefix, i).Some? ==> MatchAt(xml, prefix, i).value <= m)
      && ((forall i :: 0 <= i < |xml| ==> MatchAt(xml, prefix, i).None?) ==> m == default)
      && ((exists i :: 0 <= i < |xml| && MatchAt(xml, prefix, i).Some?) ==>
            exists i :: 0 <= i < |xml| && MatchAt(xml, prefix, i) == Some(m))
  {
    var vs := MatchValues(xml, prefix, |xml|);
    forall i | 0 <= i < |xml| && MatchAt(xml, prefix, i).Some?
      ensures MatchAt(xml, prefix, i).value in vs
    {
      MatchValuesHas(xml, prefix, |xml|, i);
    }
    if vs != [] {
      var w := MatchValuesFrom(xml, prefix, |xml|, MaxOr(vs, default));
    }
  }

  /** The id the repair adds, one past the maximum, is used by no existing relationship. */
  lemma NextRelIdIsFresh(xml: string, i: nat)
    requires i < |xml|
    ensures MatchAt(xml, REL_ID_PREFIX, i) != Some(FindMaxRelId(xml) + 1)
    ensures MatchAt(xml, REL_ID_PREFIX, i).Some? ==> MatchAt(xml, REL_ID_PREFIX, i).value < FindMaxRelId(xml) + 1
  {
    FindMaxBounds(xml, REL_ID_PREFIX, 0);
  }

  /** The slide id the repair adds, one past the maximum, is used by no existing slide. */
  lemma NextSlideIdIsFresh(xml: string, i: nat)
    requires i < |xml|
    ensures MatchAt(xml, SLIDE_ID_PREFIX, i) != Some(FindMaxSlideId(xml) + 1)
    ensures MatchAt(xml, SLIDE_ID_PREFIX, i).Some? ==> MatchAt(xml, SLIDE_ID_PREFIX, i).value < FindMaxSlideId(xml) + 1
  {
    FindMaxBounds(xml, SLIDE_ID_PREFIX, 255);
  }

  lemma MatchAtRun(s: string, prefix: string, i: nat, d: nat)
    requires OccursAt(s, prefix, i) && i + |prefix| + d < |s|
    requires d > 0 && DigitRunLen(s, i + |prefix|) == d && s[i + |prefix| + d] == '"'
    ensures MatchAt(s, prefix, i) == ParseU32(s[i + |prefix|..i + |prefix| + d])
  {
  }

  /** A written `<prefix><n>"` is found by the scan with the value `n`. */
  lemma WrittenMatch(xml: string, prefix: string, i: nat, n: nat)
    requires n < U32_LIMIT
    requires OccursAt(xml, prefix, i) && OccursAt(xml, NatToString(n), i + |prefix|)
    requires i + |prefix| + |NatToString(n)| < |xml| && xml[i + |prefix| + |NatToString(n)|] == '"'
    ensures MatchAt(xml, prefix, i) == Some(n)
  {
    var digits := NatToString(n);
    var j := i + |prefix|;
    assert xml[j..j + |digits|] == digits;
    assert !IsDigit(xml[j + |digits|]);
    DigitRunLenIs(xml, j, |digits|);
    MatchAtRun(xml, prefix, i, |digits|);
    ParseU32Format(n);
    assert MatchAt(xml, prefix, i) == ParseU32(digits);
  }

  /** A written `Id="rId<n>"` counts, so the maximum is at least `n`. */
  lemma WrittenRelIdCounted(xml: string, i: nat, n: nat)
    requires n < U32_LIMIT
    requires OccursAt(xml, REL_ID_PREFIX, i) && OccursAt(xml, NatToString(n), i + |REL_ID_PREFIX|)
    requires i + |REL_ID_PREFIX| + |NatToString(n)| < |xml| && xml[i + |REL_ID_PREFIX| + |NatToString(n)|] == '"'
    ensures FindMaxRelId(xml) >= n
  {
    WrittenMatch(xml, REL_ID_PREFIX, i, n);
    FindMaxBounds(xml, REL_ID_PREFIX, 0);
  }

  lemma {:induction false} DigitRunLenIs(s: string, j: nat, d: nat)
    requires j + d < |s| && AllDigits(s[j..j + d]) && !IsDigit(s[j + d])
    ensures DigitRunLen(s, j) == d
    decreases d
  {
    if d > 0 {
      assert IsDigit(s[j..j + d][0]);
      assert s[j + 1..j + d] == s[j..j + d][1..];
      DigitRunLenIs(s, j + 1, d - 1);
    }
  }

  // ---------------------------------------------------------------------
  // infer_content_type

  const PML: string := "application/vnd.openxmlformats-" + "officedocument.presentationml."
  const CT_SLIDE: string := PML + "slide+xml"
  const CT_SLIDE_LAYOUT: string := PML + "slideLayout+xml"
  const CT_SLIDE_MASTER: string := PML + "slideMaster+xml"
  const CT_THEME: string := "application/vnd.openxmlformats-" + "officedocument.theme+xml"
  const CT_PRESENTATION: string := PML + "presentation.main+xml"
  const CT_XML: string := "application/xml"
  const CT_OCTET: string := "application/octet-stream"

  /** `infer_content_type` as written: any ".xml" path containing "slide" is given the slide type. */
  function InferContentType(path: string): (ct: string)
    ensures Contains(path, "slide") && EndsWith(path, ".xml") ==> ct == CT_SLIDE
  {
    if Contains(path, "slide") && EndsWith(path, ".xml") then CT_SLIDE
    else if Contains(path, "slideLayout") then CT_SLIDE_LAYOUT
    else if Contains(path, "slideMaster") then CT_SLIDE_MASTER
    else if Contains(path, "theme") then CT_THEME
    else if Contains(path, "presentation.xml") then CT_PRESENTATION
    else if EndsWith(path, ".xml") then CT_XML
    else CT_OCTET
  }

  /** The content type with the layout and master tests made before the slide test. */
  function InferContentTypeFixed(path: string): (ct: string)
    ensures Contains(path, "slideLayout") ==> ct == CT_SLIDE_LAYOUT
    ensures !Contains(path, "slideLayout") && Contains(path, "slideMaster") ==> ct == CT_SLIDE_MASTER
  {
    if Contains(path, "slideLayout") then CT_SLIDE_LAYOUT
    else if Contains(path, "slideMaster") then CT_SLIDE_MASTER
    else if Contains(path, "slide") && EndsWith(path, ".xml") then CT_SLIDE
    else if Contains(path, "theme") then CT_THEME
    else if Contains(path, "presentation.xml") then CT_PRESENTATION
    else if EndsWith(path, ".xml") then CT_XML
    else CT_OCTET
  }

  /**
   * As written, a layout part gets the slide content type; the corrected
   * order gives it the layout type.
   */
  lemma LayoutContentType(n: nat)
    ensures InferContentType(LayoutPath(n)) == CT_SLIDE
    ensures InferContentTypeFixed(LayoutPath(n)) == CT_SLIDE_LAYOUT
    ensures CT_SLIDE != CT_SLIDE_LAYOUT
  {
    LayoutPathParts(n);
    assert |CT_SLIDE| != |CT_SLIDE_LAYOUT|;
  }

  /** A layout path holds "slide" and "slideLayout" and ends in ".xml". */
  lemma LayoutPathParts(n: nat)
    ensures Contains(LayoutPath(n), "slide") && Contains(LayoutPath(n), "slideLayout")
    ensures EndsWith(LayoutPath(n), ".xml")
  {
    var p, d := LayoutPath(n), NatToString(n);
    LayoutWords();
    assert p == "ppt/slideLayouts/" + "slideLayout" + (d + ".xml");
    MiddleContained("ppt/slideLayouts/", "slideLayout", d + ".xml");
    PrefixContained(p, "slide", "Layout");
    SuffixEnds("ppt/slideLayouts/slideLayout" + d, ".xml");
  }

  lemma LayoutWords()
    ensures "ppt/slideLayouts/slideLayout" == "ppt/slideLayouts/" + "slideLayout"
    ensures "slideLayout" == "slide" + "Layout"
  {
  }

  /**
   * As written, a master part gets the slide content type; the corrected
   * order gives it the master type.
   */
  lemma MasterContentType(n: nat)
    ensures InferContentType(MasterPath(n)) == CT_SLIDE
    ensures InferContentTypeFixed(MasterPath(n)) == CT_SLIDE_MASTER
    ensures CT_SLIDE != CT_SLIDE_MASTER
  {
    MasterPathParts(n);
    MasterPathNotLayout(n);
    assert |CT_SLIDE| != |CT_SLIDE_MASTER|;
  }

  /** A master path holds "slide" and "slideMaster" and ends in ".xml". */
  lemma MasterPathParts(n: nat)
    ensures Contains(MasterPath(n), "slide") && Contains(MasterPath(n), "slideMaster")
    ensures EndsWith(MasterPath(n), ".xml")
  {
    var p, d := MasterPath(n), NatToString(n);
    MasterWords();
    assert p == "ppt/slideMasters/" + "slideMaster" + (d + ".xml");
    MiddleContained("ppt/slideMasters/", "slideMaster", d + ".xml");
    PrefixContained(p, "slide", "Master");
    SuffixEnds("ppt/slideMasters/slideMaster" + d, ".xml");
  }

  lemma MasterWords()
    ensures "ppt/slideMasters/slideMaster" == "ppt/slideMasters/" + "slideMaster"
    ensures "slideMaster" == "slide" + "Master"
  {
  }

  lemma MasterPathNotLayout(n: nat)
    ensures !Contains(MasterPath(n), "slideLayout")
  {
    DigitsLackLetter(NatToString(n), 'L');
    MissingCharNotContained(MasterPath(n), "slideLayout", 5);
  }

  /** Slide parts get the slide type in both versions. */
  lemma SlideContentType(n: nat)
    ensures InferContentType(SlidePath(n)) == CT_SLIDE
    ensures InferContentTypeFixed(SlidePath(n)) == CT_SLIDE
  {
    SlidePathParts(n);
    SlidePathLacksKinds(n);
  }

  /** A slide path holds "slide" and ends in ".xml". */
  lemma SlidePathParts(n: nat)
    ensures Contains(SlidePath(n), "slide") && EndsWith(SlidePath(n), ".xml")
  {
    var p, d := SlidePath(n), NatToString(n);
    SlideWords();
    assert p == "ppt/slides/" + "slide" + (d + ".xml");
    MiddleContained("ppt/slides/", "slide", d + ".xml");
    SuffixEnds("ppt/slides/slide" + d, ".xml");
  }

  lemma SlideWords()
    ensures "ppt/slides/slide" == "ppt/slides/" + "slide"
  {
  }

  /** A slide path holds neither "slideLayout" nor "slideMaster". */
  lemma SlidePathLacksKinds(n: nat)
    ensures !Contains(SlidePath(n), "slideLayout") && !Contains(SlidePath(n), "slideMaster")
  {
    var p := SlidePath(n);
    DigitsLackLetter(NatToString(n), 'L');
    DigitsLackLetter(NatToString(n), 'M');
    MissingCharNotContained(p, "slideLayout", 5);
    MissingCharNotContained(p, "slideMaster", 5);
  }
}
