/**
 * The string operations of Rust's `str` that the modelled code relies on:
 * prefix/suffix tests, `find`, `contains`, `replace`, `lines`, `trim`,
 * `trim_start_matches`, `split_once`, decimal formatting of integers and
 * `parse::<u32>()`.  Strings are sequences of characters.
 */
module Strings {
  import opened Wrappers

  // ---------------------------------------------------------------------
  // Prefixes, suffixes and occurrences

  predicate StartsWith(s: string, p: string) {
    |p| <= |s| && s[..|p|] == p
  }

  predicate EndsWith(s: string, p: string) {
    |p| <= |s| && s[|s| - |p|..] == p
  }

  /** `pat` occurs in `s` starting at index `i`. */
  predicate OccursAt(s: string, pat: string, i: nat) {
    i + |pat| <= |s| && s[i..i + |pat|] == pat
  }

  /** A one-character pattern occurs exactly where that character is. */
  lemma OccursAtChar(s: string, c: char, m: nat)
    requires m < |s|
    ensures OccursAt(s, [c], m) <==> s[m] == c
  {
    assert s[m..m + 1][0] == s[m];
    if s[m] == c {
      assert s[m..m + 1] == [c];
    }
  }

  /** The first index at or after `i` where `pat` occurs (`str::find` on `s[i..]`, shifted). */
  function FindFrom(s: string, pat: string, i: nat): (r: Option<nat>)
    ensures r.Some? ==> i <= r.value && OccursAt(s, pat, r.value)
    ensures r.Some? ==> forall j :: i <= j < r.value ==> !OccursAt(s, pat, j)
    ensures r.None? ==> forall j :: i <= j ==> !OccursAt(s, pat, j)
    decreases |s| - i
  {
    if i + |pat| > |s| then None
    else if OccursAt(s, pat, i) then Some(i)
    else FindFrom(s, pat, i + 1)
  }

  /** `str::find`: the least index where `pat` occurs. */
  function Find(s: string, pat: string): Option<nat> {
    FindFrom(s, pat, 0)
  }

  /** `str::contains`. */
  predicate Contains(s: string, pat: string) {
    Find(s, pat).Some?
  }

  lemma ContainsIff(s: string, pat: string)
    ensures Contains(s, pat) <==> exists i: nat :: OccursAt(s, pat, i)
  {
  }

  lemma OccursContains(s: string, pat: string, i: nat)
    requires OccursAt(s, pat, i)
    ensures Contains(s, pat)
  {
  }

  lemma {:induction false} ContainsConcat(a: string, b: string, pat: string)
    requires Contains(a, pat) || Contains(b, pat)
    ensures Contains(a + b, pat)
  {
    if Contains(a, pat) {
      var i := Find(a, pat).value;
      assert (a + b)[i..i + |pat|] == a[i..i + |pat|];
      OccursContains(a + b, pat, i);
    } else {
      var i := Find(b, pat).value;
      assert (a + b)[|a| + i..|a| + i + |pat|] == b[i..i + |pat|];
      OccursContains(a + b, pat, |a| + i);
    }
  }

  /** Where `a + b` occurs, `a` occurs too. */
  lemma PrefixContained(s: string, a: string, b: string)
    requires Contains(s, a + b)
    ensures Contains(s, a)
  {
    var i := Find(s, a + b).value;
    assert s[i..i + |a|] == s[i..i + |a| + |b|][..|a|];
    OccursContains(s, a, i);
  }

  /** What occurs in an occurrence of `t` occurs in the text. */
  lemma ContainsTrans(s: string, t: string, u: string)
    requires Contains(s, t) && Contains(t, u)
    ensures Contains(s, u)
  {
    var i := Find(s, t).value;
    var j := Find(t, u).value;
    OccursInside(s, t, i, u, j);
    OccursContains(s, u, i + j);
  }

  /** An occurrence inside an occurrence is an occurrence in the whole text. */
  lemma OccursInside(s: string, t: string, i: nat, u: string, j: nat)
    requires OccursAt(s, t, i) && OccursAt(t, u, j)
    ensures OccursAt(s, u, i + j)
  {
    forall k | 0 <= k < |u|
      ensures s[i + j + k] == u[k]
    {
      assert u[k] == t[j..j + |u|][k] == t[j + k];
      assert t[j + k] == s[i..i + |t|][j + k] == s[i + j + k];
    }
    assert s[i + j..i + j + |u|] == u;
  }

  /** Where `a + b + c` occurs, `b` occurs too. */
  lemma InfixContained(s: string, a: string, b: string, c: string)
    requires Contains(s, a + b + c)
    ensures Contains(s, b)
  {
    var i := Find(s, a + b + c).value;
    assert (a + b + c)[|a|..|a| + |b|] == b;
    OccursInside(s, a + b + c, i, b, |a|);
    OccursContains(s, b, i + |a|);
  }

  /** The middle of a concatenation occurs in it. */
  lemma MiddleContained(a: string, b: string, c: string)
    ensures Contains(a + b + c, b)
  {
    assert (a + b + c)[|a|..|a| + |b|] == b;
    OccursContains(a + b + c, b, |a|);
  }

  /** A text is its first character followed by the rest. */
  lemma ConsTail(a: string, r: string)
    requires |a| > 0
    ensures [a[0]] + (a[1..] + r) == a + r
  {
    assert a == [a[0]] + a[1..];
  }

  /** A concatenation ends with its last part. */
  lemma SuffixEnds(a: string, c: string)
    ensures EndsWith(a + c, c)
  {
    assert (a + c)[|a|..] == c;
  }

  /** An occurrence that starts in the second part of a concatenation lies inside it. */
  lemma OccursInSuffix(a: string, b: string, pat: string, j: nat)
    requires |a| <= j && OccursAt(a + b, pat, j)
    ensures OccursAt(b, pat, j - |a|)
  {
    var s := a + b;
    forall k | 0 <= k < |pat| ensures b[j - |a| + k] == pat[k] {
      assert pat[k] == s[j..j + |pat|][k] == s[j + k];
    }
    assert b[j - |a|..j - |a| + |pat|] == pat;
  }

  /** `pat` cannot start inside `a` when its first character is not in `a`. */
  lemma FirstCharAbsentConcat(a: string, b: string, pat: string)
    requires |pat| > 0 && pat[0] !in a && !Contains(b, pat)
    ensures !Contains(a + b, pat)
  {
    ContainsIff(b, pat);
    forall j: nat | j + |pat| <= |a + b| ensures !OccursAt(a + b, pat, j) {
      if j < |a| {
        assert a[j] in a;
        assert (a + b)[j..j + |pat|][0] == a[j];
      } else if OccursAt(a + b, pat, j) {
        OccursInSuffix(a, b, pat, j);
      }
    }
  }

  /** `pat` cannot start at a character whose successor differs from `pat[1]`. */
  lemma SecondCharMismatch(c: char, b: string, pat: string)
    requires |pat| > 1 && |b| > 0 && b[0] != pat[1] && !Contains(b, pat)
    ensures !Contains([c] + b, pat)
  {
    ContainsIff(b, pat);
    forall j: nat | j + |pat| <= |b| + 1 ensures !OccursAt([c] + b, pat, j) {
      if j == 0 {
        assert ([c] + b)[1] == b[0];
        assert ([c] + b)[..|pat|][1] == b[0];
      } else if OccursAt([c] + b, pat, j) {
        OccursInSuffix([c], b, pat, j);
      }
    }
  }

  /** A string whose first character differs from the first of `p` does not start with `p`. */
  lemma FirstCharNotPrefix(s: string, p: string)
    requires |s| > 0 && |p| > 0 && s[0] != p[0]
    ensures !StartsWith(s, p)
  {
    if |p| <= |s| {
      assert s[..|p|][0] == s[0];
    }
  }

  /** A pattern with a character that `s` lacks does not occur in `s`. */
  lemma MissingCharNotContained(s: string, pat: string, k: nat)
    requires k < |pat| && pat[k] !in s
    ensures !Contains(s, pat)
  {
  }

  /** No `x` is immediately followed by `y` in `s`. */
  predicate NoBigram(s: string, x: char, y: char) {
    forall j :: 0 <= j < |s| - 1 ==> !(s[j] == x && s[j + 1] == y)
  }

  /** A pattern holding a pair of adjacent characters that `s` never has does not occur in `s`. */
  lemma MissingBigramNotContained(s: string, pat: string, k: nat)
    requires k + 1 < |pat| && NoBigram(s, pat[k], pat[k + 1])
    ensures !Contains(s, pat)
  {
  }

  lemma NoBigramConcat(a: string, b: string, x: char, y: char)
    requires NoBigram(a, x, y) && NoBigram(b, x, y)
    requires |a| > 0 && |b| > 0 ==> !(a[|a| - 1] == x && b[0] == y)
    ensures NoBigram(a + b, x, y)
  {
    var s := a + b;
    forall j | 0 <= j < |s| - 1 ensures !(s[j] == x && s[j + 1] == y) {
      if j + 1 < |a| {
        assert s[j] == a[j] && s[j + 1] == a[j + 1];
      } else if j >= |a| {
        assert s[j] == b[j - |a|] && s[j + 1] == b[j + 1 - |a|];
      } else {
        assert s[j] == a[|a| - 1] && s[j + 1] == b[0];
      }
    }
  }

  /** `find` returns the first occurrence. */
  lemma FindIs(s: string, pat: string, k: nat)
    requires OccursAt(s, pat, k)
    requires forall j :: 0 <= j < k ==> !OccursAt(s, pat, j)
    ensures Find(s, pat) == Some(k)
  {
  }

  /** A prefix `a` that holds no occurrence of `pat`, not even one reaching into `b`, is skipped by `find`. */
  lemma {:induction false} FindSkipsPrefix(a: string, b: string, pat: string)
    requires forall j :: 0 <= j < |a| ==> !OccursAt(a + b, pat, j)
    ensures Find(a + b, pat) == match Find(b, pat) case None => None case Some(k) => Some(|a| + k)
  {
    var s := a + b;
    forall j: nat | OccursAt(b, pat, j) ensures OccursAt(s, pat, |a| + j) {
      assert s[|a| + j..|a| + j + |pat|] == b[j..j + |pat|];
    }
    forall j: nat | |a| <= j && OccursAt(s, pat, j) ensures OccursAt(b, pat, j - |a|) {
      assert s[j..j + |pat|] == b[j - |a|..j - |a| + |pat|];
    }
  }

  /** The last index of character `c` in `s` (`str::rfind` with a char pattern). */
  function LastIndexOf(s: string, c: char): (r: Option<nat>)
    ensures r.Some? ==> r.value < |s| && s[r.value] == c && forall j :: r.value < j < |s| ==> s[j] != c
    ensures r.None? ==> forall j :: 0 <= j < |s| ==> s[j] != c
  {
    LastIndexBefore(s, c, |s|)
  }

  /** The last index of `c` among the first `n` characters of `s`. */
  function LastIndexBefore(s: string, c: char, n: nat): (r: Option<nat>)
    requires n <= |s|
    ensures r.Some? ==> r.value < n && s[r.value] == c && forall j :: r.value < j < n ==> s[j] != c
    ensures r.None? ==> forall j :: 0 <= j < n ==> s[j] != c
  {
    if n == 0 then None
    else if s[n - 1] == c then Some(n - 1)
    else LastIndexBefore(s, c, n - 1)
  }

  /** `rfind` returns the last occurrence. */
  lemma LastIndexIs(s: string, c: char, k: nat)
    requires k < |s| && s[k] == c
    requires forall j :: k < j < |s| ==> s[j] != c
    ensures LastIndexOf(s, c) == Some(k)
  {
  }

  // ---------------------------------------------------------------------
  // replace, split_once, insert before a tag

  /** `str::replace`: every non-overlapping occurrence, left to right. */
  function Replace(s: string, pat: string, rep: string): string
    requires |pat| > 0
    decreases |s|
  {
    if |s| < |pat| then s
    else if s[..|pat|] == pat then rep + Replace(s[|pat|..], pat, rep)
    else [s[0]] + Replace(s[1..], pat, rep)
  }

  lemma {:induction false} ReplaceAbsent(s: string, pat: string, rep: string)
    requires |pat| > 0 && !Contains(s, pat)
    ensures Replace(s, pat, rep) == s
    decreases |s|
  {
    if |s| >= |pat| {
      assert !OccursAt(s, pat, 0);
      forall j: nat | OccursAt(s[1..], pat, j) ensures OccursAt(s, pat, j + 1) {
        assert s[1..][j..j + |pat|] == s[j + 1..j + 1 + |pat|];
      }
      ReplaceAbsent(s[1..], pat, rep);
    }
  }

  lemma {:induction false} ReplacePlacesRep(s: string, pat: string, rep: string)
    requires |pat| > 0 && Contains(s, pat)
    ensures Contains(Replace(s, pat, rep), rep)
    decreases |s|
  {
    if s[..|pat|] == pat {
      OccursContains(rep + Replace(s[|pat|..], pat, rep), rep, 0);
    } else {
      var k := Find(s, pat).value;
      assert k > 0;
      assert s[1..][k - 1..k - 1 + |pat|] == s[k..k + |pat|];
      OccursContains(s[1..], pat, k - 1);
      ReplacePlacesRep(s[1..], pat, rep);
      ContainsConcat([s[0]], Replace(s[1..], pat, rep), rep);
    }
  }

  /** `str::split_once`: the text before and after the first occurrence of `pat`. */
  function SplitOnce(s: string, pat: string): (r: Option<(string, string)>)
    ensures r.Some? <==> Contains(s, pat)
    ensures r.Some? ==> r.value.0 + pat + r.value.1 == s && (|pat| > 0 ==> !Contains(r.value.0, pat))
  {
    match Find(s, pat)
    case None => None
    case Some(k) =>
      var before, after := s[..k], s[k + |pat|..];
      assert before + pat + after == s;
      assert |pat| > 0 ==> !Contains(before, pat) by {
        if |pat| > 0 && Contains(before, pat) {
          var j := Find(before, pat).value;
          assert before[j..j + |pat|] == s[j..j + |pat|];
          assert OccursAt(s, pat, j);
        }
      }
      Some((before, after))
  }

  /**
   * `s.find(tag)` followed by `insert_str` at that index: `ins` goes just before the
   * first occurrence of `tag`; without one, `s` is returned unchanged.
   */
  function InsertBefore(s: string, tag: string, ins: string): (r: string)
    ensures !Contains(s, tag) ==> r == s
    ensures Contains(s, tag) ==> |r| == |s| + |ins| && Contains(r, ins)
  {
    match Find(s, tag)
    case None => s
    case Some(k) =>
      OccursContains(s[..k] + ins + s[k..], ins, k);
      s[..k] + ins + s[k..]
  }

  // ---------------------------------------------------------------------
  // lines and join

  function StripCR(l: string): string {
    if |l| > 0 && l[|l| - 1] == '\r' then l[..|l| - 1] else l
  }

  /**
   * `str::lines`: split at "\n", drop a "\r" just before each "\n", and
   * produce no empty last line for a trailing line break.
   */
  function Lines(s: string): seq<string>
    decreases |s|
  {
    if s == [] then []
    else match Find(s, "\n")
      case None => [s]
      case Some(k) => [StripCR(s[..k])] + Lines(s[k + 1..])
  }

  /** The first line of a text whose first line break follows `a`. */
  lemma LinesCons(s: string, a: string, b: string)
    requires s == a + "\n" + b && '\n' !in a
    ensures Lines(s) == [StripCR(a)] + Lines(b)
  {
    assert OccursAt(s, "\n", |a|) by {
      assert s[|a|..|a| + 1] == "\n";
    }
    forall j | 0 <= j < |a| ensures !OccursAt(s, "\n", j) {
      assert s[j] == a[j];
      assert s[j..j + 1][0] == s[j];
    }
    FindIs(s, "\n", |a|);
    assert s[..|a|] == a;
    assert s[|a| + 1..] == b;
  }

  /** A text without line breaks is one line. */
  lemma LinesSingle(s: string)
    requires s != [] && '\n' !in s
    ensures Lines(s) == [s]
  {
    forall j: nat | j + 1 <= |s| ensures !OccursAt(s, "\n", j) {
      assert s[j..j + 1][0] == s[j];
    }
  }

  /** Each line preceded by a line break, as a loop of `push_str("\n…")` builds it. */
  function BrokenLines(ls: seq<string>): string {
    if ls == [] then "" else BrokenLines(ls[..|ls| - 1]) + "\n" + ls[|ls| - 1]
  }

  lemma {:induction false} BrokenLinesCons(ls: seq<string>)
    requires ls != []
    ensures BrokenLines(ls) == "\n" + ls[0] + BrokenLines(ls[1..])
    decreases |ls|
  {
    if |ls| > 1 {
      var init := ls[..|ls| - 1];
      assert init[0] == ls[0] && init[1..] == ls[1..][..|ls[1..]| - 1];
      BrokenLinesCons(init);
    } else {
      assert ls[..0] == [] && ls[1..] == [];
    }
  }

  /** A line that `lines` gives back as it is. */
  predicate PlainLine(l: string) {
    '\n' !in l && (|l| > 0 ==> l[|l| - 1] != '\r')
  }

  lemma LinesTwo(head: string, last: string)
    requires PlainLine(head) && PlainLine(last) && last != []
    ensures Lines(head + "\n" + last) == [head, last]
  {
    LinesCons(head + "\n" + last, head, last);
    LinesSingle(last);
  }

  lemma LinesStep(s: string, head: string, rest: string)
    requires s == head + "\n" + rest && PlainLine(head)
    ensures Lines(s) == [head] + Lines(rest)
  {
    LinesCons(s, head, rest);
  }

  lemma BrokenLinesSplit(head: string, ls: seq<string>, last: string)
    requires ls != []
    ensures head + BrokenLines(ls) + "\n" + last == head + "\n" + (ls[0] + BrokenLines(ls[1..]) + "\n" + last)
  {
    BrokenLinesCons(ls);
  }

  /** `lines` splits a text built from plain lines back into those lines. */
  lemma {:induction false} LinesOfBroken(head: string, ls: seq<string>, last: string)
    requires PlainLine(head) && PlainLine(last) && last != []
    requires forall i :: 0 <= i < |ls| ==> PlainLine(ls[i])
    ensures Lines(head + BrokenLines(ls) + "\n" + last) == [head] + ls + [last]
    decreases |ls|
  {
    if ls == [] {
      assert head + BrokenLines(ls) + "\n" + last == head + "\n" + last;
      LinesTwo(head, last);
    } else {
      LinesOfBroken(ls[0], ls[1..], last);
      LinesOfBrokenStep(head, ls, last);
    }
  }

  /** One line of `LinesOfBroken`: the head line, then the lines of the rest. */
  lemma LinesOfBrokenStep(head: string, ls: seq<string>, last: string)
    requires PlainLine(head) && ls != []
    requires Lines(ls[0] + BrokenLines(ls[1..]) + "\n" + last) == ls + [last]
    ensures Lines(head + BrokenLines(ls) + "\n" + last) == [head] + ls + [last]
  {
    BrokenLinesSplit(head, ls, last);
    LinesStep(head + BrokenLines(ls) + "\n" + last, head, ls[0] + BrokenLines(ls[1..]) + "\n" + last);
  }

  /** A text made of a first line, a head line, broken lines and a last line. */
  function Document(first: string, head: string, ls: seq<string>, last: string): string {
    first + "\n" + head + BrokenLines(ls) + "\n" + last
  }

  /** Appending a line break, an indentation and a line to a text built as `head + b`. */
  lemma AppendIndented(x: string, head: string, b: string, ind: string, line: string)
    requires x == head + b
    ensures x + "\n" + ind + line == head + (b + "\n" + (ind + line))
  {
  }

  lemma DocumentShape(first: string, head: string, ls: seq<string>, last: string)
    ensures Document(first, head, ls, last) == (first + "\n" + head) + BrokenLines(ls) + "\n" + last
  {
  }

  /** Every line of `ls` is plain. */
  predicate AllPlain(ls: seq<string>) {
    forall i :: 0 <= i < |ls| ==> PlainLine(ls[i])
  }

  /** The three fixed lines around a document's body are plain, the last one non-empty. */
  predicate PlainFrame(first: string, head: string, last: string) {
    PlainLine(first) && PlainLine(head) && PlainLine(last) && last != []
  }

  /** Splitting such a document into lines gives its lines back. */
  lemma LinesOfDocument(first: string, head: string, ls: seq<string>, last: string)
    requires PlainFrame(first, head, last) && AllPlain(ls)
    ensures Lines(Document(first, head, ls, last)) == [first, head] + ls + [last]
  {
    var doc := Document(first, head, ls, last);
    LinesOfDocumentNested(doc, first, head, ls, last);
    SeqShape(first, head, ls, last);
  }

  lemma LinesOfDocumentNested(doc: string, first: string, head: string, ls: seq<string>, last: string)
    requires doc == first + "\n" + head + BrokenLines(ls) + "\n" + last
    requires PlainLine(first) && PlainLine(head) && PlainLine(last) && last != []
    requires forall i :: 0 <= i < |ls| ==> PlainLine(ls[i])
    ensures Lines(doc) == [first] + ([head] + ls + [last])
  {
    var rest := head + BrokenLines(ls) + "\n" + last;
    DocumentSplit(doc, first, rest, head, ls, last);
    LinesStep(doc, first, rest);
    LinesOfBroken(head, ls, last);
  }

  lemma DocumentSplit(doc: string, first: string, rest: string, head: string, ls: seq<string>, last: string)
    requires doc == first + "\n" + head + BrokenLines(ls) + "\n" + last
    requires rest == head + BrokenLines(ls) + "\n" + last
    ensures doc == first + "\n" + rest
  {
  }

  lemma SeqShape<T>(a: T, b: T, s: seq<T>, c: T)
    ensures [a] + ([b] + s + [c]) == [a, b] + s + [c]
  {
  }

  /** `[..].join(sep)`. */
  function Join(parts: seq<string>, sep: string): string {
    if |parts| == 0 then ""
    else if |parts| == 1 then parts[0]
    else parts[0] + sep + Join(parts[1..], sep)
  }

  /** Whatever a line of the text holds, the text holds too. */
  lemma {:induction false} LineContained(s: string, i: nat, pat: string)
    requires i < |Lines(s)| && Contains(Lines(s)[i], pat)
    ensures Contains(s, pat)
    decreases |s|
  {
    match Find(s, "\n")
    case None =>
    case Some(k) =>
      LinesAtBreak(s, k);
      if i == 0 {
        HeadContained(s, k, pat);
      } else {
        var tail := s[k + 1..];
        assert Lines(tail)[i - 1] == Lines(s)[i];
        LineContained(tail, i - 1, pat);
        assert s[k + 1..|s|] == tail;
        SliceContained(s, k + 1, |s|, pat);
      }
  }

  /** The first line break of a text ends its first line. */
  lemma LinesAtBreak(s: string, k: nat)
    requires Find(s, "\n") == Some(k)
    ensures k < |s| && Lines(s) == [StripCR(s[..k])] + Lines(s[k + 1..])
  {
    assert OccursAt(s, "\n", k) && s != [];
  }

  /** What the first line holds, the text holds. */
  lemma HeadContained(s: string, k: nat, pat: string)
    requires k <= |s| && Contains(StripCR(s[..k]), pat)
    ensures Contains(s, pat)
  {
    StripCRContained(s[..k], pat);
    assert s[0..k] == s[..k];
    SliceContained(s, 0, k, pat);
  }

  lemma StripCRContained(l: string, pat: string)
    requires Contains(StripCR(l), pat)
    ensures Contains(l, pat)
  {
    assert StripCR(l) == l[0..|StripCR(l)|];
    SliceContained(l, 0, |StripCR(l)|, pat);
  }

  /** What a slice holds, the whole holds. */
  lemma SliceContained(s: string, a: nat, b: nat, pat: string)
    requires a <= b <= |s| && Contains(s[a..b], pat)
    ensures Contains(s, pat)
  {
    var j := Find(s[a..b], pat).value;
    assert OccursAt(s, s[a..b], a);
    OccursInside(s, s[a..b], a, pat, j);
    OccursContains(s, pat, a + j);
  }

  /** A pattern without a line break cannot span the break between two lines. */
  lemma NewlineSplitsMatches(a: string, b: string, pat: string)
    requires '\n' !in pat && !Contains(a, pat) && !Contains(b, pat)
    ensures !Contains(a + "\n" + b, pat)
  {
    var s := a + "\n" + b;
    ContainsIff(a, pat);
    ContainsIff(b, pat);
    forall i: nat | i + |pat| <= |s| ensures !OccursAt(s, pat, i) {
      if i + |pat| <= |a| {
        assert s[i..i + |pat|] == a[i..i + |pat|];
        assert !OccursAt(a, pat, i);
      } else if i > |a| {
        if OccursAt(s, pat, i) {
          OccursInSuffix(a + "\n", b, pat, i);
        }
      } else {
        assert s[i..i + |pat|][|a| - i] == s[|a|] == '\n';
      }
    }
    ContainsIff(s, pat);
  }

  /** Lines joined with line breaks hold a pattern without a break only if one of the lines does. */
  lemma {:induction false} JoinLacks(ls: seq<string>, pat: string)
    requires |pat| > 0 && '\n' !in pat
    requires forall i :: 0 <= i < |ls| ==> !Contains(ls[i], pat)
    ensures !Contains(Join(ls, "\n"), pat)
    decreases |ls|
  {
    if |ls| >= 2 {
      JoinLacks(ls[1..], pat);
      NewlineSplitsMatches(ls[0], Join(ls[1..], "\n"), pat);
    }
  }

  /**
   * `lines` splits lines joined with "\n" back into those lines, when none holds a
   * line break or ends in "\r" and the last is not empty.
   */
  lemma {:induction false} LinesOfJoin(ls: seq<string>)
    requires ls != [] && AllPlain(ls) && ls[|ls| - 1] != []
    ensures Lines(Join(ls, "\n")) == ls
    decreases |ls|
  {
    if |ls| == 1 {
      LinesSingle(ls[0]);
    } else {
      LinesOfJoin(ls[1..]);
      LinesStep(Join(ls, "\n"), ls[0], Join(ls[1..], "\n"));
    }
  }

  /** `[..].concat()`, and a string pushed piece by piece. */
  function Concat(parts: seq<string>): string {
    if |parts| == 0 then "" else Concat(parts[..|parts| - 1]) + parts[|parts| - 1]
  }

  lemma {:induction false} ConcatCons(p: string, parts: seq<string>)
    ensures Concat([p] + parts) == p + Concat(parts)
    decreases |parts|
  {
    if parts != [] {
      var init := parts[..|parts| - 1];
      ConcatCons(p, init);
      assert ([p] + parts)[..|parts|] == [p] + init;
    }
  }

  lemma ConcatSnoc(parts: seq<string>, p: string)
    ensures Concat(parts + [p]) == Concat(parts) + p
  {
    assert (parts + [p])[..|parts|] == parts;
  }

  // ---------------------------------------------------------------------
  // Characters: whitespace, digits, letters, case

  /** `char::is_whitespace`: the Unicode White_Space characters. */
  predicate IsWhitespace(c: char) {
    c == ' ' || ('\t' <= c <= '\r') || c == '\U{0085}' || c == '\U{00A0}' || c == '\U{1680}'
    || ('\U{2000}' <= c <= '\U{200A}') || c == '\U{2028}' || c == '\U{2029}' || c == '\U{202F}'
    || c == '\U{205F}' || c == '\U{3000}'
  }

  predicate IsDigit(c: char) { '0' <= c <= '9' }

  predicate IsAsciiLetter(c: char) { 'a' <= c <= 'z' || 'A' <= c <= 'Z' }

  /** `char::is_alphanumeric`, restricted to ASCII. */
  predicate IsAlphanumeric(c: char) { IsDigit(c) || IsAsciiLetter(c) }

  function LowerChar(c: char): char {
    if 'A' <= c <= 'Z' then (c as int + 32) as char else c
  }

  function UpperChar(c: char): char {
    if 'a' <= c <= 'z' then (c as int - 32) as char else c
  }

  /** `str::to_lowercase` on ASCII letters. */
  function ToLower(s: string): (r: string)
    ensures |r| == |s| && forall i :: 0 <= i < |s| ==> r[i] == LowerChar(s[i])
  {
    if s == [] then [] else [LowerChar(s[0])] + ToLower(s[1..])
  }

  /** `str::to_uppercase` on ASCII letters. */
  function ToUpper(s: string): (r: string)
    ensures |r| == |s| && forall i :: 0 <= i < |s| ==> r[i] == UpperChar(s[i])
  {
    if s == [] then [] else [UpperChar(s[0])] + ToUpper(s[1..])
  }

  // ---------------------------------------------------------------------
  // trim, trim_start_matches, trim_end_matches

  function TrimStart(s: string): (r: string)
    ensures |r| <= |s| && r == s[|s| - |r|..]
    ensures forall i :: 0 <= i < |s| - |r| ==> IsWhitespace(s[i])
    ensures |r| > 0 ==> !IsWhitespace(r[0])
  {
    if |s| > 0 && IsWhitespace(s[0]) then TrimStart(s[1..]) else s
  }

  function TrimEnd(s: string): (r: string)
    ensures |r| <= |s| && r == s[..|r|]
    ensures forall i :: |r| <= i < |s| ==> IsWhitespace(s[i])
    ensures |r| > 0 ==> !IsWhitespace(r[|r| - 1])
  {
    if |s| > 0 && IsWhitespace(s[|s| - 1]) then TrimEnd(s[..|s| - 1]) else s
  }

  /** `str::trim`. */
  function Trim(s: string): string {
    TrimEnd(TrimStart(s))
  }

  /** `str::trim_start_matches` with a string pattern: strip the pattern as often as it leads. */
  function TrimStartMatches(s: string, pat: string): (r: string)
    requires |pat| > 0
    ensures |r| <= |s| && r == s[|s| - |r|..] && !StartsWith(r, pat)
    decreases |s|
  {
    if StartsWith(s, pat) then TrimStartMatches(s[|pat|..], pat) else s
  }

  /** `str::trim_end_matches` with a char pattern. */
  function TrimEndChar(s: string, c: char): (r: string)
    ensures |r| <= |s| && r == s[..|r|] && (|r| > 0 ==> r[|r| - 1] != c)
  {
    if |s| > 0 && s[|s| - 1] == c then TrimEndChar(s[..|s| - 1], c) else s
  }

  // ---------------------------------------------------------------------
  // Decimal numbers

  function DigitChar(d: nat): char
    requires d < 10
  {
    ('0' as int + d) as char
  }

  function DigitValue(c: char): nat
    requires IsDigit(c)
  {
    c as int - '0' as int
  }

  predicate AllDigits(s: string) {
    forall i :: 0 <= i < |s| ==> IsDigit(s[i])
  }

  /** The value of a run of decimal digits. */
  function DigitsValue(s: string): nat
    requires AllDigits(s)
  {
    if s == [] then 0 else DigitsValue(s[..|s| - 1]) * 10 + DigitValue(s[|s| - 1])
  }

  /** `format!("{}", n)` for a non-negative integer. */
  function NatToString(n: nat): (r: string)
    ensures |r| > 0 && AllDigits(r)
  {
    if n < 10 then [DigitChar(n)] else NatToString(n / 10) + [DigitChar(n % 10)]
  }

  lemma {:induction false} NatToStringValue(n: nat)
    ensures DigitsValue(NatToString(n)) == n
  {
    if n >= 10 {
      var s := NatToString(n);
      assert s[..|s| - 1] == NatToString(n / 10);
      NatToStringValue(n / 10);
    }
  }

  lemma NatToStringInjective(a: nat, b: nat)
    requires NatToString(a) == NatToString(b)
    ensures a == b
  {
    NatToStringValue(a);
    NatToStringValue(b);
  }

  const U32_LIMIT: nat := 0x1_0000_0000

  /**
   * `str::parse::<u32>()`: an optional '+', then one or more ASCII digits whose
   * value fits in 32 bits.
   */
  function ParseU32(s: string): (r: Option<nat>)
    ensures r.Some? ==> r.value < U32_LIMIT
  {
    var d := if |s| > 0 && s[0] == '+' then s[1..] else s;
    if |d| == 0 || !AllDigits(d) then None
    else if DigitsValue(d) < U32_LIMIT then Some(DigitsValue(d))
    else None
  }

  lemma ParseU32Format(n: nat)
    requires n < U32_LIMIT
    ensures ParseU32(NatToString(n)) == Some(n)
  {
    NatToStringValue(n);
  }

  /** The values of a Rust `u32`. */
  type U32 = n: nat | n < U32_LIMIT

  const I32_LIMIT: nat := 0x8000_0000

  /** The values of a Rust `i32`. */
  type I32 = i: int | -(I32_LIMIT as int) <= i < I32_LIMIT

  /** `format!("{}", i)` for any integer: a '-' before the digits of a negative one. */
  function IntToString(i: int): (r: string)
    ensures |r| > 0 && (i >= 0 <==> r[0] != '-')
  {
    if i < 0 then "-" + NatToString(-i) else NatToString(i)
  }

  /** `str::parse::<i32>()`: an optional sign, then digits whose value fits in 32 signed bits. */
  function ParseI32(s: string): (r: Option<int>)
    ensures r.Some? ==> -(I32_LIMIT as int) <= r.value < I32_LIMIT
  {
    if |s| > 0 && s[0] == '-' then
      var d := s[1..];
      if |d| == 0 || !AllDigits(d) || DigitsValue(d) > I32_LIMIT then None else Some(-(DigitsValue(d) as int))
    else match ParseU32(s)
      case Some(n) => if n < I32_LIMIT then Some(n) else None
      case None => None
  }

  lemma ParseI32Format(i: I32)
    ensures ParseI32(IntToString(i)) == Some(i as int)
  {
    var s := IntToString(i);
    var m := -(i as int);
    if i < 0 {
      assert s[1..] == NatToString(m);
      NatToStringValue(m);
    } else {
      ParseU32Format(i);
    }
  }

  const I64_LIMIT: nat := 0x8000_0000_0000_0000

  /** The values of a Rust `i64`. */
  type I64 = i: int | -(I64_LIMIT as int) <= i < I64_LIMIT

  /** `str::parse::<i64>()`: an optional sign, then one or more ASCII digits whose value fits in 64 bits. */
  function ParseI64(s: string): (r: Option<int>)
    ensures r.Some? ==> -(I64_LIMIT as int) <= r.value < I64_LIMIT
  {
    var negative := |s| > 0 && s[0] == '-';
    var d := if |s| > 0 && (s[0] == '-' || s[0] == '+') then s[1..] else s;
    if |d| == 0 || !AllDigits(d) then None
    else if negative then (if DigitsValue(d) <= I64_LIMIT then Some(-(DigitsValue(d) as int)) else None)
    else if DigitsValue(d) < I64_LIMIT then Some(DigitsValue(d) as int)
    else None
  }

  /** A number written by `format!` reads back as itself. */
  lemma ParseI64Format(i: I64)
    ensures ParseI64(IntToString(i)) == Some(i as int)
  {
    var s := IntToString(i);
    if i < 0 {
      var m := -(i as int);
      assert s[1..] == NatToString(m);
      NatToStringValue(m);
    } else {
      NatToStringValue(i);
      assert s[0] != '-' && s[0] != '+' by {
        assert IsDigit(s[0]);
      }
    }
  }

  /** The number of digits a text starts with. */
  function LeadingDigits(s: string): (k: nat)
    ensures k <= |s| && (k < |s| ==> !IsDigit(s[k]))
    ensures forall i :: 0 <= i < k ==> IsDigit(s[i])
  {
    if s == [] || !IsDigit(s[0]) then 0 else 1 + LeadingDigits(s[1..])
  }

  /** Digits followed by a non-digit: the leading run is exactly the digits. */
  lemma LeadingDigitsOf(d: string, t: string)
    requires AllDigits(d) && (t == [] || !IsDigit(t[0]))
    ensures LeadingDigits(d + t) == |d|
  {
    var k := LeadingDigits(d + t);
    assert forall i :: 0 <= i < |d| ==> IsDigit((d + t)[i]);
    assert |d| < |d + t| ==> !IsDigit((d + t)[|d|]);
  }

  /** Characters are digits from `i` up to (not including) `j`, and `j` ends the run. */
  predicate DigitRunAt(s: string, i: nat, j: nat) {
    i < j <= |s| && AllDigits(s[i..j]) && (j == |s| || !IsDigit(s[j]))
  }

  // ---------------------------------------------------------------------
  // Proof helpers on texts and sequences
  // ---------------------------------------------------------------------

  /** Appending to a text built as `head + done`. */
  lemma AppendStep(x: string, head: string, done: string, next: string, whole: string)
    requires x == head + done && whole == done + next
    ensures x + next == head + whole
  {
  }

  /** `p` does not occur at `j` when the text differs from it `d` characters in. */
  lemma NotAt(s: string, p: string, j: nat, d: nat)
    requires j + |p| <= |s| && d < |p| && s[j + d] != p[d]
    ensures !OccursAt(s, p, j)
  {
    assert s[j..j + |p|][d] == s[j + d];
  }

  /** Splitting where the first occurrence is. */
  lemma SplitAt(s: string, pat: string, k: nat)
    requires Find(s, pat) == Some(k)
    ensures k + |pat| <= |s| && SplitOnce(s, pat) == Some((s[..k], s[k + |pat|..]))
  {
  }

  /** A text that neither starts nor ends with white space is its own trim. */
  lemma Unpadded(s: string)
    requires s != [] && !IsWhitespace(s[0]) && !IsWhitespace(s[|s| - 1])
    ensures Trim(s) == s
  {
    assert TrimStart(s) == s;
  }

  /** No occurrence anywhere: nothing to split on. */
  lemma NoneFound(s: string, pat: string)
    requires |pat| > 0 && forall j :: 0 <= j <= |s| - |pat| ==> !OccursAt(s, pat, j)
    ensures SplitOnce(s, pat) == None
  {
  }

  lemma PrefixOfPrefix<T>(a: seq<T>, b: seq<T>, c: seq<T>)
    requires |a| <= |b| <= |c| && b[..|a|] == a && c[..|b|] == b
    ensures c[..|a|] == a
  {
    assert c[..|a|] == c[..|b|][..|a|];
  }

  lemma SnocAt<T>(a: seq<T>, x: T, i: nat)
    requires i <= |a|
    ensures (a + [x])[i] == if i < |a| then a[i] else x
  {
  }

  lemma SliceLeft<T>(a: seq<T>, b: seq<T>, lo: nat, hi: nat)
    requires lo <= hi <= |a|
    ensures (a + b)[lo..hi] == a[lo..hi]
  {
  }

  lemma SliceRight<T>(a: seq<T>, b: seq<T>)
    ensures (a + b)[|a|..|a| + |b|] == b
  {
  }
}
