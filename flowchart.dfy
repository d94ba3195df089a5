/**
 * Mermaid flowcharts (src/cli/markdown/mermaid/flowchart.rs): the direction,
 * arrows, arrow labels and node definitions of a line, the subgraph colours,
 * and the line-by-line parse.
 */
module Flowcharts {
  import opened Wrappers
  import opened Strings
  import opened MermaidTypes
  import MermaidDetect
  import Themes

  // ---------------------------------------------------------------------
  // Direction
  // ---------------------------------------------------------------------

  /** `parse_direction`: LR, then RL, then BT are looked for in the upper-cased line; the default is top to bottom. */
  function ParseDirection(firstLine: string): (d: FlowDirection)
    ensures var u := ToUpper(firstLine);
            && (d == LeftToRight <==> Contains(u, "LR"))
            && (d == RightToLeft <==> !Contains(u, "LR") && Contains(u, "RL"))
            && (d == BottomToTop <==> !Contains(u, "LR") && !Contains(u, "RL") && Contains(u, "BT"))
  {
    var line := ToUpper(firstLine);
    if Contains(line, "LR") then LeftToRight
    else if Contains(line, "RL") then RightToLeft
    else if Contains(line, "BT") then BottomToTop
    else TopToBottom
  }

  /** Case does not matter: a line and its lower-cased form give the same direction. */
  lemma DirectionIgnoresCase(line: string)
    ensures ParseDirection(ToLower(line)) == ParseDirection(line)
  {
    assert ToUpper(ToLower(line)) == ToUpper(line) by {
      forall i | 0 <= i < |line| ensures ToUpper(ToLower(line))[i] == ToUpper(line)[i] {
        assert ToLower(line)[i] == LowerChar(line[i]);
      }
    }
  }

  // ---------------------------------------------------------------------
  // Arrows
  // ---------------------------------------------------------------------

  /** The arrows, in the order a line is searched for them. */
  const ARROWS: seq<string> := ["==>", "-.->", "-->", "---", "->"]

  /** The style each arrow of ARROWS stands for. */
  function StyleOf(k: nat): ArrowStyle
    requires k < |ARROWS|
  {
    [Thick, Dotted, Arrow, Open, Arrow][k]
  }

  /** The first arrow, from index `k` on, that occurs anywhere in the line. */
  function FirstArrow(line: string, k: nat): (r: Option<nat>)
    requires k <= |ARROWS|
    ensures r.Some? ==> k <= r.value < |ARROWS| && Contains(line, ARROWS[r.value])
    ensures r.Some? ==> forall j :: k <= j < r.value ==> !Contains(line, ARROWS[j])
    ensures r.None? ==> forall j :: k <= j < |ARROWS| ==> !Contains(line, ARROWS[j])
    decreases |ARROWS| - k
  {
    if k == |ARROWS| then None
    else if Contains(line, ARROWS[k]) then Some(k)
    else FirstArrow(line, k + 1)
  }

  /**
   * `split_connection`: at the first occurrence of the first arrow (in ARROWS order)
   * the line contains, the trimmed text before it and the rest from the arrow on.
   */
  function SplitConnection(line: string): (r: Option<(string, string)>)
    ensures r.None? <==> forall j :: 0 <= j < |ARROWS| ==> !Contains(line, ARROWS[j])
    ensures r.Some? ==>
              var a, rest := ARROWS[FirstArrow(line, 0).value], r.value.1;
              && |rest| <= |line| && line == line[..|line| - |rest|] + rest
              && r.value.0 == Trim(line[..|line| - |rest|])
              && StartsWith(rest, a) && !Contains(line[..|line| - |rest|], a)
  {
    match FirstArrow(line, 0)
    case None => None
    case Some(k) =>
      var a := ARROWS[k];
      var pos := Find(line, a).value;
      assert line == line[..pos] + line[pos..];
      assert StartsWith(line[pos..], a) by {
        assert line[pos..][..|a|] == line[pos..pos + |a|];
      }
      assert !Contains(line[..pos], a) by {
        if Contains(line[..pos], a) {
          var j := Find(line[..pos], a).value;
          assert line[..pos][j..j + |a|] == line[j..j + |a|];
          assert OccursAt(line, a, j);
        }
      }
      assert line[..|line| - |line[pos..]|] == line[..pos];
      Some((Trim(line[..pos]), line[pos..]))
  }

  /** `split_connection` as written: a loop over the arrows that returns at the first one found. */
  method SplitConnectionLoop(line: string) returns (r: Option<(string, string)>)
    ensures r == SplitConnection(line)
  {
    var arrows := ARROWS;
    for k := 0 to |arrows|
      invariant arrows == ARROWS
      invariant FirstArrow(line, 0) == FirstArrow(line, k)
    {
      var found := Find(line, arrows[k]);
      if found.Some? {
        var pos := found.value;
        return Some((Trim(line[..pos]), line[pos..]));
      }
    }
    return None;
  }

  /** `parse_arrow_and_rest`: the arrow a text starts with, in ARROWS order, and the trimmed text after it. */
  function ParseArrowAndRest(s: string): (ArrowStyle, string) {
    if StartsWith(s, "==>") then (Thick, Trim(s[3..]))
    else if StartsWith(s, "-.->") then (Dotted, Trim(s[4..]))
    else if StartsWith(s, "-->") then (Arrow, Trim(s[3..]))
    else if StartsWith(s, "---") then (Open, Trim(s[3..]))
    else if StartsWith(s, "->") then (Arrow, Trim(s[2..]))
    else (Arrow, s)
  }

  /** A text whose `i`-th character differs from the pattern's does not start with it. */
  lemma CharNotPrefix(s: string, p: string, i: nat)
    requires i < |s| && i < |p| && s[i] != p[i]
    ensures !StartsWith(s, p)
  {
    if |p| <= |s| {
      assert s[..|p|][i] == s[i];
    }
  }

  /** The arrow ARROWS[k] at the head of a text is read back as its own style, with the trimmed text after it. */
  lemma ArrowReadBack(k: nat, s: string)
    requires k < |ARROWS| && StartsWith(s, ARROWS[k])
    ensures ParseArrowAndRest(s) == (StyleOf(k), Trim(s[|ARROWS[k]|..]))
  {
    if k == 0 {
      assert ARROWS[0] == "==>" && StyleOf(0) == Thick;
      ThickReadBack(s);
    } else if k == 1 {
      assert ARROWS[1] == "-.->" && StyleOf(1) == Dotted;
      DottedReadBack(s);
    } else if k == 2 {
      assert ARROWS[2] == "-->" && StyleOf(2) == Arrow;
      ArrowHeadReadBack(s);
    } else if k == 3 {
      assert ARROWS[3] == "---" && StyleOf(3) == Open;
      OpenReadBack(s);
    } else {
      assert ARROWS[4] == "->" && StyleOf(4) == Arrow;
      ShortReadBack(s);
    }
  }

  lemma ThickReadBack(s: string)
    requires StartsWith(s, "==>")
    ensures ParseArrowAndRest(s) == (Thick, Trim(s[3..]))
  {
  }

  lemma DottedReadBack(s: string)
    requires StartsWith(s, "-.->")
    ensures ParseArrowAndRest(s) == (Dotted, Trim(s[4..]))
  {
    assert s[..4] == "-.->";
    CharNotPrefix(s, "==>", 0);
  }

  lemma ArrowHeadReadBack(s: string)
    requires StartsWith(s, "-->")
    ensures ParseArrowAndRest(s) == (Arrow, Trim(s[3..]))
  {
    assert s[..3] == "-->";
    CharNotPrefix(s, "==>", 0);
    CharNotPrefix(s, "-.->", 1);
  }

  lemma OpenReadBack(s: string)
    requires StartsWith(s, "---")
    ensures ParseArrowAndRest(s) == (Open, Trim(s[3..]))
  {
    assert s[..3] == "---";
    CharNotPrefix(s, "==>", 0);
    CharNotPrefix(s, "-.->", 1);
    CharNotPrefix(s, "-->", 2);
  }

  lemma ShortReadBack(s: string)
    requires StartsWith(s, "->")
    ensures ParseArrowAndRest(s) == (Arrow, Trim(s[2..]))
  {
    assert s[..2] == "->";
    CharNotPrefix(s, "==>", 0);
    CharNotPrefix(s, "-.->", 1);
    CharNotPrefix(s, "-->", 1);
    CharNotPrefix(s, "---", 1);
  }

  /** The rest `split_connection` returns is read back as the arrow it was split at. */
  lemma SplitThenParse(line: string)
    requires SplitConnection(line).Some?
    ensures var k := FirstArrow(line, 0).value;
            var rest := SplitConnection(line).value.1;
            ParseArrowAndRest(rest) == (StyleOf(k), Trim(rest[|ARROWS[k]|..]))
  {
    ArrowReadBack(FirstArrow(line, 0).value, SplitConnection(line).value.1);
  }

  // ---------------------------------------------------------------------
  // Arrow labels
  // ---------------------------------------------------------------------

  /**
   * `extract_arrow_label`: the text between the first two '|' and the trimmed
   * text after the second; with fewer than two '|' the text is unchanged.
   */
  function ExtractArrowLabel(s: string): (r: (string, Option<string>))
    ensures r.1.None? ==> r.0 == s
    ensures r.1.Some? ==> '|' !in r.1.value
  {
    match Find(s, "|")
    case None => (s, None)
    case Some(start) =>
      match Find(s[start + 1..], "|")
      case None => (s, None)
      case Some(end) =>
        var caption := s[start + 1..start + 1 + end];
        assert '|' !in caption by {
          forall i | 0 <= i < end ensures caption[i] != '|' {
            assert !OccursAt(s[start + 1..], "|", i);
            OccursAtChar(s[start + 1..], '|', i);
          }
        }
        (Trim(s[start + 2 + end..]), Some(caption))
  }

  /** A text `a|caption|b` with no '|' in `a` or `caption` gives the caption and `b` trimmed. */
  lemma LabelShape(s: string, a: string, caption: string, b: string)
    requires s == a + "|" + caption + "|" + b && '|' !in a && '|' !in caption
    ensures ExtractArrowLabel(s) == (Trim(b), Some(caption))
  {
    var rest := caption + "|" + b;
    assert s == a + "|" + rest;
    FirstBar(s, a, rest);
    var t := s[|a| + 1..];
    assert t == rest;
    FirstBar(rest, caption, b);
    var start, end := |a|, |caption|;
    assert s[start + 1..start + 1 + end] == caption;
    assert s[start + 2 + end..] == b;
  }

  /** The first '|' of `a + "|" + b` is at |a| when `a` has none. */
  lemma FirstBar(s: string, a: string, b: string)
    requires s == a + "|" + b && '|' !in a
    ensures Find(s, "|") == Some(|a|)
  {
    OccursAtChar(s, '|', |a|);
    forall j | 0 <= j < |a| ensures !OccursAt(s, "|", j) {
      OccursAtChar(s, '|', j);
      assert s[j] == a[j];
    }
    FindIs(s, "|", |a|);
  }

  /** With at most one '|', the text comes back unchanged and without a caption. */
  lemma NoLabel(s: string)
    requires forall i, j :: 0 <= i < j < |s| && s[i] == '|' ==> s[j] != '|'
    ensures ExtractArrowLabel(s) == (s, None)
  {
    match Find(s, "|")
    case None =>
    case Some(start) =>
      OccursAtChar(s, '|', start);
      var t := s[start + 1..];
      assert '|' !in t by {
        forall i | 0 <= i < |t| ensures t[i] != '|' {
          assert t[i] == s[start + 1 + i];
        }
      }
      MissingCharNotContained(t, "|", 0);
  }

  // ---------------------------------------------------------------------
  // Node definitions
  // ---------------------------------------------------------------------

  /** The brackets, in the order a node definition is searched for them. */
  const BRACKETS: seq<(string, string, NodeShape)> :=
    [("((", "))", Circle), ("([", "])", Stadium), ("{{", "}}", Hexagon),
     ("[", "]", Rectangle), ("(", ")", RoundedRect), ("{", "}", Diamond)]

  /** Bracket `k`: its opening at its first occurrence and the first closing after it. */
  function TryBracket(t: string, k: nat): (r: Option<FlowNode>)
    requires k < |BRACKETS|
    ensures r.Some? ==> r.value.shape == BRACKETS[k].2
  {
    var (open, close, shape) := BRACKETS[k];
    match Find(t, open)
    case None => None
    case Some(start) =>
      match Find(t[start + |open|..], close)
      case None => None
      case Some(end) => Some(FlowNode(Trim(t[..start]), t[start + |open|..start + |open| + end], shape))
  }

  /** The first bracket, from index `k` on, that encloses a label. */
  function FirstBracket(t: string, k: nat): (r: Option<nat>)
    requires k <= |BRACKETS|
    ensures r.Some? ==> k <= r.value < |BRACKETS| && TryBracket(t, r.value).Some?
    ensures r.Some? ==> forall j :: k <= j < r.value ==> TryBracket(t, j).None?
    ensures r.None? ==> forall j :: k <= j < |BRACKETS| ==> TryBracket(t, j).None?
    decreases |BRACKETS| - k
  {
    if k == |BRACKETS| then None
    else if TryBracket(t, k).Some? then Some(k)
    else FirstBracket(t, k + 1)
  }

  /** An id written without brackets: letters, digits and '_'. */
  predicate PlainId(t: string) {
    t != [] && forall i :: 0 <= i < |t| ==> IsAlphanumeric(t[i]) || t[i] == '_'
  }

  /** A plain id has no bracket, so no bracket matches it. */
  lemma PlainHasNoBracket(t: string)
    ensures PlainId(t) ==> FirstBracket(t, 0).None?
  {
    if PlainId(t) {
      forall j | 0 <= j < |BRACKETS| ensures TryBracket(t, j).None? {
        MissingCharNotContained(t, BRACKETS[j].0, 0);
      }
    }
  }

  /**
   * `parse_node_def`: the first bracket (in BRACKETS order) that encloses a caption
   * gives a node with the trimmed text before it as id; otherwise a plain id is a
   * rectangle labelled with itself, and anything else is no node.
   */
  function ParseNodeDef(s: string): (r: (string, Option<FlowNode>))
    ensures r.1.Some? ==> r.1.value.id == r.0
    ensures r.1.None? ==> r.0 == Trim(s) && !PlainId(Trim(s))
    ensures PlainId(Trim(s)) ==> r == (Trim(s), Some(FlowNode(Trim(s), Trim(s), Rectangle)))
  {
    var t := Trim(s);
    PlainHasNoBracket(t);
    match FirstBracket(t, 0)
    case Some(k) => var n := TryBracket(t, k).value; (n.id, Some(n))
    case None => if PlainId(t) then (t, Some(FlowNode(t, t, Rectangle))) else (t, None)
  }

  /** `parse_node_def` as written: a loop over the brackets that returns at the first that encloses a label. */
  method ParseNodeDefLoop(s: string) returns (r: (string, Option<FlowNode>))
    ensures r == ParseNodeDef(s)
  {
    var t := Trim(s);
    for k := 0 to |BRACKETS|
      invariant FirstBracket(t, 0) == FirstBracket(t, k)
    {
      var found := TryBracket(t, k);
      if found.Some? {
        ParseNodeDefPicks(s, t, k, found.value);
        return (found.value.id, found);
      }
    }
    PlainHasNoBracket(t);
    if PlainId(t) {
      return (t, Some(FlowNode(t, t, Rectangle)));
    }
    return (t, None);
  }

  /** When bracket `k` is the first that matches, it gives the parsed node. */
  lemma ParseNodeDefPicks(s: string, t: string, k: nat, n: FlowNode)
    requires t == Trim(s) && k < |BRACKETS| && TryBracket(t, k) == Some(n)
    requires FirstBracket(t, 0) == FirstBracket(t, k)
    ensures ParseNodeDef(s) == (n.id, Some(n))
  {
  }

  predicate IsBracket(c: char) {
    c == '(' || c == ')' || c == '[' || c == ']' || c == '{' || c == '}'
  }

  /** A text without any bracket character. */
  predicate Bracketless(s: string) {
    forall i :: 0 <= i < |s| ==> !IsBracket(s[i])
  }

  /** A pattern whose first character `a` lacks is first found right after `a`. */
  lemma FindAfter(s: string, a: string, pat: string, rest: string)
    requires s == a + pat + rest && |pat| > 0 && pat[0] !in a
    ensures Find(s, pat) == Some(|a|)
  {
    assert s[|a|..|a| + |pat|] == pat;
    forall j | 0 <= j < |a| ensures !OccursAt(s, pat, j) {
      assert s[j] == a[j];
      if j + |pat| <= |s| {
        assert s[j..j + |pat|][0] == s[j];
      }
    }
    FindIs(s, pat, |a|);
  }

  /** A plain id is its own trim. */
  lemma PlainTrimmed(id: string)
    requires PlainId(id)
    ensures Trim(id) == id && Bracketless(id)
  {
    assert TrimStart(id) == id;
  }

  /** Bracket `k` around a bracket-free caption after a plain id encloses that caption. */
  lemma Encloses(t: string, id: string, caption: string, k: nat)
    requires k < |BRACKETS| && PlainId(id) && Bracketless(caption)
    requires t == id + BRACKETS[k].0 + caption + BRACKETS[k].1
    ensures TryBracket(t, k) == Some(FlowNode(id, caption, BRACKETS[k].2))
  {
    var (open, close, shape) := BRACKETS[k];
    PlainTrimmed(id);
    assert !IsBracket(open[0]) ==> false;
    assert !IsBracket(close[0]) ==> false;
    assert open[0] !in id;
    FindAfter(t, id, open, caption + close);
    assert t == id + open + (caption + close);
    var u := t[|id| + |open|..];
    assert u == caption + close + [];
    assert close[0] !in caption;
    FindAfter(u, caption, close, []);
    assert t[..|id|] == id;
    assert t[|id| + |open|..|id| + |open| + |caption|] == caption;
  }

  /** A text that starts and ends with non-whitespace is its own trim. */
  lemma Untrimmed(t: string)
    requires |t| > 0 && !IsWhitespace(t[0]) && !IsWhitespace(t[|t| - 1])
    ensures Trim(t) == t
  {
    assert TrimStart(t) == t;
  }

  /** The first bracket from `j` on is `k` when none before it matches and `k` does. */
  lemma {:induction false} FirstBracketIs(t: string, j: nat, k: nat)
    requires j <= k < |BRACKETS| && TryBracket(t, k).Some?
    requires forall i :: j <= i < k ==> TryBracket(t, i).None?
    ensures FirstBracket(t, j) == Some(k)
    decreases k - j
  {
    if j < k {
      assert TryBracket(t, j).None?;
      FirstBracketIs(t, j + 1, k);
    }
  }

  /**
   * A trimmed `id`, bracket `k` and a bracket-free caption, where no earlier
   * opening bracket occurs, is read back as that node.
   */
  lemma Picks(t: string, id: string, caption: string, k: nat)
    requires k < |BRACKETS| && PlainId(id) && Bracketless(caption)
    requires t == id + BRACKETS[k].0 + caption + BRACKETS[k].1
    requires forall i :: 0 <= i < k ==> !Contains(t, BRACKETS[i].0)
    ensures ParseNodeDef(t) == (id, Some(FlowNode(id, caption, BRACKETS[k].2)))
  {
    PlainTrimmed(id);
    EndsTrimmed(t, id, caption, k);
    Encloses(t, id, caption, k);
    forall i | 0 <= i < k ensures TryBracket(t, i).None? {
      Unopened(t, i);
    }
    FirstBracketIs(t, 0, k);
  }

  /** A bracket whose opening text is absent does not match. */
  lemma Unopened(t: string, i: nat)
    requires i < |BRACKETS| && !Contains(t, BRACKETS[i].0)
    ensures TryBracket(t, i).None?
  {
  }

  /** A plain id followed by a bracketed caption is its own trim. */
  lemma EndsTrimmed(t: string, id: string, caption: string, k: nat)
    requires k < |BRACKETS| && PlainId(id)
    requires t == id + BRACKETS[k].0 + caption + BRACKETS[k].1
    ensures Trim(t) == t
  {
    var close := BRACKETS[k].1;
    assert t[0] == id[0] && t[|t| - 1] == close[|close| - 1];
    Untrimmed(t);
  }

  /** `id[caption]` is a rectangle. */
  lemma RectangleNode(id: string, caption: string)
    requires PlainId(id) && Bracketless(caption)
    ensures ParseNodeDef(id + "[" + caption + "]") == (id, Some(FlowNode(id, caption, Rectangle)))
  {
    var t := id + "[" + caption + "]";
    PlainTrimmed(id);
    NotIn(id, '('); NotIn(caption, '(');
    NotIn(id, '{'); NotIn(caption, '{');
    assert '(' !in t && '{' !in t;
    MissingCharNotContained(t, "((", 0);
    MissingCharNotContained(t, "([", 0);
    MissingCharNotContained(t, "{{", 0);
    Picks(t, id, caption, 3);
  }

  /** A bracket-free text holds no bracket. */
  lemma NotIn(s: string, d: char)
    requires Bracketless(s) && IsBracket(d)
    ensures d !in s
  {
    forall i | 0 <= i < |s| ensures s[i] != d {
    }
  }

  /** The only `c` in `a + [c] + rest` is at |a|. */
  lemma SoleChar(t: string, a: string, c: char, rest: string)
    requires t == a + [c] + rest && c !in a && c !in rest
    ensures forall j :: 0 <= j < |t| && t[j] == c ==> j == |a|
  {
    forall j | 0 <= j < |t| && j != |a| ensures t[j] != c {
      if j < |a| {
        assert t[j] == a[j];
      } else {
        assert t[j] == rest[j - |a| - 1];
      }
    }
  }

  /** Two characters, the first occurring only at `i`, where `t[i + 1]` is not the second. */
  lemma NoPairAt(t: string, pat: string, i: nat)
    requires |pat| == 2 && i + 1 < |t| && t[i + 1] != pat[1]
    requires forall j :: 0 <= j < |t| && t[j] == pat[0] ==> j == i
    ensures !Contains(t, pat)
  {
    forall j: nat | j + 2 <= |t| ensures !OccursAt(t, pat, j) {
      assert t[j..j + 2][0] == t[j] && t[j..j + 2][1] == t[j + 1];
    }
  }

  /** `id(caption)` is a rounded rectangle. */
  lemma RoundedNode(id: string, caption: string)
    requires PlainId(id) && Bracketless(caption)
    ensures ParseNodeDef(id + "(" + caption + ")") == (id, Some(FlowNode(id, caption, RoundedRect)))
  {
    var t := id + "(" + caption + ")";
    var rest := caption + ")";
    PlainTrimmed(id);
    NotIn(id, '{'); NotIn(caption, '{');
    NotIn(id, '['); NotIn(caption, '[');
    NotIn(id, '('); NotIn(caption, '(');
    assert '{' !in t && '[' !in t && '(' !in rest;
    SoleChar(t, id, '(', rest);
    assert t[|id| + 1] == rest[0];
    NoPairAt(t, "((", |id|);
    NoPairAt(t, "([", |id|);
    MissingCharNotContained(t, "{{", 0);
    MissingCharNotContained(t, "[", 0);
    Picks(t, id, caption, 4);
  }

  /** `id{caption}` is a diamond. */
  lemma DiamondNode(id: string, caption: string)
    requires PlainId(id) && Bracketless(caption)
    ensures ParseNodeDef(id + "{" + caption + "}") == (id, Some(FlowNode(id, caption, Diamond)))
  {
    var t := id + "{" + caption + "}";
    var rest := caption + "}";
    PlainTrimmed(id);
    NotIn(id, '('); NotIn(caption, '(');
    NotIn(id, '['); NotIn(caption, '[');
    NotIn(id, '{'); NotIn(caption, '{');
    assert '(' !in t && '[' !in t && '{' !in rest;
    SoleChar(t, id, '{', rest);
    assert t[|id| + 1] == rest[0];
    MissingCharNotContained(t, "((", 0);
    MissingCharNotContained(t, "([", 0);
    NoPairAt(t, "{{", |id|);
    MissingCharNotContained(t, "[", 0);
    MissingCharNotContained(t, "(", 0);
    Picks(t, id, caption, 5);
  }

  /** `id((caption))` is a circle. */
  lemma CircleNode(id: string, caption: string)
    requires PlainId(id) && Bracketless(caption)
    ensures ParseNodeDef(id + "((" + caption + "))") == (id, Some(FlowNode(id, caption, Circle)))
  {
    Picks(id + "((" + caption + "))", id, caption, 0);
  }

  /** `id([caption])` is a stadium. */
  lemma StadiumNode(id: string, caption: string)
    requires PlainId(id) && Bracketless(caption)
    ensures ParseNodeDef(id + "([" + caption + "])") == (id, Some(FlowNode(id, caption, Stadium)))
  {
    var t := id + "([" + caption + "])";
    var rest := "[" + caption + "])";
    PlainTrimmed(id);
    assert t == id + "(" + rest;
    NotIn(id, '('); NotIn(caption, '(');
    assert '(' !in rest;
    SoleChar(t, id, '(', rest);
    assert t[|id| + 1] == '[';
    NoPairAt(t, "((", |id|);
    Picks(t, id, caption, 1);
  }

  /** `id{{caption}}` is a hexagon. */
  lemma HexagonNode(id: string, caption: string)
    requires PlainId(id) && Bracketless(caption)
    ensures ParseNodeDef(id + "{{" + caption + "}}") == (id, Some(FlowNode(id, caption, Hexagon)))
  {
    var t := id + "{{" + caption + "}}";
    PlainTrimmed(id);
    NotIn(id, '('); NotIn(caption, '(');
    assert '(' !in t;
    MissingCharNotContained(t, "((", 0);
    MissingCharNotContained(t, "([", 0);
    Picks(t, id, caption, 2);
  }

  // ---------------------------------------------------------------------
  // Subgraph colours
  // ---------------------------------------------------------------------

  const SUBGRAPH_COLORS: seq<string> := ["E3F2FD", "F3E5F5", "E8F5E9", "FFF3E0", "E0F7FA", "FCE4EC"]

  /** `get_subgraph_color`: the colours in turn, by index modulo their number. */
  function SubgraphColor(index: nat): (c: string)
    ensures Themes.IsHexColor(c)
  {
    SUBGRAPH_COLORS[index % |SUBGRAPH_COLORS|]
  }

  /** The colours repeat every six subgraphs, and six subgraphs in a row all differ. */
  lemma SubgraphColorsCycle(i: nat, j: nat)
    ensures SubgraphColor(i + 6) == SubgraphColor(i)
    ensures i % 6 != j % 6 ==> SubgraphColor(i) != SubgraphColor(j)
  {
  }

  // ---------------------------------------------------------------------
  // The parse
  // ---------------------------------------------------------------------

  /** What one line of a flowchart's body says, once trimmed. */
  datatype FlowLine =
    | Skip
    | OpenSubgraph(name: string)
    | CloseSubgraph
    | Link(fromId: string, fromNode: Option<FlowNode>, toId: string, toNode: Option<FlowNode>,
           caption: Option<string>, arrow: ArrowStyle)
    | Define(id: string, node: Option<FlowNode>)

  /**
   * A trimmed line: blank lines and "%%" comments are skipped, "subgraph"
   * opens a subgraph named by the trimmed rest, "end" closes it, a line with an
   * arrow is a connection, and anything else is a node definition.
   */
  function ClassifyTrimmed(line: string): FlowLine {
    if line == [] || StartsWith(line, "%%") then Skip
    else if StartsWith(line, "subgraph") then OpenSubgraph(Trim(line[8..]))
    else if line == "end" then CloseSubgraph
    else match SplitConnection(line)
      case Some((fromPart, rest)) => LinkOf(fromPart, rest)
      case None =>
        var (id, node) := ParseNodeDef(line);
        Define(id, node)
  }

  /**
   * A connection split into the text before the arrow and the arrow with what
   * follows: the from node, the arrow's style, its optional `|caption|` and the
   * to node.
   */
  function LinkOf(fromPart: string, rest: string): (fl: FlowLine)
    ensures fl.Link?
  {
    var (arrow, toPart) := ParseArrowAndRest(rest);
    var (fromId, fromNode) := ParseNodeDef(fromPart);
    var (toClean, caption) := ExtractArrowLabel(toPart);
    var (toId, toNode) := ParseNodeDef(toClean);
    Link(fromId, fromNode, toId, toNode, caption, arrow)
  }

  /** The connection half of the loop body, reading both node definitions. */
  method ReadConnection(fromPart: string, rest: string) returns (fl: FlowLine)
    ensures fl == LinkOf(fromPart, rest)
  {
    var (arrow, toPart) := ParseArrowAndRest(rest);
    var fromDef := ParseNodeDefLoop(fromPart);
    var (toClean, caption) := ExtractArrowLabel(toPart);
    var toDef := ParseNodeDefLoop(toClean);
    fl := Link(fromDef.0, fromDef.1, toDef.0, toDef.1, caption, arrow);
  }

  function ClassifyFlow(raw: string): FlowLine {
    ClassifyTrimmed(Trim(raw))
  }

  /** The parser's state: nodes by id, connections and closed subgraphs in order, and the open subgraph. */
  datatype FlowState = FlowState(
    nodes: map<string, FlowNode>,
    connections: seq<FlowConnection>,
    subgraphs: seq<Subgraph>,
    current: Option<Subgraph>)

  /** `entry(id).or_insert(node)`: the first node recorded under an id stays. */
  function InsertFirst(nodes: map<string, FlowNode>, id: string, n: FlowNode): map<string, FlowNode> {
    if id in nodes then nodes else nodes[id := n]
  }

  /** The open subgraph lists `id` once. */
  function ListIn(current: Option<Subgraph>, id: string): Option<Subgraph> {
    match current
    case None => None
    case Some(sg) => if id in sg.nodes then current else Some(Subgraph(sg.name, sg.nodes + [id]))
  }

  /** A parsed node definition: inserted unless its id is taken, and listed in the open subgraph. */
  function Record(st: FlowState, id: string, node: Option<FlowNode>): FlowState {
    match node
    case None => st
    case Some(n) => st.(nodes := InsertFirst(st.nodes, id, n), current := ListIn(st.current, id))
  }

  function Apply(st: FlowState, fl: FlowLine): FlowState {
    match fl
    case Skip => st
    case OpenSubgraph(name) => st.(current := Some(Subgraph(name, [])))
    case CloseSubgraph =>
      if st.current.Some? then st.(subgraphs := st.subgraphs + [st.current.value], current := None) else st
    case Link(fromId, fromNode, toId, toNode, caption, arrow) =>
      var r := Record(Record(st, fromId, fromNode), toId, toNode);
      r.(connections := r.connections + [FlowConnection(fromId, toId, caption, arrow)])
    case Define(id, node) => Record(st, id, node)
  }

  const START: FlowState := FlowState(map[], [], [], None)

  /** The state after the given body lines. */
  function Fold(lines: seq<string>): FlowState
    decreases |lines|
  {
    if lines == [] then START
    else Apply(Fold(lines[..|lines| - 1]), ClassifyFlow(lines[|lines| - 1]))
  }

  /** The flowchart a code block describes; a subgraph still open at the end is dropped. */
  function ParseSpec(code: string): FlowchartDiagram {
    var st := Fold(MermaidDetect.Body(code));
    FlowchartDiagram(ParseDirection(MermaidDetect.FirstLine(code)), st.nodes, st.connections, st.subgraphs)
  }

  /** The node bookkeeping the loop body does after each node definition. */
  method RecordNode(st: FlowState, id: string, node: Option<FlowNode>) returns (r: FlowState)
    ensures r == Record(st, id, node)
  {
    r := st;
    if node.Some? {
      r := r.(nodes := InsertFirst(st.nodes, id, node.value));
      if st.current.Some? && id !in st.current.value.nodes {
        r := r.(current := Some(Subgraph(st.current.value.name, st.current.value.nodes + [id])));
      }
    }
  }

  /** A connection line: record the from node, then the to node, then push the connection. */
  method ApplyLink(st: FlowState, link: FlowLine) returns (r: FlowState)
    requires link.Link?
    ensures r == Apply(st, link)
  {
    r := RecordNode(st, link.fromId, link.fromNode);
    r := RecordNode(r, link.toId, link.toNode);
    r := r.(connections := r.connections + [FlowConnection(link.fromId, link.toId, link.caption, link.arrow)]);
  }

  /** The rest of the loop body: a connection line, or else a standalone node definition. */
  method ParseStatement(line: string, st: FlowState) returns (r: FlowState)
    requires line != [] && !StartsWith(line, "%%") && !StartsWith(line, "subgraph") && line != "end"
    ensures r == Apply(st, ClassifyTrimmed(line))
  {
    var split := SplitConnectionLoop(line);
    if split.Some? {
      var (fromPart, rest) := split.value;
      ClassifiedLink(line, fromPart, rest);
      r := ParseLink(fromPart, rest, st);
    } else {
      ClassifiedDefine(line);
      r := ParseDefine(line, st);
    }
  }

  /** A connection line, split at its first arrow. */
  method ParseLink(fromPart: string, rest: string, st: FlowState) returns (r: FlowState)
    ensures r == Apply(st, LinkOf(fromPart, rest))
  {
    var link := ReadConnection(fromPart, rest);
    r := ApplyLink(st, link);
  }

  /** A standalone node definition. */
  method ParseDefine(line: string, st: FlowState) returns (r: FlowState)
    ensures r == Apply(st, Define(ParseNodeDef(line).0, ParseNodeDef(line).1))
  {
    var def := ParseNodeDefLoop(line);
    r := RecordNode(st, def.0, def.1);
  }

  /** `parse`: the direction from the first line, then each further line in turn. */
  method Parse(code: string) returns (fc: FlowchartDiagram)
    ensures fc == ParseSpec(code)
  {
    var lines := Lines(code);
    var first := if lines == [] then "" else lines[0];
    var direction := ParseDirection(first);
    var rest := if lines == [] then [] else lines[1..];
    var nodes: map<string, FlowNode> := map[];
    var connections: seq<FlowConnection> := [];
    var subgraphs: seq<Subgraph> := [];
    var current: Option<Subgraph> := None;
    for i := 0 to |rest|
      invariant FlowState(nodes, connections, subgraphs, current) == Fold(rest[..i])
    {
      var line := Trim(rest[i]);
      StepTo(rest, i, line, ClassifyTrimmed(line));
      var st := ParseLine(line, FlowState(nodes, connections, subgraphs, current));
      nodes, connections, subgraphs, current := st.nodes, st.connections, st.subgraphs, st.current;
    }
    assert rest[..|rest|] == rest;
    fc := FlowchartDiagram(direction, nodes, connections, subgraphs);
  }

  /** One trimmed line of the body applied to the parser state. */
  method ParseLine(line: string, st: FlowState) returns (r: FlowState)
    ensures r == Apply(st, ClassifyTrimmed(line))
  {
    if line == [] || StartsWith(line, "%%") {
      r := st;
    } else if StartsWith(line, "subgraph") {
      r := st.(current := Some(Subgraph(Trim(line[8..]), [])));
    } else if line == "end" {
      ClassifiedClose(line);
      r := if st.current.Some? then st.(subgraphs := st.subgraphs + [st.current.value], current := None) else st;
    } else {
      r := ParseStatement(line, st);
    }
  }

  /** The state after line `i` is the state before it with what the line says applied. */
  lemma StepTo(lines: seq<string>, i: nat, line: string, fl: FlowLine)
    requires i < |lines| && line == Trim(lines[i]) && ClassifyTrimmed(line) == fl
    ensures Fold(lines[..i + 1]) == Apply(Fold(lines[..i]), fl)
  {
    assert lines[..i + 1][..i] == lines[..i];
  }

  lemma ClassifiedClose(line: string)
    requires line == "end"
    ensures ClassifyTrimmed(line) == CloseSubgraph
  {
    CharNotPrefix(line, "%%", 0);
    CharNotPrefix(line, "subgraph", 0);
  }

  lemma ClassifiedLink(line: string, fromPart: string, rest: string)
    requires line != [] && !StartsWith(line, "%%") && !StartsWith(line, "subgraph") && line != "end"
    requires SplitConnection(line) == Some((fromPart, rest))
    ensures ClassifyTrimmed(line) == LinkOf(fromPart, rest)
  {
  }

  lemma ClassifiedDefine(line: string)
    requires line != [] && !StartsWith(line, "%%") && !StartsWith(line, "subgraph") && line != "end"
    requires SplitConnection(line).None?
    ensures ClassifyTrimmed(line) == Define(ParseNodeDef(line).0, ParseNodeDef(line).1)
  {
  }

  // ---------------------------------------------------------------------
  // What the parse keeps
  // ---------------------------------------------------------------------

  /** Blank lines and "%%" comments leave the parse where it was. */
  lemma BlankLinesIgnored(lines: seq<string>, raw: string)
    requires Trim(raw) == [] || StartsWith(Trim(raw), "%%")
    ensures Fold(lines + [raw]) == Fold(lines)
  {
    assert (lines + [raw])[..|lines|] == lines;
  }

  /** A line never changes a node already recorded. */
  lemma ApplyKeepsNodes(st: FlowState, fl: FlowLine)
    ensures forall id :: id in st.nodes ==> id in Apply(st, fl).nodes && Apply(st, fl).nodes[id] == st.nodes[id]
  {
  }

  /** The first definition of a node id is the one the parse keeps, whatever lines follow. */
  lemma {:induction false} FirstDefinitionKept(lines: seq<string>, more: seq<string>)
    ensures forall id :: id in Fold(lines).nodes ==>
              id in Fold(lines + more).nodes && Fold(lines + more).nodes[id] == Fold(lines).nodes[id]
    decreases |more|
  {
    if more == [] {
      assert lines + more == lines;
    } else {
      var init := more[..|more| - 1];
      FirstDefinitionKept(lines, init);
      assert (lines + more)[..|lines + more| - 1] == lines + init;
      ApplyKeepsNodes(Fold(lines + init), ClassifyFlow(more[|more| - 1]));
    }
  }

  /** The number of connection lines. */
  function LinkCount(lines: seq<string>): nat
    decreases |lines|
  {
    if lines == [] then 0
    else LinkCount(lines[..|lines| - 1]) + (if ClassifyFlow(lines[|lines| - 1]).Link? then 1 else 0)
  }

  /** A connection line appends exactly its one connection; any other line appends none. */
  lemma OneConnectionPerLink(lines: seq<string>, raw: string)
    ensures var fl := ClassifyFlow(raw);
            var before := Fold(lines).connections;
            Fold(lines + [raw]).connections
              == if fl.Link? then before + [FlowConnection(fl.fromId, fl.toId, fl.caption, fl.arrow)] else before
  {
    FoldSnoc(lines, raw);
    ApplyConnections(Fold(lines), ClassifyFlow(raw));
  }

  lemma FoldSnoc(lines: seq<string>, raw: string)
    ensures Fold(lines + [raw]) == Apply(Fold(lines), ClassifyFlow(raw))
  {
    assert (lines + [raw])[..|lines|] == lines;
  }

  lemma ApplyConnections(st: FlowState, fl: FlowLine)
    ensures Apply(st, fl).connections
              == if fl.Link? then st.connections + [FlowConnection(fl.fromId, fl.toId, fl.caption, fl.arrow)] else st.connections
  {
  }

  /** So the parse holds one connection per connection line. */
  lemma {:induction false} ConnectionsCounted(lines: seq<string>)
    ensures |Fold(lines).connections| == LinkCount(lines)
    decreases |lines|
  {
    if lines != [] {
      var init := lines[..|lines| - 1];
      ConnectionsCounted(init);
      ApplyConnections(Fold(init), ClassifyFlow(lines[|lines| - 1]));
    }
  }

  /** No id twice. */
  predicate Distinct(ids: seq<string>) {
    forall i, j :: 0 <= i < j < |ids| ==> ids[i] != ids[j]
  }

  /** A subgraph lists distinct ids, each of a recorded node. */
  predicate Listed(sg: Subgraph, nodes: map<string, FlowNode>) {
    Distinct(sg.nodes) && forall i :: 0 <= i < |sg.nodes| ==> sg.nodes[i] in nodes
  }

  /** Nodes are keyed by their own id, and every subgraph, closed or open, is listed. */
  predicate WellFormed(st: FlowState) {
    && (forall id :: id in st.nodes ==> st.nodes[id].id == id)
    && (forall i :: 0 <= i < |st.subgraphs| ==> Listed(st.subgraphs[i], st.nodes))
    && (st.current.Some? ==> Listed(st.current.value, st.nodes))
  }

  /** A node definition names its node by the id it returns. */
  predicate Named(id: string, node: Option<FlowNode>) {
    node.Some? ==> node.value.id == id
  }

  predicate LineNamed(fl: FlowLine) {
    && (fl.Link? ==> Named(fl.fromId, fl.fromNode) && Named(fl.toId, fl.toNode))
    && (fl.Define? ==> Named(fl.id, fl.node))
  }

  lemma ClassifiedNamed(line: string)
    ensures LineNamed(ClassifyTrimmed(line))
  {
  }

  lemma RecordWellFormed(st: FlowState, id: string, node: Option<FlowNode>)
    requires WellFormed(st) && Named(id, node)
    ensures WellFormed(Record(st, id, node))
  {
    var r := Record(st, id, node);
    if node.Some? {
      forall i | 0 <= i < |r.subgraphs| ensures Listed(r.subgraphs[i], r.nodes) {
        assert Listed(st.subgraphs[i], st.nodes);
      }
      if st.current.Some? && id !in st.current.value.nodes {
        var ids := st.current.value.nodes + [id];
        assert r.current.value.nodes == ids;
        forall i, j | 0 <= i < j < |ids| ensures ids[i] != ids[j] {
          if j == |ids| - 1 {
            assert ids[i] == st.current.value.nodes[i];
          }
        }
      }
    }
  }

  lemma ApplyWellFormed(st: FlowState, fl: FlowLine)
    requires WellFormed(st) && LineNamed(fl)
    ensures WellFormed(Apply(st, fl))
  {
    match fl
    case Link(fromId, fromNode, toId, toNode, caption, arrow) =>
      RecordWellFormed(st, fromId, fromNode);
      RecordWellFormed(Record(st, fromId, fromNode), toId, toNode);
    case Define(id, node) =>
      RecordWellFormed(st, id, node);
    case CloseSubgraph =>
      if st.current.Some? {
        var r := Apply(st, fl);
        forall i | 0 <= i < |r.subgraphs| ensures Listed(r.subgraphs[i], r.nodes) {
          if i < |st.subgraphs| {
            assert r.subgraphs[i] == st.subgraphs[i];
          }
        }
      }
    case _ =>
  }

  /** Every state the parse passes through is well formed. */
  lemma {:induction false} FoldWellFormed(lines: seq<string>)
    ensures WellFormed(Fold(lines))
    decreases |lines|
  {
    if lines != [] {
      FoldWellFormed(lines[..|lines| - 1]);
      ClassifiedNamed(Trim(lines[|lines| - 1]));
      ApplyWellFormed(Fold(lines[..|lines| - 1]), ClassifyFlow(lines[|lines| - 1]));
    }
  }

  /**
   * In a parsed flowchart every node is keyed by its id, and each subgraph lists
   * each of its nodes once, all of them nodes of the chart.
   */
  lemma ParsedWellFormed(code: string)
    ensures var fc := ParseSpec(code);
            && (forall id :: id in fc.nodes ==> fc.nodes[id].id == id)
            && (forall i :: 0 <= i < |fc.subgraphs| ==> Listed(fc.subgraphs[i], fc.nodes))
  {
    FoldWellFormed(MermaidDetect.Body(code));
  }

  /** With no subgraph open, "end" is ignored; a second "subgraph" drops the open one unrecorded. */
  lemma SubgraphLines(st: FlowState, name: string)
    ensures st.current.None? ==> Apply(st, CloseSubgraph) == st
    ensures Apply(st, OpenSubgraph(name)).subgraphs == st.subgraphs
    ensures Apply(st, OpenSubgraph(name)).current == Some(Subgraph(name, []))
  {
  }

  /**
   * A line that is not blank, a comment, "subgraph" or "end" is a connection
   * exactly when it contains one of the arrows; otherwise it is a node definition.
   */
  lemma StatementKinds(line: string)
    requires line != [] && !StartsWith(line, "%%") && !StartsWith(line, "subgraph") && line != "end"
    ensures ClassifyTrimmed(line).Link? <==> exists j :: 0 <= j < |ARROWS| && Contains(line, ARROWS[j])
    ensures !ClassifyTrimmed(line).Link? ==> ClassifyTrimmed(line) == Define(ParseNodeDef(line).0, ParseNodeDef(line).1)
  {
    match SplitConnection(line)
    case Some(split) =>
      ClassifiedLink(line, split.0, split.1);
    case None =>
      ClassifiedDefine(line);
  }
}
