/**
 * Recognising a Mermaid diagram and its style (src/cli/markdown/mermaid/mod.rs):
 * the kind is read off the first line, trimmed and lower-cased, by a fixed
 * sequence of prefix tests.
 */
module MermaidDetect {
  import opened Strings
  import opened MermaidTypes
  import Themes

  /** The first line of the code, or "" when there is none. */
  function FirstLine(code: string): string {
    if Lines(code) == [] then "" else Lines(code)[0]
  }

  /** `code.lines().skip(1)`: the lines after the first, which the diagram parsers read. */
  function Body(code: string): seq<string> {
    var ls := Lines(code);
    if ls == [] then [] else ls[1..]
  }

  /** The prefix tests on a trimmed, lower-cased first line, in the order they run. */
  function DetectLine(l: string): (t: MermaidType)
    ensures t == Flowchart <==> StartsWith(l, "graph") || StartsWith(l, "flowchart")
    ensures t == Unknown <==>
      !(StartsWith(l, "graph") || StartsWith(l, "flowchart") || StartsWith(l, "sequence") || StartsWith(l, "pie")
        || StartsWith(l, "gantt") || StartsWith(l, "class") || StartsWith(l, "state") || StartsWith(l, "er")
        || StartsWith(l, "mindmap") || StartsWith(l, "timeline"))
  {
    if StartsWith(l, "graph") || StartsWith(l, "flowchart") then Flowchart
    else if StartsWith(l, "sequencediagram") || StartsWith(l, "sequence") then Sequence
    else if StartsWith(l, "pie") then Pie
    else if StartsWith(l, "gantt") then Gantt
    else if StartsWith(l, "classdiagram") || StartsWith(l, "class") then ClassDiagram
    else if StartsWith(l, "statediagram") || StartsWith(l, "state") then StateDiagram
    else if StartsWith(l, "erdiagram") || StartsWith(l, "er") then ErDiagram
    else if StartsWith(l, "mindmap") then Mindmap
    else if StartsWith(l, "timeline") then Timeline
    else Unknown
  }

  /** `detect_type`. */
  function DetectType(code: string): MermaidType {
    DetectLine(ToLower(Trim(FirstLine(code))))
  }

  /** Only the first line counts: whatever follows the first line break is never read. */
  lemma FirstLineOnly(first: string, rest: string)
    requires '\n' !in first
    ensures DetectType(first + "\n" + rest) == DetectType(first)
  {
    LinesCons(first + "\n" + rest, first, rest);
    if first != [] {
      LinesSingle(first);
    }
    assert Trim(StripCR(first)) == Trim(first) by {
      TrimDropsCR(first);
    }
  }

  /** A carriage return at the end of a line is whitespace, so trimming removes it anyway. */
  lemma TrimDropsCR(l: string)
    ensures Trim(StripCR(l)) == Trim(l)
  {
    if |l| > 0 && l[|l| - 1] == '\r' {
      var a := l[..|l| - 1];
      assert l == a + ['\r'];
      TrimEndCR(TrimStart(a), a);
    }
  }

  lemma TrimEndCR(t: string, a: string)
    requires t == TrimStart(a)
    ensures TrimEnd(TrimStart(a + ['\r'])) == TrimEnd(t)
  {
    TrimStartAppend(a, '\r');
    var u := TrimStart(a + ['\r']);
    if t != [] {
      assert u == t + ['\r'];
      assert u[..|u| - 1] == t;
    }
  }

  /** Trimming the front of a text with one more whitespace character at the end. */
  lemma {:induction false} TrimStartAppend(a: string, c: char)
    requires IsWhitespace(c)
    ensures TrimStart(a) == [] ==> TrimStart(a + [c]) == []
    ensures TrimStart(a) != [] ==> TrimStart(a + [c]) == TrimStart(a) + [c]
    decreases |a|
  {
    if a != [] {
      assert (a + [c])[1..] == a[1..] + [c];
      if IsWhitespace(a[0]) {
        TrimStartAppend(a[1..], c);
      }
    }
  }

  /** A string whose second character differs from the second of `p` does not start with `p`. */
  lemma SecondCharNotPrefix(s: string, p: string)
    requires |s| > 1 && |p| > 1 && s[1] != p[1]
    ensures !StartsWith(s, p)
  {
    if |p| <= |s| {
      assert s[..|p|][1] == s[1];
    }
  }

  lemma DetectsSequence(l: string)
    requires StartsWith(l, "sequence")
    ensures DetectLine(l) == Sequence
  {
    assert l[0] == 's';
    FirstCharNotPrefix(l, "graph");
    FirstCharNotPrefix(l, "flowchart");
  }

  lemma DetectsPie(l: string)
    requires StartsWith(l, "pie")
    ensures DetectLine(l) == Pie
  {
    assert l[0] == 'p';
    FirstCharNotPrefix(l, "graph");
    FirstCharNotPrefix(l, "flowchart");
    FirstCharNotPrefix(l, "sequencediagram");
    FirstCharNotPrefix(l, "sequence");
  }

  lemma DetectsGantt(l: string)
    requires StartsWith(l, "gantt")
    ensures DetectLine(l) == Gantt
  {
    assert l[0] == 'g' && l[1] == 'a';
    SecondCharNotPrefix(l, "graph");
    FirstCharNotPrefix(l, "flowchart");
    FirstCharNotPrefix(l, "sequencediagram");
    FirstCharNotPrefix(l, "sequence");
    FirstCharNotPrefix(l, "pie");
  }

  /** Not one of the first four kinds, for a line whose first character is none of g, f, s, p. */
  lemma NotFirstFour(l: string)
    requires |l| > 0 && l[0] != 'g' && l[0] != 'f' && l[0] != 's' && l[0] != 'p'
    ensures !StartsWith(l, "graph") && !StartsWith(l, "flowchart") && !StartsWith(l, "sequencediagram")
    ensures !StartsWith(l, "sequence") && !StartsWith(l, "pie") && !StartsWith(l, "gantt")
  {
    FirstCharNotPrefix(l, "graph");
    FirstCharNotPrefix(l, "flowchart");
    FirstCharNotPrefix(l, "sequencediagram");
    FirstCharNotPrefix(l, "sequence");
    FirstCharNotPrefix(l, "pie");
    FirstCharNotPrefix(l, "gantt");
  }

  lemma DetectsClass(l: string)
    requires StartsWith(l, "class")
    ensures DetectLine(l) == ClassDiagram
  {
    assert l[0] == 'c';
    NotFirstFour(l);
  }

  lemma DetectsState(l: string)
    requires StartsWith(l, "state")
    ensures DetectLine(l) == StateDiagram
  {
    assert l[0] == 's' && l[1] == 't';
    FirstCharNotPrefix(l, "graph");
    FirstCharNotPrefix(l, "flowchart");
    SecondCharNotPrefix(l, "sequencediagram");
    SecondCharNotPrefix(l, "sequence");
    FirstCharNotPrefix(l, "pie");
    FirstCharNotPrefix(l, "gantt");
    FirstCharNotPrefix(l, "classdiagram");
    FirstCharNotPrefix(l, "class");
  }

  /** Not a flowchart, sequence, pie, Gantt, class or state diagram, for a first character other than g, f, s, p, c. */
  lemma NotFirstSix(l: string)
    requires |l| > 0 && l[0] != 'g' && l[0] != 'f' && l[0] != 's' && l[0] != 'p' && l[0] != 'c'
    ensures !StartsWith(l, "graph") && !StartsWith(l, "flowchart") && !StartsWith(l, "sequencediagram")
    ensures !StartsWith(l, "sequence") && !StartsWith(l, "pie") && !StartsWith(l, "gantt")
    ensures !StartsWith(l, "classdiagram") && !StartsWith(l, "class")
    ensures !StartsWith(l, "statediagram") && !StartsWith(l, "state")
  {
    NotFirstFour(l);
    FirstCharNotPrefix(l, "classdiagram");
    FirstCharNotPrefix(l, "class");
    FirstCharNotPrefix(l, "statediagram");
    FirstCharNotPrefix(l, "state");
  }

  /** Kinds are tested in a fixed order: any line starting "er" is an ER diagram. */
  lemma DetectsEr(l: string)
    requires StartsWith(l, "er")
    ensures DetectLine(l) == ErDiagram
  {
    assert l[0] == 'e';
    NotFirstSix(l);
  }

  lemma DetectsMindmap(l: string)
    requires StartsWith(l, "mindmap")
    ensures DetectLine(l) == Mindmap
  {
    assert l[0] == 'm';
    NotFirstSix(l);
    FirstCharNotPrefix(l, "erdiagram");
    FirstCharNotPrefix(l, "er");
  }

  lemma DetectsTimeline(l: string)
    requires StartsWith(l, "timeline")
    ensures DetectLine(l) == Timeline
  {
    assert l[0] == 't';
    NotFirstSix(l);
    FirstCharNotPrefix(l, "erdiagram");
    FirstCharNotPrefix(l, "er");
    FirstCharNotPrefix(l, "mindmap");
  }

  /** Because "er" is tested as a bare prefix, "error" counts as an ER diagram. */
  lemma ErrorIsEr()
    ensures DetectLine("error") == ErDiagram
  {
    assert "error"[..2] == "er";
    DetectsEr("error");
  }

  /** "stateDiagram-v2", lower-cased, is a state diagram. */
  lemma StateV2()
    ensures DetectLine("statediagram-v2") == StateDiagram
  {
    assert "statediagram-v2"[..5] == "state";
    DetectsState("statediagram-v2");
  }

  /** A one-line code with nothing to trim is detected from its lower-cased self. */
  lemma OneLine(code: string)
    requires code != [] && '\n' !in code
    requires !IsWhitespace(code[0]) && !IsWhitespace(code[|code| - 1])
    ensures DetectType(code) == DetectLine(ToLower(code))
  {
    LinesSingle(code);
    assert TrimStart(code) == code;
    assert TrimEnd(code) == code;
  }

  /** The type is that of the first line, trimmed and lower-cased, whatever follows it. */
  lemma DetectedByFirstLine(first: string, rest: string)
    requires '\n' !in first
    ensures DetectType(first + "\n" + rest) == DetectLine(ToLower(Trim(first)))
  {
    FirstLineOnly(first, rest);
    if first != [] {
      LinesSingle(first);
    }
  }

  /** A blank first line gives Unknown, even when a diagram header follows it. */
  lemma BlankFirstLine(first: string, rest: string)
    requires '\n' !in first && Trim(first) == []
    ensures DetectType(first + "\n" + rest) == Unknown
  {
    DetectedByFirstLine(first, rest);
  }

  /** So does a first line that is a "%%" comment or directive. */
  lemma CommentFirstLine(first: string, rest: string)
    requires '\n' !in first && StartsWith(Trim(first), "%%")
    ensures DetectType(first + "\n" + rest) == Unknown
  {
    DetectedByFirstLine(first, rest);
    var t := Trim(first);
    assert t[0] == t[..2][0] == '%';
    var l := ToLower(t);
    assert l[0] == LowerChar(t[0]) == '%';
    PercentUnknown(l);
  }

  /** No diagram keyword starts with '%'. */
  lemma PercentUnknown(l: string)
    requires |l| > 0 && l[0] == '%'
    ensures DetectLine(l) == Unknown
  {
    FirstCharNotPrefix(l, "graph");
    FirstCharNotPrefix(l, "flowchart");
    FirstCharNotPrefix(l, "sequence");
    FirstCharNotPrefix(l, "pie");
    FirstCharNotPrefix(l, "gantt");
    FirstCharNotPrefix(l, "class");
    FirstCharNotPrefix(l, "state");
    FirstCharNotPrefix(l, "er");
    FirstCharNotPrefix(l, "mindmap");
    FirstCharNotPrefix(l, "timeline");
  }

  // ---------------------------------------------------------------------
  // Styles
  // ---------------------------------------------------------------------

  /** `get_diagram_style`: fill colour, line colour, display name, and an empty fourth field. */
  function DiagramStyle(t: MermaidType): (s: (string, string, string, string))
    ensures Themes.IsHexColor(s.0) && Themes.IsHexColor(s.1) && s.2 != "" && s.3 == ""
  {
    match t
    case Flowchart => ("E3F2FD", "1565C0", "Flowchart", "")
    case Sequence => ("F3E5F5", "7B1FA2", "Sequence Diagram", "")
    case Pie => ("FFF8E1", "FF8F00", "Pie Chart", "")
    case Gantt => ("E8F5E9", "2E7D32", "Gantt Chart", "")
    case ClassDiagram => ("FFF3E0", "E65100", "Class Diagram", "")
    case StateDiagram => ("E0F7FA", "00838F", "State Diagram", "")
    case ErDiagram => ("FCE4EC", "C2185B", "ER Diagram", "")
    case Mindmap => ("E8EAF6", "3949AB", "Mind Map", "")
    case Timeline => ("EFEBE9", "5D4037", "Timeline", "")
    case Unknown => ("F5F5F5", "757575", "Diagram", "")
  }

  /** Every kind has its own display name and its own fill colour. */
  lemma StylesDistinct(a: MermaidType, b: MermaidType)
    requires a != b
    ensures DiagramStyle(a).2 != DiagramStyle(b).2
    ensures DiagramStyle(a).0 != DiagramStyle(b).0
  {
  }
}
