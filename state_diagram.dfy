/**
 * State diagrams (`src/cli/markdown/mermaid/state_diagram.rs`): reading the
 * transitions of a `stateDiagram` block, then drawing each state as a box on a
 * grid three wide and each transition as an elbow connector between two boxes.
 */
module StateDiagrams {
  import opened Wrappers
  import opened Strings
  import opened MermaidTypes
  import Shapes
  import MermaidDetect

  // ---------------------------------------------------------------------
  // Reading the lines
  // ---------------------------------------------------------------------

  /** A transition: its source state, its target state and its label text ("" for none). */
  datatype Transition = Transition(from: string, to: string, text: string)

  /** What one trimmed line declares. */
  datatype StateLine = TransitionLine(transition: Transition) | NoTransition

  /** The start and end pseudo-state "[*]" is drawn as "Start" when it is a source, as "End" when a target. */
  function Renamed(state: string, name: string): (r: string)
    ensures name != "[*]" ==> r != "[*]"
  {
    if state == "[*]" then name else state
  }

  /**
   * One trimmed line: blank lines, `%%` comments and `direction` lines say
   * nothing; a line holding "-->" is a transition from the text before the
   * first "-->" to the text up to the next one (or the end), whose part after
   * a ':' is the label.
   */
  function ClassifyState(line: string): StateLine {
    if line == [] || StartsWith(line, "%%") || StartsWith(line, "direction") then NoTransition
    else match SplitOnce(line, "-->")
      case None => NoTransition
      case Some((before, after)) => TransitionLine(TransitionOf(before, after))
  }

  /** The transition of a line split at its first "-->": the target part ends at the next "-->", and a ':' in it starts the label. */
  function TransitionOf(before: string, after: string): (t: Transition)
    ensures t.from != "[*]" && t.to != "[*]"
  {
    var segment := match SplitOnce(after, "-->") case Some((s, _)) => s case None => after;
    var from := Renamed(Trim(before), "Start");
    assert "Start" != "[*]" by { assert |"Start"| != |"[*]"|; }
    assert "End" != "[*]" by { assert "End"[0] != "[*]"[0]; }
    match SplitOnce(segment, ":")
    case Some((t, l)) => Transition(from, Renamed(Trim(t), "End"), Trim(l))
    case None => Transition(from, Renamed(Trim(segment), "End"), "")
  }

  /** The states in order of first appearance, and the transitions in order. */
  datatype StateMachine = StateMachine(states: seq<string>, transitions: seq<Transition>)

  /** `states.push` unless the state is already listed. */
  function Listed(states: seq<string>, s: string): seq<string> {
    if s in states then states else states + [s]
  }

  /** A transition lists its source, then its target, and is kept. */
  function Apply(m: StateMachine, l: StateLine): StateMachine {
    match l
    case NoTransition => m
    case TransitionLine(t) => StateMachine(Listed(Listed(m.states, t.from), t.to), m.transitions + [t])
  }

  /** The states and transitions after the lines, in order. */
  function Fold(lines: seq<string>): StateMachine
    decreases |lines|
  {
    if lines == [] then StateMachine([], [])
    else Apply(Fold(lines[..|lines| - 1]), ClassifyState(Trim(lines[|lines| - 1])))
  }

  /** The parsing loop of `generate_elements`: every line after the first, trimmed. */
  method ParseStates(code: string) returns (states: seq<string>, transitions: seq<Transition>)
    ensures StateMachine(states, transitions) == Fold(MermaidDetect.Body(code))
  {
    var lines := MermaidDetect.Body(code);
    states, transitions := [], [];
    for i := 0 to |lines|
      invariant StateMachine(states, transitions) == Fold(lines[..i])
    {
      assert lines[..i + 1][..i] == lines[..i];
      states, transitions := ParseStateLine(Trim(lines[i]), states, transitions);
    }
    assert lines[..|lines|] == lines;
  }

  /** The body of the parsing loop, for one trimmed line: both endpoints listed if new, then the transition pushed. */
  method ParseStateLine(line: string, states0: seq<string>, transitions0: seq<Transition>) returns (states: seq<string>, transitions: seq<Transition>)
    ensures StateMachine(states, transitions) == Apply(StateMachine(states0, transitions0), ClassifyState(line))
  {
    states, transitions := states0, transitions0;
    var l := ClassifyState(line);
    if l.TransitionLine? {
      var t := l.transition;
      if t.from !in states {
        states := states + [t.from];
      }
      if t.to !in states {
        states := states + [t.to];
      }
      transitions := transitions + [t];
    }
  }

  // ---------------------------------------------------------------------
  // What parsing promises
  // ---------------------------------------------------------------------

  /**
   * The states are distinct, "[*]" is never one of them, and they are exactly
   * the endpoints of the transitions.
   */
  ghost predicate WellFormed(m: StateMachine) {
    && (forall i, j :: 0 <= i < j < |m.states| ==> m.states[i] != m.states[j])
    && "[*]" !in m.states
    && (forall s :: s in m.states <==> s in Endpoints(m.transitions))
  }

  /** The states the transitions go from or to. */
  function Endpoints(ts: seq<Transition>): set<string>
    decreases |ts|
  {
    if ts == [] then {} else Endpoints(ts[..|ts| - 1]) + {ts[|ts| - 1].from, ts[|ts| - 1].to}
  }

  /** A state is an endpoint exactly when some transition goes from it or to it. */
  lemma {:induction false} EndpointsAre(ts: seq<Transition>, s: string)
    ensures s in Endpoints(ts) <==> exists k :: 0 <= k < |ts| && (ts[k].from == s || ts[k].to == s)
    decreases |ts|
  {
    if ts != [] {
      var init := ts[..|ts| - 1];
      EndpointsAre(init, s);
      if exists k :: 0 <= k < |init| && (init[k].from == s || init[k].to == s) {
        var k :| 0 <= k < |init| && (init[k].from == s || init[k].to == s);
        assert ts[k] == init[k];
      }
      if exists k :: 0 <= k < |ts| && (ts[k].from == s || ts[k].to == s) {
        var k :| 0 <= k < |ts| && (ts[k].from == s || ts[k].to == s);
        if k < |init| {
          assert init[k] == ts[k];
        }
      }
    }
  }

  /** A transition line never names "[*]" as either endpoint. */
  lemma NoPseudoState(line: string)
    requires ClassifyState(line).TransitionLine?
    ensures ClassifyState(line).transition.from != "[*]" && ClassifyState(line).transition.to != "[*]"
  {
  }

  /** Listing keeps the states distinct and adds exactly `s`. */
  lemma ListedDistinct(states: seq<string>, s: string)
    requires forall i, j :: 0 <= i < j < |states| ==> states[i] != states[j]
    ensures forall i, j :: 0 <= i < j < |Listed(states, s)| ==> Listed(states, s)[i] != Listed(states, s)[j]
    ensures forall x :: x in Listed(states, s) <==> x in states || x == s
    ensures Listed(states, s)[..|states|] == states
  {
    assert (states + [s])[..|states|] == states;
  }

  /** One more transition keeps the machine well formed. */
  lemma ApplyKeeps(m: StateMachine, l: StateLine)
    requires WellFormed(m) && (l.TransitionLine? ==> l.transition.from != "[*]" && l.transition.to != "[*]")
    ensures WellFormed(Apply(m, l))
    ensures Apply(m, l).states[..|m.states|] == m.states
  {
    if l.TransitionLine? {
      TransitionKeeps(m, l.transition);
    } else {
      assert m.states[..|m.states|] == m.states;
    }
  }

  lemma TransitionKeeps(m: StateMachine, t: Transition)
    requires WellFormed(m) && t.from != "[*]" && t.to != "[*]"
    ensures WellFormed(Apply(m, TransitionLine(t)))
    ensures Apply(m, TransitionLine(t)).states[..|m.states|] == m.states
  {
    var s1 := Listed(m.states, t.from);
    var s2 := Listed(s1, t.to);
    var ts := m.transitions + [t];
    ListedDistinct(m.states, t.from);
    ListedDistinct(s1, t.to);
    PrefixOfPrefix(m.states, s1, s2);
    assert ts[..|m.transitions|] == m.transitions;
    assert Endpoints(ts) == Endpoints(m.transitions) + {t.from, t.to};
    assert forall x :: x in s2 <==> x in Endpoints(ts);
    assert Apply(m, TransitionLine(t)) == StateMachine(s2, ts);
  }

  /** Whatever the lines, the states are distinct, never "[*]", and exactly the endpoints of the transitions. */
  lemma {:induction false} FoldWellFormed(lines: seq<string>)
    ensures WellFormed(Fold(lines))
    decreases |lines|
  {
    if lines != [] {
      var line := Trim(lines[|lines| - 1]);
      FoldWellFormed(lines[..|lines| - 1]);
      if ClassifyState(line).TransitionLine? {
        NoPseudoState(line);
      }
      ApplyKeeps(Fold(lines[..|lines| - 1]), ClassifyState(line));
    }
  }

  /** A state keeps its place: the states read from a prefix of the lines begin the list. */
  lemma {:induction false} StatesOrder(lines: seq<string>, k: nat)
    requires k <= |lines|
    ensures |Fold(lines[..k]).states| <= |Fold(lines).states|
    ensures Fold(lines).states[..|Fold(lines[..k]).states|] == Fold(lines[..k]).states
    decreases |lines|
  {
    if k == |lines| {
      assert lines[..k] == lines;
    } else {
      var init := lines[..|lines| - 1];
      var line := Trim(lines[|lines| - 1]);
      StatesOrder(init, k);
      assert init[..k] == lines[..k];
      FoldWellFormed(init);
      if ClassifyState(line).TransitionLine? {
        NoPseudoState(line);
      }
      ApplyKeeps(Fold(init), ClassifyState(line));
      PrefixOfPrefix(Fold(lines[..k]).states, Fold(init).states, Fold(lines).states);
    }
  }

  /** Blank lines, comments and `direction` lines are skipped, whatever follows. */
  lemma Skipped(line: string)
    requires StartsWith(line, "%%") || StartsWith(line, "direction")
    ensures ClassifyState(line) == NoTransition
  {
  }

  /** A line without "-->" declares nothing. */
  lemma NoArrow(line: string)
    requires !Contains(line, "-->")
    ensures ClassifyState(line) == NoTransition
  {
  }

  /**
   * A plain transition line: the source before the arrow, the target and the
   * label on either side of the ':' after it, each trimmed.
   */
  lemma LabelAfterColon(line: string, before: string, after: string, t: string, l: string)
    requires line != [] && !StartsWith(line, "%%") && !StartsWith(line, "direction")
    requires SplitOnce(line, "-->") == Some((before, after)) && !Contains(after, "-->")
    requires SplitOnce(after, ":") == Some((t, l))
    ensures ClassifyState(line) == TransitionLine(Transition(Renamed(Trim(before), "Start"), Renamed(Trim(t), "End"), Trim(l)))
  {
  }

  /** "[*] --> Active" starts in Active: the pseudo-state becomes "Start", and there is no label. */
  lemma StartExample()
    ensures ClassifyState("[*] --> Active") == TransitionLine(Transition("Start", "Active", ""))
  {
    var line := "[*] --> Active";
    NotAt(line, "%%", 0, 0);
    NotAt(line, "direction", 0, 0);
    assert !StartsWith(line, "%%") && !StartsWith(line, "direction");
    StartSplit();
    StartTransition();
  }

  lemma StartSplit()
    ensures SplitOnce("[*] --> Active", "-->") == Some(("[*] ", " Active"))
  {
    var line := "[*] --> Active";
    NotAt(line, "-->", 0, 0);
    NotAt(line, "-->", 1, 0);
    NotAt(line, "-->", 2, 0);
    NotAt(line, "-->", 3, 0);
    FindIs(line, "-->", 4);
    SplitAt(line, "-->", 4);
    assert line[..4] == "[*] " && line[7..] == " Active";
  }

  lemma StartTransition()
    ensures TransitionOf("[*] ", " Active") == Transition("Start", "Active", "")
  {
    NoColonAfter();
    StartTrims();
  }

  lemma NoColonAfter()
    ensures SplitOnce(" Active", "-->") == None && SplitOnce(" Active", ":") == None
  {
    var s := " Active";
    forall j | 0 <= j <= |s| - 3
      ensures !OccursAt(s, "-->", j)
    {
      NotAt(s, "-->", j, 0);
    }
    forall j | 0 <= j <= |s| - 1
      ensures !OccursAt(s, ":", j)
    {
      NotAt(s, ":", j, 0);
    }
    NoneFound(s, "-->");
    NoneFound(s, ":");
  }

  lemma StartTrims()
    ensures Trim("[*] ") == "[*]" && Trim(" Active") == "Active"
  {
    TrimStar();
    TrimActive();
  }

  lemma TrimStar()
    ensures Trim("[*] ") == "[*]"
  {
    assert TrimStart("[*] ") == "[*] ";
    assert "[*] "[..3] == "[*]";
    assert TrimEnd("[*]") == "[*]";
  }

  lemma TrimActive()
    ensures Trim(" Active") == "Active"
  {
    assert " Active"[1..] == "Active";
    Unpadded("Active");
  }

  // ---------------------------------------------------------------------
  // Layout
  // ---------------------------------------------------------------------

  const START_X: nat := 1000000
  const START_Y: nat := 1800000
  const STATE_WIDTH: nat := 1500000
  const STATE_HEIGHT: nat := 500000
  const H_SPACING: nat := 2200000
  const V_SPACING: nat := 1200000

  /** The i-th state's box: three to a row. */
  function StateX(i: nat): nat {
    START_X + (i % 3) * H_SPACING
  }

  function StateY(i: nat): nat {
    START_Y + (i / 3) * V_SPACING
  }

  /** The pseudo-states are drawn as black ellipses. */
  predicate IsTerminal(state: string) {
    state == "Start" || state == "End"
  }

  /** The i-th state: an ellipse for Start and End, a rounded box otherwise, named by its state. */
  function StateShape(i: nat, state: string): DiagramShape {
    NewShape(if IsTerminal(state) then Ellipse else RoundedRectangle, StateX(i), StateY(i), STATE_WIDTH, STATE_HEIGHT)
      .(fill := Some(Shapes.NewFill(if IsTerminal(state) then "000000" else "E0F7FA")),
        line := Some(Shapes.NewLine("00838F", 2)),
        text := Some(state))
  }

  /** One shape per state, in order. */
  function StateShapes(states: seq<string>): seq<DiagramShape>
    decreases |states|
  {
    if states == [] then [] else StateShapes(states[..|states| - 1]) + [StateShape(|states| - 1, states[|states| - 1])]
  }

  /** Each state's box corner; a repeated state would keep its last one. */
  function Positions(states: seq<string>): map<string, (nat, nat)>
    decreases |states|
  {
    if states == [] then map[]
    else Positions(states[..|states| - 1])[states[|states| - 1] := (StateX(|states| - 1), StateY(|states| - 1))]
  }

  /**
   * A transition between two placed states: an elbow from the middle of the
   * source box's right edge to the middle of the target box's left edge,
   * ending in a triangle, labelled only when the label is not empty.
   */
  function TransitionConnector(t: Transition, pos: map<string, (nat, nat)>): Option<Connector> {
    if t.from in pos && t.to in pos then
      var (fx, fy) := pos[t.from];
      var (tx, ty) := pos[t.to];
      Some(Connector(Elbow, fx + STATE_WIDTH, fy + STATE_HEIGHT / 2, tx, ty + STATE_HEIGHT / 2,
                     "00838F", 19050, Some(Triangle), if t.text != "" then Some(t.text) else None))
    else None
  }

  /** The connectors of the transitions, in order. */
  function Connectors(ts: seq<Transition>, pos: map<string, (nat, nat)>): seq<Connector>
    decreases |ts|
  {
    if ts == [] then []
    else
      var c := TransitionConnector(ts[|ts| - 1], pos);
      Connectors(ts[..|ts| - 1], pos) + (if c.Some? then [c.value] else [])
  }

  /** `generate_elements`, as a function of the code. */
  function StateElements(code: string): DiagramElements {
    var m := Fold(MermaidDetect.Body(code));
    DiagramElements(StateShapes(m.states), Connectors(m.transitions, Positions(m.states)), None, false)
  }

  /** `generate_elements`: the states and transitions, then a shape per state, then a connector per transition. */
  method GenerateElements(code: string) returns (d: DiagramElements)
    ensures d == StateElements(code)
  {
    var states, transitions := ParseStates(code);
    var shapes, pos := LayoutStates(states);
    var connectors := LayoutTransitions(transitions, pos);
    d := DiagramElements(shapes, connectors, None, false);
  }

  /** The state loop of `generate_elements`: each state's corner recorded and its shape pushed. */
  method LayoutStates(states: seq<string>) returns (shapes: seq<DiagramShape>, pos: map<string, (nat, nat)>)
    ensures shapes == StateShapes(states) && pos == Positions(states)
  {
    shapes, pos := [], map[];
    for i := 0 to |states|
      invariant shapes == StateShapes(states[..i]) && pos == Positions(states[..i])
    {
      StateStep(states, i);
      pos := pos[states[i] := (StateX(i), StateY(i))];
      shapes := shapes + [StateShape(i, states[i])];
    }
    assert states[..|states|] == states;
  }

  /** One more state: its shape follows, and its corner is recorded. */
  lemma StateStep(states: seq<string>, i: nat)
    requires i < |states|
    ensures StateShapes(states[..i + 1]) == StateShapes(states[..i]) + [StateShape(i, states[i])]
    ensures Positions(states[..i + 1]) == Positions(states[..i])[states[i] := (StateX(i), StateY(i))]
  {
    assert states[..i + 1][..i] == states[..i];
  }

  /** The transition loop of `generate_elements`: a connector for each transition whose states are placed. */
  method LayoutTransitions(ts: seq<Transition>, pos: map<string, (nat, nat)>) returns (connectors: seq<Connector>)
    ensures connectors == Connectors(ts, pos)
  {
    connectors := [];
    for k := 0 to |ts|
      invariant connectors == Connectors(ts[..k], pos)
    {
      assert ts[..k + 1][..k] == ts[..k];
      var c := TransitionConnector(ts[k], pos);
      if c.Some? {
        connectors := connectors + [c.value];
      }
    }
    assert ts[..|ts|] == ts;
  }

  // ---------------------------------------------------------------------
  // What the layout promises
  // ---------------------------------------------------------------------

  /** Three states to a row: distinct places on the grid for distinct states. */
  lemma GridDistinct(i: nat, j: nat)
    requires i != j
    ensures (StateX(i), StateY(i)) != (StateX(j), StateY(j))
  {
    assert i == 3 * (i / 3) + i % 3 && j == 3 * (j / 3) + j % 3;
  }

  /** One shape per state: the i-th is the i-th state's, at its place on the grid, an ellipse exactly for Start and End. */
  lemma {:induction false} ShapesPlaced(states: seq<string>)
    ensures |StateShapes(states)| == |states|
    ensures forall i :: 0 <= i < |states| ==> StateShapes(states)[i] == StateShape(i, states[i])
    decreases |states|
  {
    if states != [] {
      var init := states[..|states| - 1];
      ShapesPlaced(init);
      forall i | 0 <= i < |states|
        ensures StateShapes(states)[i] == StateShape(i, states[i])
      {
        SnocAt(StateShapes(init), StateShape(|states| - 1, states[|states| - 1]), i);
        if i < |init| {
          assert init[i] == states[i];
        }
      }
    }
  }

  /** What each state's shape is. */
  lemma StateShapeIs(i: nat, state: string)
    ensures var s := StateShape(i, state);
      && s.text == Some(state)
      && (s.kind == Ellipse <==> IsTerminal(state))
      && (s.kind == RoundedRectangle <==> !IsTerminal(state))
      && s.x == StateX(i) && s.y == StateY(i) && s.width == STATE_WIDTH && s.height == STATE_HEIGHT
  {
  }

  /** With distinct states, each state's corner is the one of its place in the list. */
  lemma {:induction false} PositionsOfDistinct(states: seq<string>)
    requires forall i, j :: 0 <= i < j < |states| ==> states[i] != states[j]
    ensures forall s :: s in Positions(states) <==> s in states
    ensures forall i :: 0 <= i < |states| ==> Positions(states)[states[i]] == (StateX(i), StateY(i))
    decreases |states|
  {
    if states != [] {
      var init := states[..|states| - 1];
      PositionsOfDistinct(init);
      var last := states[|states| - 1];
      assert forall i :: 0 <= i < |init| ==> init[i] == states[i];
      assert states == init + [last];
      forall i | 0 <= i < |states|
        ensures Positions(states)[states[i]] == (StateX(i), StateY(i))
      {
        if i < |init| {
          assert states[i] != last;
        }
      }
    }
  }

  /** When every endpoint is placed, there is one connector per transition, in order. */
  lemma {:induction false} ConnectorsAll(ts: seq<Transition>, pos: map<string, (nat, nat)>)
    requires forall k :: 0 <= k < |ts| ==> ts[k].from in pos && ts[k].to in pos
    ensures |Connectors(ts, pos)| == |ts|
    ensures forall k :: 0 <= k < |ts| ==> Some(Connectors(ts, pos)[k]) == TransitionConnector(ts[k], pos)
    decreases |ts|
  {
    if ts != [] {
      var init := ts[..|ts| - 1];
      ConnectorsAll(init, pos);
      var last := TransitionConnector(ts[|ts| - 1], pos).value;
      forall k | 0 <= k < |ts|
        ensures Some(Connectors(ts, pos)[k]) == TransitionConnector(ts[k], pos)
      {
        SnocAt(Connectors(init, pos), last, k);
        if k < |init| {
          assert init[k] == ts[k];
        }
      }
    }
  }

  /** A transition's connector runs from the source box's right edge to the target box's left edge, both at mid-height. */
  lemma ConnectorJoins(t: Transition, pos: map<string, (nat, nat)>)
    requires t.from in pos && t.to in pos
    ensures var c := TransitionConnector(t, pos).value;
      && c.kind == Elbow && c.endArrow == Some(Triangle)
      && c.startX == pos[t.from].0 + STATE_WIDTH && c.startY == pos[t.from].1 + STATE_HEIGHT / 2
      && c.endX == pos[t.to].0 && c.endY == pos[t.to].1 + STATE_HEIGHT / 2
      && (c.labelText.Some? <==> t.text != "")
      && (c.labelText.Some? ==> c.labelText.value == t.text)
  {
  }

  /** Every state has a shape and every transition a connector. */
  lemma ElementCounts(code: string)
    ensures var m := Fold(MermaidDetect.Body(code));
      |StateElements(code).shapes| == |m.states| && |StateElements(code).connectors| == |m.transitions|
  {
    var m := Fold(MermaidDetect.Body(code));
    FoldWellFormed(MermaidDetect.Body(code));
    ShapesPlaced(m.states);
    PositionsOfDistinct(m.states);
    forall k | 0 <= k < |m.transitions|
      ensures m.transitions[k].from in Positions(m.states) && m.transitions[k].to in Positions(m.states)
    {
      EndpointsAre(m.transitions, m.transitions[k].from);
      EndpointsAre(m.transitions, m.transitions[k].to);
    }
    ConnectorsAll(m.transitions, Positions(m.states));
  }
}
