/**
 * Sequence diagrams (`src/cli/markdown/mermaid/sequence.rs`): reading the
 * participants and messages of a `sequenceDiagram` block, then laying out a
 * box, a lifeline and a second box per participant and an arrow with a label
 * per message.
 */
module SequenceDiagrams {
  import opened Wrappers
  import opened Strings
  import opened MermaidTypes
  import Shapes
  import MermaidDetect

  // ---------------------------------------------------------------------
  // Reading the lines
  // ---------------------------------------------------------------------

  datatype Message = Message(from: string, to: string, text: string)

  /** What one trimmed line declares. */
  datatype SequenceLine =
    | Participant(id: string, displayName: string)
    | MessageLine(message: Message)
    | NoStatement

  /** The end of the first word of a text that starts with a non-space. */
  function WordEnd(t: string): (k: nat)
    ensures k <= |t| && (k < |t| ==> IsWhitespace(t[k]))
    ensures forall i :: 0 <= i < k ==> !IsWhitespace(t[i])
  {
    if t == [] || IsWhitespace(t[0]) then 0 else 1 + WordEnd(t[1..])
  }

  /** `split_whitespace().next().unwrap_or("")`: the first word, "" when there is none. */
  function FirstWord(s: string): string {
    var t := TrimStart(s);
    t[..WordEnd(t)]
  }

  /** A message line split on `arrow`, then on the first ':'; nothing when either is missing. */
  function MessageOn(line: string, arrow: string): SequenceLine {
    match SplitOnce(line, arrow)
    case None => NoStatement
    case Some((fromPart, rest)) =>
      match SplitOnce(rest, ":")
      case None => NoStatement
      case Some((toPart, msg)) => MessageLine(Message(Trim(fromPart), Trim(toPart), Trim(msg)))
  }

  /**
   * One trimmed line: a participant, with an " as " alias for its display
   * name or its first word as both id and name; a message, split on "-->>"
   * when the line holds one and on "->>" otherwise; or nothing.
   */
  function ClassifyLine(line: string): SequenceLine {
    if StartsWith(line, "participant") then
      var rest := Trim(line[|"participant"|..]);
      match SplitOnce(rest, " as ")
      case Some((id, alias)) => Participant(Trim(id), Trim(alias))
      case None => var id := FirstWord(rest); Participant(id, id)
    else if Contains(line, "->>") || Contains(line, "-->>") then
      MessageOn(line, if Contains(line, "-->>") then "-->>" else "->>")
    else NoStatement
  }

  /** The participant ids in order of first appearance, each one's display name, and the messages. */
  datatype SequenceState = SequenceState(ids: seq<string>, names: map<string, string>, messages: seq<Message>)

  const START := SequenceState([], map[], [])

  /** A message endpoint not yet listed is added, named by its id. */
  function AddEndpoint(st: SequenceState, id: string): SequenceState {
    if id in st.ids then st else st.(ids := st.ids + [id], names := st.names[id := id])
  }

  /** What one line does: a new non-empty participant is listed; a message lists its endpoints, then is kept. */
  function Apply(st: SequenceState, l: SequenceLine): SequenceState {
    match l
    case Participant(id, name) =>
      if id != "" && id !in st.ids then st.(ids := st.ids + [id], names := st.names[id := name]) else st
    case MessageLine(m) =>
      var s := AddEndpoint(AddEndpoint(st, m.from), m.to);
      s.(messages := s.messages + [m])
    case NoStatement => st
  }

  /** The state after the lines, in order. */
  function Fold(lines: seq<string>): SequenceState
    decreases |lines|
  {
    if lines == [] then START else Apply(Fold(lines[..|lines| - 1]), ClassifyLine(Trim(lines[|lines| - 1])))
  }

  /** The parsing loop of `generate_shapes`: every line after the first, trimmed. */
  method ParseSequence(code: string) returns (st: SequenceState)
    ensures st == Fold(MermaidDetect.Body(code))
  {
    var lines := MermaidDetect.Body(code);
    st := START;
    for i := 0 to |lines|
      invariant st == Fold(lines[..i])
    {
      FoldStep(lines, i);
      st := ParseLine(Trim(lines[i]), st);
    }
    assert lines[..|lines|] == lines;
  }

  /** One more line folds in its statement. */
  lemma FoldStep(lines: seq<string>, i: nat)
    requires i < |lines|
    ensures Fold(lines[..i + 1]) == Apply(Fold(lines[..i]), ClassifyLine(Trim(lines[i])))
  {
    assert lines[..i + 1][..i] == lines[..i];
  }

  /** The body of the parsing loop, for one trimmed line. */
  method ParseLine(line: string, st0: SequenceState) returns (st: SequenceState)
    ensures st == Apply(st0, ClassifyLine(line))
  {
    st := st0;
    if StartsWith(line, "participant") {
      var rest := Trim(line[|"participant"|..]);
      var id, name;
      match SplitOnce(rest, " as ") {
        case Some((a, alias)) =>
          id, name := Trim(a), Trim(alias);
        case None =>
          id := FirstWord(rest);
          name := id;
      }
      if id != "" && id !in st.ids {
        st := st.(ids := st.ids + [id], names := st.names[id := name]);
      }
    } else if Contains(line, "->>") || Contains(line, "-->>") {
      var arrow := if Contains(line, "-->>") then "-->>" else "->>";
      var l := MessageOn(line, arrow);
      if l.MessageLine? {
        var m := l.message;
        if m.from !in st.ids {
          st := st.(ids := st.ids + [m.from], names := st.names[m.from := m.from]);
        }
        if m.to !in st.ids {
          st := st.(ids := st.ids + [m.to], names := st.names[m.to := m.to]);
        }
        st := st.(messages := st.messages + [m]);
      }
    }
  }

  /**
   * The state is well formed: the ids are distinct, each has a display name
   * and nothing else has one, and every message's endpoints are listed.
   */
  ghost predicate WellFormed(st: SequenceState) {
    && (forall i, j :: 0 <= i < j < |st.ids| ==> st.ids[i] != st.ids[j])
    && (forall id :: id in st.names <==> id in st.ids)
    && (forall k :: 0 <= k < |st.messages| ==> st.messages[k].from in st.ids && st.messages[k].to in st.ids)
  }

  /** Exactly the listed ids have a display name. */
  ghost predicate KeysListed(st: SequenceState) {
    forall id :: id in st.names <==> id in st.ids
  }

  /** A line keeps exactly the listed ids named and renames none of them. */
  lemma ApplyNames(st: SequenceState, l: SequenceLine)
    requires KeysListed(st)
    ensures KeysListed(Apply(st, l))
    ensures forall id :: id in st.names ==> id in Apply(st, l).names && Apply(st, l).names[id] == st.names[id]
  {
  }

  /** Every line keeps the state well formed, lists ids only by appending, and renames no listed id. */
  lemma ApplyKeeps(st: SequenceState, l: SequenceLine)
    requires WellFormed(st)
    ensures WellFormed(Apply(st, l))
    ensures Apply(st, l).ids[..|st.ids|] == st.ids
    ensures forall id :: id in st.names ==> id in Apply(st, l).names && Apply(st, l).names[id] == st.names[id]
    ensures Apply(st, l).messages == st.messages + (if l.MessageLine? then [l.message] else [])
  {
    ApplyNames(st, l);
    match l
    case Participant(id, name) =>
      if id != "" && id !in st.ids {
        Listed(st, id, name);
      }
    case MessageLine(m) =>
      MessageKept(st, m);
    case NoStatement =>
  }

  /** A message keeps the state well formed: its endpoints are listed first. */
  lemma MessageKept(st: SequenceState, m: Message)
    requires WellFormed(st)
    ensures WellFormed(Apply(st, MessageLine(m))) && Apply(st, MessageLine(m)).ids[..|st.ids|] == st.ids
  {
    var s1 := AddEndpoint(st, m.from);
    EndpointKept(st, m.from);
    var s2 := AddEndpoint(s1, m.to);
    EndpointKept(s1, m.to);
    PrefixOfPrefix(st.ids, s1.ids, s2.ids);
    Pushed(s2, m);
  }

  /** Adding an endpoint keeps the state well formed and lists it. */
  lemma EndpointKept(st: SequenceState, id: string)
    requires WellFormed(st)
    ensures WellFormed(AddEndpoint(st, id)) && AddEndpoint(st, id).ids[..|st.ids|] == st.ids
    ensures id in AddEndpoint(st, id).ids && (forall x :: x in st.ids ==> x in AddEndpoint(st, id).ids)
  {
    if id !in st.ids {
      Listed(st, id, id);
    }
  }

  /** A message whose endpoints are listed keeps the state well formed. */
  lemma Pushed(st: SequenceState, m: Message)
    requires WellFormed(st) && m.from in st.ids && m.to in st.ids
    ensures WellFormed(st.(messages := st.messages + [m]))
  {
  }

  /** Listing a new id keeps the state well formed and the ids listed before as they were. */
  lemma Listed(st: SequenceState, id: string, name: string)
    requires WellFormed(st) && id !in st.ids
    ensures var s := st.(ids := st.ids + [id], names := st.names[id := name]);
      WellFormed(s) && s.ids[..|st.ids|] == st.ids
  {
    var s := st.(ids := st.ids + [id], names := st.names[id := name]);
    assert s.ids[..|st.ids|] == st.ids;
    assert forall k :: 0 <= k < |st.messages| ==> st.messages[k].from in s.ids && st.messages[k].to in s.ids;
  }

  /** Whatever the lines, the state they give is well formed. */
  lemma {:induction false} FoldWellFormed(lines: seq<string>)
    ensures WellFormed(Fold(lines))
    decreases |lines|
  {
    if lines != [] {
      FoldWellFormed(lines[..|lines| - 1]);
      ApplyKeeps(Fold(lines[..|lines| - 1]), ClassifyLine(Trim(lines[|lines| - 1])));
    }
  }

  /** A message lists its sender, then its receiver, after the ids already listed, each only if missing. */
  lemma EndpointsAppended(st: SequenceState, m: Message)
    ensures Apply(st, MessageLine(m)).ids
      == st.ids + (if m.from in st.ids then [] else [m.from]) + (if m.to in st.ids || m.to == m.from then [] else [m.to])
  {
  }

  /** A participant line with an alias declares the id before " as " and the alias as its display name, both trimmed. */
  lemma AliasNames(line: string, id: string, alias: string)
    requires StartsWith(line, "participant") && SplitOnce(Trim(line[|"participant"|..]), " as ") == Some((id, alias))
    ensures ClassifyLine(line) == Participant(Trim(id), Trim(alias))
  {
  }

  /** "-->>" wins over "->>": a line holding both forms is split on "-->>". */
  lemma DashedArrowFirst(line: string)
    requires !StartsWith(line, "participant") && Contains(line, "-->>")
    ensures ClassifyLine(line) == MessageOn(line, "-->>")
  {
  }

  /** "A-->>B: Hi" sends "Hi" from A to B. */
  lemma DashedArrowExample(line: string)
    requires line == "A-->>B: Hi"
    ensures MessageOn(line, "-->>") == MessageLine(Message("A", "B", "Hi"))
  {
    DashedSplit(line);
    ColonSplit(line[5..]);
  }

  /** Split on "->>" instead, "A-->>B: Hi" would come from "A-". */
  lemma PlainArrowExample(line: string)
    requires line == "A-->>B: Hi"
    ensures MessageOn(line, "->>") == MessageLine(Message("A-", "B", "Hi"))
  {
    PlainSplit(line);
    ColonSplit(line[5..]);
  }

  lemma DashedSplit(s: string)
    requires s == "A-->>B: Hi"
    ensures SplitOnce(s, "-->>") == Some((s[..1], s[5..]))
    ensures Trim(s[..1]) == "A" && s[5..] == "B: Hi"
  {
    DashedFind(s);
    SplitAt(s, "-->>", 1);
    Unpadded(s[..1]);
  }

  lemma DashedFind(s: string)
    requires s == "A-->>B: Hi"
    ensures Find(s, "-->>") == Some(1)
  {
    NotAt(s, "-->>", 0, 0);
    assert OccursAt(s, "-->>", 1) by { assert s[1..5] == "-->>"; }
    FindIs(s, "-->>", 1);
  }

  lemma PlainSplit(s: string)
    requires s == "A-->>B: Hi"
    ensures SplitOnce(s, "->>") == Some((s[..2], s[5..]))
    ensures Trim(s[..2]) == "A-" && s[5..] == "B: Hi"
  {
    NotAt(s, "->>", 0, 0);
    NotAt(s, "->>", 1, 1);
    FindIs(s, "->>", 2);
    SplitAt(s, "->>", 2);
    Unpadded(s[..2]);
  }

  /** What both examples have after the arrow: "B" to the first ':', then "Hi" trimmed. */
  lemma ColonSplit(rest: string)
    requires rest == "B: Hi"
    ensures SplitOnce(rest, ":") == Some((rest[..1], rest[2..]))
    ensures Trim(rest[..1]) == "B" && Trim(rest[2..]) == "Hi"
  {
    NotAt(rest, ":", 0, 0);
    FindIs(rest, ":", 1);
    SplitAt(rest, ":", 1);
    Unpadded(rest[..1]);
    TrimHi(rest[2..]);
  }

  lemma TrimHi(t: string)
    requires t == " Hi"
    ensures Trim(t) == "Hi"
  {
    Unpadded(t[1..]);
  }

  /** The display name a participant is drawn with. */
  function DisplayName(names: map<string, string>, id: string): string {
    if id in names then names[id] else id
  }

  /** Only the first declaration names a participant: later ones, and messages, do not rename it. */
  lemma {:induction false} FirstNameKept(lines: seq<string>, k: nat)
    requires k <= |lines|
    ensures forall id :: id in Fold(lines[..k]).names ==> id in Fold(lines).names && Fold(lines).names[id] == Fold(lines[..k]).names[id]
    decreases |lines|
  {
    if k < |lines| {
      var init := lines[..|lines| - 1];
      FirstNameKept(init, k);
      assert init[..k] == lines[..k];
      FoldWellFormed(init);
      ApplyNames(Fold(init), ClassifyLine(Trim(lines[|lines| - 1])));
    } else {
      assert lines[..k] == lines;
    }
  }

  // ---------------------------------------------------------------------
  // Layout
  // ---------------------------------------------------------------------

  const START_X: nat := 500000
  const START_Y: nat := 1600000
  const PARTICIPANT_WIDTH: nat := 1400000
  const PARTICIPANT_HEIGHT: nat := 400000
  const H_SPACING: nat := 1800000
  const LIFELINE_HEIGHT: nat := 3000000
  const MESSAGE_SPACING: nat := 450000
  /** The first message's y: 200000 below the participant boxes. */
  const MESSAGE_Y_START: nat := START_Y + PARTICIPANT_HEIGHT + 200000

  /** The left edge of the i-th participant. */
  function ColumnX(i: nat): nat {
    START_X + i * H_SPACING
  }

  /** A participant's box, at the top or the bottom. */
  function ParticipantBox(x: nat, y: nat, name: string): DiagramShape {
    NewShape(Preset(Shapes.Rectangle), x, y, PARTICIPANT_WIDTH, PARTICIPANT_HEIGHT)
      .(fill := Some(Shapes.NewFill("E3F2FD")), line := Some(Shapes.NewLine("1565C0", 2)), text := Some(name))
  }

  /** The box, the lifeline down from its centre and the box under the lifeline. */
  function ParticipantShapes(x: nat, name: string): seq<DiagramShape> {
    [ParticipantBox(x, START_Y, name),
     NewShape(Preset(Shapes.Rectangle), x + PARTICIPANT_WIDTH / 2 - 10000, START_Y + PARTICIPANT_HEIGHT, 20000, LIFELINE_HEIGHT)
       .(fill := Some(Shapes.NewFill("757575"))),
     ParticipantBox(x, START_Y + PARTICIPANT_HEIGHT + LIFELINE_HEIGHT, name)]
  }

  /** The shapes of the participants, three each, in order. */
  function ParticipantsLayout(ids: seq<string>, names: map<string, string>): seq<DiagramShape>
    decreases |ids|
  {
    if ids == [] then []
    else ParticipantsLayout(ids[..|ids| - 1], names) + ParticipantShapes(ColumnX(|ids| - 1), DisplayName(names, ids[|ids| - 1]))
  }

  /** The x of each participant; a repeated id would keep its last column. */
  function Positions(ids: seq<string>): map<string, nat>
    decreases |ids|
  {
    if ids == [] then map[] else Positions(ids[..|ids| - 1])[ids[|ids| - 1] := ColumnX(|ids| - 1)]
  }

  /** `u32::saturating_sub`. */
  function SaturatingSub(a: nat, b: nat): nat {
    if a >= b then a - b else 0
  }

  /**
   * The i-th message, when both endpoints have a column: an arrow 120000
   * high between the two centres, pointing right when the sender is to the
   * left of the receiver and left otherwise, and its text in a box above it.
   */
  function MessageShapes(m: Message, i: nat, xs: map<string, nat>): seq<DiagramShape> {
    if m.from in xs && m.to in xs then
      var y := MESSAGE_Y_START + i * MESSAGE_SPACING;
      var fromCentre := xs[m.from] + PARTICIPANT_WIDTH / 2;
      var toCentre := xs[m.to] + PARTICIPANT_WIDTH / 2;
      var left := !(fromCentre < toCentre);
      var arrowX := if left then toCentre else fromCentre;
      var width := if left then fromCentre - toCentre else toCentre - fromCentre;
      [NewShape(if left then LeftArrow else RightArrow, arrowX, y, width, 120000).(fill := Some(Shapes.NewFill("1565C0"))),
       NewShape(Preset(Shapes.Rectangle), arrowX, SaturatingSub(y, 180000), width, 160000).(text := Some(m.text))]
    else []
  }

  /** The shapes of the messages, in order. */
  function MessagesLayout(ms: seq<Message>, xs: map<string, nat>): seq<DiagramShape>
    decreases |ms|
  {
    if ms == [] then [] else MessagesLayout(ms[..|ms| - 1], xs) + MessageShapes(ms[|ms| - 1], |ms| - 1, xs)
  }

  /** `generate_shapes`, as a function of the code. */
  function SequenceShapes(code: string): seq<DiagramShape> {
    var st := Fold(MermaidDetect.Body(code));
    ParticipantsLayout(st.ids, st.names) + MessagesLayout(st.messages, Positions(st.ids))
  }

  /** `generate_shapes`: the participants and messages, then the shapes of each participant, then of each message. */
  method GenerateShapes(code: string) returns (shapes: seq<DiagramShape>)
    ensures shapes == SequenceShapes(code)
  {
    var st := ParseSequence(code);
    var xs;
    shapes, xs := LayoutParticipants(st.ids, st.names);
    var arrows := LayoutMessages(st.messages, xs);
    shapes := shapes + arrows;
  }

  /** The participant loop of `generate_shapes`: each one's column, and its three shapes pushed. */
  method LayoutParticipants(ids: seq<string>, names: map<string, string>) returns (shapes: seq<DiagramShape>, xs: map<string, nat>)
    ensures shapes == ParticipantsLayout(ids, names) && xs == Positions(ids)
  {
    shapes := [];
    xs := map[];
    for i := 0 to |ids|
      invariant shapes == ParticipantsLayout(ids[..i], names)
      invariant xs == Positions(ids[..i])
    {
      ParticipantStep(ids, names, i);
      var id := ids[i];
      var x := ColumnX(i);
      xs := xs[id := x];
      var name := if id in names then names[id] else id;
      shapes := shapes + ParticipantShapes(x, name);
    }
    assert ids[..|ids|] == ids;
  }

  /** One more participant: its three shapes follow, and its column is recorded. */
  lemma ParticipantStep(ids: seq<string>, names: map<string, string>, i: nat)
    requires i < |ids|
    ensures ParticipantsLayout(ids[..i + 1], names) == ParticipantsLayout(ids[..i], names) + ParticipantShapes(ColumnX(i), DisplayName(names, ids[i]))
    ensures Positions(ids[..i + 1]) == Positions(ids[..i])[ids[i] := ColumnX(i)]
  {
    assert ids[..i + 1][..i] == ids[..i];
  }

  /** The message loop of `generate_shapes`: the arrow and the text of each message with both endpoints placed. */
  method LayoutMessages(ms: seq<Message>, xs: map<string, nat>) returns (shapes: seq<DiagramShape>)
    ensures shapes == MessagesLayout(ms, xs)
  {
    shapes := [];
    for i := 0 to |ms|
      invariant shapes == MessagesLayout(ms[..i], xs)
    {
      assert ms[..i + 1][..i] == ms[..i];
      shapes := shapes + MessageShapes(ms[i], i, xs);
    }
    assert ms[..|ms|] == ms;
  }

  // ---------------------------------------------------------------------
  // What the layout promises
  // ---------------------------------------------------------------------

  /** Three shapes per participant: the i-th participant's are at 3i, 3i+1 and 3i+2, in its column. */
  lemma {:induction false} ParticipantsPlaced(ids: seq<string>, names: map<string, string>)
    ensures |ParticipantsLayout(ids, names)| == 3 * |ids|
    ensures forall i :: 0 <= i < |ids| ==>
      ParticipantsLayout(ids, names)[3 * i..3 * i + 3] == ParticipantShapes(ColumnX(i), DisplayName(names, ids[i]))
    decreases |ids|
  {
    if ids != [] {
      ParticipantsPlaced(ids[..|ids| - 1], names);
      forall i | 0 <= i < |ids|
        ensures ParticipantsLayout(ids, names)[3 * i..3 * i + 3] == ParticipantShapes(ColumnX(i), DisplayName(names, ids[i]))
      {
        ParticipantPlaced(ids, names, i);
      }
    }
  }

  /** The i-th participant's shapes, given where those of all but the last are. */
  lemma ParticipantPlaced(ids: seq<string>, names: map<string, string>, i: nat)
    requires i < |ids|
    requires var init := ids[..|ids| - 1];
      |ParticipantsLayout(init, names)| == 3 * |init| &&
      forall j :: 0 <= j < |init| ==>
        ParticipantsLayout(init, names)[3 * j..3 * j + 3] == ParticipantShapes(ColumnX(j), DisplayName(names, init[j]))
    ensures |ParticipantsLayout(ids, names)| == 3 * |ids|
    ensures ParticipantsLayout(ids, names)[3 * i..3 * i + 3] == ParticipantShapes(ColumnX(i), DisplayName(names, ids[i]))
  {
    var init := ids[..|ids| - 1];
    var before := ParticipantsLayout(init, names);
    var last := ParticipantShapes(ColumnX(|ids| - 1), DisplayName(names, ids[|ids| - 1]));
    var block := ParticipantShapes(ColumnX(i), DisplayName(names, ids[i]));
    LayoutSnoc(ids, names);
    if i < |init| {
      assert init[i] == ids[i];
      assert before[3 * i..3 * i + 3] == block;
    }
    BlockAt(before, last, |init|, i, block);
  }

  /** The layout of a non-empty list is that of all but the last, then the last one's shapes. */
  lemma LayoutSnoc(ids: seq<string>, names: map<string, string>)
    requires ids != []
    ensures ParticipantsLayout(ids, names) ==
      ParticipantsLayout(ids[..|ids| - 1], names) + ParticipantShapes(ColumnX(|ids| - 1), DisplayName(names, ids[|ids| - 1]))
  {
  }

  /** Block `i` of three elements in `before + last`, where `before` holds `n` blocks and `last` one more. */
  lemma BlockAt<T>(before: seq<T>, last: seq<T>, n: nat, i: nat, block: seq<T>)
    requires |before| == 3 * n && |last| == 3 && i <= n
    requires i < n ==> before[3 * i..3 * i + 3] == block
    requires i == n ==> last == block
    ensures (before + last)[3 * i..3 * i + 3] == block
  {
    if i < n {
      SliceLeft(before, last, 3 * i, 3 * i + 3);
    } else {
      SliceRight(before, last);
    }
  }

  /** With distinct ids, each id's column is its position in the list. */
  lemma {:induction false} PositionsOfDistinct(ids: seq<string>)
    requires forall i, j :: 0 <= i < j < |ids| ==> ids[i] != ids[j]
    ensures forall id :: id in Positions(ids) <==> id in ids
    ensures forall i :: 0 <= i < |ids| ==> Positions(ids)[ids[i]] == ColumnX(i)
    decreases |ids|
  {
    if ids != [] {
      var init := ids[..|ids| - 1];
      PositionsOfDistinct(init);
      assert forall i :: 0 <= i < |init| ==> init[i] == ids[i];
      assert ids == init + [ids[|ids| - 1]];
    }
  }

  /** Two shapes per message whose endpoints both have a column. */
  lemma {:induction false} MessagesPlaced(ms: seq<Message>, xs: map<string, nat>)
    requires forall k :: 0 <= k < |ms| ==> ms[k].from in xs && ms[k].to in xs
    ensures |MessagesLayout(ms, xs)| == 2 * |ms|
    decreases |ms|
  {
    if ms != [] {
      MessagesPlaced(ms[..|ms| - 1], xs);
    }
  }

  /** The shapes: three per participant, then two per message. */
  lemma ShapeCount(code: string)
    ensures var st := Fold(MermaidDetect.Body(code));
      |SequenceShapes(code)| == 3 * |st.ids| + 2 * |st.messages|
  {
    var st := Fold(MermaidDetect.Body(code));
    FoldWellFormed(MermaidDetect.Body(code));
    ParticipantsPlaced(st.ids, st.names);
    PositionsOfDistinct(st.ids);
    MessagesPlaced(st.messages, Positions(st.ids));
  }

  /**
   * A message between listed participants points from the sender's centre to
   * the receiver's: right when the sender's column is left of the receiver's,
   * left otherwise (a message to oneself too), as wide as the gap between
   * centres; its text sits 180000 above it.
   */
  lemma MessageArrow(m: Message, i: nat, xs: map<string, nat>)
    requires m.from in xs && m.to in xs
    ensures var s := MessageShapes(m, i, xs);
      |s| == 2
      && (s[0].kind == RightArrow <==> xs[m.from] < xs[m.to])
      && s[0].x == (if xs[m.from] < xs[m.to] then xs[m.from] else xs[m.to]) + PARTICIPANT_WIDTH / 2
      && s[0].x + s[0].width == (if xs[m.from] < xs[m.to] then xs[m.to] else xs[m.from]) + PARTICIPANT_WIDTH / 2
      && s[0].y == MESSAGE_Y_START + i * MESSAGE_SPACING
      && s[1].y + 180000 == s[0].y && s[1].text == Some(m.text)
  {
  }
}
