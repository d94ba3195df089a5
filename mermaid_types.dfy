/**
 * The shared Mermaid types (src/cli/markdown/mermaid/types.rs): diagram kinds,
 * the parsed flowchart, the shapes and connectors a diagram is drawn with, and
 * the bounding box of a diagram's elements.
 */
module MermaidTypes {
  import opened Wrappers
  import Shapes

  /** The diagram kinds that detection and styling distinguish. */
  datatype MermaidType =
    | Flowchart | Sequence | Pie | Gantt | ClassDiagram | StateDiagram | ErDiagram
    | Mindmap | Timeline | Unknown

  datatype FlowDirection = LeftToRight | RightToLeft | TopToBottom | BottomToTop

  /** The bracket a node is written with: [..], (..), ([..]), {..}, ((..)), {{..}}. */
  datatype NodeShape = Rectangle | RoundedRect | Stadium | Diamond | Circle | Hexagon

  datatype FlowNode = FlowNode(id: string, labelText: string, shape: NodeShape)

  /** -->, ---, -.-> and ==>. */
  datatype ArrowStyle = Arrow | Open | Dotted | Thick

  datatype FlowConnection = FlowConnection(from: string, to: string, labelText: Option<string>, arrowType: ArrowStyle)

  datatype Subgraph = Subgraph(name: string, nodes: seq<string>)

  /** A parsed flowchart; the nodes are keyed by id. */
  datatype FlowchartDiagram = FlowchartDiagram(
    direction: FlowDirection,
    nodes: map<string, FlowNode>,
    connections: seq<FlowConnection>,
    subgraphs: seq<Subgraph>)

  // ---------------------------------------------------------------------
  // What diagrams are drawn with
  // ---------------------------------------------------------------------

  /** A generator preset, or one of the further geometries the diagrams use. */
  datatype ShapeKind = Preset(preset: Shapes.ShapeType) | RoundedRectangle | Ellipse | LeftArrow | RightArrow

  datatype DiagramShape = DiagramShape(
    kind: ShapeKind,
    x: nat,
    y: nat,
    width: nat,
    height: nat,
    fill: Option<Shapes.ShapeFill>,
    line: Option<Shapes.ShapeLine>,
    text: Option<string>)

  /** A new shape: the geometry and the box, no fill, line or text. */
  function NewShape(kind: ShapeKind, x: nat, y: nat, width: nat, height: nat): (s: DiagramShape)
    ensures s.kind == kind && s.x == x && s.y == y && s.width == width && s.height == height
    ensures s.fill.None? && s.line.None? && s.text.None?
  {
    DiagramShape(kind, x, y, width, height, None, None, None)
  }

  datatype ConnectorKind = Straight | Elbow

  /** The arrow head a connector ends with. */
  datatype ArrowHead = Triangle

  datatype Connector = Connector(
    kind: ConnectorKind,
    startX: nat,
    startY: nat,
    endX: nat,
    endY: nat,
    lineColor: string,
    lineWidth: nat,
    endArrow: Option<ArrowHead>,
    labelText: Option<string>)

  // ---------------------------------------------------------------------
  // Bounding box
  // ---------------------------------------------------------------------

  const U32_MAX: nat := 0xFFFF_FFFF

  /** One element's `(x, y, width, height)`. */
  datatype Rect = Rect(x: nat, y: nat, w: nat, h: nat)

  predicate IsU32Rect(r: Rect) {
    r.x <= U32_MAX && r.y <= U32_MAX && r.w <= U32_MAX && r.h <= U32_MAX
  }

  datatype DiagramBounds = DiagramBounds(x: nat, y: nat, width: nat, height: nat)

  /** The four coordinates a box is measured by. */
  datatype Edge = Left | Top | Right | Bottom

  function Coord(r: Rect, e: Edge): nat {
    match e
    case Left => r.x
    case Top => r.y
    case Right => r.x + r.w
    case Bottom => r.y + r.h
  }

  /** The least coordinate, starting from `top`. */
  function Least(ps: seq<Rect>, e: Edge, top: nat): (m: nat)
    ensures m <= top
    ensures forall i :: 0 <= i < |ps| ==> m <= Coord(ps[i], e)
    ensures m == top || exists i :: 0 <= i < |ps| && Coord(ps[i], e) == m
  {
    if ps == [] then top
    else
      var rest := Least(ps[..|ps| - 1], e, top);
      var c := Coord(ps[|ps| - 1], e);
      assert forall i :: 0 <= i < |ps| - 1 ==> ps[..|ps| - 1][i] == ps[i];
      if c < rest then c else rest
  }

  /** The greatest coordinate, starting from 0. */
  function Most(ps: seq<Rect>, e: Edge): (m: nat)
    ensures forall i :: 0 <= i < |ps| ==> Coord(ps[i], e) <= m
    ensures m == 0 || exists i :: 0 <= i < |ps| && Coord(ps[i], e) == m
  {
    if ps == [] then 0
    else
      var rest := Most(ps[..|ps| - 1], e);
      var c := Coord(ps[|ps| - 1], e);
      assert forall i :: 0 <= i < |ps| - 1 ==> ps[..|ps| - 1][i] == ps[i];
      if c > rest then c else rest
  }

  /** The box from the least left and top edges to the greatest right and bottom edges. */
  function BoundsOf(ps: seq<Rect>): DiagramBounds {
    var x, y := Least(ps, Left, U32_MAX), Least(ps, Top, U32_MAX);
    var r, b := Most(ps, Right), Most(ps, Bottom);
    DiagramBounds(x, y, if r >= x then r - x else 0, if b >= y then b - y else 0)
  }

  /** `DiagramBounds::from_elements`: `None` for no elements, otherwise the running minima and maxima. */
  method FromElements(positions: seq<Rect>) returns (r: Option<DiagramBounds>)
    requires forall i :: 0 <= i < |positions| ==> IsU32Rect(positions[i])
    ensures positions == [] ==> r == None
    ensures positions != [] ==> r == Some(BoundsOf(positions))
  {
    if positions == [] {
      return None;
    }
    var minX, minY, maxX, maxY := Extremes(positions);
    BoundsFromExtremes(positions, minX, minY, maxX, maxY);
    r := Some(DiagramBounds(minX, minY, maxX - minX, maxY - minY));
  }

  /** The loop of `from_elements`: running minima of the left and top edges, maxima of the right and bottom edges. */
  method Extremes(positions: seq<Rect>) returns (minX: nat, minY: nat, maxX: nat, maxY: nat)
    ensures minX == Least(positions, Left, U32_MAX) && minY == Least(positions, Top, U32_MAX)
    ensures maxX == Most(positions, Right) && maxY == Most(positions, Bottom)
  {
    minX, minY, maxX, maxY := U32_MAX, U32_MAX, 0, 0;
    for i := 0 to |positions|
      invariant minX == Least(positions[..i], Left, U32_MAX) && minY == Least(positions[..i], Top, U32_MAX)
      invariant maxX == Most(positions[..i], Right) && maxY == Most(positions[..i], Bottom)
    {
      EdgesStep(positions, i);
      var p := positions[i];
      minX := if p.x < minX then p.x else minX;
      minY := if p.y < minY then p.y else minY;
      maxX := if p.x + p.w > maxX then p.x + p.w else maxX;
      maxY := if p.y + p.h > maxY then p.y + p.h else maxY;
    }
    assert positions[..|positions|] == positions;
  }

  /** Extending the prefix by one element folds that element into each running extreme. */
  lemma EdgesStep(ps: seq<Rect>, i: nat)
    requires i < |ps|
    ensures var c := ps[i]; var l := Least(ps[..i], Left, U32_MAX); Least(ps[..i + 1], Left, U32_MAX) == if c.x < l then c.x else l
    ensures var c := ps[i]; var t := Least(ps[..i], Top, U32_MAX); Least(ps[..i + 1], Top, U32_MAX) == if c.y < t then c.y else t
    ensures var c := ps[i]; var m := Most(ps[..i], Right); Most(ps[..i + 1], Right) == if c.x + c.w > m then c.x + c.w else m
    ensures var c := ps[i]; var m := Most(ps[..i], Bottom); Most(ps[..i + 1], Bottom) == if c.y + c.h > m then c.y + c.h else m
  {
    assert ps[..i + 1][..i] == ps[..i];
  }

  /** The running extremes of a non-empty list of 32-bit boxes give its box by plain subtraction. */
  lemma BoundsFromExtremes(ps: seq<Rect>, minX: nat, minY: nat, maxX: nat, maxY: nat)
    requires ps != [] && forall i :: 0 <= i < |ps| ==> IsU32Rect(ps[i])
    requires minX == Least(ps, Left, U32_MAX) && minY == Least(ps, Top, U32_MAX)
    requires maxX == Most(ps, Right) && maxY == Most(ps, Bottom)
    ensures minX <= maxX && minY <= maxY
    ensures BoundsOf(ps) == DiagramBounds(minX, minY, maxX - minX, maxY - minY)
  {
    EdgesOrdered(ps);
  }

  /** On a non-empty list of 32-bit boxes the greatest right edge is not left of the least left edge. */
  lemma EdgesOrdered(ps: seq<Rect>)
    requires ps != [] && forall i :: 0 <= i < |ps| ==> IsU32Rect(ps[i])
    ensures Least(ps, Left, U32_MAX) <= Most(ps, Right) && Least(ps, Top, U32_MAX) <= Most(ps, Bottom)
    ensures var x, y := Least(ps, Left, U32_MAX), Least(ps, Top, U32_MAX);
            BoundsOf(ps) == DiagramBounds(x, y, Most(ps, Right) - x, Most(ps, Bottom) - y)
  {
    assert Least(ps, Left, U32_MAX) <= Coord(ps[0], Left) <= Coord(ps[0], Right) <= Most(ps, Right);
    assert Least(ps, Top, U32_MAX) <= Coord(ps[0], Top) <= Coord(ps[0], Bottom) <= Most(ps, Bottom);
  }

  /** The box holds every element, and each of its edges is some element's edge. */
  lemma BoundsTight(ps: seq<Rect>)
    requires ps != [] && forall i :: 0 <= i < |ps| ==> IsU32Rect(ps[i])
    ensures var b := BoundsOf(ps);
            && (forall i :: 0 <= i < |ps| ==>
                  && b.x <= ps[i].x && ps[i].x + ps[i].w <= b.x + b.width
                  && b.y <= ps[i].y && ps[i].y + ps[i].h <= b.y + b.height)
            && (exists i :: 0 <= i < |ps| && ps[i].x == b.x)
            && (exists i :: 0 <= i < |ps| && ps[i].y == b.y)
            && (exists i :: 0 <= i < |ps| && ps[i].x + ps[i].w == b.x + b.width)
            && (exists i :: 0 <= i < |ps| && ps[i].y + ps[i].h == b.y + b.height)
  {
    var x, y := Least(ps, Left, U32_MAX), Least(ps, Top, U32_MAX);
    var r, b := Most(ps, Right), Most(ps, Bottom);
    assert Coord(ps[0], Left) <= U32_MAX && Coord(ps[0], Top) <= U32_MAX;
    assert x <= Coord(ps[0], Left) <= Coord(ps[0], Right) <= r;
    assert y <= Coord(ps[0], Top) <= Coord(ps[0], Bottom) <= b;
    if x == U32_MAX {
      assert Coord(ps[0], Left) == U32_MAX;
    }
    if y == U32_MAX {
      assert Coord(ps[0], Top) == U32_MAX;
    }
    if r == 0 {
      assert Coord(ps[0], Right) == 0;
    }
    if b == 0 {
      assert Coord(ps[0], Bottom) == 0;
    }
  }

  /** Two boxes side by side: (0,0,10,10) and (20,5,10,10) are held by (0,0,30,15). */
  lemma BoundsExample()
    ensures BoundsOf([Rect(0, 0, 10, 10), Rect(20, 5, 10, 10)]) == DiagramBounds(0, 0, 30, 15)
  {
    var ps := [Rect(0, 0, 10, 10), Rect(20, 5, 10, 10)];
    assert ps[..1] == [Rect(0, 0, 10, 10)] && ps[..1][..0] == [];
  }

  // ---------------------------------------------------------------------
  // DiagramElements
  // ---------------------------------------------------------------------

  datatype DiagramElements = DiagramElements(
    shapes: seq<DiagramShape>,
    connectors: seq<Connector>,
    bounds: Option<DiagramBounds>,
    grouped: bool)

  function RectOf(s: DiagramShape): Rect {
    Rect(s.x, s.y, s.width, s.height)
  }

  predicate IsU32Shape(s: DiagramShape) {
    IsU32Rect(RectOf(s))
  }

  /** The shapes' `(x, y, width, height)` quadruples, in order. */
  function RectsOf(shapes: seq<DiagramShape>): (rs: seq<Rect>)
    ensures |rs| == |shapes| && forall i :: 0 <= i < |shapes| ==> rs[i] == RectOf(shapes[i])
  {
    if shapes == [] then [] else [RectOf(shapes[0])] + RectsOf(shapes[1..])
  }

  /** `from_shapes_and_connectors`: bounds from the shapes' boxes, grouped. */
  method FromShapesAndConnectors(shapes: seq<DiagramShape>, connectors: seq<Connector>) returns (d: DiagramElements)
    requires forall i :: 0 <= i < |shapes| ==> IsU32Shape(shapes[i])
    ensures d.shapes == shapes && d.connectors == connectors && d.grouped
    ensures shapes == [] ==> d.bounds == None
    ensures shapes != [] ==> d.bounds == Some(BoundsOf(RectsOf(shapes)))
  {
    var rects := RectsOf(shapes);
    var bounds := FromElements(rects);
    d := DiagramElements(shapes, connectors, bounds, true);
  }

  /** `from_shapes`: the same with no connectors. */
  method FromShapes(shapes: seq<DiagramShape>) returns (d: DiagramElements)
    requires forall i :: 0 <= i < |shapes| ==> IsU32Shape(shapes[i])
    ensures d.shapes == shapes && d.connectors == [] && d.grouped
    ensures shapes == [] ==> d.bounds == None
    ensures shapes != [] ==> d.bounds == Some(BoundsOf(RectsOf(shapes)))
  {
    d := FromShapesAndConnectors(shapes, []);
  }

  /** `empty`: nothing, no bounds, not grouped. */
  function Empty(): (d: DiagramElements)
    ensures d.shapes == [] && d.connectors == [] && d.bounds == None && !d.grouped
  {
    DiagramElements([], [], None, false)
  }
}
