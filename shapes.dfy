/**
 * Generator shapes (src/generator/shapes.rs): preset geometries, fills with
 * transparency, lines, and the shape builder.
 */
module Shapes {
  import opened Wrappers
  import opened Strings
  import Colors

  datatype ShapeType = Rectangle | Circle | Triangle | Diamond | Arrow | Star | Hexagon
  {
    /** `preset_name`: the DrawingML preset geometry. */
    function PresetName(): (s: string)
      ensures |s| > 0
    {
      match this
      case Rectangle => "rect"
      case Circle => "ellipse"
      case Triangle => "triangle"
      case Diamond => "diamond"
      case Arrow => "rightArrow"
      case Star => "star5"
      case Hexagon => "hexagon"
    }
  }

  /** Every shape type has its own preset geometry. */
  lemma PresetNamesDistinct(a: ShapeType, b: ShapeType)
    requires a != b
    ensures a.PresetName() != b.PresetName()
  {
  }

  // ---------------------------------------------------------------------
  // Fill and line
  // ---------------------------------------------------------------------

  /** The alpha a transparency percentage gives: 100000 opaque, 0 fully transparent; above 100 counts as 100. */
  function Alpha(percent: nat): (a: nat)
    ensures a <= 100000 && a % 1000 == 0
    ensures percent <= 100 ==> a == 100000 - 1000 * percent
    ensures percent >= 100 ==> a == 0
  {
    (100 - (if percent < 100 then percent else 100)) * 1000
  }

  /** More transparency never raises the alpha. */
  lemma AlphaMonotone(p: nat, q: nat)
    requires p <= q
    ensures Alpha(q) <= Alpha(p)
  {
  }

  /** The documented points: 0 gives 100000, 50 gives 50000, 100 gives 0. */
  lemma AlphaExamples()
    ensures Alpha(0) == 100000 && Alpha(50) == 50000 && Alpha(100) == 0
  {
  }

  datatype ShapeFill = ShapeFill(color: string, transparency: Option<nat>)
  {
    /** `transparency`: stores the alpha of the percentage and nothing else. */
    function Transparency(percent: nat): (r: ShapeFill)
      ensures r.transparency == Some(Alpha(percent)) && r.color == color
    {
      this.(transparency := Some(Alpha(percent)))
    }
  }

  /** `ShapeFill::new`: the normalised colour, opaque by default. */
  function NewFill(color: string): (f: ShapeFill)
    ensures f.color == Colors.NormalizeColor(color)
    ensures !StartsWith(f.color, "#") && Colors.NoLowerCase(f.color) && f.transparency == None
  {
    Colors.NormalizedShape(color);
    ShapeFill(Colors.NormalizeColor(color), None)
  }

  datatype ShapeLine = ShapeLine(color: string, width: nat)

  /** `ShapeLine::new`: the normalised colour and the width. */
  function NewLine(color: string, width: nat): (l: ShapeLine)
    ensures l.color == Colors.NormalizeColor(color)
    ensures !StartsWith(l.color, "#") && Colors.NoLowerCase(l.color) && l.width == width
  {
    Colors.NormalizedShape(color);
    ShapeLine(Colors.NormalizeColor(color), width)
  }

  /** A fill and a line given the same colour, with or without '#', store the same string. */
  lemma FillAndLineAgree(color: string, width: nat)
    ensures NewFill(color).color == NewLine("#" + color, width).color
  {
    Colors.NormalizeIgnoresHash(color);
  }

  /** The source's example: "FF0000" at 50% transparency stores "FF0000" and 50000. */
  lemma FillExample()
    ensures NewFill("FF0000").Transparency(50) == ShapeFill("FF0000", Some(50000))
  {
    FirstCharNotPrefix("FF0000", "#");
    Colors.NormalizeKeepsStored("FF0000");
  }

  // ---------------------------------------------------------------------
  // Shapes
  // ---------------------------------------------------------------------

  datatype Shape = Shape(
    shapeType: ShapeType,
    x: nat,
    y: nat,
    width: nat,
    height: nat,
    fill: Option<ShapeFill>,
    line: Option<ShapeLine>,
    text: Option<string>)
  {
    function WithFill(f: ShapeFill): (r: Shape)
      ensures r.fill == Some(f) && r.(fill := fill) == this
    {
      this.(fill := Some(f))
    }

    function WithLine(l: ShapeLine): (r: Shape)
      ensures r.line == Some(l) && r.(line := line) == this
    {
      this.(line := Some(l))
    }

    function WithText(t: string): (r: Shape)
      ensures r.text == Some(t) && r.(text := text) == this
    {
      this.(text := Some(t))
    }
  }

  /** `Shape::new`: the geometry and the box, no fill, line or text. */
  function NewShape(shapeType: ShapeType, x: nat, y: nat, width: nat, height: nat): (s: Shape)
    ensures s.shapeType == shapeType && s.x == x && s.y == y && s.width == width && s.height == height
    ensures s.fill == None && s.line == None && s.text == None
  {
    Shape(shapeType, x, y, width, height, None, None, None)
  }

  /** The `with_*` setters touch different fields, so they commute and keep the box. */
  lemma SettersIndependent(s: Shape, f: ShapeFill, l: ShapeLine, t: string)
    ensures s.WithFill(f).WithLine(l) == s.WithLine(l).WithFill(f)
    ensures s.WithFill(f).WithText(t) == s.WithText(t).WithFill(f)
    ensures s.WithLine(l).WithText(t) == s.WithText(t).WithLine(l)
    ensures var r := s.WithFill(f).WithLine(l).WithText(t);
            r.shapeType == s.shapeType && r.x == s.x && r.y == s.y && r.width == s.width && r.height == s.height
  {
  }
}
