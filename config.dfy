/** The enumerations, their name tables and the configuration record of ornament.c. */
module Config {

  datatype ShapeKind = Cube | Sphere | Pyramid | Torus | Octahedron
  {
    /** Position of the kind in the source's ShapeKind enum and SHAPE_NAMES table. */
    function Index(): (i: nat)
      ensures i < |ShapeNames|
    {
      match this
      case Cube => 0 case Sphere => 1 case Pyramid => 2 case Torus => 3 case Octahedron => 4
    }
  }

  datatype ColorKind = Green | Yellow | Red | Blue | Cyan | Pink | Orange | Purple | Random
  {
    function Index(): (i: nat)
      ensures i < |ColorNames|
    {
      match this
      case Green => 0 case Yellow => 1 case Red => 2 case Blue => 3 case Cyan => 4
      case Pink => 5 case Orange => 6 case Purple => 7 case Random => 8
    }
  }

  datatype Anchor = TopLeft | TopCenter | TopRight
                  | CenterLeft | Center | CenterRight
                  | BottomLeft | BottomCenter | BottomRight
  {
    function Index(): (i: nat)
      ensures i < |PosNames|
    {
      match this
      case TopLeft => 0 case TopCenter => 1 case TopRight => 2
      case CenterLeft => 3 case Center => 4 case CenterRight => 5
      case BottomLeft => 6 case BottomCenter => 7 case BottomRight => 8
    }
  }

  const ShapeNames: seq<string> := ["CUBE", "SPHERE", "PYRAMID", "TORUS", "OCTAHEDRON"]
  const ColorNames: seq<string> := ["GREEN", "YELLOW", "RED", "BLUE", "CYAN", "PINK", "ORANGE", "PURPLE", "RANDOM"]
  const PosNames: seq<string> := ["TOP-LEFT", "TOP-CENTER", "TOP-RIGHT", "CENTER-LEFT", "CENTER",
                                  "CENTER-RIGHT", "BOTTOM-LEFT", "BOTTOM-CENTER", "BOTTOM-RIGHT"]

  function ShapeAt(i: nat): (s: ShapeKind)
    requires i < |ShapeNames|
    ensures s.Index() == i
  {
    [Cube, Sphere, Pyramid, Torus, Octahedron][i]
  }

  function ColorAt(i: nat): (c: ColorKind)
    requires i < |ColorNames|
    ensures c.Index() == i
  {
    [Green, Yellow, Red, Blue, Cyan, Pink, Orange, Purple, Random][i]
  }

  function AnchorAt(i: nat): (a: Anchor)
    requires i < |PosNames|
    ensures a.Index() == i
  {
    [TopLeft, TopCenter, TopRight, CenterLeft, Center, CenterRight, BottomLeft, BottomCenter, BottomRight][i]
  }

  /** One line of the configuration file: SHAPE=[COLOR, POSITION, SCREEN]. */
  datatype ShapeConfig = ShapeConfig(shape: ShapeKind, color: ColorKind, pos: Anchor, screen: int)

  /** The entry used when the file is missing or yields no valid line. */
  const DefaultConfig: ShapeConfig := ShapeConfig(Cube, Green, Center, 0)
}
