/** The geometry switch of the shape-building loop in main: which builder, with which
    arguments, each configured shape kind gets. */
module Geometry {
  import opened VecMath
  import opened Arith
  import opened Config
  import opened Wire
  import opened SphereMesh
  import opened TorusMesh

  /** Vertex count of the mesh each kind is built with. */
  function VertexTotal(kind: ShapeKind): nat
  {
    match kind
    case Cube => 8 case Pyramid => 5 case Octahedron => 6 case Sphere => 560 case Torus => 384
  }

  /** Segment count of the mesh each kind is built with. */
  function SegmentTotal(kind: ShapeKind): nat
  {
    match kind
    case Cube => 12 case Pyramid => 8 case Octahedron => 12 case Sphere => 544 case Torus => 768
  }

  /** Scaling the points of a mesh keeps its index list valid. */
  lemma NormalisedWellFormed(m: Libm, g: Mesh)
    requires WellFormed(g)
    ensures WellFormed(Mesh(Normalised(m, g.verts), g.lines))
  {
  }

  /** The sizes main asks make_sphere and make_torus for. */
  const SphereLat: nat := 10
  const SphereLon: nat := 16
  const TorusMajor: nat := 32
  const TorusMinor: nat := 12
  const TorusR: real := 1.0
  const Torusr: real := 0.35

  /** make_sphere(10, 16) as MakeSphere defines it: a valid index list, 560 points and 544
      segments. */
  function DefaultSphere(m: Libm): (g: Mesh)
    ensures WellFormed(g) && |g.verts| == 560 && g.LCount() == 544
  {
    SphereWellFormed(m, SphereLat, SphereLon);
    DefaultSphereCounts(m, SphereLat, SphereLon);
    Mesh(Verts(m, SphereLat, SphereLon), Lines(SphereLat, SphereLon))
  }

  /** make_torus(32, 12, 1.0, 0.35) as MakeTorus defines it: a valid index list, 384 points
      and 768 segments. */
  function DefaultTorusMesh(m: Libm): (g: Mesh)
    ensures WellFormed(g) && |g.verts| == 384 && g.LCount() == 768
  {
    DefaultTorus(m, TorusMajor, TorusMinor);
    Mesh(Normalised(m, TorusVerts(m, TorusMajor, TorusMinor, TorusR, Torusr)), TorusLines(TorusMajor, TorusMinor))
  }

  /** The sphere main builds: its points fit the buffer make_sphere allocates. */
  lemma DefaultSphereFitsBuffer(lat: nat, lon: nat)
    requires lat == SphereLat && lon == SphereLon
    ensures VertexCount(lat, lon) <= Capacity(lat, lon)
  {
    DefaultSphereFits();
  }

  /** The sphere main builds has 560 points and 544 segments. */
  lemma DefaultSphereCounts(m: Libm, lat: nat, lon: nat)
    requires lat == SphereLat && lon == SphereLon
    ensures |Verts(m, lat, lon)| == 560 && |Lines(lat, lon)| == 2 * 544
  {
    SphereCounts(m, lat, lon);
    SphereTotals(lat, lon);
  }

  lemma SphereTotals(lat: nat, lon: nat)
    requires lat == SphereLat && lon == SphereLon
    ensures VertexCount(lat, lon) == 560 && SegmentCount(lat, lon) == 544
  {
    MulIsProduct(lat - 1, lon);
    MulIsProduct(lon, lat * 2);
    MulIsProduct(lon, lat * 2 - 1);
    MulIsProduct(3, lon * 2);
  }

  /** The torus main builds: 32*12 points, two segments per point, all indices valid. */
  lemma DefaultTorus(m: Libm, major: nat, minor: nat)
    requires major == TorusMajor && minor == TorusMinor
    ensures PosPart(Clamp(major)) == major && PosPart(Clamp(minor)) == minor
    ensures WellFormed(Mesh(Normalised(m, TorusVerts(m, major, minor, TorusR, Torusr)), TorusLines(major, minor)))
    ensures |TorusVerts(m, major, minor, TorusR, Torusr)| == 384 && |TorusLines(major, minor)| == 2 * 768
  {
    TorusWellFormed(m, major, minor, TorusR, Torusr);
    NormalisedWellFormed(m, Mesh(TorusVerts(m, major, minor, TorusR, Torusr), TorusLines(major, minor)));
    MulIsProduct(major, minor);
  }

  /** make_sphere(10, 16): MakeSphere's points and segments, a valid index list, 560 points
      and 544 segments. */
  method BuildSphere(m: Libm) returns (g: Mesh)
    ensures g == DefaultSphere(m)
    ensures WellFormed(g) && |g.verts| == 560 && g.LCount() == 544
  {
    var lat, lon := SphereLat, SphereLon;
    DefaultSphereFitsBuffer(lat, lon);
    g := MakeSphere(m, lat, lon);
    SphereWellFormed(m, lat, lon);
    DefaultSphereCounts(m, lat, lon);
  }

  /** make_torus(32, 12, 1.0, 0.35): MakeTorus's points and segments, a valid index list,
      384 points and 768 segments. */
  method BuildTorus(m: Libm) returns (g: Mesh)
    ensures g == DefaultTorusMesh(m)
    ensures WellFormed(g) && |g.verts| == 384 && g.LCount() == 768
  {
    var major, minor := TorusMajor, TorusMinor;
    DefaultTorus(m, major, minor);
    g := MakeTorus(m, major, minor, TorusR, Torusr);
  }

  /** The three shapes main copies from static tables. */
  function TableMesh(kind: ShapeKind): (g: Mesh)
    requires kind != Sphere && kind != Torus
    ensures WellFormed(g)
    ensures |g.verts| == VertexTotal(kind) && g.LCount() == SegmentTotal(kind)
  {
    match kind
    case Cube => Wire.Cube()
    case Pyramid => Wire.Pyramid()
    case Octahedron => Wire.Octahedron()
  }

  /** The mesh the switch on sc.shape builds for each kind: cube, pyramid and octahedron from
      their tables, make_sphere(10, 16) and make_torus(32, 12, 1.0, 0.35). Every one can be
      drawn safely and has the kind's vertex and segment counts. The cases are split over
      guarded helpers so that each proof sees one parametric mesh only. */
  function KindMesh(m: Libm, kind: ShapeKind): (g: Mesh)
    ensures WellFormed(g)
    ensures |g.verts| == VertexTotal(kind)
    ensures g.LCount() == SegmentTotal(kind)
  {
    if kind == Sphere then SphereKindMesh(m, kind) else OtherKindMesh(m, kind)
  }

  function SphereKindMesh(m: Libm, kind: ShapeKind): (g: Mesh)
    requires kind == Sphere
    ensures WellFormed(g)
    ensures |g.verts| == VertexTotal(kind)
    ensures g.LCount() == SegmentTotal(kind)
  {
    DefaultSphere(m)
  }

  function OtherKindMesh(m: Libm, kind: ShapeKind): (g: Mesh)
    requires kind != Sphere
    ensures WellFormed(g)
    ensures |g.verts| == VertexTotal(kind)
    ensures g.LCount() == SegmentTotal(kind)
  {
    if kind == Torus then TorusKindMesh(m, kind) else TableMesh(kind)
  }

  function TorusKindMesh(m: Libm, kind: ShapeKind): (g: Mesh)
    requires kind == Torus
    ensures WellFormed(g)
    ensures |g.verts| == VertexTotal(kind)
    ensures g.LCount() == SegmentTotal(kind)
  {
    DefaultTorusMesh(m)
  }

  /** The switch on sc.shape, one builder call per kind. */
  method BuildGeometry(m: Libm, kind: ShapeKind) returns (g: Mesh)
    ensures g == KindMesh(m, kind)
  {
    match kind {
      case Cube => g := Wire.Cube();
      case Pyramid => g := Wire.Pyramid();
      case Octahedron => g := Wire.Octahedron();
      case Sphere => g := BuildSphere(m);
      case Torus => g := BuildTorus(m);
    }
  }
}
