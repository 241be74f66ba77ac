/** make_sphere: latitude rings, meridian chains and three extra tilted rings,
    written into buffers sized by the builder's own capacity formula. */
module SphereMesh {
  import opened VecMath
  import opened Wire
  import opened Arith

  // ---------------------------------------------------------------------------
  // Counts and the buffer size.

  /** (lat-1) rings of lon points, lon meridians of 2*lat points, 3 rings of 2*lon points. */
  function VertexCount(lat: nat, lon: nat): nat
    requires lat >= 1
  {
    Mul(lat - 1, lon) + Mul(lon, lat * 2) + Mul(3, lon * 2)
  }

  /** A ring of n points has n segments, a chain of n points n-1. */
  function SegmentCount(lat: nat, lon: nat): nat
    requires lat >= 1
  {
    Mul(lat - 1, lon) + Mul(lon, lat * 2 - 1) + Mul(3, lon * 2)
  }

  /** maxv: the vertex buffer holds maxv points, the index buffer 4*maxv entries. */
  function Capacity(lat: nat, lon: nat): nat
  {
    Mul(lat + 1, lon + 1) + Mul(lat + lon, 64)
  }

  /** First vertex of the meridians and of the tilted rings. */
  function MeridianBase(lat: nat, lon: nat): nat requires lat >= 1 { Mul(lat - 1, lon) }
  function TiltedBase(lat: nat, lon: nat): nat requires lat >= 1 { Mul(lat - 1, lon) + Mul(lon, lat * 2) }

  // ---------------------------------------------------------------------------
  // Points, with sin and cos taken from m.

  /** Point j of latitude ring i (1 <= i < lat). */
  function LatPoint(m: Libm, lat: nat, lon: nat, i: nat, j: nat): Vec3
    requires lat >= 1 && lon >= 1
  {
    var a := Pi * ((i as real) / (lat as real));
    var y, r := m.cos(a), m.sin(a);
    var t := 2.0 * Pi * ((j as real) / (lon as real));
    Vec3(r * m.cos(t), y, r * m.sin(t))
  }

  /** Point k of meridian j, running pole to pole in 2*lat points. */
  function MeridianPoint(m: Libm, lat: nat, lon: nat, j: nat, k: nat): Vec3
    requires lat >= 1 && lon >= 1
  {
    var t := 2.0 * Pi * ((j as real) / (lon as real));
    var segments := lat * 2;
    var u := Pi * ((k as real) / ((segments - 1) as real));
    Vec3(m.sin(u) * m.cos(t), m.cos(u), m.sin(u) * m.sin(t))
  }

  /** Tilt about the x axis of extra ring r. */
  function Tilt(r: nat): real
  {
    if r == 0 then 0.0 else if r == 1 then 0.35 else -0.5
  }

  /** Point j of extra ring r: the unit circle in the xz plane turned by Tilt(r) about x. */
  function TiltedPoint(m: Libm, lon: nat, r: nat, j: nat): Vec3
    requires lon >= 1
  {
    var seg := lon * 2;
    var t := 2.0 * Pi * ((j as real) / (seg as real));
    var x, z, y := m.cos(t), m.sin(t), 0.0;
    var cy, sy := m.cos(Tilt(r)), m.sin(Tilt(r));
    Vec3(x, y * cy - z * sy, y * sy + z * cy)
  }

  /** The three kinds of polyline make_sphere writes, in order. */
  datatype Part = Latitude | Meridian | Tilted

  /** Point k of polyline a of the given part; latitude ring a is the builder's ring i = a+1. */
  function PartPoint(m: Libm, lat: nat, lon: nat, part: Part, a: nat, k: nat): Vec3
    requires lat >= 1 && lon >= 1
  {
    match part
    case Latitude => LatPoint(m, lat, lon, a + 1, k)
    case Meridian => MeridianPoint(m, lat, lon, a, k)
    case Tilted => TiltedPoint(m, lon, a, k)
  }

  /** The first n points of polyline a, in the order they are written. */
  function Row(m: Libm, lat: nat, lon: nat, part: Part, a: nat, n: nat): (r: seq<Vec3>)
    requires lat >= 1 && lon >= 1
    ensures |r| == n
  {
    if n == 0 then [] else Row(m, lat, lon, part, a, n - 1) + [PartPoint(m, lat, lon, part, a, n - 1)]
  }

  /** The points of the first count polylines of a part, n points each. */
  function Rows(m: Libm, lat: nat, lon: nat, part: Part, count: nat, n: nat): (r: seq<Vec3>)
    requires lat >= 1 && lon >= 1
    ensures |r| == Mul(count, n)
  {
    if count == 0 then []
    else Rows(m, lat, lon, part, count - 1, n) + Row(m, lat, lon, part, count - 1, n)
  }

  /** Writing point p, the n-th of polyline a, extends the row by one. */
  lemma RowPush(pre: seq<Vec3>, m: Libm, lat: nat, lon: nat, part: Part, a: nat, n: nat, p: Vec3)
    requires lat >= 1 && lon >= 1 && p == PartPoint(m, lat, lon, part, a, n)
    ensures pre + Row(m, lat, lon, part, a, n + 1) == (pre + Row(m, lat, lon, part, a, n)) + [p]
  {
    Assoc(pre, Row(m, lat, lon, part, a, n), [p]);
  }

  /** Writing polyline count, of n points, extends the rows by one. */
  lemma RowsPush(pre: seq<Vec3>, m: Libm, lat: nat, lon: nat, part: Part, count: nat, n: nat)
    requires lat >= 1 && lon >= 1
    ensures pre + Rows(m, lat, lon, part, count + 1, n) == (pre + Rows(m, lat, lon, part, count, n)) + Row(m, lat, lon, part, count, n)
  {
    Assoc(pre, Rows(m, lat, lon, part, count, n), Row(m, lat, lon, part, count, n));
  }

  // ---------------------------------------------------------------------------
  // What make_sphere produces.

  /** The latitude rings' points, then the meridians', then the extra rings'. */
  function LatVerts(m: Libm, lat: nat, lon: nat): seq<Vec3>
    requires lat >= 1 && lon >= 1
  {
    Rows(m, lat, lon, Latitude, lat - 1, lon)
  }

  function MeridianVerts(m: Libm, lat: nat, lon: nat): seq<Vec3>
    requires lat >= 1 && lon >= 1
  {
    Rows(m, lat, lon, Meridian, lon, lat * 2)
  }

  function TiltedVerts(m: Libm, lat: nat, lon: nat): seq<Vec3>
    requires lat >= 1 && lon >= 1
  {
    Rows(m, lat, lon, Tilted, 3, lon * 2)
  }

  function Verts(m: Libm, lat: nat, lon: nat): seq<Vec3>
    requires lat >= 1 && lon >= 1
  {
    LatVerts(m, lat, lon) + MeridianVerts(m, lat, lon) + TiltedVerts(m, lat, lon)
  }

  /** The latitude rings' segments over vertices 0 .., then the meridians', then the extra rings'. */
  function LatLines(lat: nat, lon: nat): seq<nat>
    requires lat >= 1 && lon >= 1
  {
    Rings(0, lon, lat - 1)
  }

  function MeridianLines(lat: nat, lon: nat): seq<nat>
    requires lat >= 1 && lon >= 1
  {
    Chains(MeridianBase(lat, lon), lat * 2, lat * 2 - 1, lon)
  }

  function TiltedLines(lat: nat, lon: nat): seq<nat>
    requires lat >= 1 && lon >= 1
  {
    Rings(TiltedBase(lat, lon), lon * 2, 3)
  }

  function Lines(lat: nat, lon: nat): seq<nat>
    requires lat >= 1 && lon >= 1
  {
    LatLines(lat, lon) + MeridianLines(lat, lon) + TiltedLines(lat, lon)
  }

  // ---------------------------------------------------------------------------
  // The builder, writing into the buffers make_sphere allocates: vcap = maxv points and
  // ecap = 4*maxv indices. Each inner loop writes one polyline: a point per step, from the
  // second point on the pair joining it to the previous one, and for a ring the closing
  // pair. The ghost count segs is the number of pairs written so far.

  /** Latitude ring i = a + 1 (the rings run i = 1 .. lat-1): lon points, closed. */
  method EmitLatRing(m: Libm, lat: nat, lon: nat, a: nat, v: seq<Vec3>, e: seq<nat>, vcap: nat, ecap: nat)
    returns (v': seq<Vec3>, e': seq<nat>)
    requires a + 1 < lat && lon >= 1 && |v| + lon <= vcap && |e| + 2 * lon <= ecap
    ensures v' == v + Row(m, lat, lon, Latitude, a, lon)
    ensures e' == e + Ring(|v|, lon)
  {
    var i := a + 1;
    var firstIdx := |v|;
    var seg := lon;
    v', e' := v, e;
    ghost var segs: nat := 0;
    var j := 0;
    while j < seg
      invariant j <= seg && (if j == 0 then segs == 0 else segs + 1 == j)
      invariant |v'| == |v| + j && |e'| == |e| + 2 * segs
      invariant v' == v + Row(m, lat, lon, Latitude, a, j)
      invariant e' == e + Chain(firstIdx, segs)
    {
      var p := LatPoint(m, lat, lon, i, j);
      RowPush(v, m, lat, lon, Latitude, a, j, p);
      v' := PushPoint(v', vcap, p);
      if j > 0 {
        ChainPush(e, firstIdx, segs, firstIdx + j - 1, firstIdx + j);
        e' := PushPair(e', ecap, firstIdx + j - 1, firstIdx + j);
        segs := segs + 1;
      }
      j := j + 1;
    }
    assert j == seg;
    RingClose(e, firstIdx, seg, segs, firstIdx + seg - 1, firstIdx);
    e' := PushPair(e', ecap, firstIdx + seg - 1, firstIdx);
  }

  /** Meridian j: segments = 2*lat points from pole to pole, open, so s = segments-1 pairs. */
  method EmitMeridian(m: Libm, lat: nat, lon: nat, j: nat, segments: nat, ghost s: nat,
                      v: seq<Vec3>, e: seq<nat>, vcap: nat, ecap: nat)
    returns (v': seq<Vec3>, e': seq<nat>)
    requires lat >= 1 && lon >= 1 && segments == lat * 2 && s + 1 == segments
    requires |v| + segments <= vcap && |e| + 2 * s <= ecap
    ensures v' == v + Row(m, lat, lon, Meridian, j, segments)
    ensures e' == e + Chain(|v|, s)
  {
    ghost var first := |v|;
    v', e' := v, e;
    ghost var segs: nat := 0;
    var k := 0;
    while k < segments
      invariant k <= segments && (if k == 0 then segs == 0 else segs + 1 == k)
      invariant |v'| == |v| + k && |e'| == |e| + 2 * segs
      invariant v' == v + Row(m, lat, lon, Meridian, j, k)
      invariant e' == e + Chain(first, segs)
    {
      var p := MeridianPoint(m, lat, lon, j, k);
      RowPush(v, m, lat, lon, Meridian, j, k, p);
      v' := PushPoint(v', vcap, p);
      var vi := |v'|;
      if k > 0 {
        ChainPush(e, first, segs, vi - 2, vi - 1);
        e' := PushPair(e', ecap, vi - 2, vi - 1);
        segs := segs + 1;
      }
      k := k + 1;
    }
    assert k == segments;
  }

  /** Extra ring r: seg = 2*lon points, closed. */
  method EmitTiltedRing(m: Libm, lat: nat, lon: nat, r: nat, seg: nat, v: seq<Vec3>, e: seq<nat>, vcap: nat, ecap: nat)
    returns (v': seq<Vec3>, e': seq<nat>)
    requires lat >= 1 && lon >= 1 && seg == lon * 2 && |v| + seg <= vcap && |e| + 2 * seg <= ecap
    ensures v' == v + Row(m, lat, lon, Tilted, r, seg)
    ensures e' == e + Ring(|v|, seg)
  {
    var first := |v|;
    v', e' := v, e;
    ghost var segs: nat := 0;
    var j := 0;
    while j < seg
      invariant j <= seg && (if j == 0 then segs == 0 else segs + 1 == j)
      invariant |v'| == |v| + j && |e'| == |e| + 2 * segs
      invariant v' == v + Row(m, lat, lon, Tilted, r, j)
      invariant e' == e + Chain(first, segs)
    {
      var p := TiltedPoint(m, lon, r, j);
      RowPush(v, m, lat, lon, Tilted, r, j, p);
      v' := PushPoint(v', vcap, p);
      var vi := |v'|;
      if j > 0 {
        ChainPush(e, first, segs, vi - 2, vi - 1);
        e' := PushPair(e', ecap, vi - 2, vi - 1);
        segs := segs + 1;
      }
      j := j + 1;
    }
    assert j == seg;
    var vi := |v'|;
    RingClose(e, first, seg, segs, vi - 1, first);
    e' := PushPair(e', ecap, vi - 1, first);
  }

  /** The latitude rings i = 1 .. lat-1. */
  method EmitLatRings(m: Libm, lat: nat, lon: nat, v: seq<Vec3>, e: seq<nat>, vcap: nat, ecap: nat)
    returns (v': seq<Vec3>, e': seq<nat>)
    requires lat >= 1 && lon >= 1
    requires |v| + Mul(lat - 1, lon) <= vcap && |e| + Mul(lat - 1, 2 * lon) <= ecap
    ensures v' == v + Rows(m, lat, lon, Latitude, lat - 1, lon)
    ensures e' == e + Rings(|v|, lon, lat - 1)
  {
    ghost var rings: nat := lat - 1;
    v', e' := v, e;
    // a counts the rings written so far; the next is ring i = a + 1.
    var a := 0;
    while a + 1 < lat
      invariant a <= rings && |v'| == |v| + Mul(a, lon) && |e'| == |e| + Mul(a, 2 * lon)
      invariant v' == v + Rows(m, lat, lon, Latitude, a, lon)
      invariant e' == e + Rings(|v|, lon, a)
    {
      MulNext(a, lon, rings);
      MulNext(a, 2 * lon, rings);
      RowsPush(v, m, lat, lon, Latitude, a, lon);
      RingsPush(e, |v|, lon, a, |v'|);
      v', e' := EmitLatRing(m, lat, lon, a, v', e', vcap, ecap);
      a := a + 1;
    }
    assert a == rings;
  }

  /** The lon meridians of 2*lat points each. */
  method EmitMeridians(m: Libm, lat: nat, lon: nat, v: seq<Vec3>, e: seq<nat>, vcap: nat, ecap: nat)
    returns (v': seq<Vec3>, e': seq<nat>)
    requires lat >= 1 && lon >= 1
    requires |v| + Mul(lon, lat * 2) <= vcap && |e| + Mul(lon, 2 * (lat * 2 - 1)) <= ecap
    ensures v' == v + Rows(m, lat, lon, Meridian, lon, lat * 2)
    ensures e' == e + Chains(|v|, lat * 2, lat * 2 - 1, lon)
  {
    var segments := lat * 2;
    ghost var s: nat := lat * 2 - 1;
    v', e' := v, e;
    var j := 0;
    while j < lon
      invariant j <= lon && |v'| == |v| + Mul(j, segments) && |e'| == |e| + Mul(j, 2 * s)
      invariant v' == v + Rows(m, lat, lon, Meridian, j, segments)
      invariant e' == e + Chains(|v|, segments, s, j)
    {
      MulNext(j, segments, lon);
      MulNext(j, 2 * s, lon);
      RowsPush(v, m, lat, lon, Meridian, j, segments);
      ChainsPush(e, |v|, segments, s, j, |v'|);
      v', e' := EmitMeridian(m, lat, lon, j, segments, s, v', e', vcap, ecap);
      j := j + 1;
    }
    assert j == lon;
  }

  /** The three extra rings of seg = 2*lon points each. */
  method EmitTiltedRings(m: Libm, lat: nat, lon: nat, v: seq<Vec3>, e: seq<nat>, vcap: nat, ecap: nat)
    returns (v': seq<Vec3>, e': seq<nat>)
    requires lat >= 1 && lon >= 1 && |v| + Mul(3, lon * 2) <= vcap && |e| + Mul(3, 2 * (lon * 2)) <= ecap
    ensures v' == v + Rows(m, lat, lon, Tilted, 3, lon * 2)
    ensures e' == e + Rings(|v|, lon * 2, 3)
  {
    v', e' := v, e;
    var extra, seg := 3, lon * 2;
    var r := 0;
    while r < extra
      invariant r <= extra && |v'| == |v| + Mul(r, seg) && |e'| == |e| + Mul(r, 2 * seg)
      invariant v' == v + Rows(m, lat, lon, Tilted, r, seg)
      invariant e' == e + Rings(|v|, seg, r)
    {
      MulNext(r, seg, extra);
      MulNext(r, 2 * seg, extra);
      RowsPush(v, m, lat, lon, Tilted, r, seg);
      RingsPush(e, |v|, seg, r, |v'|);
      v', e' := EmitTiltedRing(m, lat, lon, r, seg, v', e', vcap, ecap);
      r := r + 1;
    }
    assert r == extra;
  }

  /** The buffer sizes the phases need, in the terms they are stated in: the index buffer
      holds two entries per point at most, and has four per point of room. */
  lemma FitsBuffers(lat: nat, lon: nat)
    requires lat >= 1 && lon >= 1 && VertexCount(lat, lon) <= Capacity(lat, lon)
    ensures Mul(lat - 1, lon) + Mul(lon, lat * 2) + Mul(3, lon * 2) <= Capacity(lat, lon)
    ensures Mul(lat - 1, 2 * lon) + Mul(lon, 2 * (lat * 2 - 1)) + Mul(3, 2 * (lon * 2)) <= Capacity(lat, lon) * 4
  {
    MulTwice(lat - 1, lon);
    MeridianPairs(lat, lon);
    MulTwice(3, lon * 2);
  }

  /** The meridians' pairs take at most two indices per meridian point. */
  lemma MeridianPairs(lat: nat, lon: nat)
    requires lat >= 1
    ensures Mul(lon, 2 * (lat * 2 - 1)) <= 2 * Mul(lon, lat * 2)
  {
    MulTwice(lon, lat * 2 - 1);
    MulMonoRight(lon, lat * 2 - 1, lat * 2);
  }

  /** make_sphere(lat, lon), for sizes whose points fit the buffer it allocates. */
  method MakeSphere(m: Libm, lat: nat, lon: nat) returns (g: Mesh)
    requires lat >= 1 && lon >= 1 && VertexCount(lat, lon) <= Capacity(lat, lon)
    ensures g.verts == Verts(m, lat, lon) && g.lines == Lines(lat, lon)
  {
    FitsBuffers(lat, lon);
    var maxv := Capacity(lat, lon);
    var v: seq<Vec3>, e: seq<nat> := [], [];
    ghost var lats, mers, tilts := LatVerts(m, lat, lon), MeridianVerts(m, lat, lon), TiltedVerts(m, lat, lon);
    ghost var rings, chains, extra := LatLines(lat, lon), MeridianLines(lat, lon), TiltedLines(lat, lon);
    v, e := EmitLatRings(m, lat, lon, v, e, maxv, maxv * 4);
    assert v == lats && e == rings && |v| == MeridianBase(lat, lon);
    v, e := EmitMeridians(m, lat, lon, v, e, maxv, maxv * 4);
    assert v == lats + mers && e == rings + chains && |v| == TiltedBase(lat, lon);
    v, e := EmitTiltedRings(m, lat, lon, v, e, maxv, maxv * 4);
    assert v == lats + mers + tilts && e == rings + chains + extra;
    g := Mesh(v, e);
  }

  // ---------------------------------------------------------------------------
  // What the mesh is: counts, index range, and which points each segment joins.

  /** Point k of polyline a sits at index a*n + k of the part. */
  lemma {:induction false} RowsAt(m: Libm, lat: nat, lon: nat, part: Part, count: nat, n: nat, a: nat, k: nat)
    requires lat >= 1 && lon >= 1 && a < count && k < n
    ensures Mul(a, n) + k < |Rows(m, lat, lon, part, count, n)|
    ensures Rows(m, lat, lon, part, count, n)[Mul(a, n) + k] == PartPoint(m, lat, lon, part, a, k)
  {
    var front, last := Rows(m, lat, lon, part, count - 1, n), Row(m, lat, lon, part, count - 1, n);
    assert Rows(m, lat, lon, part, count, n) == front + last;
    if a + 1 == count {
      RowAt(m, lat, lon, part, a, n, k);
    } else {
      RowsAt(m, lat, lon, part, count - 1, n, a, k);
    }
  }

  lemma {:induction false} RowAt(m: Libm, lat: nat, lon: nat, part: Part, a: nat, n: nat, k: nat)
    requires lat >= 1 && lon >= 1 && k < n
    ensures Row(m, lat, lon, part, a, n)[k] == PartPoint(m, lat, lon, part, a, k)
  {
    if k + 1 < n {
      RowAt(m, lat, lon, part, a, n - 1, k);
    }
  }

  /** make_sphere writes VertexCount points and SegmentCount segments. */
  lemma SphereCounts(m: Libm, lat: nat, lon: nat)
    requires lat >= 1 && lon >= 1
    ensures |Verts(m, lat, lon)| == VertexCount(lat, lon)
    ensures |Lines(lat, lon)| == 2 * SegmentCount(lat, lon)
  {
    MulTwice(lat - 1, lon);
    MulTwice(lon, lat * 2 - 1);
    MulTwice(3, lon * 2);
  }

  /** Each part's segments only name that part's points. */
  lemma LatLinesRange(lat: nat, lon: nat)
    requires lat >= 1 && lon >= 1
    ensures InRange(LatLines(lat, lon), 0, MeridianBase(lat, lon))
  {
    RingsRange(0, lon, lat - 1);
  }

  lemma MeridianLinesRange(lat: nat, lon: nat)
    requires lat >= 1 && lon >= 1
    ensures InRange(MeridianLines(lat, lon), MeridianBase(lat, lon), TiltedBase(lat, lon))
  {
    ChainsRange(MeridianBase(lat, lon), lat * 2, lat * 2 - 1, lon);
  }

  lemma TiltedLinesRange(lat: nat, lon: nat)
    requires lat >= 1 && lon >= 1
    ensures InRange(TiltedLines(lat, lon), TiltedBase(lat, lon), VertexCount(lat, lon))
  {
    RingsRange(TiltedBase(lat, lon), lon * 2, 3);
  }

  /** Every index names a point of the mesh, so draw_wire stays inside the vertex list. */
  lemma SphereWellFormed(m: Libm, lat: nat, lon: nat)
    requires lat >= 1 && lon >= 1
    ensures WellFormed(Mesh(Verts(m, lat, lon), Lines(lat, lon)))
  {
    SphereCounts(m, lat, lon);
    LatLinesRange(lat, lon);
    MeridianLinesRange(lat, lon);
    TiltedLinesRange(lat, lon);
    var mb, tb, n := MeridianBase(lat, lon), TiltedBase(lat, lon), VertexCount(lat, lon);
    InRangeAppend(LatLines(lat, lon), MeridianLines(lat, lon), 0, mb, tb, tb);
    InRangeAppend(LatLines(lat, lon) + MeridianLines(lat, lon), TiltedLines(lat, lon), 0, tb, n, n);
  }

  /** Latitude ring a (the builder's ring i = a+1) holds the latitude segments a*lon ..
      a*lon+lon-1; each joins consecutive points of the ring and the last joins back to the
      ring's first point. */
  lemma LatRingSegment(lat: nat, lon: nat, a: nat, k: nat)
    requires lat >= 1 && lon >= 1 && a + 1 < lat && k < lon
    ensures var p, first := Mul(a, lon) + k, Mul(a, lon);
            2 * p + 1 < |LatLines(lat, lon)|
            && Seg(LatLines(lat, lon), p) == (first + k, if k + 1 < lon then first + k + 1 else first)
  {
    RingsSeg(0, lon, lat - 1, a, k, Mul(a, lon));
  }

  /** Meridian j holds the meridian segments j*(2*lat-1) ..; each joins consecutive points of
      the meridian, which runs pole to pole and is not closed. */
  lemma MeridianSegment(lat: nat, lon: nat, j: nat, k: nat)
    requires lat >= 1 && lon >= 1 && j < lon && k + 1 < lat * 2
    ensures var p, first := Mul(j, lat * 2 - 1) + k, MeridianBase(lat, lon) + Mul(j, lat * 2);
            2 * p + 1 < |MeridianLines(lat, lon)|
            && Seg(MeridianLines(lat, lon), p) == (first + k, first + k + 1)
  {
    ChainsSeg(MeridianBase(lat, lon), lat * 2, lat * 2 - 1, lon, j, k, MeridianBase(lat, lon) + Mul(j, lat * 2));
  }

  /** Extra ring r holds the extra segments r*2*lon ..; each joins consecutive points of the
      ring and the last joins back to the ring's first point. */
  lemma TiltedRingSegment(lat: nat, lon: nat, r: nat, k: nat)
    requires lat >= 1 && lon >= 1 && r < 3 && k < lon * 2
    ensures var p, first := Mul(r, lon * 2) + k, TiltedBase(lat, lon) + Mul(r, lon * 2);
            2 * p + 1 < |TiltedLines(lat, lon)|
            && Seg(TiltedLines(lat, lon), p) == (first + k, if k + 1 < lon * 2 then first + k + 1 else first)
  {
    RingsSeg(TiltedBase(lat, lon), lon * 2, 3, r, k, TiltedBase(lat, lon) + Mul(r, lon * 2));
  }

  /** Segment p of a part is segment h+p of the whole list when the parts before it hold h segments. */
  lemma PartSeg(front: seq<nat>, part: seq<nat>, back: seq<nat>, h: nat, p: nat)
    requires |front| == 2 * h && 2 * p + 1 < |part|
    ensures 2 * (h + p) + 1 < |front + part + back| && Seg(front + part + back, h + p) == Seg(part, p)
  {
    SegAppend(front, part, h, p);
    SegPrefix(front + part, back, h + p);
  }

  /** Where each part's segments sit in the whole list: after 2*(lat-1)*lon and then
      2*lon*(2*lat-1) indices. */
  lemma LinesLayout(lat: nat, lon: nat)
    requires lat >= 1 && lon >= 1
    ensures |LatLines(lat, lon)| == 2 * Mul(lat - 1, lon)
    ensures |MeridianLines(lat, lon)| == 2 * Mul(lon, lat * 2 - 1)
    ensures |TiltedLines(lat, lon)| == 2 * Mul(3, lon * 2)
  {
    MulTwice(lat - 1, lon);
    MulTwice(lon, lat * 2 - 1);
    MulTwice(3, lon * 2);
  }

  /** Point k of latitude ring a, of meridian j and of extra ring r sit at the indices the
      segment lemmas name. */
  lemma LatRingPoint(m: Libm, lat: nat, lon: nat, a: nat, k: nat)
    requires lat >= 1 && lon >= 1 && a + 1 < lat && k < lon
    ensures Mul(a, lon) + k < |LatVerts(m, lat, lon)|
            && LatVerts(m, lat, lon)[Mul(a, lon) + k] == LatPoint(m, lat, lon, a + 1, k)
  {
    RowsAt(m, lat, lon, Latitude, lat - 1, lon, a, k);
  }

  lemma MeridianPointAt(m: Libm, lat: nat, lon: nat, j: nat, k: nat)
    requires lat >= 1 && lon >= 1 && j < lon && k < lat * 2
    ensures Mul(j, lat * 2) + k < |MeridianVerts(m, lat, lon)|
            && MeridianVerts(m, lat, lon)[Mul(j, lat * 2) + k] == MeridianPoint(m, lat, lon, j, k)
  {
    RowsAt(m, lat, lon, Meridian, lon, lat * 2, j, k);
  }

  lemma TiltedRingPoint(m: Libm, lat: nat, lon: nat, r: nat, k: nat)
    requires lat >= 1 && lon >= 1 && r < 3 && k < lon * 2
    ensures Mul(r, lon * 2) + k < |TiltedVerts(m, lat, lon)|
            && TiltedVerts(m, lat, lon)[Mul(r, lon * 2) + k] == TiltedPoint(m, lon, r, k)
  {
    RowsAt(m, lat, lon, Tilted, 3, lon * 2, r, k);
  }

  /** The one call in the program, make_sphere(10, 16), fits its buffers. */
  lemma DefaultSphereFits()
    ensures VertexCount(10, 16) == 560 && Capacity(10, 16) == 1851
    ensures VertexCount(10, 16) <= Capacity(10, 16)
  {
    MulIsProduct(9, 16);
    MulIsProduct(16, 20);
    MulIsProduct(3, 32);
    MulIsProduct(11, 17);
    MulIsProduct(26, 64);
  }

  /** The capacity formula is not enough for every size: make_sphere(100, 100) would write
      past its vertex buffer, so MakeSphere's fit precondition is a real restriction. */
  lemma LargeSphereOverflows()
    ensures VertexCount(100, 100) == 30500 && Capacity(100, 100) == 23001
  {
    MulIsProduct(99, 100);
    MulIsProduct(100, 200);
    MulIsProduct(3, 200);
    MulIsProduct(101, 101);
    MulIsProduct(200, 64);
  }
}
