/** Wireframe meshes (the source's WireGeom): a vertex list and a flat list of
    vertex indices read two at a time, one pair per line segment. Also the
    polyline index patterns the parametric builders emit, the three fixed
    shapes, and the segment walk of draw_wire. */
module Wire {
  import opened VecMath
  import opened Arith

  /** verts[..vcount] and lines[..2*lcount] after the builder's final realloc. */
  datatype Mesh = Mesh(verts: seq<Vec3>, lines: seq<nat>)
  {
    function LCount(): nat { |lines| / 2 }
  }

  /** What draw_wire needs: whole pairs, each index naming a vertex. */
  predicate WellFormed(g: Mesh)
  {
    |g.lines| % 2 == 0 && forall k :: 0 <= k < |g.lines| ==> g.lines[k] < |g.verts|
  }

  /** Segment p of a flat index list. */
  function Seg(lines: seq<nat>, p: nat): (nat, nat)
    requires 2 * p + 1 < |lines|
  {
    (lines[2 * p], lines[2 * p + 1])
  }

  /** A segment of b keeps its pairs after h whole segments are put in front of it. */
  lemma SegAppend(a: seq<nat>, b: seq<nat>, h: nat, p: nat)
    requires |a| == 2 * h && 2 * p + 1 < |b|
    ensures 2 * (h + p) + 1 < |a + b| && Seg(a + b, h + p) == Seg(b, p)
  {
  }

  lemma SegPrefix(a: seq<nat>, b: seq<nat>, p: nat)
    requires 2 * p + 1 < |a|
    ensures Seg(a + b, p) == Seg(a, p)
  {
  }

  /** A list that starts with front has front's segments. */
  lemma SegOfFront(whole: seq<nat>, front: seq<nat>, last: seq<nat>, p: nat, x: (nat, nat))
    requires whole == front + last && 2 * p + 1 < |front| && Seg(front, p) == x
    ensures 2 * p + 1 < |whole| && Seg(whole, p) == x
  {
  }

  /** A list that ends with last has last's segments, numbered on after front's h. */
  lemma SegOfBack(whole: seq<nat>, front: seq<nat>, last: seq<nat>, h: nat, p: nat, x: (nat, nat))
    requires whole == front + last && |front| == 2 * h && 2 * p + 1 < |last| && Seg(last, p) == x
    ensures 2 * (h + p) + 1 < |whole| && Seg(whole, h + p) == x
  {
  }

  lemma Assoc<T>(a: seq<T>, b: seq<T>, c: seq<T>)
    ensures a + (b + c) == (a + b) + c
  {
  }

  // ---------------------------------------------------------------------------
  // Polylines over consecutive vertices starting at index base.

  /** Every entry of s lies in lo .. hi-1. */
  predicate InRange(s: seq<nat>, lo: nat, hi: nat)
  {
    forall k :: 0 <= k < |s| ==> lo <= s[k] < hi
  }

  /** The open polyline of s segments through base .. base+s: the pairs (base+k, base+k+1)
      for k = 0 .. s-1, in emission order. */
  function Chain(base: nat, s: nat): (r: seq<nat>)
    ensures |r| == 2 * s
  {
    if s == 0 then [] else Chain(base, s - 1) + [base + s - 1, base + s]
  }

  /** The closed polyline through base .. base+n-1: the chain over its n points and the
      pair joining the last point back to the first. Entry e is vertex base + (e+1)/2, except
      the very last, which is base. */
  function Ring(base: nat, n: nat): (r: seq<nat>)
    ensures |r| == 2 * n
  {
    seq(2 * n, e => if e + 1 == 2 * n then base else base + (e + 1) / 2)
  }

  /** Entry e of a chain is vertex base + (e+1)/2. */
  lemma {:induction false} ChainEntry(base: nat, s: nat, e: nat)
    requires e < 2 * s
    ensures Chain(base, s)[e] == base + (e + 1) / 2
  {
    if e < 2 * s - 2 {
      ChainEntry(base, s - 1, e);
    }
  }

  lemma {:induction false} ChainRange(base: nat, s: nat)
    ensures InRange(Chain(base, s), base, base + s + 1)
  {
    if s > 0 {
      ChainRange(base, s - 1);
      InRangeJoin(Chain(base, s - 1), [base + s - 1, base + s], base, base + s, base + s + 1);
    }
  }

  lemma RingRange(base: nat, n: nat)
    ensures InRange(Ring(base, n), base, base + n)
  {
    forall e | 0 <= e < 2 * n
      ensures base <= Ring(base, n)[e] < base + n
    {
      assert e + 1 < 2 * n ==> (e + 1) / 2 < n;
    }
  }

  /** Segment k of a chain joins its vertices k and k+1. */
  lemma {:induction false} ChainAt(base: nat, s: nat, k: nat)
    requires k < s
    ensures 2 * k + 1 < |Chain(base, s)| && Seg(Chain(base, s), k) == (base + k, base + k + 1)
  {
    if k + 1 < s {
      ChainAt(base, s - 1, k);
      SegPrefix(Chain(base, s - 1), [base + s - 1, base + s], k);
    }
  }

  /** Segment k of a ring joins vertex k to vertex k+1, and the last joins back to the first. */
  lemma RingAt(base: nat, n: nat, k: nat)
    requires k < n
    ensures 2 * k + 1 < |Ring(base, n)|
    ensures Seg(Ring(base, n), k) == (base + k, if k + 1 < n then base + k + 1 else base)
  {
    assert (2 * k + 1) / 2 == k && (2 * k + 2) / 2 == k + 1;
  }

  // The next lemmas state one write of a builder loop in the exact form its invariant
  // needs: the list so far, then one more pair or polyline.

  /** The pair (a, b) joining the newest point to the one before adds segment s. */
  lemma ChainPush(pre: seq<nat>, base: nat, s: nat, a: nat, b: nat)
    requires a == base + s && b == base + s + 1
    ensures pre + Chain(base, s + 1) == (pre + Chain(base, s)) + [a, b]
  {
    Assoc(pre, Chain(base, s), [a, b]);
  }

  /** The closing pair (a, b) turns the chain over n points into the ring. */
  lemma RingClose(pre: seq<nat>, base: nat, n: nat, s: nat, a: nat, b: nat)
    requires s + 1 == n && a == base + s && b == base
    ensures pre + Ring(base, n) == (pre + Chain(base, s)) + [a, b]
  {
    assert Ring(base, n) == Chain(base, s) + [a, b] by {
      forall e | 0 <= e < 2 * n
        ensures Ring(base, n)[e] == (Chain(base, s) + [a, b])[e]
      {
        if e < 2 * s {
          ChainEntry(base, s, e);
        } else if e == 2 * s {
          assert (e + 1) / 2 == s;
        }
      }
    }
    Assoc(pre, Chain(base, s), [a, b]);
  }

  // ---------------------------------------------------------------------------
  // Runs of polylines, one after another from base, in the order the builders write them:
  // polyline i starts at vertex base + i*stride.

  /** count chains of s segments each, the i-th starting at base + i*stride. */
  function Chains(base: nat, stride: nat, s: nat, count: nat): (r: seq<nat>)
    ensures |r| == Mul(count, 2 * s)
  {
    if count == 0 then [] else Chains(base, stride, s, count - 1) + Chain(base + Mul(count - 1, stride), s)
  }

  /** count closed rings of size points each, laid out one after another from base. */
  function Rings(base: nat, size: nat, count: nat): (r: seq<nat>)
    ensures |r| == Mul(count, 2 * size)
  {
    if count == 0 then [] else Rings(base, size, count - 1) + Ring(base + Mul(count - 1, size), size)
  }

  /** The chain written from vertex start (the next free one) extends the run by one. */
  lemma ChainsPush(pre: seq<nat>, base: nat, stride: nat, s: nat, count: nat, start: nat)
    requires start == base + Mul(count, stride)
    ensures pre + Chains(base, stride, s, count + 1) == (pre + Chains(base, stride, s, count)) + Chain(start, s)
  {
    assert Chains(base, stride, s, count + 1) == Chains(base, stride, s, count) + Chain(start, s);
    Assoc(pre, Chains(base, stride, s, count), Chain(start, s));
  }

  /** The ring written from vertex start (the next free one) extends the run by one. */
  lemma RingsPush(pre: seq<nat>, base: nat, size: nat, count: nat, start: nat)
    requires start == base + Mul(count, size)
    ensures pre + Rings(base, size, count + 1) == (pre + Rings(base, size, count)) + Ring(start, size)
  {
    assert Rings(base, size, count + 1) == Rings(base, size, count) + Ring(start, size);
    Assoc(pre, Rings(base, size, count), Ring(start, size));
  }

  /** Joining a list below ha to one in lo .. hi-1, for ha <= hi. */
  lemma InRangeJoin(a: seq<nat>, b: seq<nat>, lo: nat, ha: nat, hi: nat)
    requires InRange(a, lo, ha) && InRange(b, lo, hi) && ha <= hi
    ensures InRange(a + b, lo, hi)
  {
    forall k | 0 <= k < |a + b|
      ensures lo <= (a + b)[k] < hi
    {
      if k < |a| {
        assert (a + b)[k] == a[k];
      } else {
        assert (a + b)[k] == b[k - |a|];
      }
    }
  }

  /** Joining two index lists, the first below mid and the second from mid on. */
  lemma InRangeAppend(a: seq<nat>, b: seq<nat>, lo: nat, mid: nat, top: nat, hi: nat)
    requires InRange(a, lo, mid) && InRange(b, mid, top) && lo <= mid <= top <= hi
    ensures InRange(a + b, lo, hi)
  {
    forall k | 0 <= k < |a + b|
      ensures lo <= (a + b)[k] < hi
    {
      if k < |a| {
        assert (a + b)[k] == a[k];
      } else {
        assert (a + b)[k] == b[k - |a|];
      }
    }
  }

  /** Every index of the chains names one of their count*stride vertices, when each chain
      stays within its stride. */
  lemma {:induction false} ChainsRange(base: nat, stride: nat, s: nat, count: nat)
    requires s < stride
    ensures InRange(Chains(base, stride, s, count), base, base + Mul(count, stride))
  {
    if count > 0 {
      var start := base + Mul(count - 1, stride);
      ChainsRange(base, stride, s, count - 1);
      ChainRange(start, s);
      InRangeAppend(Chains(base, stride, s, count - 1), Chain(start, s), base, start, start + s + 1, start + stride);
    }
  }

  /** Every index of the rings names one of their count*size vertices. */
  lemma {:induction false} RingsRange(base: nat, size: nat, count: nat)
    ensures InRange(Rings(base, size, count), base, base + Mul(count, size))
  {
    if count > 0 {
      var start := base + Mul(count - 1, size);
      RingsRange(base, size, count - 1);
      RingRange(start, size);
      InRangeAppend(Rings(base, size, count - 1), Ring(start, size), base, start, start + size, start + size);
    }
  }

  /** Segment k of ring i of the run, whose first vertex is first: it joins consecutive
      vertices, and the last joins back to first. The ring's segments are numbered on from i*size. */
  lemma {:induction false} RingsSeg(base: nat, size: nat, count: nat, i: nat, k: nat, first: nat)
    requires i < count && k < size && first == base + Mul(i, size)
    ensures 2 * (Mul(i, size) + k) + 1 < |Rings(base, size, count)|
    ensures Seg(Rings(base, size, count), Mul(i, size) + k) == (first + k, if k + 1 < size then first + k + 1 else first)
  {
    if i + 1 == count {
      LastRingSeg(base, size, count, i, k, first);
    } else {
      RingsSeg(base, size, count - 1, i, k, first);
      RingsFront(base, size, count, Mul(i, size) + k, (first + k, if k + 1 < size then first + k + 1 else first));
    }
  }

  /** A segment of the first count-1 rings keeps its place when ring count is written. */
  lemma RingsFront(base: nat, size: nat, count: nat, p: nat, x: (nat, nat))
    requires count >= 1 && 2 * p + 1 < |Rings(base, size, count - 1)| && Seg(Rings(base, size, count - 1), p) == x
    ensures 2 * p + 1 < |Rings(base, size, count)| && Seg(Rings(base, size, count), p) == x
  {
    SegOfFront(Rings(base, size, count), Rings(base, size, count - 1), Ring(base + Mul(count - 1, size), size), p, x);
  }

  lemma LastRingSeg(base: nat, size: nat, count: nat, i: nat, k: nat, first: nat)
    requires count == i + 1 && k < size && first == base + Mul(i, size)
    ensures 2 * (Mul(i, size) + k) + 1 < |Rings(base, size, count)|
    ensures Seg(Rings(base, size, count), Mul(i, size) + k) == (first + k, if k + 1 < size then first + k + 1 else first)
  {
    MulTwice(i, size);
    RingAt(first, size, k);
    SegOfBack(Rings(base, size, count), Rings(base, size, i), Ring(first, size), Mul(i, size), k, Seg(Ring(first, size), k));
  }

  /** Segment k of chain i of the run, whose first vertex is first, joins two consecutive
      vertices. The chain's segments are numbered on from i*s. */
  lemma {:induction false} ChainsSeg(base: nat, stride: nat, s: nat, count: nat, i: nat, k: nat, first: nat)
    requires i < count && k < s && first == base + Mul(i, stride)
    ensures 2 * (Mul(i, s) + k) + 1 < |Chains(base, stride, s, count)|
    ensures Seg(Chains(base, stride, s, count), Mul(i, s) + k) == (first + k, first + k + 1)
  {
    if i + 1 == count {
      LastChainSeg(base, stride, s, count, i, k, first);
    } else {
      ChainsSeg(base, stride, s, count - 1, i, k, first);
      ChainsFront(base, stride, s, count, Mul(i, s) + k, (first + k, first + k + 1));
    }
  }

  /** A segment of the first count-1 chains keeps its place when chain count is written. */
  lemma ChainsFront(base: nat, stride: nat, s: nat, count: nat, p: nat, x: (nat, nat))
    requires count >= 1 && 2 * p + 1 < |Chains(base, stride, s, count - 1)| && Seg(Chains(base, stride, s, count - 1), p) == x
    ensures 2 * p + 1 < |Chains(base, stride, s, count)| && Seg(Chains(base, stride, s, count), p) == x
  {
    SegOfFront(Chains(base, stride, s, count), Chains(base, stride, s, count - 1), Chain(base + Mul(count - 1, stride), s), p, x);
  }

  lemma LastChainSeg(base: nat, stride: nat, s: nat, count: nat, i: nat, k: nat, first: nat)
    requires count == i + 1 && k < s && first == base + Mul(i, stride)
    ensures 2 * (Mul(i, s) + k) + 1 < |Chains(base, stride, s, count)|
    ensures Seg(Chains(base, stride, s, count), Mul(i, s) + k) == (first + k, first + k + 1)
  {
    MulTwice(i, s);
    ChainAt(first, s, k);
    SegOfBack(Chains(base, stride, s, count), Chains(base, stride, s, i), Chain(first, s), Mul(i, s), k, Seg(Chain(first, s), k));
  }

  // ---------------------------------------------------------------------------
  // The fixed shapes: static vertex and edge tables copied into fresh buffers.

  /** The cube's corners at +-0.5 and its twelve edges. */
  function CubeVerts(): seq<Vec3>
  {
    [Vec3(-0.5, -0.5, -0.5), Vec3(0.5, -0.5, -0.5), Vec3(0.5, 0.5, -0.5), Vec3(-0.5, 0.5, -0.5),
     Vec3(-0.5, -0.5, 0.5), Vec3(0.5, -0.5, 0.5), Vec3(0.5, 0.5, 0.5), Vec3(-0.5, 0.5, 0.5)]
  }

  function CubeLines(): seq<nat>
  {
    [0, 1, 1, 2, 2, 3, 3, 0, 4, 5, 5, 6, 6, 7, 7, 4, 0, 4, 1, 5, 2, 6, 3, 7]
  }

  function Cube(): (g: Mesh)
    ensures |g.verts| == 8 && g.LCount() == 12 && WellFormed(g)
  {
    Mesh(CubeVerts(), CubeLines())
  }

  function Pyramid(): (g: Mesh)
    ensures |g.verts| == 5 && g.LCount() == 8 && WellFormed(g)
  {
    Mesh([Vec3(-0.5, 0.0, -0.5), Vec3(0.5, 0.0, -0.5), Vec3(0.5, 0.0, 0.5), Vec3(-0.5, 0.0, 0.5),
          Vec3(0.0, 0.8, 0.0)],
         [0, 1, 1, 2, 2, 3, 3, 0, 0, 4, 1, 4, 2, 4, 3, 4])
  }

  function Octahedron(): (g: Mesh)
    ensures |g.verts| == 6 && g.LCount() == 12 && WellFormed(g)
  {
    Mesh([Vec3(0.0, 1.0, 0.0), Vec3(1.0, 0.0, 0.0), Vec3(0.0, 0.0, 1.0), Vec3(-1.0, 0.0, 0.0),
          Vec3(0.0, 0.0, -1.0), Vec3(0.0, -1.0, 0.0)],
         [0, 1, 0, 2, 0, 3, 0, 4, 1, 2, 2, 3, 3, 4, 4, 1, 5, 1, 5, 2, 5, 3, 5, 4])
  }

  /** Number of cube vertex coordinates in which two vertices differ. */
  function CoordsApart(a: Vec3, b: Vec3): nat
  {
    (if a.x != b.x then 1 else 0) + (if a.y != b.y then 1 else 0) + (if a.z != b.z then 1 else 0)
  }

  /** Every cube segment is an edge of the cube: its ends differ in exactly one coordinate. */
  lemma CubeSegmentsAreEdges(p: nat)
    requires p < 12
    ensures CoordsApart(CubeVerts()[CubeLines()[2 * p]], CubeVerts()[CubeLines()[2 * p + 1]]) == 1
  {
    if p == 0 {} else if p == 1 {} else if p == 2 {} else if p == 3 {}
    else if p == 4 {} else if p == 5 {} else if p == 6 {} else if p == 7 {}
    else if p == 8 {} else if p == 9 {} else if p == 10 {} else {
      assert p == 11;
    }
  }

  // ---------------------------------------------------------------------------
  // The two writes every builder repeats, v[vi++] = p and e[ei++] = a; e[ei++] = b, on
  // buffers of cap elements: what is written so far is a sequence whose length is the
  // write index, and a write is only allowed while the buffer has room.

  method PushPoint(v: seq<Vec3>, cap: int, p: Vec3) returns (v': seq<Vec3>)
    requires |v| < cap
    ensures v' == v + [p] && |v'| <= cap
  {
    v' := v + [p];
  }

  method PushPair(e: seq<nat>, cap: int, a: nat, b: nat) returns (e': seq<nat>)
    requires |e| + 2 <= cap
    ensures e' == e + [a, b] && |e'| <= cap
  {
    e' := e + [a, b];
  }

  // ---------------------------------------------------------------------------
  // draw_wire: the segment walk, with the glVertex3f calls as the emitted sequence.

  method DrawWire(g: Mesh) returns (emitted: seq<Vec3>)
    requires WellFormed(g)
    ensures |emitted| == 2 * g.LCount()
    ensures forall k :: 0 <= k < |emitted| ==> emitted[k] == g.verts[g.lines[k]]
  {
    emitted := [];
    var i := 0;
    while i < g.LCount()
      invariant 0 <= i <= g.LCount()
      invariant |emitted| == 2 * i
      invariant forall k :: 0 <= k < 2 * i ==> emitted[k] == g.verts[g.lines[k]]
    {
      var a, b := g.lines[i * 2 + 0], g.lines[i * 2 + 1];
      var va, vb := g.verts[a], g.verts[b];
      emitted := emitted + [va, vb];
      i := i + 1;
    }
  }
}
