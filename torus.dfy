/** make_torus: a grid of major-by-minor points on a torus, each point joined to its
    neighbour along the major ring and to its neighbour along the minor ring, after which
    the whole mesh is scaled so that its farthest point lies at distance 0.5. */
module TorusMesh {
  import opened VecMath
  import opened Arith
  import opened Wire

  /** Side of the idx table make_torus keeps on its stack. */
  const IdxSide: int := 128

  /** The segment counts are cut to the table's side (after vcap has been computed from
      the uncut ones). */
  function Clamp(n: int): (c: int)
    ensures c <= n && c <= IdxSide
    ensures n <= IdxSide ==> c == n
  {
    if n > IdxSide then IdxSide else n
  }

  /** The positive part of n: how often `for (i = 0; i < n; i++)` runs, and how many
      elements a buffer allocated for n has room for. */
  function PosPart(n: int): nat
  {
    if n > 0 then n else 0
  }

  // ---------------------------------------------------------------------------
  // The points, row by row: row i is the minor ring at angle 2*pi*i/major.

  /** Grid point (i, j), stored with its y and z swapped as v3(x, z, y). */
  function TorusPoint(m: Libm, major: nat, minor: nat, R: real, r: real, i: nat, j: nat): Vec3
    requires i < major && j < minor
  {
    var a := 2.0 * Pi * (i as real) / (major as real);
    var ca, sa := m.cos(a), m.sin(a);
    var b := 2.0 * Pi * (j as real) / (minor as real);
    var cb, sb := m.cos(b), m.sin(b);
    var x, y, z := (R + r * cb) * ca, (R + r * cb) * sa, r * sb;
    Vec3(x, z, y)
  }

  /** The first n points of row i. */
  function PointRow(m: Libm, major: nat, minor: nat, R: real, r: real, i: nat, n: nat): (row: seq<Vec3>)
    requires i < major && n <= minor
    ensures |row| == n
  {
    if n == 0 then [] else PointRow(m, major, minor, R, r, i, n - 1) + [TorusPoint(m, major, minor, R, r, i, n - 1)]
  }

  /** The first k rows. */
  function PointRows(m: Libm, major: nat, minor: nat, R: real, r: real, k: nat): (g: seq<Vec3>)
    requires k <= major
    ensures |g| == Mul(k, minor)
  {
    if k == 0 then [] else PointRows(m, major, minor, R, r, k - 1) + PointRow(m, major, minor, R, r, k - 1, minor)
  }

  /** The points before the size is normalised. */
  function TorusVerts(m: Libm, major: nat, minor: nat, R: real, r: real): seq<Vec3>
  {
    PointRows(m, major, minor, R, r, major)
  }

  /** The next position round a ring of n: (i + 1) % n for i < n, without the division. */
  function Wrap(i: nat, n: nat): nat
  {
    if i + 1 == n then 0 else i + 1
  }

  lemma WrapIsMod(i: nat, n: nat)
    requires i < n
    ensures (i + 1) % n == Wrap(i, n)
  {
    if i + 1 < n {
      DivModUnique(i + 1, n, 0, i + 1);
    } else {
      DivModUnique(i + 1, n, 1, 0);
    }
  }

  // ---------------------------------------------------------------------------
  // The segments, cell by cell in the same row-major order.

  /** Cell (i, j) writes the pair joining point (i, j) to (i+1 mod major, j), then the pair
      joining it to (i, j+1 mod minor); idx[i][j] = i*minor + j. */
  function Cell(major: nat, minor: nat, i: nat, j: nat): seq<nat>
    requires i < major && j < minor
  {
    var a, b, c := Mul(i, minor) + j, Mul(Wrap(i, major), minor) + j, Mul(i, minor) + Wrap(j, minor);
    [a, b, a, c]
  }

  function CellRow(major: nat, minor: nat, i: nat, n: nat): (row: seq<nat>)
    requires i < major && n <= minor
    ensures |row| == 4 * n
  {
    if n == 0 then [] else CellRow(major, minor, i, n - 1) + Cell(major, minor, i, n - 1)
  }

  function CellRows(major: nat, minor: nat, k: nat): (g: seq<nat>)
    requires k <= major
    ensures |g| == 4 * Mul(k, minor)
  {
    if k == 0 then [] else CellRows(major, minor, k - 1) + CellRow(major, minor, k - 1, minor)
  }

  function TorusLines(major: nat, minor: nat): seq<nat>
  {
    CellRows(major, minor, major)
  }

  // ---------------------------------------------------------------------------
  // Size normalisation.

  /** maxr: the largest v3_len over the points, starting from 0. */
  function MaxRadius(m: Libm, vs: seq<Vec3>): real
  {
    if |vs| == 0 then 0.0
    else
      var mr, l := MaxRadius(m, vs[..|vs| - 1]), Len(m, vs[|vs| - 1]);
      if l > mr then l else mr
  }

  /** Every point scaled by 0.5/maxr. With maxr = 0 the source divides by zero; here the
      points are left as they are. */
  function Normalised(m: Libm, vs: seq<Vec3>): (ns: seq<Vec3>)
    ensures |ns| == |vs|
  {
    var mr := MaxRadius(m, vs);
    if mr == 0.0 then vs else seq(|vs|, k requires 0 <= k < |vs| => Scale(vs[k], 0.5 / mr))
  }

  // ---------------------------------------------------------------------------
  // Loop steps, in the form the builder's invariants need.

  lemma PointPush(pre: seq<Vec3>, m: Libm, major: nat, minor: nat, R: real, r: real, i: nat, n: nat, p: Vec3)
    requires i < major && n < minor && p == TorusPoint(m, major, minor, R, r, i, n)
    ensures pre + PointRow(m, major, minor, R, r, i, n + 1) == (pre + PointRow(m, major, minor, R, r, i, n)) + [p]
  {
    Assoc(pre, PointRow(m, major, minor, R, r, i, n), [p]);
  }

  lemma CellPush(pre: seq<nat>, major: nat, minor: nat, i: nat, n: nat, a: nat, b: nat, c: nat)
    requires i < major && n < minor
    requires a == Mul(i, minor) + n && b == Mul(Wrap(i, major), minor) + n && c == Mul(i, minor) + Wrap(n, minor)
    ensures pre + CellRow(major, minor, i, n + 1) == ((pre + CellRow(major, minor, i, n)) + [a, b]) + [a, c]
  {
    var row := CellRow(major, minor, i, n);
    assert Cell(major, minor, i, n) == [a, b] + [a, c];
    Assoc(pre, row, [a, b] + [a, c]);
    Assoc(pre + row, [a, b], [a, c]);
  }

  /** idx[i][j] holds the index of grid point (i, j) for every row below k. */
  ghost predicate IdxRows(idx: array2<nat>, minor: nat, k: nat)
    reads idx
  {
    forall i, j :: 0 <= i < k && 0 <= j < minor && i < idx.Length0 && j < idx.Length1 ==> idx[i, j] == Mul(i, minor) + j
  }

  // ---------------------------------------------------------------------------
  // The builder. vcap = majorSeg*minorSeg points and 4*vcap indices are allocated before
  // the counts are clamped; major and minor are the clamped counts.

  /** The points of row i, recording each one's index in idx[i][j]. */
  method EmitPointRow(m: Libm, major: int, minor: int, R: real, r: real, i: nat, v: seq<Vec3>,
                      idx: array2<nat>, vcap: int)
    returns (v': seq<Vec3>)
    requires idx.Length0 == IdxSide && idx.Length1 == IdxSide && major <= IdxSide && minor <= IdxSide
    requires i < major && |v| == Mul(i, PosPart(minor)) && |v| + PosPart(minor) <= PosPart(vcap)
    modifies idx
    ensures v' == v + PointRow(m, PosPart(major), PosPart(minor), R, r, i, PosPart(minor))
    ensures forall j :: 0 <= j < PosPart(minor) ==> idx[i, j] == Mul(i, PosPart(minor)) + j
    ensures forall i', j :: 0 <= i' < IdxSide && 0 <= j < IdxSide && i' != i ==> idx[i', j] == old(idx[i', j])
  {
    var rows, cols := PosPart(major), PosPart(minor);
    v' := v;
    var j := 0;
    while j < minor
      invariant 0 <= j <= cols && |v'| == |v| + j
      invariant v' == v + PointRow(m, rows, cols, R, r, i, j)
      invariant forall j' :: 0 <= j' < j ==> idx[i, j'] == Mul(i, cols) + j'
      invariant forall i', j' :: 0 <= i' < IdxSide && 0 <= j' < IdxSide && i' != i ==> idx[i', j'] == old(idx[i', j'])
    {
      var p := TorusPoint(m, rows, cols, R, r, i, j);
      PointPush(v, m, rows, cols, R, r, i, j, p);
      var vi := |v'|;
      v' := PushPoint(v', vcap, p);
      idx[i, j] := vi;
      j := j + 1;
    }
    assert j == cols;
  }

  /** The point loops of make_torus. */
  method EmitTorusPoints(m: Libm, major: int, minor: int, R: real, r: real, idx: array2<nat>, vcap: int)
    returns (v: seq<Vec3>)
    requires idx.Length0 == IdxSide && idx.Length1 == IdxSide && major <= IdxSide && minor <= IdxSide
    requires Mul(PosPart(major), PosPart(minor)) <= PosPart(vcap)
    modifies idx
    ensures v == TorusVerts(m, PosPart(major), PosPart(minor), R, r)
    ensures IdxRows(idx, PosPart(minor), PosPart(major))
  {
    ghost var rows, cols := PosPart(major), PosPart(minor);
    v := [];
    var i := 0;
    while i < major
      invariant 0 <= i <= rows && |v| == Mul(i, cols)
      invariant v == PointRows(m, rows, cols, R, r, i)
      invariant IdxRows(idx, cols, i)
    {
      MulNext(i, cols, rows);
      ghost var pre := v;
      v := EmitPointRow(m, major, minor, R, r, i, v, idx, vcap);
      assert v == PointRows(m, rows, cols, R, r, i + 1) by {
        assert PointRows(m, rows, cols, R, r, i + 1) == pre + PointRow(m, rows, cols, R, r, i, cols);
      }
      i := i + 1;
    }
    assert i == rows;
  }

  /** The cells of row i. */
  method EmitCellRow(major: int, minor: int, i: nat, e: seq<nat>, idx: array2<nat>, ecap: int)
    returns (e': seq<nat>)
    requires idx.Length0 == IdxSide && idx.Length1 == IdxSide && major <= IdxSide && minor <= IdxSide
    requires IdxRows(idx, PosPart(minor), PosPart(major))
    requires i < major && |e| + 4 * PosPart(minor) <= PosPart(ecap)
    ensures e' == e + CellRow(PosPart(major), PosPart(minor), i, PosPart(minor))
  {
    ghost var rows, cols := PosPart(major), PosPart(minor);
    e' := e;
    var j := 0;
    while j < minor
      invariant 0 <= j <= cols && |e'| == |e| + 4 * j
      invariant e' == e + CellRow(rows, cols, i, j)
    {
      var i2, j2 := (i + 1) % major, (j + 1) % minor;
      WrapIsMod(i, rows);
      WrapIsMod(j, cols);
      var a, b, c := idx[i, j], idx[i2, j], idx[i, j2];
      CellPush(e, rows, cols, i, j, a, b, c);
      e' := PushPair(e', ecap, a, b);
      e' := PushPair(e', ecap, a, c);
      j := j + 1;
    }
    assert j == cols;
  }

  /** The cell loops of make_torus. */
  method EmitTorusCells(major: int, minor: int, idx: array2<nat>, ecap: int) returns (e: seq<nat>)
    requires idx.Length0 == IdxSide && idx.Length1 == IdxSide && major <= IdxSide && minor <= IdxSide
    requires IdxRows(idx, PosPart(minor), PosPart(major))
    requires 4 * Mul(PosPart(major), PosPart(minor)) <= PosPart(ecap)
    ensures e == TorusLines(PosPart(major), PosPart(minor))
  {
    ghost var rows, cols := PosPart(major), PosPart(minor);
    e := [];
    var i := 0;
    while i < major
      invariant 0 <= i <= rows && |e| == 4 * Mul(i, cols)
      invariant e == CellRows(rows, cols, i)
    {
      MulNext(i, cols, rows);
      ghost var pre := e;
      e := EmitCellRow(major, minor, i, e, idx, ecap);
      assert e == CellRows(rows, cols, i + 1) by {
        assert CellRows(rows, cols, i + 1) == pre + CellRow(rows, cols, i, cols);
      }
      i := i + 1;
    }
    assert i == rows;
  }

  /** The maxr loop. */
  method MaxRadiusOf(m: Libm, v: seq<Vec3>) returns (maxr: real)
    ensures maxr == MaxRadius(m, v)
  {
    maxr := 0.0;
    var i := 0;
    while i < |v|
      invariant 0 <= i <= |v| && maxr == MaxRadius(m, v[..i])
    {
      var rlen := Len(m, v[i]);
      assert v[..i + 1][..i] == v[..i];
      if rlen > maxr {
        maxr := rlen;
      }
      i := i + 1;
    }
    assert v[..i] == v;
  }

  /** The scaling loop, applied in place. */
  method NormaliseSize(m: Libm, v: seq<Vec3>) returns (v': seq<Vec3>)
    ensures v' == Normalised(m, v)
  {
    var maxr := MaxRadiusOf(m, v);
    v' := v;
    if maxr != 0.0 {
      var s := 0.5 / maxr;
      var i := 0;
      while i < |v'|
        invariant 0 <= i <= |v'| == |v|
        invariant forall k :: 0 <= k < i ==> v'[k] == Scale(v[k], s)
        invariant forall k :: i <= k < |v| ==> v'[k] == v[k]
      {
        v' := v'[i := Scale(v'[i], s)];
        i := i + 1;
      }
    }
  }

  /** vcap = majorSeg*minorSeg is computed from the uncut counts, so in unbounded arithmetic
      the clamped grid fits the buffers: vcap points and 4*vcap indices. (The source's int
      products can overflow; that is not modelled.) */
  lemma TorusFits(majorSeg: int, minorSeg: int)
    ensures Mul(PosPart(Clamp(majorSeg)), PosPart(Clamp(minorSeg))) <= PosPart(majorSeg * minorSeg)
    ensures 4 * Mul(PosPart(Clamp(majorSeg)), PosPart(Clamp(minorSeg))) <= PosPart(majorSeg * minorSeg * 4)
  {
    var rows, cols := PosPart(Clamp(majorSeg)), PosPart(Clamp(minorSeg));
    MulIsProduct(rows, cols);
    if rows > 0 && cols > 0 {
      MulLe(rows, majorSeg, cols);
      MulLe(cols, minorSeg, majorSeg);
      assert majorSeg * cols == cols * majorSeg;
    }
  }

  /** make_torus(majorSeg, minorSeg, R, r). */
  method MakeTorus(m: Libm, majorSeg: int, minorSeg: int, R: real, r: real) returns (g: Mesh)
    ensures var major, minor := PosPart(Clamp(majorSeg)), PosPart(Clamp(minorSeg));
            g.verts == Normalised(m, TorusVerts(m, major, minor, R, r)) && g.lines == TorusLines(major, minor)
  {
    var vcap := majorSeg * minorSeg;
    var idx := new nat[IdxSide, IdxSide];
    var major, minor := Clamp(majorSeg), Clamp(minorSeg);
    TorusFits(majorSeg, minorSeg);
    var v := EmitTorusPoints(m, major, minor, R, r, idx, vcap);
    var e := EmitTorusCells(major, minor, idx, vcap * 4);
    v := NormaliseSize(m, v);
    g := Mesh(v, e);
  }

  // ---------------------------------------------------------------------------
  // What the mesh is.

  /** The part of whole = front + last between lo and hi, when it lies inside front. */
  lemma SliceFront<T>(whole: seq<T>, front: seq<T>, last: seq<T>, lo: nat, hi: nat)
    requires whole == front + last && lo <= hi <= |front|
    ensures whole[lo..hi] == front[lo..hi]
  {
  }

  /** The part of whole = front + last between h+lo and h+hi, with h = |front|, is last's. */
  lemma SliceBack<T>(whole: seq<T>, front: seq<T>, last: seq<T>, lo: nat, hi: nat, a: nat, b: nat)
    requires whole == front + last && lo <= hi <= |last| && a == |front| + lo && b == |front| + hi
    ensures a <= b <= |whole| && whole[a..b] == last[lo..hi]
  {
  }

  /** Point (i, j) sits at index i*minor + j: the idx[i][j] the cells read. */
  lemma TorusPointAt(m: Libm, major: nat, minor: nat, R: real, r: real, i: nat, j: nat)
    requires i < major && j < minor
    ensures Mul(i, minor) + j < |TorusVerts(m, major, minor, R, r)|
    ensures TorusVerts(m, major, minor, R, r)[Mul(i, minor) + j] == TorusPoint(m, major, minor, R, r, i, j)
  {
    PointRowsAt(m, major, minor, R, r, major, i, j);
  }

  lemma {:induction false} PointRowsAt(m: Libm, major: nat, minor: nat, R: real, r: real, k: nat, i: nat, j: nat)
    requires i < k <= major && j < minor
    ensures Mul(i, minor) + j < |PointRows(m, major, minor, R, r, k)|
    ensures PointRows(m, major, minor, R, r, k)[Mul(i, minor) + j] == TorusPoint(m, major, minor, R, r, i, j)
  {
    var front, last := PointRows(m, major, minor, R, r, k - 1), PointRow(m, major, minor, R, r, k - 1, minor);
    assert PointRows(m, major, minor, R, r, k) == front + last;
    if i + 1 == k {
      PointRowAt(m, major, minor, R, r, i, minor, j);
    } else {
      PointRowsAt(m, major, minor, R, r, k - 1, i, j);
      MulNext(i, minor, k - 1);
    }
  }

  lemma {:induction false} PointRowAt(m: Libm, major: nat, minor: nat, R: real, r: real, i: nat, n: nat, j: nat)
    requires i < major && j < n <= minor
    ensures PointRow(m, major, minor, R, r, i, n)[j] == TorusPoint(m, major, minor, R, r, i, j)
  {
    if j + 1 < n {
      PointRowAt(m, major, minor, R, r, i, n - 1, j);
    }
  }

  /** Cell (i, j) occupies entries 4*(i*minor + j) .. +3 of the index list. */
  lemma {:induction false} CellRowsAt(major: nat, minor: nat, k: nat, i: nat, j: nat)
    requires i < k <= major && j < minor
    ensures 4 * (Mul(i, minor) + j) + 4 <= |CellRows(major, minor, k)|
    ensures CellRows(major, minor, k)[4 * (Mul(i, minor) + j)..4 * (Mul(i, minor) + j) + 4] == Cell(major, minor, i, j)
  {
    if i + 1 == k {
      LastCellRowsAt(major, minor, k, i, j);
    } else {
      CellRowsAt(major, minor, k - 1, i, j);
      CellRowsFront(major, minor, k, 4 * (Mul(i, minor) + j), 4 * (Mul(i, minor) + j) + 4, Cell(major, minor, i, j));
    }
  }

  lemma LastCellRowsAt(major: nat, minor: nat, k: nat, i: nat, j: nat)
    requires i + 1 == k <= major && j < minor
    ensures 4 * (Mul(i, minor) + j) + 4 <= |CellRows(major, minor, k)|
    ensures CellRows(major, minor, k)[4 * (Mul(i, minor) + j)..4 * (Mul(i, minor) + j) + 4] == Cell(major, minor, i, j)
  {
    CellRowAt(major, minor, i, minor, j);
    SliceBack(CellRows(major, minor, k), CellRows(major, minor, i), CellRow(major, minor, i, minor),
              4 * j, 4 * j + 4, 4 * (Mul(i, minor) + j), 4 * (Mul(i, minor) + j) + 4);
  }

  /** What the first k-1 rows of cells hold, the first k rows hold at the same place. */
  lemma CellRowsFront(major: nat, minor: nat, k: nat, lo: nat, hi: nat, x: seq<nat>)
    requires 1 <= k <= major && lo <= hi <= |CellRows(major, minor, k - 1)| && CellRows(major, minor, k - 1)[lo..hi] == x
    ensures hi <= |CellRows(major, minor, k)| && CellRows(major, minor, k)[lo..hi] == x
  {
    SliceFront(CellRows(major, minor, k), CellRows(major, minor, k - 1), CellRow(major, minor, k - 1, minor), lo, hi);
  }

  lemma {:induction false} CellRowAt(major: nat, minor: nat, i: nat, n: nat, j: nat)
    requires i < major && j < n <= minor
    ensures CellRow(major, minor, i, n)[4 * j..4 * j + 4] == Cell(major, minor, i, j)
  {
    var front, last := CellRow(major, minor, i, n - 1), Cell(major, minor, i, n - 1);
    if j + 1 == n {
      SliceBack(CellRow(major, minor, i, n), front, last, 0, 4, 4 * j, 4 * j + 4);
    } else {
      CellRowAt(major, minor, i, n - 1, j);
      SliceFront(CellRow(major, minor, i, n), front, last, 4 * j, 4 * j + 4);
    }
  }

  /** Segment 2q, for the point q = i*minor + j, joins it to the next point on its major
      ring, (i+1 mod major, j); segment 2q+1 joins it to the next point on its minor ring,
      (i, j+1 mod minor). */
  lemma TorusSegments(major: nat, minor: nat, i: nat, j: nat)
    requires i < major && j < minor
    ensures 2 * (2 * (Mul(i, minor) + j) + 1) + 1 < |TorusLines(major, minor)|
    ensures Seg(TorusLines(major, minor), 2 * (Mul(i, minor) + j)) == (Mul(i, minor) + j, Mul(Wrap(i, major), minor) + j)
    ensures Seg(TorusLines(major, minor), 2 * (Mul(i, minor) + j) + 1) == (Mul(i, minor) + j, Mul(i, minor) + Wrap(j, minor))
  {
    CellRowsAt(major, minor, major, i, j);
    SegsOfCell(TorusLines(major, minor), Mul(i, minor) + j, Cell(major, minor, i, j));
  }

  /** The four entries from 4q on are segments 2q and 2q+1. */
  lemma SegsOfCell(lines: seq<nat>, q: nat, cell: seq<nat>)
    requires 4 * q + 4 <= |lines| && |cell| == 4 && lines[4 * q..4 * q + 4] == cell
    ensures Seg(lines, 2 * q) == (cell[0], cell[1]) && Seg(lines, 2 * q + 1) == (cell[2], cell[3])
  {
    assert lines[4 * q] == cell[0] && lines[4 * q + 1] == cell[1];
    assert lines[4 * q + 2] == cell[2] && lines[4 * q + 3] == cell[3];
  }

  /** Every index the cells write names one of the major*minor points. */
  lemma TorusWellFormed(m: Libm, major: nat, minor: nat, R: real, r: real)
    ensures WellFormed(Mesh(TorusVerts(m, major, minor, R, r), TorusLines(major, minor)))
  {
    CellRowsRange(major, minor, major);
  }

  lemma {:induction false} CellRowsRange(major: nat, minor: nat, k: nat)
    requires k <= major
    ensures InRange(CellRows(major, minor, k), 0, Mul(major, minor))
  {
    if k > 0 {
      CellRowsRange(major, minor, k - 1);
      CellRowRange(major, minor, k - 1, minor);
      InRangeJoin(CellRows(major, minor, k - 1), CellRow(major, minor, k - 1, minor), 0, Mul(major, minor), Mul(major, minor));
    }
  }

  lemma {:induction false} CellRowRange(major: nat, minor: nat, i: nat, n: nat)
    requires i < major && n <= minor
    ensures InRange(CellRow(major, minor, i, n), 0, Mul(major, minor))
  {
    if n > 0 {
      CellRowRange(major, minor, i, n - 1);
      MulNext(i, minor, major);
      MulNext(Wrap(i, major), minor, major);
      InRangeJoin(CellRow(major, minor, i, n - 1), Cell(major, minor, i, n - 1), 0, Mul(major, minor), Mul(major, minor));
    }
  }

  /** maxr bounds every point's length and is not negative ... */
  lemma {:induction false} MaxRadiusBounds(m: Libm, vs: seq<Vec3>)
    ensures 0.0 <= MaxRadius(m, vs)
    ensures forall k :: 0 <= k < |vs| ==> Len(m, vs[k]) <= MaxRadius(m, vs)
  {
    if |vs| > 0 {
      var front := vs[..|vs| - 1];
      MaxRadiusBounds(m, front);
      forall k | 0 <= k < |vs| - 1
        ensures Len(m, vs[k]) <= MaxRadius(m, vs)
      {
        assert vs[k] == front[k];
      }
    }
  }

  /** ... and is one of those lengths unless it stayed at its starting 0. */
  lemma {:induction false} MaxRadiusAttained(m: Libm, vs: seq<Vec3>)
    ensures MaxRadius(m, vs) == 0.0 || exists k :: 0 <= k < |vs| && Len(m, vs[k]) == MaxRadius(m, vs)
  {
    if |vs| > 0 {
      var front := vs[..|vs| - 1];
      MaxRadiusAttained(m, front);
      if MaxRadius(m, vs) != Len(m, vs[|vs| - 1]) && MaxRadius(m, front) != 0.0 {
        var k :| 0 <= k < |front| && Len(m, front[k]) == MaxRadius(m, front);
        assert vs[k] == front[k];
      }
    }
  }
}
