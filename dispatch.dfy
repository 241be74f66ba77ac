/** The round-robin split app_loop makes of the shapes over the windows: shape i goes to
    window i % W; count[w] is how many a window gets, start[] the exclusive prefix sum of
    count[], and mapIdx lists every window's shapes back to back. */
module Dispatch {
  import opened Arith

  /** |{ i < n : i % w == r }|: how many of the first n shapes go to window r. */
  function Hits(n: nat, w: nat, r: nat): nat
    requires w >= 1
  {
    if n == 0 then 0 else Hits(n - 1, w, r) + (if (n - 1) % w == r then 1 else 0)
  }

  /** count[0] + .. + count[v-1]: the shapes of all windows before window v. */
  function Before(n: nat, w: nat, v: nat): nat
    requires w >= 1
  {
    if v == 0 then 0 else Before(n, w, v - 1) + Hits(n, w, v - 1)
  }

  /** Where shape i lands in mapIdx: after the windows before its own, and after the
      shapes of its own window that come before it. */
  function Slot(n: nat, w: nat, i: nat): nat
    requires w >= 1
  {
    Before(n, w, i % w) + i / w
  }

  function Min(a: int, b: int): int { if a < b then a else b }

  // ---------------------------------------------------------------------------
  // The counts.

  /** One more shape: the quotient and remainder by w move on by one. */
  lemma DivModNext(n: nat, w: nat)
    requires w >= 1
    ensures n % w + 1 < w ==> (n + 1) / w == n / w && (n + 1) % w == n % w + 1
    ensures n % w + 1 == w ==> (n + 1) / w == n / w + 1 && (n + 1) % w == 0
  {
    var q, r := n / w, n % w;
    if r + 1 < w {
      DivModUnique(n + 1, w, q, r + 1);
    } else {
      assert n + 1 == (q + 1) * w + 0;
      DivModUnique(n + 1, w, q + 1, 0);
    }
  }

  /** Window r gets n / w shapes, one more when r is below n % w. */
  lemma {:induction false} HitsClosed(n: nat, w: nat, r: nat)
    requires w >= 1 && r < w
    ensures Hits(n, w, r) == n / w + (if r < n % w then 1 else 0)
  {
    if n > 0 {
      HitsClosed(n - 1, w, r);
      DivModNext(n - 1, w);
    }
  }

  /** The counts of any two windows differ by at most one. */
  lemma CountsBalanced(n: nat, w: nat, r: nat, s: nat)
    requires w >= 1 && r < w && s < w
    ensures Hits(n, w, r) <= Hits(n, w, s) + 1
  {
    HitsClosed(n, w, r);
    HitsClosed(n, w, s);
  }

  /** The first v windows hold v * (n / w) shapes plus one for each of them below n % w. */
  lemma {:induction false} BeforeClosed(n: nat, w: nat, v: nat)
    requires w >= 1 && v <= w
    ensures Before(n, w, v) == v * (n / w) + Min(v, n % w)
  {
    if v > 0 {
      BeforeClosed(n, w, v - 1);
      HitsClosed(n, w, v - 1);
      MulSucc(v - 1, n / w);
    }
  }

  /** The counts add up to n: every shape goes to some window. */
  lemma CountsSum(n: nat, w: nat)
    requires w >= 1
    ensures Before(n, w, w) == n
  {
    BeforeClosed(n, w, w);
    assert n == (n / w) * w + n % w;
  }

  lemma {:induction false} BeforeMono(n: nat, w: nat, u: nat, v: nat)
    requires w >= 1 && u <= v
    ensures Before(n, w, u) <= Before(n, w, v)
    decreases v
  {
    if u < v {
      BeforeMono(n, w, u, v - 1);
    }
  }

  // ---------------------------------------------------------------------------
  // Slots.

  /** The quotient of two naturals is a natural. */
  lemma DivNonNeg(i: nat, w: nat)
    requires w >= 1
    ensures 0 <= i / w
  {
    var q, r := i / w, i % w;
    assert i == q * w + r;
    if q < 0 {
      MulLe(q, -1, w);
      assert false;
    }
  }

  /** A shape before n has a smaller quotient, or the same quotient and a smaller remainder. */
  lemma DivOrder(i: nat, n: nat, w: nat)
    requires w >= 1 && i < n
    ensures i / w < n / w || (i / w == n / w && i % w < n % w)
  {
    var qi, ri, qn, rn := i / w, i % w, n / w, n % w;
    assert i == qi * w + ri && n == qn * w + rn;
    if qi > qn {
      MulLe(qn + 1, qi, w);
      MulSucc(qn, w);
      assert false;
    } else if qi == qn && ri >= rn {
      assert false;
    }
  }

  /** Shape i < n lands inside its window's block of mapIdx. */
  lemma SlotInBlock(n: nat, w: nat, i: nat)
    requires w >= 1 && i < n
    ensures Before(n, w, i % w) <= Slot(n, w, i) < Before(n, w, i % w) + Hits(n, w, i % w)
  {
    HitsClosed(n, w, i % w);
    DivNonNeg(i, w);
    DivOrder(i, n, w);
  }

  /** Shape i < n lands inside mapIdx. */
  lemma SlotInRange(n: nat, w: nat, i: nat)
    requires w >= 1 && i < n
    ensures Slot(n, w, i) < n
  {
    SlotInBlock(n, w, i);
    BeforeMono(n, w, i % w + 1, w);
    CountsSum(n, w);
  }

  /** Two shapes never share a slot. */
  lemma SlotInjective(n: nat, w: nat, i: nat, j: nat)
    requires w >= 1 && i < n && j < n && i != j
    ensures Slot(n, w, i) != Slot(n, w, j)
  {
    var ri, rj := i % w, j % w;
    if ri < rj {
      BlocksApart(n, w, i, j);
    } else if rj < ri {
      BlocksApart(n, w, j, i);
    } else {
      SameDivMod(i, j, w);
    }
  }

  /** A shape of an earlier window lands before every shape of a later one. */
  lemma BlocksApart(n: nat, w: nat, i: nat, j: nat)
    requires w >= 1 && i < n && i % w < j % w
    ensures Slot(n, w, i) < Slot(n, w, j)
  {
    SlotInBlock(n, w, i);
    BeforeMono(n, w, i % w + 1, j % w);
    DivNonNeg(j, w);
  }

  lemma SameDivMod(i: nat, j: nat, w: nat)
    requires w >= 1 && i % w == j % w && i != j
    ensures i / w != j / w
  {
    assert i == (i / w) * w + i % w && j == (j / w) * w + j % w;
  }

  /** The k-th shape of window r is r + k*w, and it sits k places into r's block. */
  lemma SlotOf(n: nat, w: nat, r: nat, k: nat)
    requires w >= 1 && r < w && k < Hits(n, w, r)
    ensures Kth(w, r, k) < n && Slot(n, w, Kth(w, r, k)) == Before(n, w, r) + k
  {
    DivModUnique(r + k * w, w, k, r);
    HitsClosed(n, w, r);
    KthBelow(n, w, r, k);
  }

  lemma KthBelow(n: nat, w: nat, r: nat, k: nat)
    requires w >= 1 && r < w && k < n / w + (if r < n % w then 1 else 0)
    ensures r + k * w < n
  {
    var qn, rn := n / w, n % w;
    assert n == qn * w + rn;
    if k < qn {
      MulLe(k + 1, qn, w);
      MulSucc(k, w);
    }
  }

  /** The window whose block holds position p of mapIdx. */
  lemma {:induction false} BlockOf(n: nat, w: nat, p: nat, v: nat) returns (r: nat)
    requires w >= 1 && v <= w && p < Before(n, w, v)
    ensures r < v && Before(n, w, r) <= p < Before(n, w, r) + Hits(n, w, r)
  {
    if p >= Before(n, w, v - 1) {
      r := v - 1;
    } else {
      r := BlockOf(n, w, p, v - 1);
    }
  }

  /** Every position of mapIdx is some shape's slot. */
  lemma SlotOnto(n: nat, w: nat, p: nat) returns (i: nat)
    requires w >= 1 && p < n
    ensures i < n && Slot(n, w, i) == p
  {
    CountsSum(n, w);
    var r := BlockOf(n, w, p, w);
    var k := p - Before(n, w, r);
    SlotOf(n, w, r, k);
    i := Kth(w, r, k);
  }

  /** The k-th shape window r receives. */
  function Kth(w: nat, r: nat, k: nat): nat
  {
    r + k * w
  }

  // ---------------------------------------------------------------------------
  // The three loops of app_loop.

  /** The first loop, count[i % W]++ for every shape: each window's count is how many of
      the shapes go to it. */
  method Tally(n: nat, w: nat) returns (count: seq<int>)
    requires w >= 1
    ensures |count| == w
    ensures forall r :: 0 <= r < w ==> count[r] == Hits(n, w, r)
  {
    var counts := new int[w](_ => 0);
    var i := 0;
    while i < n
      modifies counts
      invariant 0 <= i <= n
      invariant forall r :: 0 <= r < w ==> counts[r] == Hits(i, w, r)
    {
      counts[i % w] := counts[i % w] + 1;
      i := i + 1;
    }
    count := counts[..];
  }

  /** The second loop, start[i] = start[i-1] + count[i-1] from start[0] = 0: each window's
      block starts after the shapes of all windows before it. */
  method Starts(n: nat, w: nat, count: seq<int>) returns (start: seq<int>)
    requires w >= 1 && |count| == w
    requires forall r :: 0 <= r < w ==> count[r] == Hits(n, w, r)
    ensures |start| == w
    ensures forall r :: 0 <= r < w ==> start[r] == Before(n, w, r)
  {
    var starts := new int[w](_ => 0);
    var v := 1;
    while v < w
      modifies starts
      invariant 1 <= v <= w
      invariant forall r :: 0 <= r < v ==> starts[r] == Before(n, w, r)
    {
      ghost var before := starts[..];
      starts[v] := starts[v - 1] + count[v - 1];
      assert starts[..] == before[v := Before(n, w, v)];
      v := v + 1;
    }
    start := starts[..];
  }

  /** The third loop, mapIdx[start[w] + placed[w]++] = i for every shape: shape i is
      written at its slot, and no later shape overwrites it. */
  method Scatter(n: nat, w: nat, start: seq<int>) returns (mapIdx: seq<int>)
    requires w >= 1 && |start| == w
    requires forall r :: 0 <= r < w ==> start[r] == Before(n, w, r)
    ensures |mapIdx| == n
    ensures forall i :: 0 <= i < n ==> Slot(n, w, i) < n && mapIdx[Slot(n, w, i)] == i
  {
    var placed := new int[w](_ => 0);
    var order := new int[n];
    var i := 0;
    while i < n
      modifies placed, order
      invariant 0 <= i <= n
      invariant forall r :: 0 <= r < w ==> placed[r] == Hits(i, w, r)
      invariant forall j :: 0 <= j < i ==> Slot(n, w, j) < n && order[Slot(n, w, j)] == j
    {
      var r := i % w;
      HitsClosed(i, w, r);
      SlotInRange(n, w, i);
      forall j | 0 <= j < i
        ensures Slot(n, w, j) != Slot(n, w, i)
      {
        SlotInjective(n, w, j, i);
      }
      assert start[r] + placed[r] == Slot(n, w, i);
      order[start[r] + placed[r]] := i;
      placed[r] := placed[r] + 1;
      i := i + 1;
    }
    mapIdx := order[..];
  }

  /** The split of app_loop: n shapes over W windows, shape i to window i % W. */
  method RoundRobin(n: nat, w: nat) returns (count: seq<int>, start: seq<int>, mapIdx: seq<int>)
    requires w >= 1
    ensures |count| == w && |start| == w && |mapIdx| == n
    ensures forall r :: 0 <= r < w ==> count[r] == Hits(n, w, r)
    ensures forall r :: 0 <= r < w ==> start[r] == Before(n, w, r)
    ensures forall i :: 0 <= i < n ==> Slot(n, w, i) < n && mapIdx[Slot(n, w, i)] == i
  {
    count := Tally(n, w);
    start := Starts(n, w, count);
    mapIdx := Scatter(n, w, start);
  }

  /** mapIdx is a permutation of 0 .. n-1: every entry names a shape and no shape is drawn
      twice, whatever screen the shapes were configured for. */
  lemma MapIsPermutation(n: nat, w: nat, mapIdx: seq<int>)
    requires w >= 1 && |mapIdx| == n
    requires forall i :: 0 <= i < n ==> Slot(n, w, i) < n && mapIdx[Slot(n, w, i)] == i
    ensures forall p :: 0 <= p < n ==> 0 <= mapIdx[p] < n
    ensures forall p, q :: 0 <= p < q < n ==> mapIdx[p] != mapIdx[q]
  {
    forall p | 0 <= p < n
      ensures 0 <= mapIdx[p] < n && Slot(n, w, mapIdx[p]) == p
    {
      var i := SlotOnto(n, w, p);
    }
  }

  /** Window r's block of mapIdx lists its shapes r, r + W, r + 2W, ... in increasing order:
      the k-th entry of the block is shape r + k*W. */
  lemma BlockListing(n: nat, w: nat, mapIdx: seq<int>)
    requires w >= 1 && |mapIdx| == n
    requires forall i :: 0 <= i < n ==> Slot(n, w, i) < n && mapIdx[Slot(n, w, i)] == i
    ensures forall r, k :: 0 <= r < w && 0 <= k < Hits(n, w, r) ==>
              Kth(w, r, k) < n && Before(n, w, r) + k < n && mapIdx[Before(n, w, r) + k] == Kth(w, r, k)
  {
    forall r, k | 0 <= r < w && 0 <= k < Hits(n, w, r)
      ensures Kth(w, r, k) < n && Before(n, w, r) + k < n && mapIdx[Before(n, w, r) + k] == Kth(w, r, k)
    {
      SlotOf(n, w, r, k);
    }
  }
}
