/** Small facts about integer multiplication and Euclidean division that the
    mesh-index and round-robin proofs lean on. */
module Arith {

  /** a*b by repeated addition. Lengths and offsets of the index lists are stated with Mul,
      so the solver reasons about them one step at a time; MulIsProduct links it back. */
  function Mul(a: nat, b: nat): nat
  {
    if a == 0 then 0 else Mul(a - 1, b) + b
  }

  lemma {:induction false} MulIsProduct(a: nat, b: nat)
    ensures Mul(a, b) == a * b
  {
    if a > 0 {
      MulIsProduct(a - 1, b);
      MulSucc(a - 1, b);
    }
  }

  lemma {:induction false} MulMono(a: nat, c: nat, b: nat)
    requires a <= c
    ensures Mul(a, b) <= Mul(c, b)
    decreases c
  {
    if a < c {
      MulMono(a, c - 1, b);
    }
  }

  /** One more block of n after i of them still fits in total blocks. */
  lemma MulNext(i: nat, n: nat, total: nat)
    requires i < total
    ensures Mul(i + 1, n) == Mul(i, n) + n && Mul(i, n) + n <= Mul(total, n)
  {
    MulMono(i + 1, total, n);
  }

  lemma {:induction false} MulMonoRight(a: nat, b: nat, c: nat)
    requires b <= c
    ensures Mul(a, b) <= Mul(a, c)
  {
    if a > 0 {
      MulMonoRight(a - 1, b, c);
    }
  }

  lemma {:induction false} MulTwice(a: nat, b: nat)
    ensures Mul(a, 2 * b) == 2 * Mul(a, b)
  {
    if a > 0 {
      MulTwice(a - 1, b);
    }
  }

  lemma {:induction false} MulAdd(a: nat, b: nat, c: nat)
    ensures Mul(a + b, c) == Mul(a, c) + Mul(b, c)
    decreases b
  {
    if b > 0 {
      MulAdd(a, b - 1, c);
    }
  }

  lemma MulLe(a: int, b: int, c: int)
    requires a <= b && c >= 0
    ensures a * c <= b * c
  {
    assert b * c - a * c == (b - a) * c;
  }

  lemma MulStrict(a: int, b: int, c: int)
    requires a < b && c > 0
    ensures a * c < b * c
  {
    assert b * c - a * c == (b - a) * c;
  }

  /** Division and remainder are determined by any decomposition a == q*d + r with 0 <= r < d. */
  lemma DivModUnique(a: int, d: int, q: int, r: int)
    requires d > 0 && a == q * d + r && 0 <= r < d
    ensures a / d == q && a % d == r
  {
    var q0, r0 := a / d, a % d;
    assert a == q0 * d + r0 && 0 <= r0 < d;
    if q0 < q {
      assert (q0 + 1) * d == q0 * d + d;
      MulLe(q0 + 1, q, d);
      assert false;
    } else if q < q0 {
      assert (q + 1) * d == q * d + d;
      MulLe(q + 1, q0, d);
      assert false;
    }
  }

  /** A grid cell (i, j) of a rows-by-m grid has the row-major index i*m + j, below rows*m. */
  lemma GridIndex(i: int, j: int, rows: int, m: int)
    requires 0 <= i < rows && 0 <= j < m
    ensures 0 <= i * m + j < rows * m
    ensures (i * m + j) / m == i && (i * m + j) % m == j
  {
    MulLe(i + 1, rows, m);
    assert (i + 1) * m == i * m + m;
    MulLe(0, i, m);
    DivModUnique(i * m + j, m, i, j);
  }

  /** The row of an index below rows*m is below rows. */
  lemma GridRow(c: int, rows: int, m: int)
    requires 0 <= c < rows * m && m > 0
    ensures 0 <= c / m < rows && 0 <= c % m < m
  {
    if c / m >= rows {
      MulLe(rows, c / m, m);
      assert false;
    }
  }

  /** (c+1) blocks of size s end where c blocks plus one more block end. */
  lemma MulSucc(c: int, s: int)
    ensures (c + 1) * s == c * s + s
  {
  }
}
