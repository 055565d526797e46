/** Sums of products over number sequences, as the embedder and the
    retriever accumulate them (exactly, over the reals). */
module Vectors {
  import opened JsNumber

  /** `a[0]*b[0] + ... + a[n-1]*b[n-1]`, accumulated from index 0 upward. */
  function Dot(a: seq<real>, b: seq<real>, n: nat): real
    requires n <= |a| && n <= |b|
  {
    if n == 0 then 0.0 else Dot(a, b, n - 1) + a[n - 1] * b[n - 1]
  }

  /** `v.reduce((sum, val) => sum + val * val, 0)`. */
  function SumSquares(v: seq<real>): real {
    Dot(v, v, |v|)
  }

  /** `v.map(val => val / magnitude)`. */
  function Scale(v: seq<real>, magnitude: real): (r: seq<real>)
    ensures |r| == |v|
    ensures forall i :: 0 <= i < |r| ==> r[i] == Quotient(v[i], magnitude)
  {
    seq(|v|, i requires 0 <= i < |v| => Quotient(v[i], magnitude))
  }

  /** The vector pointing the opposite way. */
  function Negate(v: seq<real>): (r: seq<real>)
    ensures |r| == |v|
    ensures forall i :: 0 <= i < |r| ==> r[i] == -v[i]
  {
    seq(|v|, i requires 0 <= i < |v| => -v[i])
  }

  lemma {:induction false} DotSymmetric(a: seq<real>, b: seq<real>, n: nat)
    requires n <= |a| && n <= |b|
    ensures Dot(a, b, n) == Dot(b, a, n)
  {
    if n > 0 {
      DotSymmetric(a, b, n - 1);
    }
  }

  lemma {:induction false} DotNonNegative(v: seq<real>, n: nat)
    requires n <= |v|
    ensures Dot(v, v, n) >= 0.0
  {
    if n > 0 {
      DotNonNegative(v, n - 1);
    }
  }

  /** A sum of squares is positive once one of its terms is non-zero. */
  lemma {:induction false} DotPositive(v: seq<real>, n: nat, k: nat)
    requires k < n <= |v| && v[k] != 0.0
    ensures Dot(v, v, n) > 0.0
  {
    if k < n - 1 {
      DotPositive(v, n - 1, k);
    } else {
      DotNonNegative(v, n - 1);
      SquarePositive(v[k], v[k] * v[k]);
    }
  }

  lemma {:induction false} DotNegate(v: seq<real>, n: nat)
    requires n <= |v|
    ensures Dot(v, Negate(v), n) == -Dot(v, v, n)
    ensures Dot(Negate(v), Negate(v), n) == Dot(v, v, n)
  {
    if n > 0 {
      DotNegate(v, n - 1);
    }
  }

  /** Dividing every component by `m` divides the sum of squares by `m*m`. */
  lemma {:induction false} DotScaled(v: seq<real>, m: real, n: nat)
    requires m != 0.0 && n <= |v|
    ensures Dot(Scale(v, m), Scale(v, m), n) * (m * m) == Dot(v, v, n)
  {
    if n > 0 {
      DotScaled(v, m, n - 1);
      var w := Scale(v, m);
      var x := v[n - 1];
      var q := w[n - 1];
      assert q == x / m;
      ScaledSquare(x, m, q);
      Distribute(Dot(w, w, n - 1), q * q, m * m);
    }
  }

  lemma ScaledSquare(x: real, m: real, q: real)
    requires m != 0.0 && q == x / m
    ensures q * q * (m * m) == x * x
  {
    assert q * m == x;
    assert q * q * (m * m) == (q * m) * (q * m);
  }

  lemma Distribute(a: real, b: real, c: real)
    ensures (a + b) * c == a * c + b * c
  {
  }

  /** Dividing by a square root of the sum of squares gives a unit vector. */
  lemma UnitAfterScaling(v: seq<real>, m: real)
    requires m * m == SumSquares(v) && m != 0.0
    ensures SumSquares(Scale(v, m)) == 1.0
  {
    DotScaled(v, m, |v|);
    SquarePositive(m, m * m);
    CancelFactor(SumSquares(Scale(v, m)), m * m, SumSquares(Scale(v, m)) * (m * m));
  }

  // Small arithmetic facts, stated over named products so that the solver
  // does not have to reason about squares directly.

  lemma PositiveProduct(a: real, b: real, p: real)
    requires a > 0.0 && b > 0.0 && p == a * b
    ensures p > 0.0
  {
  }

  lemma SquarePositive(x: real, s: real)
    requires x != 0.0 && s == x * x
    ensures s > 0.0
  {
    if x < 0.0 {
      PositiveProduct(-x, -x, s);
    } else {
      PositiveProduct(x, x, s);
    }
  }

  lemma CancelFactor(x: real, q: real, p: real)
    requires q != 0.0 && p == x * q && p == q
    ensures x == 1.0
  {
    assert x == p / q;
  }
}
