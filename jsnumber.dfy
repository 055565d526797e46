/** The few pieces of JavaScript number semantics the engine depends on. */
module JsNumber {

  const TwoTo31: int := 0x8000_0000
  const TwoTo32: int := 0x1_0000_0000

  predicate IsInt32(x: int) {
    -TwoTo31 <= x < TwoTo31
  }

  /** ECMAScript ToInt32 on an integral number: the unique 32-bit signed
      integer congruent to `x` modulo 2^32. */
  function ToInt32(x: int): (r: int)
    ensures IsInt32(r)
    ensures (x - r) % TwoTo32 == 0
  {
    var m := x % TwoTo32;
    if m >= TwoTo31 then m - TwoTo32 else m
  }

  lemma ToInt32OfInt32(x: int)
    requires IsInt32(x)
    ensures ToInt32(x) == x
  {
    if x < 0 {
      assert x % TwoTo32 == x + TwoTo32;
    }
  }

  /** `x << n` for 0 <= n < 32: ToInt32 of the operand, shifted, wrapped. */
  function ShiftLeft(x: int, n: nat): (r: int)
    requires n < 32
    ensures IsInt32(r)
  {
    ToInt32(ToInt32(x) * Pow2(n))
  }

  /** Two integers congruent modulo 2^32 have the same ToInt32. */
  lemma ToInt32Congruent(x: int, y: int)
    requires (x - y) % TwoTo32 == 0
    ensures ToInt32(x) == ToInt32(y)
  {
    var d := (x - y) / TwoTo32;
    assert x == y + TwoTo32 * d;
    assert x % TwoTo32 == y % TwoTo32 by {
      ModShift(y, d);
    }
  }

  lemma {:induction false} ModShift(y: int, d: int)
    ensures (y + TwoTo32 * d) % TwoTo32 == y % TwoTo32
    decreases if d < 0 then -d else d
  {
    if d > 0 {
      ModShift(y, d - 1);
      assert y + TwoTo32 * d == (y + TwoTo32 * (d - 1)) + TwoTo32;
    } else if d < 0 {
      ModShift(y, d + 1);
      assert y + TwoTo32 * d == (y + TwoTo32 * (d + 1)) - TwoTo32;
    }
  }

  /** Wrapping the operand first does not change the result: `x << 5` is
      ToInt32 of the exact product `x * 32`. */
  lemma ShiftLeft5(x: int)
    ensures ShiftLeft(x, 5) == ToInt32(x * 32)
  {
    var r := ToInt32(x);
    assert Pow2(5) == 32;
    var q := (x - r) / TwoTo32;
    assert x - r == TwoTo32 * q;
    assert x * 32 == r * 32 + TwoTo32 * (32 * q);
    ModShift(r * 32, 32 * q);
    ToInt32Congruent(x * 32, r * 32);
  }

  function Pow2(n: nat): (r: nat)
    ensures r >= 1
  {
    if n == 0 then 1 else 2 * Pow2(n - 1)
  }

  /** Integer division rounded toward zero. */
  function TruncatedQuotient(a: int, b: int): int
    requires b > 0
  {
    if a >= 0 then a / b else -((-a) / b)
  }

  /** JavaScript `%` on integers: the remainder takes the sign of the
      dividend (truncating division), unlike Dafny's Euclidean `%`. */
  function Rem(a: int, b: int): (r: int)
    requires b > 0
    ensures -b < r < b
    ensures a >= 0 ==> r >= 0
    ensures a <= 0 ==> r <= 0
    ensures a == b * TruncatedQuotient(a, b) + r
  {
    if a >= 0 then a % b else -((-a) % b)
  }

  /** JavaScript `x / y` on finite numbers. A zero divisor yields NaN or an
      infinity in JavaScript; this model yields 0 there. */
  function Quotient(x: real, y: real): (r: real)
    ensures y != 0.0 ==> r * y == x
  {
    if y == 0.0 then 0.0 else x / y
  }
}
