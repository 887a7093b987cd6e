// Java and JavaScript numeric conversions written out over unbounded
// integers and reals: truncating casts, truncating division, rounding and
// 32-bit wrap-around.
module JavaMath {
  const IntMin: int := -0x8000_0000
  const IntMax: int := 0x7fff_ffff

  predicate IsInt32(x: int) { IntMin <= x <= IntMax }

  /** The value of a Java `int` computation that wrapped modulo 2^32. */
  function Wrap32(x: int): (r: int)
    ensures IsInt32(r)
    ensures IsInt32(x) ==> r == x
  {
    (x - IntMin) % 0x1_0000_0000 + IntMin
  }

  function Abs(x: int): nat { if x < 0 then -x else x }

  /** Java's integer `/`, which truncates toward zero. */
  function JavaDiv(a: int, b: int): (q: int)
    requires b != 0
    ensures a >= 0 && b > 0 ==> q == a / b
  {
    var q := Abs(a) / Abs(b);
    if (a < 0) != (b < 0) then -q else q
  }

  /** Java's `(long)` or `(int)` cast of a double, within range: truncation toward zero. */
  function Trunc(x: real): (r: int)
    ensures x >= 0.0 ==> r == x.Floor
    ensures x >= 0.0 ==> r as real <= x < r as real + 1.0
  {
    if x >= 0.0 then x.Floor else -((-x).Floor)
  }

  /**
   * Java's `(int)` cast of a double: truncation toward zero, saturating
   * at the bounds of `int`.
   */
  function DoubleToInt(x: real): (r: int)
    ensures IsInt32(r)
    ensures IntMin as real <= x <= IntMax as real ==> r == Trunc(x)
    ensures x >= IntMax as real ==> r == IntMax
  {
    if x >= IntMax as real then IntMax
    else if x <= IntMin as real then IntMin
    else Trunc(x)
  }

  /** Java's Math.round and JavaScript's Math.round: the nearest integer, halves up. */
  function Round(x: real): (r: int)
    ensures r as real - 0.5 <= x < r as real + 0.5
  {
    (x + 0.5).Floor
  }

  /** Math.ceil of a real, as an integer. */
  function Ceil(x: real): (r: int)
    ensures r as real - 1.0 < x <= r as real
  {
    -((-x).Floor)
  }

  function Max(a: int, b: int): int { if a >= b then a else b }

  function Min(a: int, b: int): int { if a <= b then a else b }

  function MaxR(a: real, b: real): real { if a >= b then a else b }

  function MinR(a: real, b: real): real { if a <= b then a else b }

  lemma MulMonotone(a: int, b: int, c: nat)
    ensures a <= b ==> a * c <= b * c
  {
  }

  /** An exact multiple divides back to its factor. */
  lemma ExactQuotient(q: nat, b: nat)
    requires b > 0
    ensures (q * b) / b == q
  {
    var x := q * b;
    var d := x / b;
    assert x == d * b + x % b;
    MulMonotone(q + 1, d, b);
    MulMonotone(d + 1, q, b);
  }
}
