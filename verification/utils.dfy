/** Integer helpers of the client's Utils class. Utils.cs is not part of this
    model; CeilDiv, NextPowerOf2 and Clamp are given their standard meaning,
    and the C# `/` and `%` (which truncate toward zero) are spelled out. */
module Utils {

  function Abs(x: int): (r: nat)
    ensures r == x || r == -x
  {
    if x < 0 then -x else x
  }

  /** C# integer division: the quotient is truncated toward zero. */
  function CsDiv(a: int, b: int): int
    requires b != 0
  {
    var q := Abs(a) / Abs(b);
    if (a < 0) == (b < 0) then q else -q
  }

  /** C# remainder: takes the sign of the dividend and is smaller in
      magnitude than the divisor. */
  function CsRem(a: int, b: int): (r: int)
    requires b != 0
    ensures CsDiv(a, b) * b + r == a
    ensures Abs(r) < Abs(b)
    ensures a >= 0 ==> 0 <= r
    ensures a <= 0 ==> r <= 0
  {
    CsDivRemainder(a, b);
    var m := Abs(a) % Abs(b);
    assert 0 <= m < Abs(b);
    if a >= 0 then m else -m
  }

  /** The remainder left by CsDiv is the magnitude remainder, signed like `a`. */
  lemma CsDivRemainder(a: int, b: int)
    requires b != 0
    ensures a >= 0 ==> a - CsDiv(a, b) * b == Abs(a) % Abs(b)
    ensures a < 0 ==> a - CsDiv(a, b) * b == -(Abs(a) % Abs(b))
  {
    var A, B := Abs(a), Abs(b);
    var Q := A / B;
    assert A == Q * B + A % B;
    if b > 0 {
      assert B == b;
    } else {
      assert B == -b;
      assert Q * b == -(Q * B);
      assert (-Q) * b == Q * B;
    }
  }

  /** Ceiling division for the non-negative operands the client uses. */
  function CeilDiv(a: nat, b: nat): (r: nat)
    requires b > 0
    ensures r * b >= a
    ensures r == 0 || (r - 1) * b < a
  {
    a / b + (if a % b != 0 then 1 else 0)
  }

  /** n is 1, 2, 4, 8, ... */
  predicate IsPowerOf2(n: int)
    decreases if n < 0 then 0 else n
  {
    n == 1 || (n > 1 && n % 2 == 0 && IsPowerOf2(n / 2))
  }

  lemma DoubleIsPowerOf2(n: int)
    requires IsPowerOf2(n)
    ensures IsPowerOf2(2 * n)
  {
    assert (2 * n) / 2 == n;
  }

  /** Doubles `next` until it reaches `value`. */
  function NextPowerOf2From(value: int, next: int): (r: int)
    requires IsPowerOf2(next)
    requires next == 1 || next / 2 < value
    ensures IsPowerOf2(r)
    ensures r >= value
    ensures r == 1 || r / 2 < value
    decreases value - next
  {
    if value > next then
      DoubleIsPowerOf2(next);
      NextPowerOf2From(value, next * 2)
    else next
  }

  /** The least power of two that is at least `value`. */
  function NextPowerOf2(value: int): (r: int)
    ensures IsPowerOf2(r)
    ensures r >= value
    ensures r == 1 || r / 2 < value
  {
    NextPowerOf2From(value, 1)
  }

  /** Utils.Clamp: raise to `lo`, then lower to `hi`. */
  function Clamp(v: int, lo: int, hi: int): (r: int)
    ensures lo <= hi ==> lo <= r <= hi
    ensures lo <= v <= hi ==> r == v
    ensures lo > hi ==> r == hi
  {
    var raised := if v < lo then lo else v;
    if raised > hi then hi else raised
  }

  lemma {:induction false} MulMonotone(a: int, b: int, c: nat)
    requires a <= b
    ensures a * c <= b * c
  {
    if c > 0 {
      MulMonotone(a, b, c - 1);
    }
  }

  lemma MulStrictCancel(a: int, b: int, c: nat)
    requires c > 0
    requires a * c < b * c
    ensures a < b
  {
    if b <= a {
      MulMonotone(b, a, c);
      assert false;
    }
  }
}
