/** Small helpers shared by every part of the model: optional values, thrown
    TypeErrors, the clamps the source writes with Math.min/Math.max,
    hundredths rounding (`parseFloat(x.toFixed(2))`) and the decimal rendering
    of integers that JavaScript's string conversion performs. */
module Common {

  datatype Option<T> = None | Some(value: T)

  /** What a piece of JavaScript evaluates to: a value, or a TypeError raised
      by reading a property of `undefined`. */
  datatype Result<T> = Ok(value: T) | TypeError

  function Min(a: real, b: real): (r: real)
    ensures r <= a && r <= b
    ensures r == a || r == b
  {
    if a <= b then a else b
  }

  function Max(a: real, b: real): (r: real)
    ensures r >= a && r >= b
    ensures r == a || r == b
  {
    if a >= b then a else b
  }

  function Abs(a: real): (r: real)
    ensures r >= 0.0
    ensures r == a || r == -a
  {
    if a < 0.0 then -a else a
  }

  /** `Math.max(lo, Math.min(hi, v))`, the clamp used throughout the source. */
  function Clamp(v: real, lo: real, hi: real): (r: real)
    ensures lo <= hi ==> lo <= r <= hi
    ensures lo <= v <= hi ==> r == v
    ensures v <= lo ==> r == lo
    ensures lo <= hi && hi <= v ==> r == hi
  {
    Max(lo, Min(hi, v))
  }

  lemma ClampMonotone(v1: real, v2: real, lo: real, hi: real)
    requires v1 <= v2
    ensures Clamp(v1, lo, hi) <= Clamp(v2, lo, hi)
  {
  }

  /** `Math.max(lo, n)` on integers, as the integer-valued setters use it. */
  function AtLeast(n: int, lo: int): (r: int)
    ensures r >= lo && r >= n
    ensures r == lo || r == n
  {
    if n < lo then lo else n
  }

  /** The integer part of a real towards zero (the way JavaScript's `%` on
      numbers computes its quotient). */
  function Trunc(x: real): int
  {
    if x >= 0.0 then x.Floor else -((-x).Floor)
  }

  lemma FloorUnique(x: real, k: int)
    requires k as real <= x < k as real + 1.0
    ensures x.Floor == k
  {
  }

  lemma FloorMonotone(a: real, b: real)
    requires a <= b
    ensures a.Floor <= b.Floor
  {
  }

  /** `parseFloat(v.toFixed(2))` on a non-negative number, rounding half up;
      binary floating-point effects are not modelled. */
  function RoundHundredths(v: real): real
  {
    (v * 100.0 + 0.5).Floor as real / 100.0
  }

  /** Rounding to hundredths keeps a value inside any range whose ends are
      themselves whole hundredths, and never moves it by more than 0.005. */
  lemma {:induction false} RoundHundredthsBounds(v: real, lo: int, hi: int)
    requires lo as real / 100.0 <= v <= hi as real / 100.0
    ensures lo as real / 100.0 <= RoundHundredths(v) <= hi as real / 100.0
    ensures v - 0.005 < RoundHundredths(v) <= v + 0.005
  {
    var k := (v * 100.0 + 0.5).Floor;
    FloorMonotone(lo as real + 0.5, v * 100.0 + 0.5);
    FloorMonotone(v * 100.0 + 0.5, hi as real + 0.5);
    FloorUnique(lo as real + 0.5, lo);
    FloorUnique(hi as real + 0.5, hi);
    assert lo <= k <= hi;
  }

  lemma RoundHundredthsMonotone(a: real, b: real)
    requires a <= b
    ensures RoundHundredths(a) <= RoundHundredths(b)
  {
    FloorMonotone(a * 100.0 + 0.5, b * 100.0 + 0.5);
  }

  // ---------------------------------------------------------------------------
  // Decimal rendering of integers (`String(n)`, template-literal `${n}`)

  predicate IsDigit(c: char)
  {
    '0' <= c <= '9'
  }

  predicate AllDigits(s: string)
  {
    forall i :: 0 <= i < |s| ==> IsDigit(s[i])
  }

  function DigitChar(d: nat): (c: char)
    requires d < 10
    ensures IsDigit(c)
  {
    ('0' as int + d) as char
  }

  /** The decimal digits of `n`, most significant first, without leading zeros. */
  function NatToString(n: nat): (s: string)
    ensures |s| >= 1 && AllDigits(s)
    ensures n < 10 <==> |s| == 1
  {
    if n < 10 then [DigitChar(n)] else NatToString(n / 10) + [DigitChar(n % 10)]
  }

  /** `String(i)` for an integer: a minus sign before the digits of a negative value. */
  function IntToString(i: int): (s: string)
    ensures |s| >= 1
    ensures i < 0 ==> |s| >= 2
    ensures i >= 0 ==> s == NatToString(i)
  {
    if i < 0 then "-" + NatToString(-i) else NatToString(i)
  }

  /** The value of a string of decimal digits; the inverse of NatToString. */
  function ParseNat(s: string): nat
    requires AllDigits(s)
  {
    if s == [] then 0 else ParseNat(s[..|s| - 1]) * 10 + (s[|s| - 1] as int - '0' as int)
  }

  lemma {:induction false} ParseNatToString(n: nat)
    ensures ParseNat(NatToString(n)) == n
  {
    var s := NatToString(n);
    if n >= 10 {
      ParseNatToString(n / 10);
      assert s[..|s| - 1] == NatToString(n / 10);
    }
  }

  lemma NatToStringInjective(m: nat, n: nat)
    requires NatToString(m) == NatToString(n)
    ensures m == n
  {
    ParseNatToString(m);
    ParseNatToString(n);
  }
}
