/**
 * The minutes interval of both time pickers: `nearestDivisorOf60` and the
 * `minutesInterval` rule of src/components/TimePicker/index.jsx, and the
 * `everyNMinutes` rule of src/TimePicker/index.jsx.
 *
 * Both rules as written let through a truthy value whose number is 0 or a
 * negative divisor of 60; `getMinutes` then throws. The `Corrected`
 * reading keeps only whole divisors of 60.
 */
module Intervals {
  import opened Js
  import opened Display
  import TimeLists

  /** The default interval of both sanitizers. */
  const DefaultInterval := 1.0

  // ---------------------------------------------------------------------
  // nearestDivisorOf60
  // ---------------------------------------------------------------------

  /** The first digit of a number of at least 1, found by dropping the
      digits before the point one at a time. */
  function FirstDigitDown(x: real): (d: int)
    requires x >= 1.0
    ensures 1 <= d <= 9
    decreases x.Floor
  {
    if x < 10.0 then x.Floor else FirstDigitDown(x / 10.0)
  }

  /** The first significant digit of a positive number below 1, found by
      shifting the point one place at a time. */
  function FirstDigitUp(x: real): (d: int)
    requires 0.0 < x
    ensures 1 <= d <= 9 || (x >= 10.0 && d == x.Floor)
    decreases if x < 1.0 then (1.0 / x).Floor else 0
  {
    if x >= 1.0 then x.Floor
    else
      assert (1.0 / (10.0 * x)).Floor < (1.0 / x).Floor by {
        assert 1.0 / (10.0 * x) == (1.0 / x) / 10.0;
      }
      FirstDigitUp(10.0 * x)
  }

  /** What `parseInt` reads from `String(x)`. The string form of a number
      from 1e21 up, or of a non-zero one below 1e-6, is in exponent form
      (`"1e+21"`, `"5e-7"`), and `parseInt` stops at its `e` or `.`, so it
      reads the first significant digit with the sign. Every other number
      is written out, and reads as its integer part. */
  function ParseIntOfNumber(x: real): int {
    var m := if x < 0.0 then -x else x;
    var sign := if x < 0.0 then -1 else 1;
    if m >= 1000000000000000000000.0 then sign * FirstDigitDown(m)
    else if 0.0 < m < 0.000001 then sign * FirstDigitUp(m)
    else Trunc(x)
  }

  /** `parseInt(v, 10)`, which reads the string form of `v`: a string as it
      is; a number as `ParseIntOfNumber` says; an array by its first
      element, which its string form starts with; every other kind of value
      reads as NaN. */
  function ParseIntOf(v: Value): Option<int> {
    match v
    case Str(s) => ParseInt(s, 10)
    case Num(x) => Some(ParseIntOfNumber(x))
    case Arr(elems) =>
      if elems != [] && (elems[0].Str? || elems[0].Num? || elems[0].Arr?) then ParseIntOf(elems[0]) else None
    case _ => None
  }

  /** `Math.max(1, Math.min(p, 60))` */
  function Clamp(p: int): (c: int)
    ensures 1 <= c <= 60
  {
    if p > 60 then 60 else if p < 1 then 1 else p
  }

  /** The largest divisor of 60 that is at most `n`: what the decrement loop
      stops at. */
  function DivisorAtMost(n: int): (d: int)
    requires 1 <= n <= 60
    ensures TimeLists.Divides60(d) && d <= n
    ensures forall k :: d < k <= n ==> 60 % k != 0
  {
    if 60 % n == 0 then n else DivisorAtMost(n - 1)
  }

  /** What `nearestDivisorOf60(v)` returns: 1 when `parseInt` gives 0 or
      NaN, otherwise the largest divisor of 60 not above the parsed value
      clamped into [1, 60]. */
  function NearestDivisor(v: Value): (d: int)
    ensures TimeLists.Divides60(d)
    ensures ParseIntOf(v).None? || ParseIntOf(v) == Some(0) ==> d == 1
    ensures ParseIntOf(v).Some? && ParseIntOf(v) != Some(0) ==>
              d <= Clamp(ParseIntOf(v).value) && forall k :: d < k <= Clamp(ParseIntOf(v).value) ==> 60 % k != 0
  {
    match ParseIntOf(v)
    case None => 1
    case Some(p) => if p == 0 then 1 else DivisorAtMost(Clamp(p))
  }

  method NearestDivisorOf60(v: Value) returns (d: int)
    ensures d == NearestDivisor(v)
  {
    var parsed := ParseIntOf(v);
    if parsed.None? || parsed.value == 0 {
      return 1;
    }
    d := Clamp(parsed.value);
    while 60 % d != 0
      invariant 1 <= d <= Clamp(parsed.value)
      invariant DivisorAtMost(d) == DivisorAtMost(Clamp(parsed.value))
      decreases d
    {
      d := d - 1;
    }
  }

  /** Numbers whose string form is in exponent notation are read by their
      first digit: an interval of 5e-7 gives 5 and one of 1e21 gives 1,
      where a written-out number gives its integer part, as 12.5 gives 12. */
  lemma ExponentFormIntervals()
    ensures NearestDivisor(Num(0.0000005)) == 5
    ensures NearestDivisor(Num(-0.0000005)) == 1
    ensures NearestDivisor(Num(1000000000000000000000.0)) == 1
    ensures NearestDivisor(Num(12.5)) == 12
  {
    assert FirstDigitUp(0.0000005) == 5 by {
      assert FirstDigitUp(0.0000005) == FirstDigitUp(0.000005) == FirstDigitUp(0.00005)
          == FirstDigitUp(0.0005) == FirstDigitUp(0.005) == FirstDigitUp(0.05)
          == FirstDigitUp(0.5) == FirstDigitUp(5.0);
    }
    assert FirstDigitDown(1000000000000000000000.0) == 1 by {
      assert FirstDigitDown(1000000000000000000000.0) == FirstDigitDown(100000000000000000000.0) == FirstDigitDown(10000000000000000000.0) == FirstDigitDown(1000000000000000000.0)
          == FirstDigitDown(100000000000000000.0) == FirstDigitDown(10000000000000000.0) == FirstDigitDown(1000000000000000.0) == FirstDigitDown(100000000000000.0)
          == FirstDigitDown(10000000000000.0) == FirstDigitDown(1000000000000.0) == FirstDigitDown(100000000000.0) == FirstDigitDown(10000000000.0)
          == FirstDigitDown(1000000000.0) == FirstDigitDown(100000000.0) == FirstDigitDown(10000000.0) == FirstDigitDown(1000000.0)
          == FirstDigitDown(100000.0) == FirstDigitDown(10000.0) == FirstDigitDown(1000.0) == FirstDigitDown(100.0)
          == FirstDigitDown(10.0) == FirstDigitDown(1.0);
    }
  }

  // ---------------------------------------------------------------------
  // The minutes interval
  // ---------------------------------------------------------------------

  /** The truth of a numeric result: NaN (None) and 0 are falsy. */
  predicate NonZero(r: Option<real>) {
    r.Some? && r.value != 0.0
  }

  /** The interval is kept when `x % 1 || 60 % x` is falsy. As written that
      also holds for 0 (`60 % 0` is NaN) and for negative divisors of 60;
      the corrected check also asks for a positive number. */
  predicate KeepsInterval(x: real, variant: Variant) {
    !NonZero(Rem(x, 1.0)) && !NonZero(Rem(60.0, x)) && (variant == Corrected ==> x > 0.0)
  }

  /** A falsy or NaN interval becomes the fallback; one the check refuses is
      replaced by `nearestDivisorOf60`; any other is kept. */
  function CleanInterval(interval: Value, fallback: Value, variant: Variant): Value {
    if !Truthy(interval) || IsNaN(interval) then fallback
    else if KeepsInterval(ToNumber(interval).value, variant) then interval
    else Num(NearestDivisor(interval) as real)
  }

  /** The interval rule as the source runs it, at the top level and for a
      minutes item. */
  method SettleInterval(interval: Value, fallback: Value, variant: Variant) returns (r: Value)
    ensures r == CleanInterval(interval, fallback, variant)
  {
    r := interval;
    if !Truthy(r) || IsNaN(r) {
      r := fallback;
    } else if !KeepsInterval(ToNumber(r).value, variant) {
      var d := NearestDivisorOf60(r);
      r := Num(d as real);
    }
  }

  /** The corrected check keeps exactly the whole divisors of 60. */
  lemma KeepsExactlyDivisors(x: real)
    ensures KeepsInterval(x, Corrected) <==> x == x.Floor as real && TimeLists.Divides60(x.Floor)
  {
    if KeepsInterval(x, Corrected) {
      KeptIsDivisor(x);
    }
    if x == x.Floor as real && TimeLists.Divides60(x.Floor) {
      DivisorIsKept(x.Floor);
    }
  }

  lemma KeptIsDivisor(x: real)
    requires KeepsInterval(x, Corrected)
    ensures x == x.Floor as real && TimeLists.Divides60(x.Floor)
  {
    assert x / 1.0 == x;
    var n := Trunc(x);
    assert x == n as real;
    var t := Trunc(60.0 / x);
    assert 60.0 == n as real * t as real;
    IntProduct(n, t);
    PositiveFactor(n, t);
  }

  lemma IntProduct(n: int, t: int)
    ensures (n * t) as real == n as real * t as real
  {
  }

  lemma DivisorIsKept(n: int)
    requires TimeLists.Divides60(n)
    ensures KeepsInterval(n as real, Corrected)
  {
    assert (n as real) / 1.0 == n as real;
    TimeLists.ExactQuotient(60, n);
    var q := 60 / n;
    assert Trunc(q as real) == q;
    assert n * q == 60;
    IntProduct(n, q);
  }

  lemma PositiveFactor(n: int, t: int)
    requires n >= 1 && n * t == 60
    ensures TimeLists.Divides60(n)
  {
    assert n <= n * t;
    assert 60 % n == 0 by {
      assert 60 == t * n + 0;
    }
  }

  /** With a fallback that is a whole divisor of 60, the corrected rule
      always gives a whole divisor of 60. */
  lemma CleanIntervalIsDivisor(interval: Value, fallback: Value)
    requires TimeLists.WholeDivisor(fallback)
    ensures TimeLists.WholeDivisor(CleanInterval(interval, fallback, Corrected))
  {
    if Truthy(interval) && !IsNaN(interval) {
      var x := ToNumber(interval).value;
      if KeepsInterval(x, Corrected) {
        KeptIsDivisor(x);
      } else {
        NumOfDivisor(NearestDivisor(interval));
      }
    }
  }

  lemma NumOfDivisor(d: int)
    requires TimeLists.Divides60(d)
    ensures TimeLists.WholeDivisor(Num(d as real))
  {
    assert ToNumber(Num(d as real)) == Some(d as real);
  }

  /** As written, the string "0", an empty array (whose number is 0) and
      -5 are kept, and the minutes list of each of them throws. */
  lemma ZeroStringKept()
    ensures CleanInterval(Str("0"), Num(DefaultInterval), AsWritten) == Str("0")
    ensures TimeLists.GetMinutesOrPlaceholder(Str("0")).RangeError?
  {
    TimeLists.ZeroStringIsZero();
    ZeroKept(Str("0"));
  }

  /** Any truthy value whose number is 0 passes the check as written, and
      its minutes list throws. */
  lemma ZeroKept(v: Value)
    requires Truthy(v) && ToNumber(v) == Some(0.0)
    ensures CleanInterval(v, Num(DefaultInterval), AsWritten) == v
    ensures TimeLists.GetMinutesOrPlaceholder(v).RangeError?
  {
    assert KeepsInterval(0.0, AsWritten) by {
      assert Rem(0.0, 1.0) == Some(0.0);
    }
  }

  lemma EmptyArrayKept()
    ensures CleanInterval(Arr([]), Num(DefaultInterval), AsWritten) == Arr([])
    ensures TimeLists.GetMinutesOrPlaceholder(Arr([])).RangeError?
  {
  }

  lemma NegativeKept()
    ensures CleanInterval(Num(-5.0), Num(DefaultInterval), AsWritten) == Num(-5.0)
    ensures TimeLists.GetMinutesOrPlaceholder(Num(-5.0)).RangeError?
  {
    assert Rem(-5.0, 1.0) == Some(0.0);
    assert Rem(60.0, -5.0) == Some(0.0);
    TimeLists.NegativeFails();
  }

  // ---------------------------------------------------------------------
  // The everyNMinutes rule
  // ---------------------------------------------------------------------

  /** `!n || isNaN(n) || 60 % n` is falsy. As written that holds for any
      truthy number 60 divides, for 0 as a string (`60 % "0"` is NaN) and
      for negative divisors; the corrected check asks for a whole divisor
      of 60. */
  predicate ValidEvery(v: Value, variant: Variant) {
    Truthy(v) && !IsNaN(v) && !NonZero(Rem(60.0, ToNumber(v).value))
    && (variant == Corrected ==> TimeLists.WholeDivisor(v))
  }

  /** A minutes item keeps a valid interval of its own; otherwise it takes
      the top-level one when that is valid, else 1. */
  function CleanEvery(own: Value, top: Value, variant: Variant): (r: Value)
    ensures variant == Corrected ==> TimeLists.WholeDivisor(r)
  {
    OneIsDivisor();
    if ValidEvery(own, variant) then own
    else if ValidEvery(top, variant) then top
    else Num(DefaultInterval)
  }

  /** The top-level `everyNMinutes` when no minutes item settles it: as
      written the value given, whatever it is; corrected, a valid value or
      1. */
  function TopEvery(every: Value, variant: Variant): (r: Value)
    ensures variant == Corrected ==> TimeLists.WholeDivisor(r)
    ensures variant == AsWritten ==> r == every
  {
    OneIsDivisor();
    if variant == AsWritten || ValidEvery(every, Corrected) then every else Num(DefaultInterval)
  }

  lemma OneIsDivisor()
    ensures TimeLists.WholeDivisor(Num(DefaultInterval))
  {
    assert 60 % 1 == 0;
  }

  /** A value whose number is at least 1 is truthy. */
  lemma PositiveIsTruthy(v: Value)
    requires ToNumber(v).Some? && ToNumber(v).value >= 1.0
    ensures Truthy(v)
  {
  }

  /** The corrected check accepts exactly the whole divisors of 60. */
  lemma ValidEveryIsDivisor(v: Value)
    ensures ValidEvery(v, Corrected) <==> TimeLists.WholeDivisor(v)
  {
    if TimeLists.WholeDivisor(v) {
      var n := ToNumber(v).value.Floor;
      PositiveIsTruthy(v);
      DivisorIsKept(n);
    }
  }

  /** As written, any truthy value whose number is 0, such as the string
      "0", passes the check (`60 % 0` is NaN, which is falsy), and its
      minutes list throws. */
  lemma ZeroEvery(v: Value)
    requires Truthy(v) && ToNumber(v) == Some(0.0)
    ensures ValidEvery(v, AsWritten) && TimeLists.GetMinutes(v).RangeError?
  {
  }

  /** As written, -5 passes the check, and its minutes list throws. */
  lemma NegativeEvery()
    ensures ValidEvery(Num(-5.0), AsWritten) && TimeLists.GetMinutes(Num(-5.0)).RangeError?
  {
    assert Rem(60.0, -5.0) == Some(0.0);
    TimeLists.NegativeFails();
  }

  lemma ZeroStringEvery()
    ensures ValidEvery(Str("0"), AsWritten) && TimeLists.GetMinutes(Str("0")).RangeError?
  {
    TimeLists.ZeroStringIsZero();
    assert Truthy(Str("0"));
    ZeroEvery(Str("0"));
  }

  /** As written, a top-level `everyNMinutes` of 7 stays 7 when no minutes
      item settles it, and its minutes list throws. */
  lemma TopEveryUnchecked()
    ensures TopEvery(Num(7.0), AsWritten) == Num(7.0)
    ensures TimeLists.GetMinutes(TopEvery(Num(7.0), AsWritten)).RangeError?
    ensures TopEvery(Num(7.0), Corrected) == Num(DefaultInterval)
  {
    TimeLists.NonDivisorFails();
    assert !TimeLists.Divides60(7);
  }
}
