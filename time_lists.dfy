/**
 * The contents of the hours and minutes cylinders: `hours` and `getMinutes`
 * of both TimeUtilities files. The two `getMinutes` differ in one line: the
 * components version answers a falsy interval with a placeholder list.
 *
 * `Array(total)` throws a RangeError unless `total` is a whole number
 * between 0 and 2^32 - 1; that is the only way these functions fail.
 */
module TimeLists {
  import opened Js

  /** One entry of a list: `"0" + value` below 10, the number itself
      otherwise, or a fixed text. */
  datatype Cell = Padded(value: real) | Plain(value: real) | Text(s: string)

  /** The outcome of `getMinutes`: a list, or the RangeError of `Array`. */
  datatype Outcome = List(cells: seq<Cell>) | RangeError

  const DefaultInterval := 5.0
  const Placeholder := "nothing to see"
  const MaxArrayLength := 0xFFFF_FFFF

  /** `value < 10 ? "0" + value : value` */
  function Pad(value: real): Cell {
    if value < 10.0 then Padded(value) else Plain(value)
  }

  /** `hours`: 00 to 09 padded, then 10 to 23. */
  function Hours(): (h: seq<Cell>)
    ensures |h| == 24
    ensures forall i :: 0 <= i < 10 ==> h[i] == Padded(i as real)
    ensures forall i :: 10 <= i < 24 ==> h[i] == Plain(i as real)
  {
    seq(24, i => Pad(i as real))
  }

  /** The length `Array(t)` accepts, or None for its RangeError. */
  function ArrayLength(t: real): (r: Option<nat>)
    ensures r.Some? <==> t == t.Floor as real && 0.0 <= t <= MaxArrayLength as real
    ensures r.Some? ==> r.value as real == t
  {
    if t == t.Floor as real && 0.0 <= t <= MaxArrayLength as real then Some(t.Floor) else None
  }

  /** `getMinutes` of src/TimePicker/TimeUtilities.js. */
  function GetMinutes(interval: Value): (r: Outcome)
    ensures r.List? ==> interval == Undefined || ToNumber(interval).Some?
    ensures r.List? ==> |r.cells| <= MaxArrayLength
  {
    var n := if interval == Undefined then Num(DefaultInterval) else interval;
    match ToNumber(n)
    case None => RangeError
    case Some(x) =>
      if x == 0.0 then RangeError
      else
        match ArrayLength(60.0 / x)
        case None => RangeError
        case Some(total) => List(Marks(x, total))
  }

  /** `Array(total).fill().map((_, index) => pad(index * x))` */
  function Marks(x: real, total: nat): (m: seq<Cell>)
    ensures |m| == total
    ensures forall i :: 0 <= i < total ==> m[i] == Mark(x, i)
  {
    seq(total, i => Mark(x, i))
  }

  /** Entry `index` of the list: `index * x`, padded below 10. */
  function Mark(x: real, index: int): Cell {
    Pad(index as real * x)
  }

  /** `getMinutes` of src/components/TimePicker/TimeUtilities.js. */
  function GetMinutesOrPlaceholder(interval: Value): (r: Outcome)
    ensures interval != Undefined && !Truthy(interval) ==> r == List([Text(Placeholder)])
    ensures interval == Undefined || Truthy(interval) ==> r == GetMinutes(interval)
  {
    var n := if interval == Undefined then Num(DefaultInterval) else interval;
    if !Truthy(n) then List([Text(Placeholder)]) else GetMinutes(n)
  }

  /** A whole number of minutes that divides the hour. */
  predicate Divides60(n: int) {
    1 <= n <= 60 && 60 % n == 0
  }

  /** An interval whose number is a whole divisor of 60. */
  predicate WholeDivisor(v: Value) {
    ToNumber(v).Some? && ToNumber(v).value == ToNumber(v).value.Floor as real && Divides60(ToNumber(v).value.Floor)
  }

  lemma ExactQuotient(a: int, n: int)
    requires n > 0 && a % n == 0
    ensures (a as real) / (n as real) == (a / n) as real
  {
    var q := a / n;
    assert a == q * n;
    assert a as real == q as real * n as real;
  }

  /** For a whole divisor n of 60 the list has 60/n entries and entry i
      is i·n, padded below 10. */
  lemma MinutesOfDivisor(v: Value)
    requires WholeDivisor(v)
    ensures var n := ToNumber(v).value.Floor;
            GetMinutes(v) == List(Marks(n as real, 60 / n))
  {
    var x := ToNumber(v).value;
    var n := x.Floor;
    assert x == n as real;
    assert ArrayLength(60.0 / (n as real)) == Some(60 / n) by {
      ExactQuotient(60, n);
    }
    MinutesOfNumber(v, n as real, 60 / n);
  }

  lemma MinutesOfNumber(v: Value, x: real, total: nat)
    requires ToNumber(v) == Some(x) && x != 0.0 && ArrayLength(60.0 / x) == Some(total)
    ensures GetMinutes(v) == List(Marks(x, total))
  {
    assert v != Undefined;
  }

  /** Those entries cover the hour: each lies in [0, 60), and every
      multiple m of n below 60 is entry m/n. */
  lemma MarksCoverHour(n: int)
    requires Divides60(n)
    ensures var m := Marks(n as real, 60 / n);
            (forall i :: 0 <= i < |m| ==> m[i] == Pad((i * n) as real) && 0.0 <= m[i].value < 60.0)
            && (forall k :: 0 <= k < 60 && k % n == 0 ==> k / n < |m| && m[k / n].value == k as real)
  {
    MarksInHour(n);
    MultiplesAreMarks(n);
  }

  lemma MarksInHour(n: int)
    requires Divides60(n)
    ensures var m := Marks(n as real, 60 / n);
            forall i :: 0 <= i < |m| ==> m[i] == Pad((i * n) as real) && 0.0 <= m[i].value < 60.0
  {
    var m := Marks(n as real, 60 / n);
    forall i | 0 <= i < |m|
      ensures m[i] == Pad((i * n) as real) && 0.0 <= m[i].value < 60.0
    {
      MarkInHour(n, i);
    }
  }

  lemma MarkInHour(n: int, i: int)
    requires Divides60(n) && 0 <= i < 60 / n
    ensures Mark(n as real, i) == Pad((i * n) as real) && 0.0 <= Mark(n as real, i).value < 60.0
  {
    assert i as real * n as real == (i * n) as real;
    BelowHour(i, n);
  }

  lemma MultiplesAreMarks(n: int)
    requires Divides60(n)
    ensures var m := Marks(n as real, 60 / n);
            forall k :: 0 <= k < 60 && k % n == 0 ==> k / n < |m| && m[k / n].value == k as real
  {
    var m := Marks(n as real, 60 / n);
    forall k | 0 <= k < 60 && k % n == 0
      ensures k / n < |m| && m[k / n].value == k as real
    {
      MultipleIsMark(n, k);
    }
  }

  lemma MultipleIsMark(n: int, k: int)
    requires Divides60(n) && 0 <= k < 60 && k % n == 0
    ensures 0 <= k / n < 60 / n && Mark(n as real, k / n).value == k as real
  {
    var j := k / n;
    assert k == j * n;
    MultipleBelow(j, n);
    assert j as real * n as real == k as real;
  }

  lemma BelowHour(i: int, n: int)
    requires 1 <= n && 60 % n == 0 && 0 <= i < 60 / n
    ensures 0 <= i * n < 60
  {
    var q := 60 / n;
    assert 60 == q * n;
    assert i * n <= (q - 1) * n by {
      assert (q - 1 - i) * n >= 0;
    }
  }

  lemma MultipleBelow(k: int, n: int)
    requires 1 <= n && 60 % n == 0 && 0 <= k * n < 60
    ensures 0 <= k < 60 / n
  {
    var q := 60 / n;
    assert 60 == q * n;
  }

  /** Without an interval the list holds the twelve five-minute marks. */
  lemma DefaultMinutes()
    ensures GetMinutes(Undefined).List?
    ensures |GetMinutes(Undefined).cells| == 12
    ensures GetMinutes(Undefined).cells[1] == Padded(5.0)
    ensures GetMinutes(Undefined).cells[2] == Plain(10.0)
    ensures GetMinutes(Undefined).cells[11] == Plain(55.0)
  {
    assert ArrayLength(60.0 / 5.0) == Some(12);
  }

  /** An interval that is not a divisor, zero, or negative makes `Array`
      throw; the components version answers null with its placeholder. */
  lemma NonDivisorFails()
    ensures GetMinutes(Num(7.0)) == RangeError
  {
    assert (60.0 / 7.0).Floor == 8;
  }

  lemma ZeroStringFails()
    ensures GetMinutes(Str("0")) == RangeError
    ensures GetMinutesOrPlaceholder(Str("0")) == RangeError
  {
    ZeroStringIsZero();
  }

  lemma ZeroStringIsZero()
    ensures ToNumber(Str("0")) == Some(0.0)
  {
    var z := "0";
    assert !IsSpace(z[0]);
    assert TrimStart(z) == z;
    assert TrimEnd(z) == z;
    assert DigitRun(z[1..], 10) == 0;
    assert DigitRun(z, 10) == 1;
    assert z[..1] == z && z[..0] == [];
    assert DigitsValue(z, 10) == 0;
    assert UnsignedDecimal(z) == Some(0.0);
  }

  lemma NegativeFails()
    ensures GetMinutes(Num(-5.0)) == RangeError
  {
  }

  lemma NullFails()
    ensures GetMinutes(Null) == RangeError
    ensures GetMinutesOrPlaceholder(Null) == List([Text(Placeholder)])
  {
  }
}
