/**
 * The small part of JavaScript's value model that the picker's sanitizers
 * and parsers rely on: loosely typed values, truthiness, `typeof`, the
 * number conversions (`Number(...)`, `isNaN`, `parseInt`), the `%`
 * operator, `Array.prototype.slice` and `String.prototype.toLowerCase`.
 *
 * Numbers are modelled as exact reals: IEEE-754 rounding and the two
 * infinities are not part of this model.
 */
module Js {

  datatype Option<+T> = None | Some(value: T) {
    predicate IsFailure() { None? }

    function PropagateFailure<U>(): Option<U>
      requires None?
    {
      None
    }

    function Extract(): T
      requires Some?
    {
      value
    }
  }

  /** A JavaScript value. `Num` is a finite number; `NaN` is kept apart. */
  datatype Value =
    | Undefined
    | Null
    | Bool(b: bool)
    | Num(x: real)
    | NaN
    | Str(s: string)
    | Arr(elems: seq<Value>)
    | Obj(fields: map<string, Value>)
    | Func
    | Date(time: int)   // a Date object, by its time value in milliseconds

  /** `!!v` */
  predicate Truthy(v: Value) {
    match v
    case Undefined => false
    case Null => false
    case NaN => false
    case Bool(b) => b
    case Num(x) => x != 0.0
    case Str(s) => s != ""
    case _ => true
  }

  /** The `typeof` operator. */
  function TypeOf(v: Value): string {
    match v
    case Undefined => "undefined"
    case Null => "object"
    case Bool(_) => "boolean"
    case Num(_) => "number"
    case NaN => "number"
    case Str(_) => "string"
    case Func => "function"
    case _ => "object"
  }

  /** Property lookup on a plain object: a missing key reads as `undefined`. */
  function Get(fields: map<string, Value>, key: string): Value {
    if key in fields then fields[key] else Undefined
  }

  // ---------------------------------------------------------------------
  // Characters and strings
  // ---------------------------------------------------------------------

  /** WhiteSpace and LineTerminator code units: what `trim`, `parseInt`,
      `Number(...)` skip and what `\s` matches in a regular expression. */
  predicate IsSpace(c: char) {
    c == '\t' || c == '\n' || c == '\U{B}' || c == '\U{C}' || c == '\r' || c == ' '
    || c == '\U{A0}' || c == '\U{1680}' || ('\U{2000}' <= c <= '\U{200A}')
    || c == '\U{2028}' || c == '\U{2029}' || c == '\U{202F}' || c == '\U{205F}'
    || c == '\U{3000}' || c == '\U{FEFF}'
  }

  predicate IsDigit(c: char) {
    '0' <= c <= '9'
  }

  /** The value of `c` as a digit in any radix up to 36, or 36 if it is none. */
  function DigitValue(c: char): (d: nat)
    ensures d <= 36
    ensures d < 10 <==> IsDigit(c)
  {
    if '0' <= c <= '9' then c as int - '0' as int
    else if 'a' <= c <= 'z' then c as int - 'a' as int + 10
    else if 'A' <= c <= 'Z' then c as int - 'A' as int + 10
    else 36
  }

  predicate IsRadixDigit(c: char, radix: nat) {
    DigitValue(c) < radix
  }

  /** Length of the longest prefix of `s` made of radix-`radix` digits. */
  function DigitRun(s: string, radix: nat): (n: nat)
    ensures n <= |s|
    ensures forall i :: 0 <= i < n ==> IsRadixDigit(s[i], radix)
    ensures n < |s| ==> !IsRadixDigit(s[n], radix)
  {
    if s != [] && IsRadixDigit(s[0], radix) then 1 + DigitRun(s[1..], radix) else 0
  }

  /** The longest prefix of `s` made of radix-`radix` digits. */
  function LeadingDigits(s: string, radix: nat): (d: string)
    ensures |d| <= |s| && d == s[..|d|]
    ensures forall i :: 0 <= i < |d| ==> IsRadixDigit(d[i], radix)
  {
    s[..DigitRun(s, radix)]
  }

  /** The number written by the digit string `s` in base `radix`. */
  function DigitsValue(s: string, radix: nat): nat
    requires forall i :: 0 <= i < |s| ==> IsRadixDigit(s[i], radix)
  {
    if s == [] then 0
    else
      var high := DigitsValue(s[..|s| - 1], radix);
      MulNonnegative(high, radix);
      high * radix + DigitValue(s[|s| - 1])
  }

  lemma MulNonnegative(a: nat, b: nat)
    ensures a * b >= 0
  {
  }

  function Pow(base: nat, e: nat): (p: nat)
    ensures base > 0 ==> p > 0
  {
    if e == 0 then 1
    else
      var p := Pow(base, e - 1);
      MulNonnegative(base, p);
      assert base > 0 ==> base * p >= p;
      base * p
  }

  lemma DigitRunAll(s: string, radix: nat)
    requires forall i :: 0 <= i < |s| ==> IsRadixDigit(s[i], radix)
    ensures DigitRun(s, radix) == |s|
  {
    if s != [] {
      DigitRunAll(s[1..], radix);
    }
  }

  lemma {:induction false} DigitsValueAppend(a: string, b: string, radix: nat)
    requires forall i :: 0 <= i < |a| ==> IsRadixDigit(a[i], radix)
    requires forall i :: 0 <= i < |b| ==> IsRadixDigit(b[i], radix)
    ensures forall i :: 0 <= i < |a + b| ==> IsRadixDigit((a + b)[i], radix)
    ensures DigitsValue(a + b, radix) == DigitsValue(a, radix) * Pow(radix, |b|) + DigitsValue(b, radix)
    decreases |b|
  {
    if b == [] {
      assert a + b == a;
    } else {
      var b' := b[..|b| - 1];
      var last := DigitValue(b[|b| - 1]);
      DigitsValueAppend(a, b', radix);
      assert (a + b)[..|a + b| - 1] == a + b';
      var va, vb, p := DigitsValue(a, radix), DigitsValue(b', radix), Pow(radix, |b'|);
      assert DigitsValue(a + b, radix) == (va * p + vb) * radix + last;
      assert DigitsValue(b, radix) == vb * radix + last;
      assert Pow(radix, |b|) == radix * p;
      assert (va * p + vb) * radix == va * (radix * p) + vb * radix by {
        MulDistributes(va * p, vb, radix);
        MulAssociates(va, p, radix);
      }
    }
  }

  lemma MulDistributes(x: int, y: int, z: int)
    ensures (x + y) * z == x * z + y * z
  {
  }

  lemma MulAssociates(x: int, y: int, z: int)
    ensures (x * y) * z == x * (z * y)
  {
  }

  /** `s.trimStart()` */
  function TrimStart(s: string): (t: string)
    ensures |t| <= |s| && t == s[|s| - |t|..]
    ensures t == [] || !IsSpace(t[0])
  {
    if s != [] && IsSpace(s[0]) then TrimStart(s[1..]) else s
  }

  /** `s.trimEnd()` */
  function TrimEnd(s: string): (t: string)
    ensures |t| <= |s| && t == s[..|t|]
    ensures t == [] || !IsSpace(t[|t| - 1])
  {
    if s != [] && IsSpace(s[|s| - 1]) then TrimEnd(s[..|s| - 1]) else s
  }

  /** `String.prototype.toLowerCase` on one code unit, as far as it can turn
      a character into an ASCII letter: the ASCII capitals, and the Kelvin
      sign, which lowers to `k`. Every other code unit is left as it is, which
      never changes whether a lowered string equals an ASCII word. */
  function LowerChar(c: char): char {
    if 'A' <= c <= 'Z' then (c as int + 32) as char
    else if c == '\U{212A}' then 'k'
    else c
  }

  function Lower(s: string): (t: string)
    ensures |t| == |s|
    ensures forall i :: 0 <= i < |s| ==> t[i] == LowerChar(s[i])
  {
    seq(|s|, i requires 0 <= i < |s| => LowerChar(s[i]))
  }

  /** `s.slice(0, n)` on a string, for n >= 0. */
  function Prefix(s: string, n: nat): (t: string)
    ensures |t| == if n < |s| then n else |s|
    ensures t == s[..|t|]
  {
    if n < |s| then s[..n] else s
  }

  /** `s.indexOf(c)`: the first position of `c`, or -1. */
  function IndexOf(s: string, c: char): (r: int)
    ensures -1 <= r < |s|
    ensures r == -1 <==> c !in s
    ensures r >= 0 ==> s[r] == c && forall i :: 0 <= i < r ==> s[i] != c
  {
    if s == [] then -1
    else if s[0] == c then 0
    else var r := IndexOf(s[1..], c); if r == -1 then -1 else r + 1
  }

  /** `s.lastIndexOf(c)`: the last position of `c`, or -1. */
  function LastIndexOf(s: string, c: char): (r: int)
    ensures -1 <= r < |s|
    ensures r == -1 <==> c !in s
    ensures r >= 0 ==> s[r] == c && forall i :: r < i < |s| ==> s[i] != c
  {
    if s == [] then -1
    else if s[|s| - 1] == c then |s| - 1
    else LastIndexOf(s[..|s| - 1], c)
  }

  // ---------------------------------------------------------------------
  // Numbers
  // ---------------------------------------------------------------------

  function Min(a: real, b: real): real { if a <= b then a else b }
  function Max(a: real, b: real): real { if a >= b then a else b }

  /** `Math.ceil` */
  function Ceil(r: real): (c: int)
    ensures r <= c as real < r + 1.0
  {
    -((-r).Floor)
  }

  /** `Math.round`: halves round up. */
  function Round(r: real): int {
    (r + 0.5).Floor
  }

  /** `Math.trunc` */
  function Trunc(r: real): int {
    if r >= 0.0 then r.Floor else -((-r).Floor)
  }

  /** The `%` operator on finite numbers: the remainder has the sign of the
      dividend, and a zero divisor gives NaN (None). */
  function Rem(x: real, m: real): (r: Option<real>)
    ensures r.None? <==> m == 0.0
  {
    if m == 0.0 then None else Some(x - m * Trunc(x / m) as real)
  }

  /** An unsigned decimal literal (digits, optional fraction), or None. */
  function UnsignedDecimal(s: string): Option<real> {
    var i := DigitRun(s, 10);
    var whole := DigitsValue(s[..i], 10);
    if i == |s| then
      if i == 0 then None else Some(whole as real)
    else if s[i] != '.' then None
    else
      var f := s[i + 1..];
      var j := DigitRun(f, 10);
      if j != |f| || (i == 0 && j == 0) then None
      else Some(whole as real + DigitsValue(f, 10) as real / Pow(10, j) as real)
  }

  /** `Number(s)` for a string: surrounding white space is ignored, the empty
      string is 0, and a signed decimal literal is its value. The other
      numeric literal forms are not part of this model and read as NaN. */
  function StringToNumber(s: string): Option<real> {
    var t := TrimEnd(TrimStart(s));
    if t == [] then Some(0.0)
    else if t[0] == '-' then
      match UnsignedDecimal(t[1..])
      case Some(x) => Some(-x)
      case None => None
    else if t[0] == '+' then UnsignedDecimal(t[1..])
    else UnsignedDecimal(t)
  }

  /** `Number(v)`, with None for NaN. Arrays convert through their joined
      text; objects, functions and booleans-in-arrays read as NaN. */
  function ToNumber(v: Value): Option<real> {
    match v
    case Undefined => None
    case Null => Some(0.0)
    case Bool(b) => Some(if b then 1.0 else 0.0)
    case Num(x) => Some(x)
    case NaN => None
    case Str(s) => StringToNumber(s)
    case Arr(elems) =>
      if |elems| == 0 then Some(0.0)
      else if |elems| > 1 then None
      else (match elems[0]
            case Undefined => Some(0.0)
            case Null => Some(0.0)
            case Num(x) => Some(x)
            case Str(s) => StringToNumber(s)
            case Arr(_) => ToNumber(elems[0])
            case _ => None)
    case Obj(_) => None
    case Func => None
    case Date(t) => Some(t as real)
  }

  /** The global `isNaN(v)`. */
  predicate IsNaN(v: Value) {
    ToNumber(v).None?
  }

  /** `parseInt(s, radix)` for radix 10 or 16: leading white space, one sign,
      for radix 16 a `0x`/`0X` prefix, then the longest run of digits; no
      digits at all gives NaN (None). */
  function ParseInt(s: string, radix: nat): (r: Option<int>)
    requires radix == 10 || radix == 16
  {
    var t := TrimStart(s);
    var negative := t != [] && t[0] == '-';
    match ParseDigits(WithoutRadixPrefix(WithoutSign(t), radix), radix)
    case None => None
    case Some(magnitude) => Some(if negative then -(magnitude as int) else magnitude)
  }

  function WithoutSign(t: string): string {
    if t != [] && (t[0] == '-' || t[0] == '+') then t[1..] else t
  }

  function WithoutRadixPrefix(u: string, radix: nat): string {
    if radix == 16 && |u| >= 2 && u[0] == '0' && (u[1] == 'x' || u[1] == 'X') then u[2..] else u
  }

  /** The value of the leading digits of `w`, or None when there are none. */
  function ParseDigits(w: string, radix: nat): Option<nat> {
    var digits := LeadingDigits(w, radix);
    if digits == [] then None else Some(DigitsValue(digits, radix))
  }

  lemma HexDigitIsPlain(c: char)
    requires DigitValue(c) < 16
    ensures !IsSpace(c) && c != '-' && c != '+' && c != 'x' && c != 'X'
  {
  }

  lemma ParseIntOfDigits(s: string, radix: nat)
    requires radix == 10 || radix == 16
    requires |s| > 0 && forall i :: 0 <= i < |s| ==> IsRadixDigit(s[i], radix)
    ensures ParseInt(s, radix) == Some(DigitsValue(s, radix))
  {
    HexDigitIsPlain(s[0]);
    if |s| >= 2 {
      HexDigitIsPlain(s[1]);
    }
    assert TrimStart(s) == s;
    assert WithoutSign(s) == s;
    assert WithoutRadixPrefix(s, radix) == s;
    DigitRunAll(s, radix);
    assert LeadingDigits(s, radix) == s;
    assert ParseDigits(s, radix) == Some(DigitsValue(s, radix));
  }

  // ---------------------------------------------------------------------
  // Arrays
  // ---------------------------------------------------------------------

  /** How `slice` reads one of its arguments: negative values count from
      the end, and the result is clamped into [0, len]. */
  function RelativeIndex(i: int, len: nat): (r: nat)
    ensures r <= len
    ensures 0 <= i <= len ==> r == i
    ensures i < 0 && len + i >= 0 ==> r == len + i
  {
    if i < 0 then (if len + i < 0 then 0 else len + i)
    else if i > len then len
    else i
  }

  /** `s.slice(start, end)` */
  function Slice<T>(s: seq<T>, start: int, end: int): (r: seq<T>)
    ensures RelativeIndex(start, |s|) < RelativeIndex(end, |s|) ==>
              r == s[RelativeIndex(start, |s|)..RelativeIndex(end, |s|)]
    ensures RelativeIndex(start, |s|) >= RelativeIndex(end, |s|) ==> r == []
  {
    var from := RelativeIndex(start, |s|);
    var to := RelativeIndex(end, |s|);
    if from < to then s[from..to] else []
  }
}
