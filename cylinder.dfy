/**
 * The cylinder: the props it cleans before drawing (the offset on its own,
 * the list of items, the spacing, the radius, the gradients and the font
 * size), the CSS length check used for the font size, and the window of
 * items that is visible for a given offset.
 *
 * Offsets and spacings are exact reals; the render angles, the `hidden`
 * flag and the width measurement are not part of this model.
 */
module Cylinder {
  import opened Js

  // ---------------------------------------------------------------------
  // CSS lengths
  // ---------------------------------------------------------------------

  const Units: seq<string> := ["cm", "mm", "in", "pc", "pt", "px", "em", "ex", "ch", "rem", "vw", "vh", "vmin", "vmax"]

  predicate IsNumberChar(c: char) {
    '0' <= c <= '9' || c == '.'
  }

  /** The length of the leading run of digits and dots (`[0-9.]+`). */
  function NumberRun(s: string): (n: nat)
    ensures n <= |s|
    ensures forall i :: 0 <= i < n ==> IsNumberChar(s[i])
    ensures n < |s| ==> !IsNumberChar(s[n])
  {
    if s != [] && IsNumberChar(s[0]) then 1 + NumberRun(s[1..]) else 0
  }

  /** The unit pattern, anchored at both ends and matched without regard to
      case: the captured number when the string is a run of digits and dots
      followed by one of the units and nothing else. No unit starts with a
      digit or a dot, so the greedy number run is the only way to match. */
  function MatchLength(s: string): Option<string> {
    var k := NumberRun(s);
    if k > 0 && Lower(s[k..]) in Units then Some(s[..k]) else None
  }

  /** A string whose number has at most one dot and is not a lone dot,
      followed by a unit. */
  predicate IsValidCSSLength(v: Value) {
    v.Str? &&
    match MatchLength(v.s)
    case None => false
    case Some(number) => IndexOf(number, '.') == LastIndexOf(number, '.') && number != "."
  }

  /** Digits and dots, at least one character, no two dots, not a lone dot. */
  predicate NumberText(n: string) {
    |n| > 0
    && (forall i :: 0 <= i < |n| ==> IsNumberChar(n[i]))
    && (forall i, j :: 0 <= i < j < |n| ==> !(n[i] == '.' && n[j] == '.'))
    && n != "."
  }

  /** The first and the last dot are the same one exactly when there are
      not two dots. */
  lemma SameDot(n: string)
    ensures IndexOf(n, '.') == LastIndexOf(n, '.') <==> forall i, j :: 0 <= i < j < |n| ==> !(n[i] == '.' && n[j] == '.')
  {
    var a, b := IndexOf(n, '.'), LastIndexOf(n, '.');
    if a == b {
      forall i, j | 0 <= i < j < |n| && n[i] == '.'
        ensures n[j] != '.'
      {
        assert a <= i;
      }
    } else {
      assert '.' in n;
      assert a < b;
    }
  }

  /** Every unit starts with a letter, so no unit starts with a digit or a
      dot. */
  lemma UnitStartsWithLetter(u: string)
    ensures Lower(u) in Units ==> u != [] && 'a' <= Lower(u)[0] <= 'z' && !IsNumberChar(u[0])
  {
    if Lower(u) in Units {
      var w := Lower(u);
      assert w[0] == LowerChar(u[0]);
      assert 'a' <= w[0] <= 'z';
    }
  }

  lemma NumberRunIs(s: string, k: nat)
    requires k <= |s|
    requires forall i :: 0 <= i < k ==> IsNumberChar(s[i])
    requires k < |s| ==> !IsNumberChar(s[k])
    ensures NumberRun(s) == k
  {
  }

  /** `s` is a number followed by a unit, split after its first `k`
      characters. */
  predicate SplitsAt(s: string, k: int) {
    0 < k <= |s| && NumberText(s[..k]) && Lower(s[k..]) in Units
  }

  /** A string is a valid CSS length exactly when it splits into a number
      (digits, at most one dot, not a lone dot) and a unit in any case. */
  lemma ValidLengthIff(v: Value)
    ensures IsValidCSSLength(v) <==> v.Str? && exists k :: SplitsAt(v.s, k)
  {
    if IsValidCSSLength(v) {
      ValidLengthSplits(v.s);
    }
    if v.Str? && exists k :: SplitsAt(v.s, k) {
      var k :| SplitsAt(v.s, k);
      SplitIsValid(v.s, k);
    }
  }

  lemma ValidLengthSplits(s: string)
    requires IsValidCSSLength(Str(s))
    ensures SplitsAt(s, NumberRun(s))
  {
    SameDot(s[..NumberRun(s)]);
  }

  lemma SplitIsValid(s: string, k: int)
    requires SplitsAt(s, k)
    ensures IsValidCSSLength(Str(s))
  {
    UnitStartsWithLetter(s[k..]);
    assert forall i :: 0 <= i < k ==> IsNumberChar(s[..k][i]);
    NumberRunIs(s, k);
    SameDot(s[..k]);
  }

  // Examples of the rule: a decimal with a unit in any case is accepted;
  // two dots, a lone dot or a separated unit are refused.

  lemma UpperCaseUnitExample()
    ensures IsValidCSSLength(Str("1.5EM"))
  {
    NumberRunIs("1.5EM", 3);
    assert Lower("1.5EM"[3..]) == Units[6];
  }

  lemma LeadingDotExample()
    ensures IsValidCSSLength(Str(".5rem"))
  {
    NumberRunIs(".5rem", 2);
    assert Lower(".5rem"[2..]) == Units[9];
  }

  lemma TwoDotsExample()
    ensures !IsValidCSSLength(Str("1.2.3em"))
  {
    NumberRunIs("1.2.3em", 5);
    var n := "1.2.3em"[..5];
    assert n[1] == '.' && n[3] == '.';
    SameDot(n);
  }

  lemma LoneDotExample()
    ensures !IsValidCSSLength(Str(".em"))
  {
    NumberRunIs(".em", 1);
    assert ".em"[..1] == ".";
  }

  lemma SeparatedUnitExample()
    ensures !IsValidCSSLength(Str("2 em"))
  {
    NumberRunIs("2 em", 1);
    var u := "2 em"[1..];
    assert Lower(u)[0] == ' ';
    UnitStartsWithLetter(u);
  }

  // ---------------------------------------------------------------------
  // The offset
  // ---------------------------------------------------------------------

  /** The offset moved on by whole turns of `length` until it is not
      negative. */
  function Settle(x: real, length: nat): real
    requires length > 0
    decreases if x < 0.0 then Ceil(-x) else 0
  {
    if x >= 0.0 then x else Settle(x + length as real, length)
  }

  /** How many turns `Settle` adds. */
  function Turns(x: real, length: nat): nat
    requires length > 0
    decreases if x < 0.0 then Ceil(-x) else 0
  {
    if x >= 0.0 then 0 else 1 + Turns(x + length as real, length)
  }

  /** A JavaScript number: finite, or NaN. The offset every caller passes
      is one: the picker's shared offset and its negation, and the numbers
      the controls compute from it. */
  type JsNumber = v: Value | v.Num? || v.NaN? witness NaN

  /** `sanitizeOffset`: NaN and lists of at most one item give 0; otherwise
      the offset is settled. */
  function SanitizedOffset(length: nat, offset: JsNumber): real {
    match offset
    case NaN => 0.0
    case Num(x) => if length > 1 then Settle(x, length) else 0.0
  }

  /** Adds the length of the list to a negative offset until it is no longer
      negative, as the source's loop does. */
  method SanitizeOffset(length: nat, offset: JsNumber) returns (r: real)
    ensures r == SanitizedOffset(length, offset)
  {
    if IsNaN(offset) {
      r := 0.0;
    } else if length > 1 {
      r := offset.x;
      while r < 0.0
        invariant Settle(r, length) == SanitizedOffset(length, offset)
        decreases if r < 0.0 then Ceil(-r) else 0
      {
        SettleStep(r, length);
        r := r + length as real;
      }
    } else {
      r := 0.0;
    }
  }

  /** One turn of the loop: the settled value stays, the measure drops. */
  lemma SettleStep(r: real, length: nat)
    requires length > 0 && r < 0.0
    ensures Settle(r + length as real, length) == Settle(r, length)
    ensures (if r + length as real < 0.0 then Ceil(-(r + length as real)) else 0) < Ceil(-r)
  {
  }

  /** The settled offset is never negative, is the offset itself when that
      is not negative, and otherwise lies below the length and differs from
      the offset by whole turns. */
  lemma {:induction false} SettleProperties(x: real, length: nat)
    requires length > 0
    ensures Settle(x, length) >= 0.0
    ensures x >= 0.0 ==> Settle(x, length) == x
    ensures x < 0.0 ==> Settle(x, length) < length as real
    ensures Settle(x, length) - x == (Turns(x, length) * length) as real
    decreases if x < 0.0 then Ceil(-x) else 0
  {
    if x < 0.0 {
      var t := Turns(x + length as real, length);
      SettleProperties(x + length as real, length);
      assert (t + 1) * length == t * length + length;
    }
  }

  /** The number of turns is the only one that brings a negative offset
      into [0, length): the settled offset is the one value of that range
      that differs from the offset by whole turns. */
  lemma {:induction false} TurnsUnique(x: real, length: nat, k: int)
    requires length > 0 && x < 0.0
    requires 0.0 <= x + (k * length) as real < length as real
    ensures k == Turns(x, length)
    decreases Ceil(-x)
  {
    var y := x + length as real;
    assert (k - 1) * length == k * length - length;
    if y >= 0.0 {
      MulSign(k, length);
      assert k == 1;
    } else {
      TurnsUnique(y, length, k - 1);
    }
  }

  lemma MulSign(k: int, n: nat)
    ensures k >= 2 ==> k * n >= 2 * n
    ensures k <= 0 ==> k * n <= 0
  {
    if k >= 2 {
      MulNonnegative(k - 2, n);
    } else if k <= 0 {
      MulNonnegative(-k, n);
    }
  }

  /** `sanitizeOffset` gives 0 for NaN and for lists of at most one item,
      and otherwise a non-negative offset, unchanged when it was not
      negative. */
  lemma SanitizedOffsetProperties(length: nat, offset: JsNumber)
    ensures SanitizedOffset(length, offset) >= 0.0
    ensures offset.NaN? || length <= 1 ==> SanitizedOffset(length, offset) == 0.0
    ensures offset.Num? && length > 1 && offset.x >= 0.0
            ==> SanitizedOffset(length, offset) == offset.x
    ensures offset.Num? && length > 1 && offset.x < 0.0
            ==> SanitizedOffset(length, offset) < length as real
  {
    if offset.Num? && length > 1 {
      SettleProperties(offset.x, length);
    }
  }

  // ---------------------------------------------------------------------
  // The other props
  // ---------------------------------------------------------------------

  const PlaceholderItems: seq<Value> := [Str("items"), Str("array"), Str("of"), Str("strings"), Str("- missing -")]
  const DefaultRadius := 1.5
  const DefaultFontSize := "1em"
  const DefaultSpacing := 8.5

  predicate HasItems(items: Value) {
    items.Arr? && |items.elems| > 0
  }

  /** A missing or empty list is replaced by the placeholder. */
  function CleanItems(items: Value): seq<Value> {
    if HasItems(items) then items.elems else PlaceholderItems
  }

  /** The spacing: 6 with the placeholder, `max(2, min(8.5, 2L))` for NaN,
      2 for a single item, and otherwise clamped to [3, 2L]. */
  function CleanSpacing(items: Value, spacing: Value): real {
    if !HasItems(items) then 6.0
    else
      var length := |items.elems| as real;
      if IsNaN(spacing) then Max(2.0, Min(DefaultSpacing, length * 2.0))
      else if |items.elems| == 1 then 2.0
      else Max(3.0, Min(ToNumber(spacing).value, length * 2.0))
  }

  function CleanRadius(radius: Value): Value {
    if IsNaN(radius) || ToNumber(radius).value < 1.0 then Num(DefaultRadius) else radius
  }

  function CleanGradients(gradients: Value): Value {
    if TypeOf(gradients) != "object" then Obj(map[]) else gradients
  }

  function CleanFontSize(fontSize: Value): Value {
    if !IsValidCSSLength(fontSize) then Str(DefaultFontSize) else fontSize
  }

  /** `sanitizeOthers`: a copy of the props with the five cleaned entries
      set and every other entry kept. */
  function SanitizeOthers(props: map<string, Value>): (r: map<string, Value>)
    ensures r.Keys == props.Keys + {"items", "spacing", "radius", "gradients", "fontSize"}
    ensures forall key :: key in props && key !in {"items", "spacing", "radius", "gradients", "fontSize"}
                          ==> r[key] == props[key]
    ensures r["items"] == Arr(CleanItems(Get(props, "items")))
    ensures r["spacing"] == Num(CleanSpacing(Get(props, "items"), Get(props, "spacing")))
    ensures r["radius"] == CleanRadius(Get(props, "radius"))
    ensures r["gradients"] == CleanGradients(Get(props, "gradients"))
    ensures r["fontSize"] == CleanFontSize(Get(props, "fontSize"))
  {
    var items := Get(props, "items");
    props["items" := Arr(CleanItems(items))]
         ["spacing" := Num(CleanSpacing(items, Get(props, "spacing")))]
         ["radius" := CleanRadius(Get(props, "radius"))]
         ["gradients" := CleanGradients(Get(props, "gradients"))]
         ["fontSize" := CleanFontSize(Get(props, "fontSize"))]
  }

  /** What the cleaned props promise: a non-empty list, a spacing between 2
      and twice the number of items, a radius of at least 1, gradients of
      type object, and a valid CSS length as font size. */
  predicate CleanProps(r: map<string, Value>) {
    && "items" in r && HasItems(r["items"])
    && "spacing" in r && r["spacing"].Num?
    && 2.0 <= r["spacing"].x <= 2.0 * |r["items"].elems| as real
    && (|r["items"].elems| == 1 ==> r["spacing"].x == 2.0)
    && (|r["items"].elems| > 1 ==> r["spacing"].x >= 3.0)
    && "radius" in r && !IsNaN(r["radius"]) && ToNumber(r["radius"]).value >= 1.0
    && "gradients" in r && TypeOf(r["gradients"]) == "object"
    && "fontSize" in r && IsValidCSSLength(r["fontSize"])
  }

  lemma DefaultFontSizeIsValid()
    ensures IsValidCSSLength(Str(DefaultFontSize))
  {
    assert NumberRun("1em") == 1 by { NumberRunIs("1em", 1); }
    assert Lower("1em"[1..]) == "em";
  }

  /** The spacing rules: the result lies in [2, 2L] for the cleaned list of
      L items; each branch as the source writes it. */
  lemma SpacingRules(items: Value, spacing: Value)
    ensures var s := CleanSpacing(items, spacing);
            var length := |CleanItems(items)| as real;
            2.0 <= s <= 2.0 * length
            && (!HasItems(items) ==> s == 6.0 && length == 5.0)
            && (HasItems(items) && IsNaN(spacing) ==> s == Max(2.0, Min(8.5, 2.0 * length)))
            && (HasItems(items) && !IsNaN(spacing) && length == 1.0 ==> s == 2.0)
            && (HasItems(items) && !IsNaN(spacing) && length > 1.0
                ==> s == Max(3.0, Min(ToNumber(spacing).value, 2.0 * length)))
            && (length > 1.0 ==> s >= 3.0)
  {
  }

  lemma SanitizedPropsAreClean(props: map<string, Value>)
    ensures CleanProps(SanitizeOthers(props))
  {
    var items := Get(props, "items");
    SpacingRules(items, Get(props, "spacing"));
    RadiusRule(Get(props, "radius"));
    DefaultFontSizeIsValid();
  }

  lemma RadiusRule(radius: Value)
    ensures !IsNaN(CleanRadius(radius)) && ToNumber(CleanRadius(radius)).value >= 1.0
  {
    assert ToNumber(Num(DefaultRadius)) == Some(DefaultRadius);
  }

  /** Cleaning twice is cleaning once. */
  lemma SanitizeOthersIdempotent(props: map<string, Value>)
    ensures SanitizeOthers(SanitizeOthers(props)) == SanitizeOthers(props)
  {
    var r := SanitizeOthers(props);
    var r2 := SanitizeOthers(r);
    var items := Get(props, "items");
    CleanEntriesStay(items, Get(props, "spacing"), Get(props, "radius"), Get(props, "fontSize"));
    forall k | k in r
      ensures k in r2 && r2[k] == r[k]
    {
    }
    assert r2.Keys == r.Keys;
  }

  /** Each cleaned entry is left as it is by a second cleaning. */
  lemma CleanEntriesStay(items: Value, spacing: Value, radius: Value, fontSize: Value)
    ensures var cleanItems := Arr(CleanItems(items));
            CleanItems(cleanItems) == CleanItems(items)
            && CleanSpacing(cleanItems, Num(CleanSpacing(items, spacing))) == CleanSpacing(items, spacing)
            && CleanRadius(CleanRadius(radius)) == CleanRadius(radius)
            && CleanFontSize(CleanFontSize(fontSize)) == CleanFontSize(fontSize)
  {
    SpacingRules(items, spacing);
    DefaultFontSizeIsValid();
  }

  // ---------------------------------------------------------------------
  // The visible window
  // ---------------------------------------------------------------------

  /** The items that may be visible, the item the offset points at
      (`counter`), how far the barrel is turned past it (`phase`), and the
      size of the window with how many of its entries come before. */
  datatype Window<T> = Window(counter: int, phase: real, total: nat, before: nat, seen: seq<T>)

  /** `((offset + 1/2) % length) - 1/2` */
  function Fraction(offset: real, length: nat): real
    requires length > 0
  {
    Rem(offset + 0.5, length as real).value - 0.5
  }

  /** The number of entries: `ceil(spacing / 2) + 1`. */
  function Total(spacing: real): (n: int)
    ensures spacing >= 0.0 ==> n >= 1
  {
    Ceil(spacing / 2.0) + 1
  }

  /** `(fraction - counter) * 6.3 / spacing` */
  function Phase(fraction: real, counter: int, spacing: real): real
    requires spacing > 0.0
  {
    (fraction - counter as real) * 6.3 / spacing
  }

  /** The window built from slices, as the source assembles it: wrapped
      entries from the end when it starts before the first item, the slice
      itself, and wrapped entries from the start when it is still short. */
  function Wrapped<T>(items: seq<T>, start: int, total: nat): seq<T> {
    var seen := Gathered(items, start, total);
    if total > |seen| then seen + Slice(items, 0, total - |seen|) else seen
  }

  /** The first two parts of the window: the wrapped tail and the slice. */
  function Gathered<T>(items: seq<T>, start: int, total: nat): seq<T> {
    var tail := if start < 0 then Slice(items, start, |items|) else [];
    tail + Slice(items, if start < 0 then 0 else start, start + total)
  }

  /** The reference: `n` consecutive items of the circular list, starting
      at `start`. */
  function Cyclic<T>(items: seq<T>, start: int, n: nat): (r: seq<T>)
    requires |items| > 0
    ensures |r| == n
  {
    seq(n, i requires 0 <= i < n => items[(start + i) % |items|])
  }

  /** Lines 72-106 of the cylinder, step by step. */
  method ComputeWindow<T>(items: seq<T>, offset: real, spacing: real) returns (w: Window<T>)
    requires |items| > 0 && spacing >= 2.0
    ensures w.counter == Fraction(offset, |items|).Floor
    ensures w.phase == Phase(Fraction(offset, |items|), w.counter, spacing)
    ensures w.total == Total(spacing) && w.before == w.total / 2
    ensures w.seen == Wrapped(items, w.counter - w.before, w.total)
  {
    var fraction := Fraction(offset, |items|);
    var counter := fraction.Floor;
    fraction := Phase(fraction, counter, spacing);

    var total: nat := Total(spacing);
    var before := total / 2;
    var seen := GatherSeen(items, counter - before, total);
    w := Window(counter, fraction, total, before, seen);
  }

  /** Lines 89-106: the slices that make up the window. */
  method GatherSeen<T>(items: seq<T>, start: int, total: nat) returns (seen: seq<T>)
    ensures seen == Wrapped(items, start, total)
  {
    var startSlice := start;
    var sliceEnd := startSlice + total;

    var tail := [];
    if startSlice < 0 {
      tail := Slice(items, startSlice, |items|);
      startSlice := 0;
    }
    seen := tail + Slice(items, startSlice, sliceEnd);
    assert seen == Gathered(items, start, total);
    var more := total - |seen|;
    if more > 0 {
      seen := seen + Slice(items, 0, more);
    }
  }

  /** The window as a function of the inputs (what `ComputeWindow` returns). */
  function WindowOf<T>(items: seq<T>, offset: real, spacing: real): Window<T>
    requires |items| > 0 && spacing >= 2.0
  {
    var fraction := Fraction(offset, |items|);
    var counter := fraction.Floor;
    var total := Total(spacing);
    Window(counter, Phase(fraction, counter, spacing), total, total / 2, Wrapped(items, counter - total / 2, total))
  }

  // The window lemmas

  lemma CyclicSplit<T>(items: seq<T>, start: int, a: nat, b: nat)
    requires |items| > 0
    ensures Cyclic(items, start, a + b) == Cyclic(items, start, a) + Cyclic(items, start + a, b)
  {
    var x, y := Cyclic(items, start, a), Cyclic(items, start + a, b);
    forall j | 0 <= j < b
      ensures Cyclic(items, start, a + b)[a + j] == y[j]
    {
      assert start + (a + j) == (start + a) + j;
    }
  }

  lemma ModInRange(x: int, m: int)
    requires 0 <= x < m
    ensures x % m == x
  {
    ModUnique(x, m, 0, x);
  }

  lemma ModShift(x: int, m: int)
    requires m > 0
    ensures (x + m) % m == x % m
  {
    ModUnique(x + m, m, x / m + 1, x % m);
  }

  /** The remainder is the only value in [0, m) that differs from `x` by a
      multiple of `m`. */
  lemma ModUnique(x: int, m: int, q: int, r: int)
    requires m > 0 && 0 <= r < m && x == q * m + r
    ensures x % m == r
  {
    var q', r' := x / m, x % m;
    assert x == q' * m + r';
    assert (q - q') * m == r' - r;
    if q - q' >= 1 {
      MulNonnegative(q - q' - 1, m);
    } else if q' - q >= 1 {
      MulNonnegative(q' - q - 1, m);
    }
  }

  lemma CyclicIsSlice<T>(items: seq<T>, start: int, n: nat)
    requires |items| > 0 && 0 <= start && start + n <= |items|
    ensures Cyclic(items, start, n) == items[start..start + n]
  {
    forall i | 0 <= i < n
      ensures Cyclic(items, start, n)[i] == items[start + i]
    {
      ModInRange(start + i, |items|);
    }
  }

  lemma CyclicTurn<T>(items: seq<T>, start: int, n: nat)
    requires |items| > 0
    ensures Cyclic(items, start + |items|, n) == Cyclic(items, start, n)
  {
    forall i | 0 <= i < n
      ensures Cyclic(items, start + |items|, n)[i] == Cyclic(items, start, n)[i]
    {
      ModShift(start + i, |items|);
    }
  }

  // `Wrapped`, case by case, as plain sub-sequences

  lemma WrappedInside<T>(items: seq<T>, start: int, total: nat)
    requires 0 <= start && start + total <= |items|
    ensures Wrapped(items, start, total) == items[start..start + total]
  {
  }

  lemma WrappedAround<T>(items: seq<T>, start: int, total: nat)
    requires 0 <= start < |items| < start + total <= 2 * |items|
    ensures Wrapped(items, start, total) == items[start..] + items[..start + total - |items|]
  {
  }

  lemma WrappedTailHead<T>(items: seq<T>, start: int, total: nat)
    requires -|items| <= start < 0 <= start + total <= |items|
    ensures Wrapped(items, start, total) == items[|items| + start..] + items[..start + total]
  {
  }

  lemma WrappedTailAllHead<T>(items: seq<T>, start: int, total: nat)
    requires -|items| <= start < 0 && |items| < start + total <= 2 * |items|
    ensures Wrapped(items, start, total) == items[|items| + start..] + items + items[..start + total - |items|]
  {
  }

  // `Cyclic`, in the same cases

  lemma CyclicAround<T>(items: seq<T>, start: int, total: nat)
    requires 0 <= start < |items| < start + total <= 2 * |items|
    ensures Cyclic(items, start, total) == items[start..] + items[..start + total - |items|]
  {
    var L := |items|;
    var c := start + total - L;
    CyclicSplit(items, start, L - start, c);
    assert Cyclic(items, start, L - start) == items[start..] by {
      CyclicIsSlice(items, start, L - start);
    }
    assert Cyclic(items, L, c) == items[..c] by {
      CyclicTurn(items, 0, c);
      CyclicIsSlice(items, 0, c);
    }
  }

  lemma CyclicTailHead<T>(items: seq<T>, start: int, total: nat)
    requires -|items| <= start < 0 <= start + total <= |items|
    ensures Cyclic(items, start, total) == items[|items| + start..] + items[..start + total]
  {
    var L := |items|;
    CyclicSplit(items, start, -start, start + total);
    CyclicTurn(items, start, -start);
    CyclicIsSlice(items, L + start, -start);
    CyclicIsSlice(items, 0, start + total);
  }

  lemma CyclicTailAllHead<T>(items: seq<T>, start: int, total: nat)
    requires -|items| <= start < 0 && |items| < start + total <= 2 * |items|
    ensures Cyclic(items, start, total) == items[|items| + start..] + items + items[..start + total - |items|]
  {
    var L := |items|;
    var c := start + total - L;
    assert Cyclic(items, start, total) == Cyclic(items, start, -start) + Cyclic(items, 0, start + total) by {
      CyclicSplit(items, start, -start, start + total);
    }
    assert Cyclic(items, start, -start) == items[L + start..] by {
      CyclicTurn(items, start, -start);
      CyclicIsSlice(items, L + start, -start);
    }
    assert Cyclic(items, 0, start + total) == items + items[..c] by {
      CyclicSplit(items, 0, L, c);
      CyclicIsSlice(items, 0, L);
      CyclicTurn(items, 0, c);
      CyclicIsSlice(items, 0, c);
    }
    assert items[L + start..] + (items + items[..c]) == items[L + start..] + items + items[..c];
  }

  /** The slices make up the circular window whenever it starts at most one
      turn before the first item and ends within two turns. */
  lemma WrappedIsCyclic<T>(items: seq<T>, start: int, total: nat)
    requires |items| > 0 && -|items| <= start < |items| && 0 <= start + total <= 2 * |items|
    ensures Wrapped(items, start, total) == Cyclic(items, start, total)
  {
    var L := |items|;
    if start < 0 && start + total <= L {
      WrappedTailHead(items, start, total);
      CyclicTailHead(items, start, total);
    } else if start < 0 {
      WrappedTailAllHead(items, start, total);
      CyclicTailAllHead(items, start, total);
    } else if start + total <= L {
      WrappedInside(items, start, total);
      CyclicIsSlice(items, start, total);
    } else {
      WrappedAround(items, start, total);
      CyclicAround(items, start, total);
    }
  }

  /** For an offset of at least -1/2 the remainder is the usual one, in
      [0, length). */
  lemma FractionRange(offset: real, length: nat)
    requires length > 0 && offset >= -0.5
    ensures -0.5 <= Fraction(offset, length) < length as real - 0.5
    ensures offset - Fraction(offset, length) == (length * ((offset + 0.5) / length as real).Floor) as real
  {
    var y := offset + 0.5;
    var L := length as real;
    var q := (y / L).Floor;
    RemOfNonnegative(y, L);
    assert Rem(y, L).value == y - L * q as real;
    assert (length * q) as real == q as real * L;
  }

  /** For a non-negative dividend the truncating remainder is the floored
      one, and lies in [0, L). */
  lemma RemOfNonnegative(y: real, L: real)
    requires y >= 0.0 && L > 0.0
    ensures Trunc(y / L) == (y / L).Floor
    ensures 0.0 <= y - L * (y / L).Floor as real < L
  {
    DivTimes(y, L);
    WholeTurns(y, L, y / L, (y / L).Floor as real);
  }

  /** `q <= z < q + 1` scaled by `L`, where `z * L == y`. */
  lemma WholeTurns(y: real, L: real, z: real, q: real)
    requires L > 0.0 && z * L == y && q <= z < q + 1.0
    ensures 0.0 <= y - L * q < L
  {
    var d := z - q;
    assert d * L == z * L - q * L;
    assert L * q == q * L;
    assert 0.0 <= d * L;
    assert d * L < 1.0 * L;
    assert y - L * q == d * L;
  }

  lemma DivTimes(y: real, L: real)
    requires L > 0.0
    ensures (y / L) * L == y
    ensures y >= 0.0 ==> y / L >= 0.0
  {
  }

  /** The counter points at an item of the list, or one before the first;
      it is the whole part of the offset, up to whole turns; and the phase
      lies in [0, 6.3 / spacing). */
  lemma CounterAndPhase(offset: real, length: nat, spacing: real)
    requires length > 0 && offset >= -0.5 && spacing >= 2.0
    ensures var c := Fraction(offset, length).Floor;
            -1 <= c <= length - 1
            && (c - offset.Floor) % length == 0
            && 0.0 <= Phase(Fraction(offset, length), c, spacing) < 6.3 / spacing
  {
    var f := Fraction(offset, length);
    var c := f.Floor;
    FractionRange(offset, length);
    var q := ((offset + 0.5) / length as real).Floor;
    assert f == offset - (length * q) as real;
    assert c == offset.Floor - length * q;
    ModUnique(c - offset.Floor, length, -q, 0);
    PhaseBound(f - c as real, spacing);
  }

  lemma PhaseBound(d: real, spacing: real)
    requires 0.0 <= d < 1.0 && spacing > 0.0
    ensures 0.0 <= d * 6.3 / spacing < 6.3 / spacing
  {
    assert d * 6.3 / spacing == d * (6.3 / spacing);
  }

  /** With a sanitized offset and a spacing in [2, 2L] the window has
      exactly `ceil(spacing / 2) + 1` entries and entry `i` is the item
      `counter - before + i` of the circular list; the counter and phase are
      as `CounterAndPhase` states. */
  lemma SanitizedWindow<T>(items: seq<T>, offset: real, spacing: real)
    requires |items| > 0 && offset >= 0.0 && (|items| == 1 ==> offset == 0.0)
    requires 2.0 <= spacing <= 2.0 * |items| as real
    ensures var w := WindowOf(items, offset, spacing);
            |w.seen| == w.total == Ceil(spacing / 2.0) + 1
            && -1 <= w.counter <= |items| - 1
            && w.seen == Cyclic(items, w.counter - w.before, w.total)
  {
    var L := |items|;
    var w := WindowOf(items, offset, spacing);
    CounterAndPhase(offset, L, spacing);
    HalfSpacing(spacing, L);
    if L == 1 {
      FractionOfZero();
    }
    WindowBounds(L, w.counter, Ceil(spacing / 2.0));
    WrappedIsCyclic(items, w.counter - w.before, w.total);
  }

  /** With one item the only sanitized offset, 0, points at it. */
  lemma FractionOfZero()
    ensures Fraction(0.0, 1) == 0.0
  {
    assert Trunc(0.5 / 1.0) == 0;
  }

  /** A spacing in [2, 2L] gives a half-window in [1, L]. */
  lemma HalfSpacing(spacing: real, L: nat)
    requires 2.0 <= spacing <= 2.0 * L as real
    ensures 1 <= Ceil(spacing / 2.0) <= L
  {
  }

  /** The window starts at most one turn before the first item and ends
      within two turns. */
  lemma WindowBounds(L: nat, counter: int, h: int)
    requires 1 <= h <= L && -1 <= counter <= L - 1 && (L == 1 ==> counter == 0)
    ensures var start := counter - (h + 1) / 2;
            0 <= start + L && start < L && 0 <= start + h + 1 <= 2 * L
  {
  }

  /** The window repeats with a period of one turn of the list. */
  lemma WindowPeriodic<T>(items: seq<T>, offset: real, spacing: real)
    requires |items| > 0 && offset >= -0.5 && spacing >= 2.0
    ensures WindowOf(items, offset + |items| as real, spacing) == WindowOf(items, offset, spacing)
  {
    var L := |items|;
    FractionRange(offset, L);
    FractionRange(offset + L as real, L);
    FractionTurn(offset, L);
  }

  lemma FractionTurn(offset: real, length: nat)
    requires length > 0 && offset >= -0.5
    ensures Fraction(offset + length as real, length) == Fraction(offset, length)
  {
    var L := length as real;
    var y := offset + 0.5;
    var q := (y / L).Floor;
    DivAddOne(y, L);
    assert ((y + L) / L).Floor == q + 1;
    RemOfNonnegative(y, L);
    RemOfNonnegative(y + L, L);
    OneMoreTurn(y, L, q as real);
    assert (q + 1) as real == q as real + 1.0;
  }

  lemma DivAddOne(y: real, L: real)
    requires L > 0.0
    ensures (y + L) / L == y / L + 1.0
  {
    var a, b := (y + L) / L, y / L;
    assert a * L == y + L;
    assert (b + 1.0) * L == y + L;
    MulCancel(a, b + 1.0, L);
  }

  lemma MulCancel(a: real, b: real, L: real)
    requires L > 0.0 && a * L == b * L
    ensures a == b
  {
  }

  lemma OneMoreTurn(y: real, L: real, q: real)
    ensures (y + L) - L * (q + 1.0) == y - L * q
  {
  }

  /** An offset that skipped sanitizing breaks the window: 24 items (the
      hours), the default spacing and the offset -4 give 30 entries where 6
      are expected, the tail wrapped from the end followed by all but the
      last item. */
  lemma NegativeOffsetWindow<T>(items: seq<T>)
    requires |items| == 24
    ensures WindowOf(items, -4.0, 8.5).total == 6
    ensures |WindowOf(items, -4.0, 8.5).seen| == 30
  {
    assert Trunc(-3.5 / 24.0) == 0;
    assert Fraction(-4.0, 24) == -4.0;
    assert Ceil(8.5 / 2.0) == 5;
    assert Wrapped(items, -7, 6) == items[17..] + items[..23];
  }

  /** The same offset once sanitized, 20, gives the expected window. */
  lemma SanitizedNegativeOffsetWindow<T>(items: seq<T>)
    requires |items| == 24
    ensures SanitizedOffset(24, Num(-4.0)) == 20.0
    ensures |WindowOf(items, 20.0, 8.5).seen| == 6
  {
    assert Settle(-4.0, 24) == Settle(20.0, 24);
    SanitizedWindow(items, 20.0, 8.5);
    assert Ceil(8.5 / 2.0) == 5;
  }
}
