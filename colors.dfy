/**
 * The colour utilities of the time picker: parsing a CSS colour string into
 * channel levels (`#rgb`, `#rgba`, `#rrggbb`, `#rrggbbaa`, `rgb(...)`,
 * `rgba(...)`; `hsl(...)` is delegated), formatting levels back into a
 * `#rrggbb[aa]` string, and building the six linear gradients that shade
 * the cylinder and its two highlight edges.
 */
module ColorUtilities {
  import opened Js

  /** One entry of a colour array: an integer level, or NaN (the level an
      `rgb(...)` string without alpha yields for its fourth entry). */
  datatype Channel = Level(v: int) | NaNLevel

  function Levels(xs: seq<int>): (r: seq<Channel>)
    ensures |r| == |xs|
    ensures forall k :: 0 <= k < |xs| ==> r[k] == Level(xs[k])
  {
    seq(|xs|, k requires 0 <= k < |xs| => Level(xs[k]))
  }

  predicate IsByte(x: int) {
    0 <= x < 256
  }

  predicate IsHexDigit(c: char) {
    IsRadixDigit(c, 16)
  }

  predicate AllHex(s: string) {
    forall i :: 0 <= i < |s| ==> IsHexDigit(s[i])
  }

  function IntMin(a: int, b: int): int { if a <= b then a else b }

  // ---------------------------------------------------------------------
  // Hex notation
  // ---------------------------------------------------------------------

  function StripHash(colorString: string): (s: string)
    ensures |s| <= |colorString|
  {
    if |colorString| > 0 && colorString[0] == '#' then colorString[1..] else colorString
  }

  /** Each character written twice: `"abc"` becomes `"aabbcc"`. */
  function Doubled(s: string): (r: string)
    ensures |r| == 2 * |s|
    ensures forall i :: 0 <= i < |s| ==> r[2 * i] == s[i] && r[2 * i + 1] == s[i]
    ensures AllHex(s) ==> AllHex(r)
  {
    if s == [] then [] else [s[0], s[0]] + Doubled(s[1..])
  }

  /** The unsigned 32-bit view that `>>>` takes of `parseInt`'s result;
      NaN becomes 0. */
  function ToUint32(n: Option<int>): (u: nat)
    ensures u < 0x1_0000_0000
    ensures n.Some? && 0 <= n.value < 0x1_0000_0000 ==> u == n.value
  {
    if n.None? then 0 else n.value % 0x1_0000_0000
  }

  /** The four bytes of a 32-bit word, most significant first. */
  function Bytes(u: nat): (r: seq<int>)
    requires u < 0x1_0000_0000
    ensures |r| == 4 && forall k :: 0 <= k < 4 ==> IsByte(r[k])
  {
    [u / 0x100_0000, (u / 0x1_0000) % 0x100, (u / 0x100) % 0x100, u % 0x100]
  }

  /** Parses hex notation. A colour string of any length other than 3, 4, 6
      or 8 (after one optional leading `#`) is transparent black; without an
      alpha part the result has three entries. */
  function HexToArray(colorString: string): (r: seq<int>)
    ensures |StripHash(colorString)| !in {3, 4, 6, 8} ==> r == [0, 0, 0, 0]
    ensures |r| == if |StripHash(colorString)| in {3, 6} then 3 else 4
    ensures forall k :: 0 <= k < |r| ==> IsByte(r[k])
  {
    HexDigitsToArray(StripHash(colorString))
  }

  /** The digits after the `#`, unpacked into bytes. */
  function HexDigitsToArray(s: string): (r: seq<int>)
    ensures |s| !in {3, 4, 6, 8} ==> r == [0, 0, 0, 0]
    ensures |r| == if |s| in {3, 6} then 3 else 4
    ensures forall k :: 0 <= k < |r| ==> IsByte(r[k])
  {
    if |s| == 4 || |s| == 8 then
      Bytes(HexWord(if |s| == 4 then Doubled(s) else s))
    else if |s| == 3 || |s| == 6 then
      // no alpha: read as fully opaque, then drop the alpha entry
      Bytes(HexWord((if |s| == 3 then Doubled(s) else s) + "00"))[..3]
    else [0, 0, 0, 0]
  }

  /** `parseInt(digits, 16)` as the unsigned 32-bit word the shifts see. */
  function HexWord(digits: string): (u: nat)
    ensures u < 0x1_0000_0000
  {
    ToUint32(ParseInt(digits, 16))
  }

  /** Eight hex digits make the word of their four bytes. */
  lemma HexWordOf(t: string)
    requires |t| == 8 && AllHex(t)
    ensures HexWord(t) == HexPair(t[0], t[1]) * 0x100_0000 + HexPair(t[2], t[3]) * 0x1_0000
                          + HexPair(t[4], t[5]) * 0x100 + HexPair(t[6], t[7])
  {
    ParseIntOfDigits(t, 16);
    EightDigitsValue(t);
  }

  /** The byte written by two hex digits. */
  function HexPair(hi: char, lo: char): int {
    16 * DigitValue(hi) + DigitValue(lo)
  }

  lemma BytesOf(u: int, b0: int, b1: int, b2: int, b3: int)
    requires IsByte(b0) && IsByte(b1) && IsByte(b2) && IsByte(b3)
    requires u == b0 * 0x100_0000 + b1 * 0x1_0000 + b2 * 0x100 + b3
    ensures 0 <= u < 0x1_0000_0000
    ensures Bytes(u) == [b0, b1, b2, b3]
  {
    assert u / 0x100_0000 == b0;
    assert u / 0x1_0000 == b0 * 0x100 + b1;
    assert u / 0x100 == b0 * 0x1_0000 + b1 * 0x100 + b2;
  }

  lemma TwoDigitsValue(x: string)
    requires |x| == 2 && AllHex(x)
    ensures DigitsValue(x, 16) == HexPair(x[0], x[1])
  {
    var x1 := x[..1];
    assert x1[..0] == [];
    assert DigitsValue(x1, 16) == DigitValue(x[0]);
    assert x[..|x| - 1] == x1;
  }

  /** Eight hex digits read as one number: four bytes, two digits each. */
  lemma EightDigitsValue(t: string)
    requires |t| == 8 && AllHex(t)
    ensures DigitsValue(t, 16) == HexPair(t[0], t[1]) * 0x100_0000 + HexPair(t[2], t[3]) * 0x1_0000
                                  + HexPair(t[4], t[5]) * 0x100 + HexPair(t[6], t[7])
  {
    var a, b, c, d := t[..2], t[2..4], t[4..6], t[6..];
    TwoDigitsValue(a);
    TwoDigitsValue(b);
    TwoDigitsValue(c);
    TwoDigitsValue(d);
    assert Pow(16, 2) == 0x100;
    DigitsValueAppend(a, b, 16);
    assert |a + b| == 4;
    DigitsValueAppend(a + b, c, 16);
    assert |a + b + c| == 6;
    DigitsValueAppend(a + b + c, d, 16);
    assert a + b + c + d == t;
  }

  /** `#rrggbbaa`: each byte is read from its own two digits. */
  lemma HexEightDigits(t: string)
    requires |t| == 8 && AllHex(t)
    ensures HexToArray("#" + t) == [HexPair(t[0], t[1]), HexPair(t[2], t[3]), HexPair(t[4], t[5]), HexPair(t[6], t[7])]
  {
    HashStripped(t);
    HexWordOf(t);
    BytesOf(HexWord(t), HexPair(t[0], t[1]), HexPair(t[2], t[3]), HexPair(t[4], t[5]), HexPair(t[6], t[7]));
  }

  /** `#rrggbb`: each byte is read from its own two digits, and there is no
      alpha entry. */
  lemma HexSixDigits(t: string)
    requires |t| == 6 && AllHex(t)
    ensures HexToArray("#" + t) == [HexPair(t[0], t[1]), HexPair(t[2], t[3]), HexPair(t[4], t[5])]
  {
    HashStripped(t);
    SixDigitWord(t);
    var r, g, b := HexPair(t[0], t[1]), HexPair(t[2], t[3]), HexPair(t[4], t[5]);
    BytesOf(HexWord(t + "00"), r, g, b, 0);
    assert HexDigitsToArray(t) == Bytes(HexWord(t + "00"))[..3];
  }

  /** Six digits padded with an opaque alpha `00`... read as the word of the
      three bytes and a zero. */
  lemma SixDigitWord(t: string)
    requires |t| == 6 && AllHex(t)
    ensures HexWord(t + "00") == HexPair(t[0], t[1]) * 0x100_0000 + HexPair(t[2], t[3]) * 0x1_0000
                                 + HexPair(t[4], t[5]) * 0x100
  {
    var padded := t + "00";
    assert AllHex(padded);
    HexWordOf(padded);
    assert padded[..6] == t;
  }

  /** The shorthand forms `#rgb` and `#rgba`: every digit stands for a byte
      with that digit twice (`f` is 255). */
  lemma HexShorthand(t: string)
    requires (|t| == 3 || |t| == 4) && AllHex(t)
    ensures |t| == 3 ==> HexToArray("#" + t) == [17 * DigitValue(t[0]), 17 * DigitValue(t[1]), 17 * DigitValue(t[2])]
    ensures |t| == 4 ==> HexToArray("#" + t)
                         == [17 * DigitValue(t[0]), 17 * DigitValue(t[1]), 17 * DigitValue(t[2]), 17 * DigitValue(t[3])]
  {
    ShorthandIsDoubled(t);
    var full := Doubled(t);
    if |t| == 3 {
      HexSixDigits(full);
      DoubledPairs(t, full);
    } else {
      HexEightDigits(full);
      DoubledPairs(t, full);
    }
  }

  lemma ShorthandIsDoubled(t: string)
    requires |t| == 3 || |t| == 4
    ensures AllHex(t) ==> AllHex(Doubled(t))
    ensures HexToArray("#" + t) == HexToArray("#" + Doubled(t))
  {
    HashStripped(t);
    HashStripped(Doubled(t));
  }

  lemma HashStripped(t: string)
    ensures HexToArray("#" + t) == HexDigitsToArray(t)
  {
    assert StripHash("#" + t) == t;
  }

  lemma DoubledPairs(t: string, full: string)
    requires full == Doubled(t)
    ensures forall k :: 0 <= k < |t| ==> HexPair(full[2 * k], full[2 * k + 1]) == 17 * DigitValue(t[k])
  {
  }

  // ---------------------------------------------------------------------
  // rgb() and rgba() notation
  // ---------------------------------------------------------------------

  predicate DecimalDigits(d: string) {
    forall k :: 0 <= k < |d| ==> IsDigit(d[k])
  }

  /** `\s*c`: what follows the character `c`. */
  function Token(s: string, c: char): (r: Option<string>)
    ensures r.Some? ==> |r.value| < |s|
  {
    var t := TrimStart(s);
    if t != [] && t[0] == c then Some(t[1..]) else None
  }

  /** `\s*(\d+)`: the captured digits and what follows them. */
  function Number(s: string): (r: Option<(string, string)>)
    ensures r.Some? ==> |r.value.0| > 0 && DecimalDigits(r.value.0) && |r.value.1| < |s|
  {
    var t := TrimStart(s);
    var d := LeadingDigits(t, 10);
    if d == [] then None else Some((d, t[|d|..]))
  }

  datatype RgbMatch = RgbMatch(red: string, green: string, blue: string, alpha: Option<string>)

  predicate ValidMatch(m: RgbMatch) {
    DecimalDigits(m.red) && DecimalDigits(m.green) && DecimalDigits(m.blue)
    && (m.alpha.Some? ==> DecimalDigits(m.alpha.value))
  }

  /** `rgba?\s*\(`: what follows the parenthesis. */
  function RgbOpening(s: string): Option<string> {
    if |s| < 3 || s[..3] != "rgb" then None
    else
      var t := s[3..];
      Token(if t != [] && t[0] == 'a' then t[1..] else t, '(')
  }

  /** `\s*(\d+)\s*,\s*(\d+)\s*,\s*(\d+)`: the three captured channels and
      what follows them. */
  function RgbChannels(s: string): (r: Option<(string, string, string, string)>)
    ensures r.Some? ==> DecimalDigits(r.value.0) && DecimalDigits(r.value.1) && DecimalDigits(r.value.2)
  {
    match Number(s)
    case None => None
    case Some((red, s1)) =>
      match NextNumber(s1)
      case None => None
      case Some((green, s2)) =>
        match NextNumber(s2)
        case None => None
        case Some((blue, rest)) => Some((red, green, blue, rest))
  }

  /** `\s*,\s*(\d+)`: the digits after a comma and what follows them. */
  function NextNumber(s: string): (r: Option<(string, string)>)
    ensures r.Some? ==> |r.value.0| > 0 && DecimalDigits(r.value.0) && |r.value.1| < |s|
  {
    match Token(s, ',')
    case None => None
    case Some(t) => Number(t)
  }


  /** `(?:\s*,\s*(\d+))?\s*\)`: the optional alpha, when the closing
      parenthesis follows. */
  function RgbClosing(s: string): (r: Option<Option<string>>)
    ensures r.Some? && r.value.Some? ==> DecimalDigits(r.value.value)
  {
    var alpha := NextNumber(s);
    var rest := if alpha.Some? then alpha.value.1 else s;
    if Token(rest, ')').None? then None
    else Some(if alpha.Some? then Some(alpha.value.0) else None)
  }

  /** The pattern `rgba?\s*\(\s*(\d+)\s*,\s*(\d+)\s*,\s*(\d+)(?:\s*,\s*(\d+))?\s*\)`
      tried at the start of `s`. Every part of it is greedy and can never
      give back what it took (what follows each part cannot start that
      part), so a single left-to-right pass decides the match. */
  function MatchRgb(s: string): (r: Option<RgbMatch>)
    ensures r.Some? ==> ValidMatch(r.value)
  {
    match RgbOpening(s)
    case None => None
    case Some(t) =>
      match RgbChannels(t)
      case None => None
      case Some((red, green, blue, rest)) =>
        match RgbClosing(rest)
        case None => None
        case Some(alpha) => Some(RgbMatch(red, green, blue, alpha))
  }

  /** `regex.exec(s)`: the leftmost match at or after index `i`. */
  function FirstRgbMatch(s: string, i: nat): (r: Option<RgbMatch>)
    requires i <= |s|
    ensures r.Some? ==> ValidMatch(r.value)
    decreases |s| - i
  {
    match MatchRgb(s[i..])
    case Some(m) => Some(m)
    case None => if i == |s| then None else FirstRgbMatch(s, i + 1)
  }

  /** A captured number, capped at 255. */
  function CappedLevel(d: string): Channel
    requires DecimalDigits(d)
  {
    Level(IntMin(DigitsValue(d, 10), 255))
  }

  /** Parses `rgb(r, g, b)` or `rgba(r, g, b, a)` found anywhere in `color`:
      four entries, levels capped at 255, and a NaN fourth entry when no alpha
      was written. Without a match the colour is transparent black. */
  function RgbToArray(color: string): (r: seq<Channel>)
    ensures |r| == 4
    ensures forall k :: 0 <= k < 3 ==> r[k].Level? && IsByte(r[k].v)
    ensures r[3].NaNLevel? || IsByte(r[3].v)
  {
    match FirstRgbMatch(color, 0)
    case None => Levels([0, 0, 0, 0])
    case Some(m) =>
      [CappedLevel(m.red), CappedLevel(m.green), CappedLevel(m.blue),
       match m.alpha case None => NaNLevel case Some(a) => CappedLevel(a)]
  }

  function DecimalDigit(d: nat): (c: char)
    requires d < 10
    ensures IsDigit(c) && DigitValue(c) == d
  {
    ('0' as int + d) as char
  }

  /** Decimal notation of a natural number, without leading zeros. */
  function Decimal(n: nat): (d: string)
    ensures |d| > 0 && DecimalDigits(d)
    ensures DigitsValue(d, 10) == n
  {
    if n < 10 then [DecimalDigit(n)]
    else
      var d := Decimal(n / 10) + [DecimalDigit(n % 10)];
      assert d[..|d| - 1] == Decimal(n / 10);
      d
  }

  /** `rgb(r,g,b)` */
  function RgbText(red: nat, green: nat, blue: nat): string {
    "rgb" + ("(" + Channels(red, green, blue, ")"))
  }

  /** `rgba(r,g,b,a)` */
  function RgbaText(red: nat, green: nat, blue: nat, alpha: nat): string {
    "rgb" + ("a(" + Channels(red, green, blue, "," + (Decimal(alpha) + ")")))
  }

  /** `r,g,b` followed by `rest`. */
  function Channels(red: nat, green: nat, blue: nat, rest: string): string {
    Decimal(red) + ("," + (Decimal(green) + ("," + (Decimal(blue) + rest))))
  }

  lemma TokenOf(c: char, rest: string)
    requires !IsSpace(c)
    ensures Token([c] + rest, c) == Some(rest)
  {
    assert TrimStart([c] + rest) == [c] + rest;
    assert ([c] + rest)[1..] == rest;
  }

  lemma OtherToken(c: char, rest: string, d: char)
    requires !IsSpace(c) && c != d
    ensures Token([c] + rest, d) == None
  {
    assert TrimStart([c] + rest) == [c] + rest;
  }

  lemma {:induction false} LeadingDigitsOf(d: string, rest: string)
    requires DecimalDigits(d)
    requires rest == [] || !IsDigit(rest[0])
    ensures DigitRun(d + rest, 10) == |d|
  {
    if d != [] {
      assert (d + rest)[1..] == d[1..] + rest;
      LeadingDigitsOf(d[1..], rest);
    }
  }

  /** Digits followed by something that is not a digit are captured whole. */
  lemma NumberOf(d: string, rest: string)
    requires |d| > 0 && DecimalDigits(d)
    requires rest == [] || !IsDigit(rest[0])
    ensures Number(d + rest) == Some((d, rest))
  {
    assert !IsSpace((d + rest)[0]);
    assert TrimStart(d + rest) == d + rest;
    LeadingDigitsOf(d, rest);
    assert LeadingDigits(d + rest, 10) == d;
    assert (d + rest)[|d|..] == rest;
  }

  lemma ChannelsOf(red: nat, green: nat, blue: nat, rest: string)
    requires rest == [] || !IsDigit(rest[0])
    ensures RgbChannels(Channels(red, green, blue, rest)) == Some((Decimal(red), Decimal(green), Decimal(blue), rest))
  {
    DigitChannelsOf(Decimal(red), Decimal(green), Decimal(blue), rest);
  }

  lemma DigitChannelsOf(r: string, g: string, b: string, rest: string)
    requires |r| > 0 && DecimalDigits(r) && |g| > 0 && DecimalDigits(g) && |b| > 0 && DecimalDigits(b)
    requires rest == [] || !IsDigit(rest[0])
    ensures RgbChannels(r + ("," + (g + ("," + (b + rest))))) == Some((r, g, b, rest))
  {
    var s2 := "," + (b + rest);
    NextNumberOf(b, rest);
    assert s2[0] == ',';
    var s1 := "," + (g + s2);
    NextNumberOf(g, s2);
    assert s1[0] == ',';
    NumberOf(r, s1);
    assert RgbChannels(r + s1) == Some((r, g, b, rest)) by {
      assert Number(r + s1) == Some((r, s1));
      assert NextNumber(s1) == Some((g, s2));
      assert NextNumber(s2) == Some((b, rest));
    }
  }

  lemma NextNumberOf(d: string, rest: string)
    requires |d| > 0 && DecimalDigits(d)
    requires rest == [] || !IsDigit(rest[0])
    ensures NextNumber("," + (d + rest)) == Some((d, rest))
  {
    NumberOf(d, rest);
    TokenOf(',', d + rest);
  }

  lemma OpeningOf(afterRgb: string, rest: string)
    requires afterRgb == "(" || afterRgb == "a("
    ensures RgbOpening("rgb" + (afterRgb + rest)) == Some(rest)
  {
    var s := "rgb" + (afterRgb + rest);
    assert s[..3] == "rgb";
    assert s[3..] == afterRgb + rest;
    if afterRgb == "(" {
      TokenOf('(', rest);
    } else {
      assert (afterRgb + rest)[1..] == "(" + rest;
      TokenOf('(', rest);
    }
  }

  /** The channels written in `rgb(r,g,b)` are read back, capped at 255,
      with a NaN alpha. */
  lemma RgbRoundTrip(red: nat, green: nat, blue: nat)
    ensures RgbToArray(RgbText(red, green, blue))
         == [Level(IntMin(red, 255)), Level(IntMin(green, 255)), Level(IntMin(blue, 255)), NaNLevel]
  {
    var t := Channels(red, green, blue, ")");
    OpeningOf("(", t);
    ChannelsOf(red, green, blue, ")");
    ClosingWithoutAlpha();
    var m := RgbMatch(Decimal(red), Decimal(green), Decimal(blue), None);
    MatchOfParts(RgbText(red, green, blue), t, ")", m);
    MatchAtStart(RgbText(red, green, blue), m);
  }

  /** The channels written in `rgba(r,g,b,a)` are read back, capped at 255. */
  lemma RgbaRoundTrip(red: nat, green: nat, blue: nat, alpha: nat)
    ensures RgbToArray(RgbaText(red, green, blue, alpha))
         == [Level(IntMin(red, 255)), Level(IntMin(green, 255)), Level(IntMin(blue, 255)), Level(IntMin(alpha, 255))]
  {
    var rest := "," + (Decimal(alpha) + ")");
    var t := Channels(red, green, blue, rest);
    OpeningOf("a(", t);
    ChannelsOf(red, green, blue, rest);
    ClosingWithAlpha(Decimal(alpha));
    var m := RgbMatch(Decimal(red), Decimal(green), Decimal(blue), Some(Decimal(alpha)));
    MatchOfParts(RgbaText(red, green, blue, alpha), t, rest, m);
    MatchAtStart(RgbaText(red, green, blue, alpha), m);
  }

  lemma ClosingWithoutAlpha()
    ensures RgbClosing(")") == Some(None)
  {
    CloseToken();
    assert ")" == [')'] + [];
    OtherToken(')', [], ',');
  }

  lemma CloseToken()
    ensures Token(")", ')') == Some([])
  {
    assert ")" == [')'] + [];
    TokenOf(')', []);
  }

  lemma ClosingWithAlpha(a: string)
    requires |a| > 0 && DecimalDigits(a)
    ensures RgbClosing("," + (a + ")")) == Some(Some(a))
  {
    NextNumberOf(a, ")");
    CloseToken();
  }

  lemma MatchOfParts(s: string, t: string, rest: string, m: RgbMatch)
    requires RgbOpening(s) == Some(t)
    requires RgbChannels(t) == Some((m.red, m.green, m.blue, rest))
    requires RgbClosing(rest) == Some(m.alpha)
    ensures MatchRgb(s) == Some(m)
  {
  }

  /** A match at the start of the string is the one `RgbToArray` reads. */
  lemma MatchAtStart(s: string, m: RgbMatch)
    requires MatchRgb(s) == Some(m)
    ensures RgbToArray(s) == [CappedLevel(m.red), CappedLevel(m.green), CappedLevel(m.blue),
                              match m.alpha case None => NaNLevel case Some(a) => CappedLevel(a)]
  {
    assert s[0..] == s;
  }

  predicate ContainsRgbFrom(s: string, i: nat)
    requires i <= |s|
  {
    exists k :: i <= k && k + 3 <= |s| && s[k..][..3] == "rgb"
  }

  lemma {:induction false} NoRgbFrom(s: string, i: nat)
    requires i <= |s| && !ContainsRgbFrom(s, i)
    ensures FirstRgbMatch(s, i) == None
    decreases |s| - i
  {
    assert MatchRgb(s[i..]) == None by {
      if |s| - i >= 3 {
        assert s[i..][..3] != "rgb";
      }
    }
    if i < |s| {
      NoRgbFrom(s, i + 1);
    }
  }

  /** The pattern is case-sensitive: a colour string that never spells
      `rgb` in lower case is transparent black. */
  lemma NoRgbIsTransparentBlack(s: string)
    requires !ContainsRgbFrom(s, 0)
    ensures RgbToArray(s) == Levels([0, 0, 0, 0])
  {
    NoRgbFrom(s, 0);
  }

  // ---------------------------------------------------------------------
  // Dispatch on the notation
  // ---------------------------------------------------------------------

  /** Picks the parser by the first three characters, compared without
      regard to case; `hsl` strings go to the supplied converter. */
  function ColorToRGBArray(colorString: string, hslToRgb: string -> seq<Channel>): (r: seq<Channel>)
    ensures Lower(Prefix(colorString, 3)) == "rgb" ==> r == RgbToArray(colorString)
    ensures Lower(Prefix(colorString, 3)) == "hsl" ==> r == hslToRgb(colorString)
    ensures Lower(Prefix(colorString, 3)) !in {"rgb", "hsl"} ==>
              r == Levels(HexToArray(colorString))
  {
    var format := Lower(Prefix(colorString, 3));
    if format == "rgb" then RgbToArray(colorString)
    else if format == "hsl" then hslToRgb(colorString)
    else Levels(HexToArray(colorString))
  }

  /** Apart from `hsl` strings, every colour gives three or four entries
      whose levels are bytes, and only `rgb` strings can give a NaN. */
  lemma ColorLevelsAreBytes(colorString: string, hslToRgb: string -> seq<Channel>)
    requires Lower(Prefix(colorString, 3)) != "hsl"
    ensures var r := ColorToRGBArray(colorString, hslToRgb);
            (|r| == 3 || |r| == 4)
            && (forall k :: 0 <= k < |r| ==> r[k].NaNLevel? || IsByte(r[k].v))
            && (forall k :: 0 <= k < |r| && r[k].NaNLevel? ==> k == 3 && Lower(Prefix(colorString, 3)) == "rgb")
  {
    if Lower(Prefix(colorString, 3)) != "rgb" {
      var h := HexToArray(colorString);
      assert ColorToRGBArray(colorString, hslToRgb) == Levels(h);
    }
  }

  /** An upper-case `RGB(...)` string is sent to the rgb parser, whose
      pattern does not match it: the colour reads as transparent black. */
  lemma UpperCaseRgbIsTransparentBlack(hslToRgb: string -> seq<Channel>)
    ensures ColorToRGBArray("RGB(1,2,3)", hslToRgb) == Levels([0, 0, 0, 0])
  {
    var s := "RGB(1,2,3)";
    assert Lower(Prefix(s, 3)) == "rgb";
    forall k | 0 <= k && k + 3 <= |s|
      ensures s[k..][..3] != "rgb"
    {
      assert s[k..][..3][0] == s[k];
    }
    NoRgbIsTransparentBlack(s);
  }

  // ---------------------------------------------------------------------
  // Formatting levels as a colour
  // ---------------------------------------------------------------------

  function HexDigitChar(d: nat): (c: char)
    requires d < 16
    ensures DigitValue(c) == d
  {
    if d < 10 then ('0' as int + d) as char else ('a' as int + d - 10) as char
  }

  function HexNat(n: nat): string {
    if n < 16 then [HexDigitChar(n)] else HexNat(n / 16) + [HexDigitChar(n % 16)]
  }

  /** `Number(n).toString(16)` for an integer. */
  function HexText(n: int): string {
    if n < 0 then "-" + HexNat(-n) else HexNat(n)
  }

  /** The text one colour entry contributes: the level scaled by `sin` and
      floored, inverted when it is the alpha entry, in hex, with a `0`
      written in front when the value is below 16. */
  function ChannelText(sin: real, value: Channel, index: nat): string {
    match value
    case NaNLevel => "NaN"
    case Level(v) =>
      var scaled := Scaled(sin, v);
      var decimal := if index == 3 then 255 - scaled else scaled;
      PaddedHex(decimal)
  }

  /** `Math.floor(sin * value)` */
  function Scaled(sin: real, v: int): int {
    (sin * v as real).Floor
  }

  /** Hex text of `decimal`, with a `0` in front when it is below 16. */
  function PaddedHex(decimal: int): string {
    (if decimal < 16 then "0" else "") + HexText(decimal)
  }

  /** A byte is written as exactly two hex digits that read back as it. */
  lemma ByteHex(d: int)
    requires IsByte(d)
    ensures var t := PaddedHex(d); |t| == 2 && AllHex(t) && HexPair(t[0], t[1]) == d
  {
    var t := PaddedHex(d);
    if d < 16 {
      assert t == ['0', HexDigitChar(d)];
    } else {
      assert HexNat(d / 16) == [HexDigitChar(d / 16)];
      assert t == [HexDigitChar(d / 16), HexDigitChar(d % 16)];
    }
  }

  function ChannelsText(sin: real, colors: seq<Channel>, n: nat): string
    requires n <= |colors|
  {
    if n == 0 then "" else ChannelsText(sin, colors, n - 1) + ChannelText(sin, colors[n - 1], n - 1)
  }

  /** The `#rrggbb[aa]` colour for the given levels scaled by `sin`. */
  function GetColor(sin: real, colors: seq<Channel>): string {
    "#" + ChannelsText(sin, colors, |colors|)
  }

  lemma ByteText(sin: real, value: Channel, index: nat)
    requires value.Level?
    requires var s := Scaled(sin, value.v); IsByte(if index == 3 then 255 - s else s)
    ensures var t := ChannelText(sin, value, index);
            var s := Scaled(sin, value.v);
            |t| == 2 && AllHex(t) && HexPair(t[0], t[1]) == if index == 3 then 255 - s else s
  {
    var s := Scaled(sin, value.v);
    ByteHex(if index == 3 then 255 - s else s);
  }

  predicate ByteDigits(t: string) {
    |t| == 2 && AllHex(t)
  }

  lemma ThreeByteTexts(t0: string, t1: string, t2: string)
    requires ByteDigits(t0) && ByteDigits(t1) && ByteDigits(t2)
    ensures HexToArray("#" + (t0 + t1 + t2)) == [HexPair(t0[0], t0[1]), HexPair(t1[0], t1[1]), HexPair(t2[0], t2[1])]
  {
    var t := t0 + t1 + t2;
    assert t[0] == t0[0] && t[1] == t0[1] && t[2] == t1[0] && t[3] == t1[1] && t[4] == t2[0] && t[5] == t2[1];
    HexSixDigits(t);
  }

  lemma FourByteTexts(t0: string, t1: string, t2: string, t3: string)
    requires ByteDigits(t0) && ByteDigits(t1) && ByteDigits(t2) && ByteDigits(t3)
    ensures HexToArray("#" + (t0 + t1 + t2 + t3))
         == [HexPair(t0[0], t0[1]), HexPair(t1[0], t1[1]), HexPair(t2[0], t2[1]), HexPair(t3[0], t3[1])]
  {
    var t := t0 + t1 + t2 + t3;
    assert t[0] == t0[0] && t[1] == t0[1] && t[2] == t1[0] && t[3] == t1[1];
    assert t[4] == t2[0] && t[5] == t2[1] && t[6] == t3[0] && t[7] == t3[1];
    HexEightDigits(t);
  }

  lemma ScaledByte(sin: real, v: int)
    requires 0.0 <= sin <= 1.0 && IsByte(v)
    ensures IsByte(Scaled(sin, v))
  {
    assert 0.0 <= sin * v as real <= 1.0 * v as real;
  }

  /** A colour written with three byte levels and `sin` in [0, 1] is parsed
      back into the scaled levels. */
  lemma GetColorRoundTrip3(sin: real, r: int, g: int, b: int)
    requires 0.0 <= sin <= 1.0 && IsByte(r) && IsByte(g) && IsByte(b)
    ensures HexToArray(GetColor(sin, Levels([r, g, b])))
         == [Scaled(sin, r), Scaled(sin, g), Scaled(sin, b)]
  {
    var c := Levels([r, g, b]);
    ScaledByte(sin, r);
    ScaledByte(sin, g);
    ScaledByte(sin, b);
    ByteText(sin, c[0], 0);
    ByteText(sin, c[1], 1);
    ByteText(sin, c[2], 2);
    var t0, t1, t2 := ChannelText(sin, c[0], 0), ChannelText(sin, c[1], 1), ChannelText(sin, c[2], 2);
    assert ChannelsText(sin, c, 1) == t0;
    assert ChannelsText(sin, c, 2) == t0 + t1;
    assert ChannelsText(sin, c, 3) == t0 + t1 + t2;
    ThreeByteTexts(t0, t1, t2);
  }

  /** With four levels the alpha entry is inverted: full alpha at the
      edges of the barrel, more transparent towards its middle. */
  lemma GetColorRoundTrip4(sin: real, r: int, g: int, b: int, a: int)
    requires 0.0 <= sin <= 1.0 && IsByte(r) && IsByte(g) && IsByte(b) && IsByte(a)
    ensures HexToArray(GetColor(sin, Levels([r, g, b, a])))
         == [Scaled(sin, r), Scaled(sin, g), Scaled(sin, b), 255 - Scaled(sin, a)]
  {
    var c := Levels([r, g, b, a]);
    ScaledByte(sin, r);
    ScaledByte(sin, g);
    ScaledByte(sin, b);
    ScaledByte(sin, a);
    ByteText(sin, c[0], 0);
    ByteText(sin, c[1], 1);
    ByteText(sin, c[2], 2);
    ByteText(sin, c[3], 3);
    var t0, t1, t2, t3 := ChannelText(sin, c[0], 0), ChannelText(sin, c[1], 1), ChannelText(sin, c[2], 2), ChannelText(sin, c[3], 3);
    assert ChannelsText(sin, c, 1) == t0;
    assert ChannelsText(sin, c, 2) == t0 + t1;
    assert ChannelsText(sin, c, 3) == t0 + t1 + t2;
    assert ChannelsText(sin, c, 4) == t0 + t1 + t2 + t3;
    FourByteTexts(t0, t1, t2, t3);
  }

  // ---------------------------------------------------------------------
  // Choosing the colours of the gradients
  // ---------------------------------------------------------------------

  const DefaultBase := Levels([128, 128, 128])
  const DefaultShadow := Levels([0, 0, 0, 255])
  const DefaultHover := Levels([512, 512, 512, 512])
  const DefaultPress := Levels([666, 666, 666, 444])

  /** `!Math.max(...levels)`: some level is NaN, or the largest level is 0.
      (The maximum of no levels is minus infinity, which is truthy.) */
  predicate MaxIsFalsy(levels: seq<Channel>) {
    (exists k :: 0 <= k < |levels| && levels[k].NaNLevel?)
    || (|levels| > 0
        && (forall k :: 0 <= k < |levels| ==> levels[k].Level? && levels[k].v <= 0)
        && (exists k :: 0 <= k < |levels| && levels[k].v == 0))
  }

  /** The levels of the barrel: the background colour, unless it is not a
      string or reads as black or NaN, in which case mid grey. */
  function BaseLevels(bgColor: Value, hslToRgb: string -> seq<Channel>): (r: seq<Channel>)
    ensures !MaxIsFalsy(r)
    ensures (bgColor.Str? && !MaxIsFalsy(ColorToRGBArray(bgColor.s, hslToRgb)))
              ==> r == ColorToRGBArray(bgColor.s, hslToRgb)
    ensures !(bgColor.Str? && !MaxIsFalsy(ColorToRGBArray(bgColor.s, hslToRgb))) ==> r == DefaultBase
  {
    if bgColor.Str? && !MaxIsFalsy(ColorToRGBArray(bgColor.s, hslToRgb)) then
      ColorToRGBArray(bgColor.s, hslToRgb)
    else
      assert DefaultBase[0].v == 128;
      DefaultBase
  }

  /** An `rgb(...)` background without alpha yields a NaN fourth entry, so
      the barrel is drawn in the default grey whatever the channels say. */
  lemma RgbBackgroundIsGrey(red: nat, green: nat, blue: nat, hslToRgb: string -> seq<Channel>)
    ensures BaseLevels(Str(RgbText(red, green, blue)), hslToRgb) == DefaultBase
  {
    var rest := "(" + Channels(red, green, blue, ")");
    RgbRoundTrip(red, green, blue);
    RgbDispatch(rest, hslToRgb);
    var levels := ColorToRGBArray(RgbText(red, green, blue), hslToRgb);
    assert levels[3].NaNLevel?;
  }

  /** Strings starting with `rgb` go to the rgb parser. */
  lemma RgbDispatch(rest: string, hslToRgb: string -> seq<Channel>)
    ensures ColorToRGBArray("rgb" + rest, hslToRgb) == RgbToArray("rgb" + rest)
  {
    assert Prefix("rgb" + rest, 3) == "rgb";
    assert Lower("rgb") == "rgb";
  }

  /** The levels of a shadow or highlight colour: the given colour when it
      is a string with four entries and a truthy alpha, otherwise the
      default. */
  function OverlayLevels(color: Value, default: seq<Channel>, hslToRgb: string -> seq<Channel>): (r: seq<Channel>)
    requires |default| == 4 && default[3].Level? && default[3].v != 0
    ensures |r| == 4 && r[3].Level? && r[3].v != 0
    ensures r == default || (color.Str? && r == ColorToRGBArray(color.s, hslToRgb))
    ensures color.Str? && |ColorToRGBArray(color.s, hslToRgb)| == 4
            && ColorToRGBArray(color.s, hslToRgb)[3].Level? && ColorToRGBArray(color.s, hslToRgb)[3].v != 0
            ==> r == ColorToRGBArray(color.s, hslToRgb)
  {
    if color.Str? then
      var levels := ColorToRGBArray(color.s, hslToRgb);
      if |levels| != 4 || levels[3].NaNLevel? || levels[3].v == 0 then default else levels
    else default
  }

  /** The number of faces: 2 for a falsy or NaN value, otherwise the value
      clamped to [2, 20]. */
  function FaceCount(faces: Value): (f: real)
    ensures 2.0 <= f <= 20.0
    ensures !Truthy(faces) || IsNaN(faces) ==> f == 2.0
    ensures Truthy(faces) && !IsNaN(faces) ==> f == Max(2.0, Min(ToNumber(faces).value, 20.0))
  {
    if !Truthy(faces) || IsNaN(faces) then 2.0
    else Max(2.0, Min(ToNumber(faces).value, 20.0))
  }

  /** The number of stops in each highlight gradient: a quarter of the
      faces, rounded, and at least 2. */
  function HighlightFaces(faces: real): (h: nat)
    requires 2.0 <= faces <= 20.0
    ensures 2 <= h <= 5
  {
    var q := Round(faces / 4.0);
    if q < 2 then 2 else q
  }

  // ---------------------------------------------------------------------
  // The gradients
  // ---------------------------------------------------------------------

  /** Where a stop sits: at a given turn (a fraction of pi) of the barrel,
      on the near or far side of its middle, or at the closing 100%. */
  datatype Position = Facet(turn: real, pastHalfway: bool) | Full

  datatype Stop = Stop(color: string, at: Position)

  /** A linear gradient: its direction in degrees and its colour stops. */
  datatype Ramp = Ramp(degrees: int, stops: seq<Stop>)

  datatype Gradients = Gradients(barrel: Ramp, shadow: Ramp, topLite: Ramp, lowLite: Ramp, topPress: Ramp, lowPress: Ramp)

  /** The stop of face `ii` of the barrel or its shadow. `sinPi(t)` stands
      for `Math.sin(Math.PI * t)`. */
  function FaceStop(sinPi: real -> real, levels: seq<Channel>, faces: real, ii: nat): Stop
    requires faces > 0.0
  {
    var turn := Fraction(ii as real, faces);
    Stop(GetColor(sinPi(turn), levels), Facet(turn, ii as real > faces / 2.0))
  }

  /** `a / b`, the turn of a face as a fraction of pi. */
  function Fraction(a: real, b: real): real
    requires b != 0.0
  {
    a / b
  }

  /** The stop of step `ii` of a highlight: a quarter of the turn of the
      same face of the barrel. */
  function LiteStop(sinPi: real -> real, levels: seq<Channel>, faces: real, count: nat, ii: nat): Stop
    requires faces > 0.0
  {
    var turn := Fraction(ii as real, 4.0 * faces);
    Stop(GetColor(sinPi(turn), levels), Facet(turn, ii as real > count as real / 2.0))
  }

  /** The stops of the first `n` faces. */
  function FaceStops(sinPi: real -> real, levels: seq<Channel>, faces: real, n: nat): (r: seq<Stop>)
    requires faces > 0.0
    ensures |r| == n
  {
    if n == 0 then [] else FaceStops(sinPi, levels, faces, n - 1) + [FaceStop(sinPi, levels, faces, n - 1)]
  }

  /** The stops of the first `n` steps of a highlight of `count` steps. */
  function LiteStops(sinPi: real -> real, levels: seq<Channel>, faces: real, count: nat, n: nat): (r: seq<Stop>)
    requires faces > 0.0
    ensures |r| == n
  {
    if n == 0 then [] else LiteStops(sinPi, levels, faces, count, n - 1) + [LiteStop(sinPi, levels, faces, count, n - 1)]
  }

  const Black := Stop("#000000", Full)
  const OpaqueBlack := Stop("#000000ff", Full)

  /** The six gradients, as a function of the inputs. */
  function GradientsFor(bgColor: Value, shadowColor: Value, hoverColor: Value, pressColor: Value, faces: Value,
                        hslToRgb: string -> seq<Channel>, sinPi: real -> real): Gradients
  {
    RampsFor(BaseLevels(bgColor, hslToRgb), OverlayLevels(shadowColor, DefaultShadow, hslToRgb),
             OverlayLevels(hoverColor, DefaultHover, hslToRgb), OverlayLevels(pressColor, DefaultPress, hslToRgb),
             FaceCount(faces), sinPi)
  }

  /** The six gradients for given colour levels and face count. */
  function RampsFor(main: seq<Channel>, dark: seq<Channel>, hover: seq<Channel>, press: seq<Channel>,
                    f: real, sinPi: real -> real): Gradients
    requires 2.0 <= f <= 20.0
  {
    var n := Ceil(f);
    var h := HighlightFaces(f);
    Gradients(
      Ramp(0, FaceStops(sinPi, main, f, n) + [Black]),
      Ramp(0, FaceStops(sinPi, dark, f, n) + [OpaqueBlack]),
      Ramp(0, LiteStops(sinPi, hover, f, h, h) + [Black]),
      Ramp(180, LiteStops(sinPi, hover, f, h, h) + [OpaqueBlack]),
      Ramp(0, LiteStops(sinPi, press, f, h, h) + [Black]),
      Ramp(180, LiteStops(sinPi, press, f, h, h) + [OpaqueBlack]))
  }

  /** Builds the gradients face by face, as the two loops of the source do. */
  method GetGradients(bgColor: Value, shadowColor: Value, hoverColor: Value, pressColor: Value, faces: Value,
                      hslToRgb: string -> seq<Channel>, sinPi: real -> real) returns (g: Gradients)
    ensures g == GradientsFor(bgColor, shadowColor, hoverColor, pressColor, faces, hslToRgb, sinPi)
  {
    var main := BaseLevels(bgColor, hslToRgb);
    var dark := OverlayLevels(shadowColor, DefaultShadow, hslToRgb);
    var hover := OverlayLevels(hoverColor, DefaultHover, hslToRgb);
    var press := OverlayLevels(pressColor, DefaultPress, hslToRgb);
    var f := FaceCount(faces);
    var barrel, shadow := FaceLoop(main, dark, f, sinPi);
    var lite, pressed := LiteLoop(hover, press, f, HighlightFaces(f), sinPi);
    g := Gradients(Ramp(0, barrel + [Black]), Ramp(0, shadow + [OpaqueBlack]),
                   Ramp(0, lite + [Black]), Ramp(180, lite + [OpaqueBlack]),
                   Ramp(0, pressed + [Black]), Ramp(180, pressed + [OpaqueBlack]));
  }

  /** The first loop: one stop per face for the barrel and its shadow. */
  method FaceLoop(main: seq<Channel>, dark: seq<Channel>, f: real, sinPi: real -> real)
    returns (barrel: seq<Stop>, shadow: seq<Stop>)
    requires 2.0 <= f <= 20.0
    ensures barrel == FaceStops(sinPi, main, f, Ceil(f))
    ensures shadow == FaceStops(sinPi, dark, f, Ceil(f))
  {
    barrel, shadow := [], [];
    var ii := 0;
    while ii as real < f
      invariant 0 <= ii <= Ceil(f)
      invariant barrel == FaceStops(sinPi, main, f, ii)
      invariant shadow == FaceStops(sinPi, dark, f, ii)
    {
      CeilStep(ii, f);
      barrel := barrel + [FaceStop(sinPi, main, f, ii)];
      shadow := shadow + [FaceStop(sinPi, dark, f, ii)];
      ii := ii + 1;
    }
    CeilStep(ii, f);
  }

  /** The loop over the faces runs `Ceil(f)` times. */
  lemma CeilStep(ii: nat, f: real)
    requires ii <= Ceil(f)
    ensures ii as real < f <==> ii < Ceil(f)
  {
  }

  /** The second loop: the stops shared by the top and bottom highlights. */
  method LiteLoop(hover: seq<Channel>, press: seq<Channel>, f: real, count: nat, sinPi: real -> real)
    returns (lite: seq<Stop>, pressed: seq<Stop>)
    requires 2.0 <= f <= 20.0
    ensures lite == LiteStops(sinPi, hover, f, count, count)
    ensures pressed == LiteStops(sinPi, press, f, count, count)
  {
    lite, pressed := [], [];
    var ii := 0;
    while ii < count
      invariant 0 <= ii <= count
      invariant lite == LiteStops(sinPi, hover, f, count, ii)
      invariant pressed == LiteStops(sinPi, press, f, count, ii)
    {
      lite := lite + [LiteStop(sinPi, hover, f, count, ii)];
      pressed := pressed + [LiteStop(sinPi, press, f, count, ii)];
      ii := ii + 1;
    }
  }

  /** The shape of the result: the barrel and its shadow have one stop per
      face (3 to 21 with the closing stop), each highlight 3 to 6; every
      gradient closes on a 100% black stop, opaque for the shadow and the
      two bottom highlights; top and bottom highlights share their other
      stops. */
  lemma GradientShape(bgColor: Value, shadowColor: Value, hoverColor: Value, pressColor: Value, faces: Value,
                      hslToRgb: string -> seq<Channel>, sinPi: real -> real)
    ensures var g := GradientsFor(bgColor, shadowColor, hoverColor, pressColor, faces, hslToRgb, sinPi);
            var n := Ceil(FaceCount(faces));
            |g.barrel.stops| == |g.shadow.stops| == n + 1
            && 3 <= n + 1 <= 21
            && 3 <= |g.topLite.stops| == |g.topPress.stops| <= 6
            && g.barrel.stops[n] == Black && g.shadow.stops[n] == OpaqueBlack
            && g.topLite.stops[|g.topLite.stops| - 1] == Black && g.topPress.stops[|g.topPress.stops| - 1] == Black
            && g.lowLite.stops[|g.lowLite.stops| - 1] == OpaqueBlack && g.lowPress.stops[|g.lowPress.stops| - 1] == OpaqueBlack
            && g.topLite.stops[..|g.topLite.stops| - 1] == g.lowLite.stops[..|g.lowLite.stops| - 1]
            && g.topPress.stops[..|g.topPress.stops| - 1] == g.lowPress.stops[..|g.lowPress.stops| - 1]
            && g.barrel.degrees == g.shadow.degrees == g.topLite.degrees == g.topPress.degrees == 0
            && g.lowLite.degrees == g.lowPress.degrees == 180
  {
    var g := GradientsFor(bgColor, shadowColor, hoverColor, pressColor, faces, hslToRgb, sinPi);
    var f := FaceCount(faces);
    var h := HighlightFaces(f);
    assert g.topLite.stops[..h] == LiteStops(sinPi, OverlayLevels(hoverColor, DefaultHover, hslToRgb), f, h, h);
    assert g.topPress.stops[..h] == LiteStops(sinPi, OverlayLevels(pressColor, DefaultPress, hslToRgb), f, h, h);
  }

  /** Faces outside [2, 20] behave like the nearest bound, and falsy faces
      like 2. */
  lemma FacesClamp(x: real)
    ensures x <= 2.0 ==> FaceCount(Num(x)) == FaceCount(Num(2.0)) == FaceCount(Undefined)
    ensures x >= 20.0 ==> FaceCount(Num(x)) == FaceCount(Num(20.0))
  {
  }

  /** Every face of a barrel drawn from a `#rrggbb` background is that
      colour scaled by the sine of its turn, when the sine is in [0, 1]. */
  lemma BarrelColours(t: string, faces: Value, sinPi: real -> real, hslToRgb: string -> seq<Channel>, ii: nat)
    requires |t| == 6 && AllHex(t)
    requires HexPair(t[0], t[1]) + HexPair(t[2], t[3]) + HexPair(t[4], t[5]) > 0
    requires ii < Ceil(FaceCount(faces))
    requires 0.0 <= sinPi(Fraction(ii as real, FaceCount(faces))) <= 1.0
    ensures var g := GradientsFor(Str("#" + t), Undefined, Undefined, Undefined, faces, hslToRgb, sinPi);
            var sin := sinPi(Fraction(ii as real, FaceCount(faces)));
            HexToArray(g.barrel.stops[ii].color)
              == [Scaled(sin, HexPair(t[0], t[1])), Scaled(sin, HexPair(t[2], t[3])), Scaled(sin, HexPair(t[4], t[5]))]
  {
    var f := FaceCount(faces);
    var main := BaseLevels(Str("#" + t), hslToRgb);
    HexBackground(t, hslToRgb);
    BarrelStop(Str("#" + t), Undefined, Undefined, Undefined, faces, hslToRgb, sinPi, ii);
    GetColorRoundTrip3(sinPi(Fraction(ii as real, f)), HexPair(t[0], t[1]), HexPair(t[2], t[3]), HexPair(t[4], t[5]));
  }

  /** A `#rrggbb` background that is not black gives the barrel its own
      three levels. */
  lemma HexBackground(t: string, hslToRgb: string -> seq<Channel>)
    requires |t| == 6 && AllHex(t)
    requires HexPair(t[0], t[1]) + HexPair(t[2], t[3]) + HexPair(t[4], t[5]) > 0
    ensures BaseLevels(Str("#" + t), hslToRgb) == Levels([HexPair(t[0], t[1]), HexPair(t[2], t[3]), HexPair(t[4], t[5])])
  {
    var levels := Levels([HexPair(t[0], t[1]), HexPair(t[2], t[3]), HexPair(t[4], t[5])]);
    HexSixDigits(t);
    HashIsHex(t, hslToRgb);
    ThreeLevelsTruthy(HexPair(t[0], t[1]), HexPair(t[2], t[3]), HexPair(t[4], t[5]));
  }

  /** A string starting with `#` is read as hex notation. */
  lemma HashIsHex(t: string, hslToRgb: string -> seq<Channel>)
    ensures ColorToRGBArray("#" + t, hslToRgb) == Levels(HexToArray("#" + t))
  {
    assert Lower(Prefix("#" + t, 3))[0] == '#';
  }

  lemma ThreeLevelsTruthy(r: int, g: int, b: int)
    requires r >= 0 && g >= 0 && b >= 0 && r + g + b > 0
    ensures !MaxIsFalsy(Levels([r, g, b]))
  {
    var levels := Levels([r, g, b]);
    if r > 0 { assert levels[0].v > 0; }
    else if g > 0 { assert levels[1].v > 0; }
    else { assert levels[2].v > 0; }
  }

  /** Stop `ii` of the barrel is the face stop of the base levels. */
  lemma BarrelStop(bgColor: Value, shadowColor: Value, hoverColor: Value, pressColor: Value, faces: Value,
                   hslToRgb: string -> seq<Channel>, sinPi: real -> real, ii: nat)
    requires ii < Ceil(FaceCount(faces))
    ensures GradientsFor(bgColor, shadowColor, hoverColor, pressColor, faces, hslToRgb, sinPi).barrel.stops[ii]
            == FaceStop(sinPi, BaseLevels(bgColor, hslToRgb), FaceCount(faces), ii)
  {
    var f := FaceCount(faces);
    FaceStopsIndex(sinPi, BaseLevels(bgColor, hslToRgb), f, Ceil(f), ii);
  }

  lemma {:induction false} FaceStopsIndex(sinPi: real -> real, levels: seq<Channel>, faces: real, n: nat, ii: nat)
    requires faces > 0.0 && ii < n
    ensures FaceStops(sinPi, levels, faces, n)[ii] == FaceStop(sinPi, levels, faces, ii)
  {
    if ii < n - 1 {
      FaceStopsIndex(sinPi, levels, faces, n - 1, ii);
    }
  }
}
