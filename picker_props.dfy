/**
 * `sanitize` of src/TimePicker/index.jsx: the props of the compact time
 * picker, whose minutes interval is called `everyNMinutes`. Its locale is
 * checked against a list of ISO 639-1 codes held in the sanitizer itself.
 */
module PickerProps {
  import opened Js
  import opened Display
  import opened Intervals
  import opened DisplayReview
  import TimeLists

  const DefaultLocale := "en"
  const DefaultWeekday := "short"

  /** The two-letter language codes the locale may start with. */
  const IsoCodes: seq<string> := [
    "ab", "aa", "af", "ak", "sq", "am", "ar", "an", "hy", "as", "av", "ae", "ay", "az", "bm", "ba",
    "eu", "be", "bn", "bi", "bs", "br", "bg", "my", "ca", "ch", "ce", "ny", "zh", "cu", "cv", "kw",
    "co", "cr", "hr", "cs", "da", "dv", "nl", "dz", "en", "eo", "et", "ee", "fo", "fj", "fi", "fr",
    "fy", "ff", "gd", "gl", "lg", "ka", "de", "el", "kl", "gn", "gu", "ht", "ha", "he", "hz", "hi",
    "ho", "hu", "is", "io", "ig", "id", "ia", "ie", "iu", "ik", "ga", "it", "ja", "jv", "kn", "kr",
    "ks", "kk", "km", "ki", "rw", "ky", "kv", "kg", "ko", "kj", "ku", "lo", "la", "lv", "li", "ln",
    "lt", "lu", "lb", "mk", "mg", "ms", "ml", "mt", "gv", "mi", "mr", "mh", "mn", "na", "nv", "nd",
    "nr", "ng", "ne", "no", "nb", "nn", "Yi", "oc", "oj", "or", "om", "os", "pi", "ps", "fa", "pl",
    "pt", "pa", "qu", "ro", "rm", "rn", "ru", "se", "sm", "sg", "sa", "sc", "sr", "sn", "sd", "si",
    "sk", "sl", "so", "st", "es", "su", "sw", "ss", "sv", "tl", "ty", "tg", "ta", "tt", "te", "th",
    "bo", "ti", "to", "ts", "tn", "tr", "tk", "tw", "ug", "uk", "ur", "uz", "ve", "vi", "vo", "wa",
    "cy", "wo", "xh", "yi", "yo", "za", "zu"]

  /** The values `sanitize` settles, before they are spread over the
      props. The code list is a parameter here so that proofs about the
      other values need not carry it. */
  datatype Settled = Settled(locale: Value, weekday: Value, weekAlign: Value, display: Value, every: Value)

  function Settle(props: map<string, Value>, isoCodes: seq<string>, variant: Variant): Settled {
    var top := TopEvery(Get(props, "everyNMinutes"), variant);
    var (kept, last) := Reviewed(Get(props, "display"), Scope(Get(props, "weekAlign"), top), Rules(WithEveryNMinutes, variant));
    Settled(
      CleanLocale(Get(props, "locale"), isoCodes, Str(DefaultLocale)),
      CleanWeekday(Get(props, "weekday"), DefaultWeekday),
      last.weekAlign,
      Arr(if kept == [] then DefaultDisplay else Objects(kept)),
      last.interval)
  }

  /** `{...props, locale, weekday, weekAlign, display, everyNMinutes}` */
  function Spread(props: map<string, Value>, c: Settled): (r: map<string, Value>)
    ensures "locale" in r && r["locale"] == c.locale
    ensures "weekday" in r && r["weekday"] == c.weekday
    ensures "weekAlign" in r && r["weekAlign"] == c.weekAlign
    ensures "display" in r && r["display"] == c.display
    ensures "everyNMinutes" in r && r["everyNMinutes"] == c.every
    ensures forall k :: k in props && k !in ResultKeys ==> k in r && r[k] == props[k]
    ensures forall k :: k in r ==> k in props || k in ResultKeys
  {
    props["locale" := c.locale]["weekday" := c.weekday]["weekAlign" := c.weekAlign]
         ["display" := c.display]["everyNMinutes" := c.every]
  }

  const ResultKeys: seq<string> := ["locale", "weekday", "weekAlign", "display", "everyNMinutes"]

  /** What `sanitize(props)` returns. */
  function Sanitized(props: map<string, Value>, variant: Variant): map<string, Value> {
    Spread(props, Settle(props, IsoCodes, variant))
  }

  method Sanitize(props: map<string, Value>, variant: Variant) returns (r: map<string, Value>)
    ensures r == Sanitized(props, variant)
  {
    var locale := CleanLocale(Get(props, "locale"), IsoCodes, Str(DefaultLocale));
    var weekday := CleanWeekday(Get(props, "weekday"), DefaultWeekday);
    var every := TopEvery(Get(props, "everyNMinutes"), variant);
    var kept, scope := ReviewBoth(Get(props, "display"), Scope(Get(props, "weekAlign"), every), Rules(WithEveryNMinutes, variant));
    var display := if kept == [] then DefaultDisplay else Objects(kept);
    var settled := Settled(locale, weekday, scope.weekAlign, Arr(display), scope.interval);
    assert settled == Settle(props, IsoCodes, variant);
    r := Spread(props, settled);
  }

  // ---------------------------------------------------------------------
  // What sanitize guarantees
  // ---------------------------------------------------------------------

  /** The corrected sanitizer's result: an interval for which the minutes
      list exists, a non-empty display of clean role objects, a known
      locale or "en", a valid weekday format, and `weekAlign` as given or
      valid. */
  lemma SanitizedIsClean(props: map<string, Value>)
    ensures var r := Sanitized(props, Corrected);
            TimeLists.WholeDivisor(r["everyNMinutes"])
            && TimeLists.GetMinutes(r["everyNMinutes"]).List?
            && r["display"].Arr? && |r["display"].elems| > 0
            && (forall i :: 0 <= i < |r["display"].elems| ==>
                  r["display"].elems[i].Obj? && CleanItem(WithEveryNMinutes, r["display"].elems[i].fields))
            && (r["locale"] == Str(DefaultLocale) || (r["locale"].Str? && Lower(Prefix(r["locale"].s, 2)) in IsoCodes))
            && r["weekday"].Str? && r["weekday"].s in WeekdayValues
            && (r["weekAlign"] == Get(props, "weekAlign") || IsAlignment(r["weekAlign"]))
  {
    SettledIsClean(props, IsoCodes);
    TimeLists.MinutesOfDivisor(Settle(props, IsoCodes, Corrected).every);
  }

  lemma SettledIsClean(props: map<string, Value>, isoCodes: seq<string>)
    ensures var c := Settle(props, isoCodes, Corrected);
            TimeLists.WholeDivisor(c.every)
            && c.display.Arr? && |c.display.elems| > 0
            && (forall i :: 0 <= i < |c.display.elems| ==> c.display.elems[i].Obj? && CleanItem(WithEveryNMinutes, c.display.elems[i].fields))
            && c.weekday.Str? && c.weekday.s in WeekdayValues
            && (c.weekAlign == Get(props, "weekAlign") || IsAlignment(c.weekAlign))
  {
    var scope := Scope(Get(props, "weekAlign"), TopEvery(Get(props, "everyNMinutes"), Corrected));
    ReviewedIsClean(Get(props, "display"), scope, WithEveryNMinutes);
    var (kept, last) := Reviewed(Get(props, "display"), scope, Rules(WithEveryNMinutes, Corrected));
    var c := Settle(props, isoCodes, Corrected);
    assert c.display == Arr(Objects(kept)) && c.every == last.interval && c.weekAlign == last.weekAlign;
    forall i | 0 <= i < |c.display.elems|
      ensures c.display.elems[i].Obj? && CleanItem(WithEveryNMinutes, c.display.elems[i].fields)
    {
      assert c.display.elems[i] == Obj(kept[i]);
    }
    assert DefaultWeekday == WeekdayValues[1];
  }

  /** As written, `everyNMinutes: 7` with a display that has no minutes
      item comes back unchanged, and the minutes list the picker builds
      from it throws. */
  lemma UncheckedEvery()
    ensures var r := Sanitized(map["everyNMinutes" := Num(7.0), "display" := Arr([Str("hours")])], AsWritten);
            r["everyNMinutes"] == Num(7.0) && TimeLists.GetMinutes(r["everyNMinutes"]).RangeError?
  {
    var items := [Str("hours")];
    LowerOfLower("hours");
    RoleNamesBecomeObjects(items);
    var hours := Obj(map["role" := Str("hours")]);
    assert Entries(items) == [hours];
    var rules := Rules(WithEveryNMinutes, AsWritten);
    var scope := Scope(Undefined, Num(7.0));
    assert ReviewItem(hours, scope, rules).1 == scope;
    assert Review([hours], scope, rules).1 == scope;
    TopEveryUnchecked();
    assert Settle(map["everyNMinutes" := Num(7.0), "display" := Arr(items)], IsoCodes, AsWritten).every == Num(7.0);
  }
}
