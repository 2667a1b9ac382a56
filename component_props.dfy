/**
 * `sanitize` of src/components/TimePicker/index.jsx: the props of the time
 * picker with a `minutesInterval`, a time zone and a start date.
 *
 * The props are a map from names to JavaScript values. What the sanitizer
 * reads from its surroundings (the clock, the time-zone and ISO-code lists,
 * the resolved time zone, `navigator.language`) is an `Env`.
 */
module ComponentProps {
  import opened Js
  import opened Display
  import opened Intervals
  import opened DisplayReview
  import TimeLists

  const DefaultWeekday := "long"

  datatype Env = Env(
    now: int,               // the time of `new Date()`
    timeZones: seq<string>,
    resolvedZone: Value,    // Intl's resolved time zone; may be undefined
    isoCodes: seq<string>,
    language: Value)        // navigator.language

  // ---------------------------------------------------------------------
  // sanitize
  // ---------------------------------------------------------------------

  /** `typeof onChange !== "function"` gives a function that does nothing. */
  function CleanOnChange(onChange: Value): Value {
    if onChange.Func? then onChange else Func
  }

  /** A Date is cloned (same time); anything else becomes now. */
  function CleanDate(date: Value, now: int): Value {
    if date.Date? then Date(date.time) else Date(now)
  }

  /** A time zone on the list is kept; anything else becomes the resolved
      zone, which may be undefined. */
  function CleanZone(zone: Value, env: Env): Value {
    if zone.Str? && zone.s in env.timeZones then zone else env.resolvedZone
  }

  /** The values `sanitize` settles, before they are spread over the
      props. */
  datatype Settled = Settled(
    onChange: Value, date: Value, timeZone: Value, locale: Value, weekday: Value,
    weekAlign: Value, display: Value, interval: Value)

  function Settle(props: map<string, Value>, env: Env, variant: Variant): Settled {
    var top := CleanInterval(Get(props, "minutesInterval"), Num(DefaultInterval), variant);
    var (kept, last) := Reviewed(Get(props, "display"), Scope(Get(props, "weekAlign"), top), Rules(WithMinutesInterval, variant));
    Settled(
      CleanOnChange(Get(props, "onChange")),
      CleanDate(Get(props, "date"), env.now),
      CleanZone(Get(props, "timeZone"), env),
      CleanLocale(Get(props, "locale"), env.isoCodes, env.language),
      CleanWeekday(Get(props, "weekday"), DefaultWeekday),
      last.weekAlign,
      Arr(if kept == [] then DefaultDisplay else Objects(kept)),
      last.interval)
  }

  /** `{...props, onChange, date, locale, weekday, weekAlign, display,
      minutesInterval}`. As written the checked time zone is not part of the
      result, which keeps the one given; the corrected result carries it. */
  function Spread(props: map<string, Value>, c: Settled, variant: Variant): (r: map<string, Value>)
    ensures "onChange" in r && r["onChange"] == c.onChange
    ensures "date" in r && r["date"] == c.date
    ensures "locale" in r && r["locale"] == c.locale
    ensures "weekday" in r && r["weekday"] == c.weekday
    ensures "weekAlign" in r && r["weekAlign"] == c.weekAlign
    ensures "display" in r && r["display"] == c.display
    ensures "minutesInterval" in r && r["minutesInterval"] == c.interval
    ensures variant == Corrected ==> "timeZone" in r && r["timeZone"] == c.timeZone
    ensures forall k :: k in props && k !in ResultKeys && (variant == AsWritten || k != "timeZone") ==> k in r && r[k] == props[k]
  {
    var r := props["onChange" := c.onChange]["date" := c.date]["locale" := c.locale]["weekday" := c.weekday]
                  ["weekAlign" := c.weekAlign]["display" := c.display]["minutesInterval" := c.interval];
    if variant == Corrected then r["timeZone" := c.timeZone] else r
  }

  const ResultKeys: seq<string> := ["onChange", "date", "locale", "weekday", "weekAlign", "display", "minutesInterval"]

  /** What `sanitize(props)` returns. */
  function Sanitized(props: map<string, Value>, env: Env, variant: Variant): map<string, Value> {
    Spread(props, Settle(props, env, variant), variant)
  }

  method Sanitize(props: map<string, Value>, env: Env, variant: Variant) returns (r: map<string, Value>)
    ensures r == Sanitized(props, env, variant)
  {
    var onChange := CleanOnChange(Get(props, "onChange"));
    var date := CleanDate(Get(props, "date"), env.now);
    var timeZone := CleanZone(Get(props, "timeZone"), env);
    var locale := CleanLocale(Get(props, "locale"), env.isoCodes, env.language);
    var weekday := CleanWeekday(Get(props, "weekday"), DefaultWeekday);
    var minutesInterval := SettleInterval(Get(props, "minutesInterval"), Num(DefaultInterval), variant);
    var kept, scope := ReviewBoth(Get(props, "display"), Scope(Get(props, "weekAlign"), minutesInterval), Rules(WithMinutesInterval, variant));
    var display := if kept == [] then DefaultDisplay else Objects(kept);
    r := Spread(props, Settled(onChange, date, timeZone, locale, weekday, scope.weekAlign, Arr(display), scope.interval), variant);
  }

  // ---------------------------------------------------------------------
  // What sanitize guarantees
  // ---------------------------------------------------------------------

  /** The corrected sanitizer's result: an interval for which the minutes
      list exists, a non-empty display of clean role objects, a valid
      weekday format and time zone, and `weekAlign` as given or valid. */
  lemma SanitizedIsClean(props: map<string, Value>, env: Env)
    ensures var r := Sanitized(props, env, Corrected);
            TimeLists.WholeDivisor(r["minutesInterval"])
            && TimeLists.GetMinutesOrPlaceholder(r["minutesInterval"]).List?
            && r["display"].Arr? && |r["display"].elems| > 0
            && (forall i :: 0 <= i < |r["display"].elems| ==>
                  r["display"].elems[i].Obj? && CleanItem(WithMinutesInterval, r["display"].elems[i].fields))
            && r["weekday"].Str? && r["weekday"].s in WeekdayValues
            && (r["timeZone"] == env.resolvedZone || (r["timeZone"].Str? && r["timeZone"].s in env.timeZones))
            && (r["weekAlign"] == Get(props, "weekAlign") || IsAlignment(r["weekAlign"]))
  {
    SettledIsClean(props, env);
    var c := Settle(props, env, Corrected);
    TimeLists.MinutesOfDivisor(c.interval);
  }

  lemma SettledIsClean(props: map<string, Value>, env: Env)
    ensures var c := Settle(props, env, Corrected);
            TimeLists.WholeDivisor(c.interval)
            && c.display.Arr? && |c.display.elems| > 0
            && (forall i :: 0 <= i < |c.display.elems| ==> c.display.elems[i].Obj? && CleanItem(WithMinutesInterval, c.display.elems[i].fields))
            && c.weekday.Str? && c.weekday.s in WeekdayValues
            && (c.timeZone == env.resolvedZone || (c.timeZone.Str? && c.timeZone.s in env.timeZones))
            && (c.weekAlign == Get(props, "weekAlign") || IsAlignment(c.weekAlign))
  {
    OneIsDivisor();
    CleanIntervalIsDivisor(Get(props, "minutesInterval"), Num(DefaultInterval));
    var top := CleanInterval(Get(props, "minutesInterval"), Num(DefaultInterval), Corrected);
    var scope := Scope(Get(props, "weekAlign"), top);
    ReviewedIsClean(Get(props, "display"), scope, WithMinutesInterval);
    var (kept, last) := Reviewed(Get(props, "display"), scope, Rules(WithMinutesInterval, Corrected));
    var c := Settle(props, env, Corrected);
    assert c.display == Arr(Objects(kept)) && c.interval == last.interval && c.weekAlign == last.weekAlign;
    forall i | 0 <= i < |c.display.elems|
      ensures c.display.elems[i].Obj? && CleanItem(WithMinutesInterval, c.display.elems[i].fields)
    {
      assert c.display.elems[i] == Obj(kept[i]);
    }
    assert DefaultWeekday == WeekdayValues[0];
  }

  /** As written, the time zone in the result is the one given, checked or
      not; the corrected result carries the checked one. */
  lemma TimeZoneUnchecked(props: map<string, Value>, env: Env)
    requires "timeZone" in props && !(props["timeZone"].Str? && props["timeZone"].s in env.timeZones)
    ensures Sanitized(props, env, AsWritten)["timeZone"] == props["timeZone"]
    ensures Sanitized(props, env, Corrected)["timeZone"] == env.resolvedZone
  {
    assert "timeZone" !in ResultKeys;
    assert Settle(props, env, Corrected).timeZone == env.resolvedZone;
  }

  /** As written, `minutesInterval: "0"` with an empty `display` comes back
      unchanged, and its minutes list throws. */
  lemma ZeroIntervalSurvives(env: Env)
    ensures var r := Sanitized(map["minutesInterval" := Str("0"), "display" := Arr([])], env, AsWritten);
            r["minutesInterval"] == Str("0") && TimeLists.GetMinutesOrPlaceholder(r["minutesInterval"]).RangeError?
  {
    ZeroStringKept();
  }

  /** As written, a `display` array where nothing survives the first pass
      becomes the list of role NAMES, none of which is an object with a
      role. */
  lemma EmptyDisplayGivesNames(props: map<string, Value>, env: Env)
    requires "display" in props && props["display"].Arr?
    requires forall i :: 0 <= i < |props["display"].elems| ==>
               !props["display"].elems[i].Str? && TypeOf(props["display"].elems[i]) != "object"
    ensures Sanitized(props, env, AsWritten)["display"] == Arr(DefaultDisplay)
    ensures forall i :: 0 <= i < |DefaultDisplay| ==> !DefaultDisplay[i].Obj?
  {
    OthersDropped(props["display"].elems);
    var top := CleanInterval(Get(props, "minutesInterval"), Num(DefaultInterval), AsWritten);
    var scope := Scope(Get(props, "weekAlign"), top);
    assert Review([], scope, Rules(WithMinutesInterval, AsWritten)).0 == [];
    assert Reviewed(props["display"], scope, Rules(WithMinutesInterval, AsWritten)).0 == [];
    assert Settle(props, env, AsWritten).display == Arr(DefaultDisplay);
  }
}

