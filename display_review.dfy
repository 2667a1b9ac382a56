/**
 * The second pass over `display`, which both sanitizers run with the same
 * code but for the name of the minutes interval and the keys an item may
 * keep: it drops items without a valid role, settles the interval of a
 * minutes item and the alignment of every item, and promotes the last
 * minutes interval and weekdays alignment to the top level of the props.
 */
module DisplayReview {
  import opened Js
  import opened Display
  import opened Intervals
  import TimeLists

  /** Which sanitizer: src/components/TimePicker/index.jsx, whose minutes
      item has a `minutesInterval`, or src/TimePicker/index.jsx, whose
      minutes item has an `everyNMinutes`. */
  datatype Picker = WithMinutesInterval | WithEveryNMinutes

  /** The sanitizer and the reading of its defects. */
  datatype Rules = Rules(picker: Picker, variant: Variant)

  function IntervalKey(picker: Picker): string {
    match picker
    case WithMinutesInterval => "minutesInterval"
    case WithEveryNMinutes => "everyNMinutes"
  }

  /** The keys an item of `display` may keep. */
  function AllowedKeys(picker: Picker): seq<string> {
    match picker
    case WithMinutesInterval => ["date", "timeZone", "role", "textAlign", "minutesInterval", "padding", "spacing", "verbose"]
    case WithEveryNMinutes => ["role", "textAlign", "everyNMinutes", "padding"]
  }

  /** The role, the alignment and the interval survive the key filter. */
  lemma KeysAllowed(picker: Picker)
    ensures "role" in AllowedKeys(picker) && "textAlign" in AllowedKeys(picker)
    ensures IntervalKey(picker) in AllowedKeys(picker)
  {
  }

  /** The interval of a minutes item, given its own value and the top-level
      one. */
  function MinutesRule(rules: Rules, own: Value, top: Value): Value {
    match rules.picker
    case WithMinutesInterval => CleanInterval(own, top, rules.variant)
    case WithEveryNMinutes => CleanEvery(own, top, rules.variant)
  }

  // ---------------------------------------------------------------------
  // The second pass over `display`
  // ---------------------------------------------------------------------

  /** The two variables the second pass updates as it goes: the top-level
      `weekAlign` and the minutes interval. */
  datatype Scope = Scope(weekAlign: Value, interval: Value)

  /** The second pass on one item: None when its role is not valid,
      otherwise the item with its interval and alignment settled and its
      unknown keys removed. */
  function ReviewItem(item: Value, scope: Scope, rules: Rules): (r: (Option<map<string, Value>>, Scope))
    ensures r.0.None? <==> !IsRole(Get(ItemFields(item), "role"))
    ensures r.0.None? ==> r.1 == scope
    ensures r.0.Some? ==> Get(r.0.value, "role") == Get(ItemFields(item), "role")
    ensures r.0.Some? ==> r.1.interval == if Get(r.0.value, "role") == Str("minutes") then Get(r.0.value, IntervalKey(rules.picker)) else scope.interval
    ensures r.0.Some? ==> r.1.weekAlign == if Get(r.0.value, "role") == Str("weekdays") then Get(r.0.value, "textAlign") else scope.weekAlign
  {
    KeysAllowed(rules.picker);
    var fields := ItemFields(item);
    var role := Get(fields, "role");
    if !IsRole(role) then (None, scope)
    else
      var interval :=
        if role.s == "minutes" then MinutesRule(rules, Get(fields, IntervalKey(rules.picker)), scope.interval)
        else scope.interval;
      var withInterval := if role.s == "minutes" then fields[IntervalKey(rules.picker) := interval] else fields;
      var weekAlign :=
        if role.s == "weekdays" then WeekdayAlign(Get(fields, "textAlign"), scope.weekAlign, rules.variant)
        else scope.weekAlign;
      var aligned :=
        if role.s == "weekdays" then withInterval["textAlign" := weekAlign]
        else DefaultAlign(role.s, withInterval);
      (Some(Restrict(aligned, AllowedKeys(rules.picker))), Scope(weekAlign, interval))
  }

  /** The second pass over a list: the items kept, in order, and the scope
      at the end. */
  function Review(items: seq<Value>, scope: Scope, rules: Rules): (seq<map<string, Value>>, Scope) {
    if items == [] then ([], scope)
    else
      var (item, next) := ReviewItem(items[0], scope, rules);
      var rest := Review(items[1..], next, rules);
      (if item.Some? then [item.value] + rest.0 else rest.0, rest.1)
  }

  /** `display.map(...).filter(item => !!item)` with the closure updating
      `weekAlign` and the minutes interval. */
  method ReviewDisplay(items: seq<Value>, scope0: Scope, rules: Rules)
    returns (kept: seq<map<string, Value>>, scope: Scope)
    ensures kept == Review(items, scope0, rules).0 && scope == Review(items, scope0, rules).1
  {
    kept, scope := [], scope0;
    var i := 0;
    assert items[i..] == items;
    while i < |items|
      invariant 0 <= i <= |items|
      invariant Review(items, scope0, rules).0 == kept + Review(items[i..], scope, rules).0
      invariant Review(items, scope0, rules).1 == Review(items[i..], scope, rules).1
    {
      var item, next := ReviewOne(items[i], scope, rules);
      ReviewAdvance(items, i, scope0, kept, scope, rules);
      if item.Some? {
        kept := kept + [item.value];
      }
      scope := next;
      i := i + 1;
    }
    assert kept + [] == kept;
  }

  /** One turn of the loop keeps its invariant. */
  lemma ReviewAdvance(items: seq<Value>, i: int, scope0: Scope, kept: seq<map<string, Value>>, scope: Scope, rules: Rules)
    requires 0 <= i < |items|
    requires Review(items, scope0, rules).0 == kept + Review(items[i..], scope, rules).0
    requires Review(items, scope0, rules).1 == Review(items[i..], scope, rules).1
    ensures var (item, next) := ReviewItem(items[i], scope, rules);
            Review(items, scope0, rules).0
              == (if item.Some? then kept + [item.value] else kept) + Review(items[i + 1..], next, rules).0
            && Review(items, scope0, rules).1 == Review(items[i + 1..], next, rules).1
  {
    var (item, next) := ReviewItem(items[i], scope, rules);
    var rest := Review(items[i + 1..], next, rules);
    ReviewStep(items[i..], scope, rules);
    assert items[i..][0] == items[i] && items[i..][1..] == items[i + 1..];
    if item.Some? {
      assert kept + ([item.value] + rest.0) == (kept + [item.value]) + rest.0;
    }
  }

  lemma ReviewStep(items: seq<Value>, scope: Scope, rules: Rules)
    requires items != []
    ensures var (item, next) := ReviewItem(items[0], scope, rules);
            var rest := Review(items[1..], next, rules);
            Review(items, scope, rules).0 == (if item.Some? then [item.value] + rest.0 else rest.0)
            && Review(items, scope, rules).1 == rest.1
  {
  }

  /** The arrow function of the second pass, on one item. */
  method ReviewOne(item: Value, scope: Scope, rules: Rules) returns (kept: Option<map<string, Value>>, next: Scope)
    ensures kept == ReviewItem(item, scope, rules).0 && next == ReviewItem(item, scope, rules).1
  {
    var fields := ItemFields(item);
    var role := Get(fields, "role");
    next := scope;
    if !IsRole(role) {
      return None, next;
    }
    if role.s == "minutes" {
      var own := Get(fields, IntervalKey(rules.picker));
      var minInt;
      if rules.picker == WithMinutesInterval {
        minInt := SettleInterval(own, scope.interval, rules.variant);
      } else {
        minInt := CleanEvery(own, scope.interval, rules.variant);
      }
      next := next.(interval := minInt);
      fields := fields[IntervalKey(rules.picker) := minInt];
    }
    if role.s == "weekdays" {
      var textAlign := WeekdayAlign(Get(fields, "textAlign"), scope.weekAlign, rules.variant);
      next := next.(weekAlign := textAlign);
      fields := fields["textAlign" := textAlign];
    } else {
      fields := DefaultAlign(role.s, fields);
    }
    kept := Some(Restrict(fields, AllowedKeys(rules.picker)));
  }

  // ---------------------------------------------------------------------
  // What the second pass guarantees
  // ---------------------------------------------------------------------

  /** An item as the corrected second pass leaves it: a valid role, only
      allowed keys, a valid alignment, and for minutes a whole divisor of
      60 as its interval. */
  predicate CleanItem(picker: Picker, f: map<string, Value>) {
    IsRole(Get(f, "role"))
    && (forall k :: k in f ==> k in AllowedKeys(picker))
    && IsAlignment(Get(f, "textAlign"))
    && (Get(f, "role") == Str("minutes") ==> TimeLists.WholeDivisor(Get(f, IntervalKey(picker))))
  }

  lemma ReviewItemIsClean(item: Value, scope: Scope, picker: Picker)
    requires TimeLists.WholeDivisor(scope.interval)
    ensures var (kept, next) := ReviewItem(item, scope, Rules(picker, Corrected));
            (kept.Some? ==> CleanItem(picker, kept.value))
            && TimeLists.WholeDivisor(next.interval)
            && (next.weekAlign == scope.weekAlign || IsAlignment(next.weekAlign))
  {
    var rules := Rules(picker, Corrected);
    var fields := ItemFields(item);
    var role := Get(fields, "role");
    var (kept, next) := ReviewItem(item, scope, rules);
    if IsRole(role) {
      KeysAllowed(picker);
      var f := kept.value;
      if role.s == "minutes" {
        var interval := MinutesRule(rules, Get(fields, IntervalKey(picker)), scope.interval);
        CleanIntervalIsDivisor(Get(fields, IntervalKey(picker)), scope.interval);
        assert TimeLists.WholeDivisor(interval);
        assert f == Restrict(DefaultAlign(role.s, fields[IntervalKey(picker) := interval]), AllowedKeys(picker));
      } else if role.s == "weekdays" {
        WeekdayAlignIsValid(Get(fields, "textAlign"), scope.weekAlign);
      }
    }
  }

  /** With a whole divisor of 60 as the starting interval, every item the
      corrected pass keeps is clean, the interval it promotes stays a whole
      divisor of 60, and `weekAlign` is either untouched or an alignment. */
  lemma {:induction false} ReviewIsClean(items: seq<Value>, scope: Scope, picker: Picker)
    requires TimeLists.WholeDivisor(scope.interval)
    ensures var (kept, last) := Review(items, scope, Rules(picker, Corrected));
            (forall i :: 0 <= i < |kept| ==> CleanItem(picker, kept[i]))
            && TimeLists.WholeDivisor(last.interval)
            && (last.weekAlign == scope.weekAlign || IsAlignment(last.weekAlign))
  {
    if items != [] {
      ReviewItemIsClean(items[0], scope, picker);
      var (_, next) := ReviewItem(items[0], scope, Rules(picker, Corrected));
      ReviewIsClean(items[1..], next, picker);
    }
  }

  /** The value of `key` on the last item with role `role`, or `default`
      when there is none. */
  function LastOf(items: seq<map<string, Value>>, role: string, key: string, default: Value): Value {
    if items == [] then default
    else LastOf(items[1..], role, key, if Get(items[0], "role") == Str(role) then Get(items[0], key) else default)
  }

  /** The top-level minutes interval and `weekAlign` are those of the last
      minutes and weekdays items kept, or the starting values when there is
      no such item. */
  lemma {:induction false} ReviewPromotes(items: seq<Value>, scope: Scope, rules: Rules)
    ensures var (kept, last) := Review(items, scope, rules);
            last.interval == LastOf(kept, "minutes", IntervalKey(rules.picker), scope.interval)
            && last.weekAlign == LastOf(kept, "weekdays", "textAlign", scope.weekAlign)
  {
    if items != [] {
      var (item, next) := ReviewItem(items[0], scope, rules);
      ReviewPromotes(items[1..], next, rules);
      ReviewStep(items, scope, rules);
      var rest := Review(items[1..], next, rules).0;
      if item.Some? {
        assert ([item.value] + rest)[1..] == rest;
      }
    }
  }

  /** The roles of the items with a valid role, in order. */
  function ValidRoles(items: seq<Value>): seq<Value> {
    if items == [] then []
    else if IsRole(Get(ItemFields(items[0]), "role")) then [Get(ItemFields(items[0]), "role")] + ValidRoles(items[1..])
    else ValidRoles(items[1..])
  }

  function RolesOf(items: seq<map<string, Value>>): (r: seq<Value>)
    ensures |r| == |items|
  {
    seq(|items|, i requires 0 <= i < |items| => Get(items[i], "role"))
  }

  /** The second pass keeps exactly the items with a valid role, in their
      order, whatever it does to their other keys. */
  lemma {:induction false} ReviewKeepsValidRoles(items: seq<Value>, scope: Scope, rules: Rules)
    ensures RolesOf(Review(items, scope, rules).0) == ValidRoles(items)
  {
    if items != [] {
      var (item, next) := ReviewItem(items[0], scope, rules);
      ReviewKeepsValidRoles(items[1..], next, rules);
      ReviewStep(items, scope, rules);
      var rest := Review(items[1..], next, rules).0;
      if item.Some? {
        RolesOfCons(item.value, rest);
      }
    }
  }

  lemma RolesOfCons(item: map<string, Value>, rest: seq<map<string, Value>>)
    ensures RolesOf([item] + rest) == [Get(item, "role")] + RolesOf(rest)
  {
    assert forall i :: 1 <= i <= |rest| ==> ([item] + rest)[i] == rest[i - 1];
  }

  /** Both passes over `display`. When nothing survives, the corrected
      sanitizer reviews the default list instead. */
  function Reviewed(display: Value, scope: Scope, rules: Rules): (seq<map<string, Value>>, Scope) {
    var first := Review(Entries(DisplayList(display)), scope, rules);
    if first.0 == [] && rules.variant == Corrected then Review(Entries(DefaultDisplay), first.1, rules) else first
  }

  function Objects(items: seq<map<string, Value>>): (r: seq<Value>)
    ensures |r| == |items| && forall i :: 0 <= i < |r| ==> r[i] == Obj(items[i])
  {
    seq(|items|, i requires 0 <= i < |items| => Obj(items[i]))
  }

  method ReviewBoth(display: Value, scope0: Scope, rules: Rules) returns (kept: seq<map<string, Value>>, scope: Scope)
    ensures kept == Reviewed(display, scope0, rules).0 && scope == Reviewed(display, scope0, rules).1
  {
    kept, scope := ReviewDisplay(Entries(DisplayList(display)), scope0, rules);
    if kept == [] && rules.variant == Corrected {
      kept, scope := ReviewDisplay(Entries(DefaultDisplay), scope, rules);
    }
  }

  /** The default list survives the second pass whole. */
  lemma DefaultsKept(scope: Scope, rules: Rules)
    ensures |Review(Entries(DefaultDisplay), scope, rules).0| == 3
  {
    LowerOfLower("weekdays");
    LowerOfLower("hours");
    LowerOfLower("minutes");
    RoleNamesKept(DefaultDisplay);
    ReviewKeepsValidRoles(Entries(DefaultDisplay), scope, rules);
  }

  /** Role names in any case all reach the result of the second pass. */
  lemma {:induction false} RoleNamesKept(items: seq<Value>)
    requires forall i :: 0 <= i < |items| ==> items[i].Str? && Lower(items[i].s) in Roles
    ensures |ValidRoles(Entries(items))| == |items|
  {
    if items != [] {
      RoleNamesKept(items[1..]);
      var role := Str(Lower(items[0].s));
      assert Entries(items) == [Obj(map["role" := role])] + Entries(items[1..]);
      assert Get(ItemFields(Obj(map["role" := role])), "role") == role;
      assert (Entries(items))[1..] == Entries(items[1..]);
    }
  }

  /** Both passes, corrected: at least one item, every item clean, the
      promoted interval a whole divisor of 60, and `weekAlign` untouched or
      an alignment. */
  lemma ReviewedIsClean(display: Value, scope: Scope, picker: Picker)
    requires TimeLists.WholeDivisor(scope.interval)
    ensures var (kept, last) := Reviewed(display, scope, Rules(picker, Corrected));
            |kept| > 0
            && (forall i :: 0 <= i < |kept| ==> CleanItem(picker, kept[i]))
            && TimeLists.WholeDivisor(last.interval)
            && (last.weekAlign == scope.weekAlign || IsAlignment(last.weekAlign))
  {
    var rules := Rules(picker, Corrected);
    var first := Review(Entries(DisplayList(display)), scope, rules);
    ReviewIsClean(Entries(DisplayList(display)), scope, picker);
    if first.0 == [] {
      ReviewIsClean(Entries(DefaultDisplay), first.1, picker);
      DefaultsKept(first.1, rules);
    }
  }

}
