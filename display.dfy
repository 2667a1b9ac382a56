/**
 * What the two time pickers' sanitizers share: the list of cylinders to
 * show (`display`) turned into role objects, the alignment rules for each
 * role, the weekday-name format and locale checks, and the key filter.
 *
 * Where a rule has a known defect the model keeps both readings, chosen by
 * a `Variant`: `AsWritten` follows the source line by line, `Corrected` is
 * what the surrounding code evidently intends.
 */
module Display {
  import opened Js

  datatype Variant = AsWritten | Corrected

  const Roles: seq<string> := ["weekdays", "hours", "minutes"]
  const Alignments: seq<string> := ["left", "right", "center"]
  const WeekdayValues: seq<string> := ["long", "short", "narrow"]
  const DefaultWeekAlign := "center"

  /** The default `display`: the role names, as strings. */
  const DefaultDisplay: seq<Value> := [Str("weekdays"), Str("hours"), Str("minutes")]

  /** `roles.indexOf(v) >= 0`: strict equality, so only strings match. */
  predicate IsRole(v: Value) {
    v.Str? && v.s in Roles
  }

  /** `alignments.indexOf(v) >= 0` */
  predicate IsAlignment(v: Value) {
    v.Str? && v.s in Alignments
  }

  // ---------------------------------------------------------------------
  // The first pass over `display`
  // ---------------------------------------------------------------------

  /** One entry of the first pass: a string is lowered and becomes a role
      object when it names a role; a value of type object other than null is
      kept; anything else is dropped. */
  function Entry(item: Value): (r: Option<Value>)
    ensures r.Some? ==> TypeOf(r.value) == "object" && r.value != Null
    ensures item.Str? ==> (r.Some? <==> Lower(item.s) in Roles)
    ensures item.Str? && r.Some? ==> r.value == Obj(map["role" := Str(Lower(item.s))])
    ensures !item.Str? ==> (r.Some? <==> TypeOf(item) == "object" && item != Null) && (r.Some? ==> r.value == item)
  {
    match item
    case Str(s) => if Lower(s) in Roles then Some(Obj(map["role" := Str(Lower(s))])) else None
    case Null => None
    case _ => if TypeOf(item) == "object" then Some(item) else None
  }

  /** `display.map(entry).filter(item => !!item)`, from a list or, for any
      other value, from the default list. */
  function Entries(items: seq<Value>): (r: seq<Value>)
    ensures |r| <= |items|
    ensures forall i :: 0 <= i < |r| ==> TypeOf(r[i]) == "object" && r[i] != Null
  {
    if items == [] then []
    else
      match Entry(items[0])
      case Some(v) => [v] + Entries(items[1..])
      case None => Entries(items[1..])
  }

  function DisplayList(display: Value): seq<Value> {
    if display.Arr? then display.elems else DefaultDisplay
  }

  /** The first pass keeps the order of what it keeps: it is the list of the
      kept entries, item by item. */
  lemma {:induction false} EntriesSplit(a: seq<Value>, b: seq<Value>)
    ensures Entries(a + b) == Entries(a) + Entries(b)
  {
    if a == [] {
      assert a + b == b;
    } else {
      assert (a + b)[1..] == a[1..] + b;
      EntriesSplit(a[1..], b);
    }
  }

  /** Role names in any case become role objects, one per name; so does the
      default list. */
  lemma {:induction false} RoleNamesBecomeObjects(items: seq<Value>)
    requires forall i :: 0 <= i < |items| ==> items[i].Str? && Lower(items[i].s) in Roles
    ensures |Entries(items)| == |items|
    ensures forall i :: 0 <= i < |items| ==> Entries(items)[i] == Obj(map["role" := Str(Lower(items[i].s))])
  {
    if items != [] {
      RoleNamesBecomeObjects(items[1..]);
    }
  }

  /** The default list becomes the three role objects. */
  lemma DefaultDisplayEntries()
    ensures Entries(DefaultDisplay)
            == [Obj(map["role" := Str("weekdays")]), Obj(map["role" := Str("hours")]), Obj(map["role" := Str("minutes")])]
  {
    LowerOfLower("weekdays");
    LowerOfLower("hours");
    LowerOfLower("minutes");
    RoleNamesBecomeObjects(DefaultDisplay);
  }

  lemma LowerOfLower(s: string)
    requires forall i :: 0 <= i < |s| ==> 'a' <= s[i] <= 'z'
    ensures Lower(s) == s
  {
  }

  /** Objects pass the first pass unchanged. */
  lemma {:induction false} ObjectsKept(items: seq<Value>)
    requires forall i :: 0 <= i < |items| ==> items[i].Obj?
    ensures Entries(items) == items
  {
    if items != [] {
      ObjectsKept(items[1..]);
    }
  }

  /** Values that are neither strings nor objects leave nothing behind. */
  lemma {:induction false} OthersDropped(items: seq<Value>)
    requires forall i :: 0 <= i < |items| ==> !items[i].Str? && TypeOf(items[i]) != "object"
    ensures Entries(items) == []
  {
    if items != [] {
      OthersDropped(items[1..]);
    }
  }

  // ---------------------------------------------------------------------
  // The second pass: one item
  // ---------------------------------------------------------------------

  /** `{...item}` as far as the role check can see: the fields of an
      object. The copy of an array holds only index keys and that of a date
      none, so neither has a role and both are dropped. */
  function ItemFields(item: Value): map<string, Value> {
    if item.Obj? then item.fields else map[]
  }

  /** Removes every key that is not allowed. */
  function Restrict(fields: map<string, Value>, allowed: seq<string>): (r: map<string, Value>)
    ensures r.Keys == set k | k in fields && k in allowed
    ensures forall k :: k in r ==> r[k] == fields[k]
  {
    map k | k in fields && k in allowed :: fields[k]
  }

  /** The alignment of a weekdays item, which also becomes the top-level
      `weekAlign`: its own alignment lowered when valid, else a valid
      `weekAlign`, else "center". As written, an own alignment that is not a
      string is kept whenever `weekAlign` is valid and it is truthy. */
  function WeekdayAlign(textAlign: Value, weekAlign: Value, variant: Variant): Value {
    var week := if IsAlignment(weekAlign) then weekAlign else Bool(false);
    var own :=
      if !textAlign.Str? then
        (if !Truthy(week) then Str(DefaultWeekAlign) else textAlign)
      else
        var lowered := Str(Lower(textAlign.s));
        if IsAlignment(lowered) then lowered
        else if Truthy(week) then week
        else Str(DefaultWeekAlign);
    match variant
    case AsWritten => if Truthy(own) then own else week
    case Corrected => if IsAlignment(own) then own else week
  }

  /** The corrected rule always gives an alignment: the item's own when it
      names one in any case, else a valid `weekAlign`, else "center". */
  lemma WeekdayAlignIsValid(textAlign: Value, weekAlign: Value)
    ensures var r := WeekdayAlign(textAlign, weekAlign, Corrected);
            IsAlignment(r)
            && (textAlign.Str? && IsAlignment(Str(Lower(textAlign.s))) ==> r == Str(Lower(textAlign.s)))
            && (!(textAlign.Str? && IsAlignment(Str(Lower(textAlign.s)))) && IsAlignment(weekAlign) ==> r == weekAlign)
            && (!(textAlign.Str? && IsAlignment(Str(Lower(textAlign.s)))) && !IsAlignment(weekAlign)
                ==> r == Str(DefaultWeekAlign))
  {
    assert IsAlignment(Str(DefaultWeekAlign)) by { assert DefaultWeekAlign == Alignments[2]; }
  }

  /** The two readings differ exactly when the item's own alignment is a
      truthy value that is not a string and `weekAlign` is valid. */
  lemma WeekdayAlignDiffers(textAlign: Value, weekAlign: Value)
    ensures WeekdayAlign(textAlign, weekAlign, AsWritten) != WeekdayAlign(textAlign, weekAlign, Corrected)
            <==> !textAlign.Str? && Truthy(textAlign) && IsAlignment(weekAlign)
  {
    assert IsAlignment(Str(DefaultWeekAlign)) by { assert DefaultWeekAlign == Alignments[2]; }
  }

  /** As written, a weekdays item with `textAlign: 5` and `weekAlign: "left"`
      keeps 5 as its alignment, and 5 becomes the top-level `weekAlign`. */
  lemma NonStringAlignKept()
    ensures WeekdayAlign(Num(5.0), Str("left"), AsWritten) == Num(5.0)
    ensures !IsAlignment(WeekdayAlign(Num(5.0), Str("left"), AsWritten))
  {
    assert IsAlignment(Str("left")) by { assert "left" == Alignments[0]; }
  }

  /** Hours and minutes items without a valid alignment get "right" and
      "left"; other fields are kept. */
  function DefaultAlign(role: string, fields: map<string, Value>): (r: map<string, Value>)
    ensures IsAlignment(Get(fields, "textAlign")) ==> r == fields
    ensures !IsAlignment(Get(fields, "textAlign")) && role == "hours" ==> r == fields["textAlign" := Str("right")]
    ensures !IsAlignment(Get(fields, "textAlign")) && role == "minutes" ==> r == fields["textAlign" := Str("left")]
    ensures role == "hours" || role == "minutes" ==> IsAlignment(Get(r, "textAlign"))
  {
    assert "right" == Alignments[1] && "left" == Alignments[0];
    if IsAlignment(Get(fields, "textAlign")) then fields
    else if role == "hours" then fields["textAlign" := Str("right")]
    else if role == "minutes" then fields["textAlign" := Str("left")]
    else fields
  }

  // ---------------------------------------------------------------------
  // Top-level checks
  // ---------------------------------------------------------------------

  /** The weekday-name format: a string lowered to long, short or narrow;
      anything else becomes the default. */
  function CleanWeekday(weekday: Value, default: string): (r: Value)
    ensures weekday.Str? && Lower(weekday.s) in WeekdayValues ==> r == Str(Lower(weekday.s))
    ensures !(weekday.Str? && Lower(weekday.s) in WeekdayValues) ==> r == Str(default)
  {
    if weekday.Str? && Lower(weekday.s) in WeekdayValues then Str(Lower(weekday.s)) else Str(default)
  }

  /** The locale: a string whose first two characters, lowered, are an ISO
      code is kept as it is; anything else becomes the default. */
  function CleanLocale(locale: Value, isoCodes: seq<string>, default: Value): (r: Value)
    ensures locale.Str? && Lower(Prefix(locale.s, 2)) in isoCodes ==> r == locale
    ensures !(locale.Str? && Lower(Prefix(locale.s, 2)) in isoCodes) ==> r == default
  {
    if locale.Str? && Lower(Prefix(locale.s, 2)) in isoCodes then locale else default
  }

  /** A two-letter code followed by a region is accepted by its language. */
  lemma LocaleByLanguage(code: string, region: string, isoCodes: seq<string>, default: Value)
    requires |code| == 2 && code in isoCodes && Lower(code) == code
    ensures CleanLocale(Str(code + region), isoCodes, default) == Str(code + region)
  {
    assert Prefix(code + region, 2) == code;
  }
}
