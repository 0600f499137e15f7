/** Freshness of a response (sections 4.2.1 and 4.2.3 of RFC 9111) on saturating 64-bit nanoseconds: responseFreshness,
  * replayAge and the freshness part of replayable and cacheDecision in cache.go. */
module Freshness {
  import opened Wrappers
  import opened Text
  import opened Int64
  import opened CacheControl
  import opened HeaderMaps

  /** A point in time, in nanoseconds of unbounded range. */
  type Time = int

  /** http.ParseTime: a point in time, or None for what is not a date. */
  type DateParser = string -> Option<Time>

  // ---------------------------------------------------------------- 64-bit arithmetic

  /** saturatingAdd: detects the wrap-around of the sum. */
  function SaturatingAdd(a: Duration, b: Duration): Duration {
    var sum := Wrap(a + b);
    if sum >= a then sum else MAX
  }

  lemma SaturatingAddIsClamped(a: Duration, b: Duration)
    requires a >= 0 && b >= 0
    ensures SaturatingAdd(a, b) == Clamp(a + b)
  {
  }

  // ---------------------------------------------------------------- the fields

  /** The values of every key that is the field name up to case, merged in the order of iteration. */
  function Collect(h: Header, order: seq<string>, name: string): seq<string> {
    Gather(h, order, k => EqualFold(k, name))
  }

  datatype Fields = Fields(control: seq<string>, expires: seq<string>, date: seq<string>, age: seq<string>)

  function FieldsOf(h: Header, order: seq<string>): Fields {
    Fields(Collect(h, order, "Cache-Control"), Collect(h, order, "Expires"), Collect(h, order, "Date"),
        Collect(h, order, "Age"))
  }

  /** The values of a field are those of every key that is spelled with its letters, in any case, and no others. */
  lemma CollectedExactly(h: Header, order: seq<string>, name: string, v: string)
    requires IterationOrder(h, order)
    ensures v in Collect(h, order, name) <==> exists key :: key in h && SameLetters(key, name) && v in h[key]
  {
    if v in Collect(h, order, name) {
      var i := GatheredFrom(h, order, k => EqualFold(k, name), v);
      FoldIsSameLetters(order[i], name);
    }
    if key :| key in h && SameLetters(key, name) && v in h[key] {
      var i :| 0 <= i < |order| && order[i] == key;
      FoldIsSameLetters(key, name);
      GatherHas(h, order, k => EqualFold(k, name), i, v);
    }
  }

  lemma CollectSnoc(h: Header, order: seq<string>, i: nat, name: string)
    requires i < |order| && order[i] in h
    ensures Collect(h, order[..i + 1], name) ==
            Collect(h, order[..i], name) + (if EqualFold(order[i], name) then h[order[i]] else [])
  {
    assert order[..i + 1] == order[..i] + [order[i]];
    GatherSnoc(h, order[..i], order[i], k => EqualFold(k, name));
  }

  /** freshnessFields: one pass over the map, in whatever order it is iterated. */
  method FreshnessFields(h: Header, order: seq<string>) returns (f: Fields)
    requires IterationOrder(h, order)
    ensures f == FieldsOf(h, order)
  {
    var control: seq<string>, expires: seq<string>, date: seq<string>, age: seq<string> := [], [], [], [];
    for i := 0 to |order|
      invariant control == Collect(h, order[..i], "Cache-Control") && expires == Collect(h, order[..i], "Expires")
      invariant date == Collect(h, order[..i], "Date") && age == Collect(h, order[..i], "Age")
    {
      var key := order[i];
      CollectSnoc(h, order, i, "Cache-Control");
      CollectSnoc(h, order, i, "Expires");
      CollectSnoc(h, order, i, "Date");
      CollectSnoc(h, order, i, "Age");
      NamesDiffer(key);
      if EqualFold(key, "Cache-Control") {
        control := control + h[key];
      } else if EqualFold(key, "Expires") {
        expires := expires + h[key];
      } else if EqualFold(key, "Date") {
        date := date + h[key];
      } else if EqualFold(key, "Age") {
        age := age + h[key];
      }
    }
    assert order[..|order|] == order;
    f := Fields(control, expires, date, age);
  }

  /** The four names are told apart by their lengths. */
  lemma NamesDiffer(key: string)
    ensures EqualFold(key, "Cache-Control") ==> |key| == 13
    ensures EqualFold(key, "Expires") ==> |key| == 7
    ensures EqualFold(key, "Date") ==> |key| == 4
    ensures EqualFold(key, "Age") ==> |key| == 3
  {
    assert |ToLower(key)| == |key|;
    assert |ToLower("Cache-Control")| == 13 && |ToLower("Expires")| == 7 && |ToLower("Date")| == 4
        && |ToLower("Age")| == 3;
  }

  // ---------------------------------------------------------------- age and lifetime

  /** parseAgeValue: the first member if the value is a list. */
  function ParseAge(raw: string): Option<nat> {
    ParseDeltaSeconds(Before(raw, ','))
  }

  function ParseAges(values: seq<string>): (ages: seq<Option<nat>>)
    ensures |ages| == |values| && forall i :: 0 <= i < |values| ==> ages[i] == ParseAge(values[i])
  {
    seq(|values|, i requires 0 <= i < |values| => ParseAge(values[i]))
  }

  /** r is the largest of the ages that could be parsed, if any could. */
  ghost predicate IsLargest(ages: seq<Option<nat>>, r: Option<nat>) {
    if r.None? then forall a :: a in ages ==> a.None?
    else r in ages && forall a :: a in ages && a.Some? ==> a.value <= r.value
  }

  lemma LargestSnoc(ages: seq<Option<nat>>, r: Option<nat>, a: Option<nat>)
    requires IsLargest(ages, r)
    ensures IsLargest(ages + [a], if a.None? then r else if r.None? || a.value > r.value then a else r)
  {
    assert forall x :: x in ages + [a] <==> x in ages || x == a;
  }

  lemma LargestUnique(ages: seq<Option<nat>>, ages': seq<Option<nat>>, r: Option<nat>, r': Option<nat>)
    requires (forall a :: a in ages <==> a in ages') && IsLargest(ages, r) && IsLargest(ages', r')
    ensures r == r'
  {
    assert r.Some? ==> r in ages';
    assert r'.Some? ==> r' in ages;
  }

  function Largest(ages: seq<Option<nat>>): (r: Option<nat>)
    ensures IsLargest(ages, r)
  {
    if ages == [] then None
    else
      var init, a := ages[..|ages| - 1], ages[|ages| - 1];
      var r := Largest(init);
      LargestSnoc(init, r, a);
      assert ages == init + [a];
      if a.None? then r else if r.None? || a.value > r.value then a else r
  }

  function MaxAge(values: seq<string>): Option<nat> {
    Largest(ParseAges(values))
  }

  lemma MaxAgeInRange(values: seq<string>)
    ensures MaxAge(values).Some? ==> MaxAge(values).value <= MAX
  {
    var r := MaxAge(values);
    if r.Some? {
      var i :| 0 <= i < |values| && ParseAges(values)[i] == r;
      DeltaSecondsClamped(Before(values[i], ','));
    }
  }

  /** maxAgeValue, over the parsed values: those that are not valid are skipped. */
  method LargestAge(ages: seq<Option<nat>>) returns (largest: nat, found: bool)
    ensures (if found then Some(largest) else None) == Largest(ages)
    ensures !found ==> largest == 0
  {
    largest, found := 0, false;
    for i := 0 to |ages|
      invariant IsLargest(ages[..i], if found then Some(largest) else None)
      invariant !found ==> largest == 0
    {
      LargestSnoc(ages[..i], if found then Some(largest) else None, ages[i]);
      assert ages[..i + 1] == ages[..i] + [ages[i]];
      if ages[i].Some? {
        largest, found := if largest >= ages[i].value then largest else ages[i].value, true;
      }
    }
    assert ages[..|ages|] == ages;
    LargestUnique(ages, ages, if found then Some(largest) else None, Largest(ages));
  }

  /** What the parsers make of the four fields. */
  datatype Facts = Facts(freshness: Option<nat>, expires: seq<string>, date: seq<string>, age: Option<nat>)

  function FactsOf(f: Fields): Facts {
    Facts(FreshnessOf(f.control), f.expires, f.date, MaxAge(f.age))
  }

  /** headerDate: a repeated or missing Date counts as unparsable. */
  function HeaderDate(parse: DateParser, date: seq<string>): Option<Time> {
    if |date| == 1 && date[0] != "" then parse(date[0]) else None
  }

  predicate InRange(f: Facts) {
    f.age.Some? ==> f.age.value <= MAX
  }

  lemma FactsInRange(f: Fields)
    ensures InRange(FactsOf(f))
  {
    MaxAgeInRange(f.age);
  }

  /** declaredLifetime: s-maxage before max-age before Expires minus Date; what is malformed is stale. */
  function DeclaredLifetime(parse: DateParser, f: Facts, receivedAt: Time): Option<Duration> {
    if f.freshness.Some? then Some(Clamp(f.freshness.value))
    else if |f.expires| > 1 then Some(0)
    else if |f.expires| == 0 then None
    else
      var expiresAt := parse(f.expires[0]);
      if expiresAt.None? then Some(0)
      else
        var date := HeaderDate(parse, f.date);
        Some(Clamp(expiresAt.value - if date.Some? then date.value else receivedAt))
  }

  /** headerAge: the larger of apparent_age and age_value + response_delay. */
  function HeaderAge(parse: DateParser, f: Facts, delay: Duration, now: Time): Duration
    requires delay >= 0 && InRange(f)
  {
    var date, age := HeaderDate(parse, f.date), f.age;
    var apparent := if date.Some? then Max(Clamp(now - date.value), 0) else 0;
    var corrected := if age.Some? then SaturatingAdd(age.value, delay) else delay;
    Max(apparent, corrected)
  }

  /** responseFreshness: compares before it subtracts. */
  function ResponseFreshness(parse: DateParser, f: Facts, f': Facts, delay: Duration, receivedAt: Time,
                             now: Time): Option<Duration>
    requires delay >= 0 && InRange(f')
  {
    var lifetime := DeclaredLifetime(parse, f, receivedAt);
    if lifetime.None? then None
    else
      var age := HeaderAge(parse, f', delay, now);
      if lifetime.value <= age then Some(0) else Some(Wrap(lifetime.value - age))
  }

  // ---------------------------------------------------------------- the numbers that are written, unbounded

  function WrittenAges(values: seq<string>): (ages: seq<Option<nat>>)
    ensures |ages| == |values| && forall i :: 0 <= i < |values| ==> ages[i] == Seconds(Before(values[i], ','))
  {
    seq(|values|, i requires 0 <= i < |values| => Seconds(Before(values[i], ',')))
  }

  function InNanoseconds(seconds: Option<nat>): Option<nat> {
    if seconds.None? then None else Some(seconds.value * SECOND)
  }

  /** What the fields say, before anything is clamped. */
  function WrittenFacts(f: Fields): Facts {
    Facts(InNanoseconds(Declared(FreshnessParams(Directives(f.control)))), f.expires, f.date,
          InNanoseconds(Largest(WrittenAges(f.age))))
  }

  function TrueLifetime(parse: DateParser, f: Facts, receivedAt: Time): Option<int> {
    if f.freshness.Some? then Some(f.freshness.value)
    else if |f.expires| > 1 then Some(0)
    else if |f.expires| == 0 then None
    else
      var expiresAt, date := parse(f.expires[0]), HeaderDate(parse, f.date);
      Some(if expiresAt.None? then 0 else expiresAt.value - if date.Some? then date.value else receivedAt)
  }

  function TrueAge(parse: DateParser, f: Facts, delay: nat, now: Time): nat {
    var date, age := HeaderDate(parse, f.date), f.age;
    Max(if date.Some? then Max(now - date.value, 0) else 0, (if age.Some? then age.value else 0) + delay)
  }

  /** The field is one line, and a date. */
  ghost predicate ReadableDate(parse: DateParser, date: seq<string>, d: Time) {
    exists raw :: date == [raw] && raw != "" && parse(raw) == Some(d)
  }

  ghost predicate NoReadableDate(parse: DateParser, date: seq<string>) {
    forall d: Time :: !ReadableDate(parse, date, d)
  }

  /** a is the least age that is neither below what has passed since the Date nor below the Age and the delay. */
  ghost predicate LeastAge(a: nat, sinceDate: int, age: Option<nat>, delay: nat) {
    var corrected := if age.Some? then age.value + delay else delay;
    sinceDate <= a && corrected <= a && (a == sinceDate || a == corrected)
  }

  ghost predicate OneExpires(parse: DateParser, f: Facts, t: Time) {
    f.freshness.None? && |f.expires| == 1 && parse(f.expires[0]) == Some(t)
  }

  /** What a Date says: Expires counts from it, and the response is at least as old as it. A Date that is missing,
    * repeated or unreadable says nothing; Expires then counts from the arrival of the response. */
  lemma DateCounts(parse: DateParser, f: Facts, delay: nat, receivedAt: Time, now: Time)
    ensures forall d: Time :: ReadableDate(parse, f.date, d) ==>
              LeastAge(TrueAge(parse, f, delay, now), now - d, f.age, delay)
              && (forall t: Time :: OneExpires(parse, f, t) ==> TrueLifetime(parse, f, receivedAt) == Some(t - d))
    ensures NoReadableDate(parse, f.date) ==>
              LeastAge(TrueAge(parse, f, delay, now), 0, f.age, delay)
              && (forall t: Time :: OneExpires(parse, f, t) ==>
                    TrueLifetime(parse, f, receivedAt) == Some(t - receivedAt))
  {
    if |f.date| == 1 && f.date[0] != "" && parse(f.date[0]).Some? {
      assert f.date == [f.date[0]];
      assert ReadableDate(parse, f.date, parse(f.date[0]).value);
    }
  }

  /** The declarations that count conflict, and each is longer than can be expressed. */
  predicate Conflict(f: Fields) {
    LongConflict(FreshnessParams(Directives(f.control)))
  }

  /** The largest age, clamped, is the largest of the clamped ages. */
  lemma LargestClamped(a: seq<Option<nat>>, b: seq<Option<nat>>)
    requires |a| == |b| && forall i :: 0 <= i < |a| ==> b[i] == Clamped(a[i])
    ensures Largest(b) == Clamped(Largest(a))
  {
    var r := Largest(a);
    if r.Some? {
      var i :| 0 <= i < |a| && a[i] == r;
      assert b[i] == Clamped(r);
      forall x | x in b && x.Some? ensures x.value <= Clamped(r).value {
        var j :| 0 <= j < |b| && b[j] == x;
        assert a[j] in a;
      }
    }
    LargestUnique(b, b, Largest(b), Clamped(r));
  }

  lemma AgeOfValues(values: seq<string>)
    ensures MaxAge(values) == Clamped(Largest(WrittenAges(values)))
  {
    var a, b := WrittenAges(values), ParseAges(values);
    forall i | 0 <= i < |a| ensures b[i] == Clamped(a[i]) {
      DeltaSecondsClamped(Before(values[i], ','));
    }
    LargestClamped(a, b);
  }

  function ClampedLifetime(l: Option<int>): Option<Duration> {
    if l.None? then None else Some(Clamp(l.value))
  }

  lemma FreshnessOfFields(f: Fields)
    ensures FactsOf(f).freshness ==
            if Conflict(f) then Some(MAX)
            else if WrittenFacts(f).freshness.None? then None else Some(Clamp(WrittenFacts(f).freshness.value))
    ensures Conflict(f) ==> WrittenFacts(f).freshness == Some(0)
  {
    var params := FreshnessParams(Directives(f.control));
    CommonExact(params);
  }

  lemma LifetimeOfFacts(parse: DateParser, f: Facts, g: Facts, receivedAt: Time)
    requires f.freshness == if g.freshness.None? then None else Some(Clamp(g.freshness.value))
    requires f.expires == g.expires && f.date == g.date
    ensures DeclaredLifetime(parse, f, receivedAt) == ClampedLifetime(TrueLifetime(parse, g, receivedAt))
  {
  }

  /** The lifetime that the code takes is the declared one, clamped; in a conflict of overlong declarations it takes the
    * longest duration where nothing is promised. */
  lemma LifetimeOfFields(parse: DateParser, f: Fields, receivedAt: Time)
    ensures var l, d := DeclaredLifetime(parse, FactsOf(f), receivedAt),
                       TrueLifetime(parse, WrittenFacts(f), receivedAt);
            if Conflict(f) then l == Some(MAX) && d == Some(0) else l == ClampedLifetime(d)
  {
    FreshnessOfFields(f);
    if !Conflict(f) {
      LifetimeOfFacts(parse, FactsOf(f), WrittenFacts(f), receivedAt);
    }
  }

  lemma AgeOfFacts(parse: DateParser, f: Facts, g: Facts, delay: Duration, now: Time)
    requires delay >= 0 && InRange(f) && f.date == g.date
    requires f.age == if g.age.None? then None else Some(Clamp(g.age.value))
    ensures HeaderAge(parse, f, delay, now) == Clamp(TrueAge(parse, g, delay, now)) >= 0
  {
    if f.age.Some? {
      SaturatingAddIsClamped(f.age.value, delay);
    }
  }

  lemma AgeIsClamped(parse: DateParser, f: Fields, delay: Duration, now: Time)
    requires delay >= 0
    ensures InRange(FactsOf(f))
    ensures HeaderAge(parse, FactsOf(f), delay, now) == Clamp(TrueAge(parse, WrittenFacts(f), delay, now)) >= 0
  {
    FactsInRange(f);
    AgeOfValues(f.age);
    AgeOfFacts(parse, FactsOf(f), WrittenFacts(f), delay, now);
  }

  /** The subtraction of responseFreshness on two clamped values. */
  lemma ClampedDifference(l: int, a: nat)
    ensures
      var r := if Clamp(l) <= Clamp(a) then 0 else Wrap(Clamp(l) - Clamp(a));
      && (r == Max(0, l - a) <==> l <= MAX || l <= a)
      && r <= Max(0, l - a)
      && (r > 0 <==> l > a && a < MAX)
  {
  }

  /** What is left of a lifetime at an age, if it counts up to the longest duration and a conflict as that. */
  function Left(l: Option<int>, a: nat, conflict: bool): Option<nat> {
    if l.None? then None
    else Some(Max((if conflict || l.value > MAX then MAX else l.value) - a, 0))
  }

  /** r is what is left of lifetime l at age a, and where it is not. */
  ghost predicate Remaining(r: Option<Duration>, l: Option<int>, a: nat, conflict: bool) {
    && r == Left(l, a, conflict)
    && (r.Some? ==>
          && (r.value == Max(0, l.value - a) <==> if conflict then a >= MAX else l.value <= MAX || l.value <= a)
          && (!conflict ==> r.value <= Max(0, l.value - a))
          && (r.value > 0 <==> a < MAX && (conflict || l.value > a)))
  }

  lemma RemainingOf(parse: DateParser, f: Facts, delay: Duration, receivedAt: Time, now: Time,
                    l: Option<int>, a: nat, conflict: bool)
    requires delay >= 0 && InRange(f) && HeaderAge(parse, f, delay, now) == Clamp(a)
    requires var lifetime := DeclaredLifetime(parse, f, receivedAt);
             if conflict then lifetime == Some(MAX) && l == Some(0) else lifetime == ClampedLifetime(l)
    ensures Remaining(ResponseFreshness(parse, f, f, delay, receivedAt, now), l, a, conflict)
  {
    if l.Some? {
      ClampedDifference(if conflict then MAX else l.value, a);
    }
  }

  /** The remaining freshness, compared with the numbers that are written. It is max(0, lifetime - age) in unbounded
    * integers exactly when the lifetime fits into 64 bits or has passed anyway. A conflict of overlong declarations
    * means stale, but the code takes it for the longest lifetime: it is wrong there until the age reaches that. */
  lemma FreshnessExact(parse: DateParser, f: Fields, delay: Duration, receivedAt: Time, now: Time)
    requires delay >= 0
    ensures InRange(FactsOf(f))
    ensures Remaining(ResponseFreshness(parse, FactsOf(f), FactsOf(f), delay, receivedAt, now),
                      TrueLifetime(parse, WrittenFacts(f), receivedAt), TrueAge(parse, WrittenFacts(f), delay, now),
                      Conflict(f))
  {
    LifetimeOfFields(parse, f, receivedAt);
    AgeIsClamped(parse, f, delay, now);
    RemainingOf(parse, FactsOf(f), delay, receivedAt, now,
                TrueLifetime(parse, WrittenFacts(f), receivedAt), TrueAge(parse, WrittenFacts(f), delay, now),
                Conflict(f));
  }

  // ---------------------------------------------------------------- independence of the order of iteration

  lemma CollectOrder(h: Header, a: seq<string>, b: seq<string>, name: string)
    requires multiset(a) == multiset(b)
    ensures multiset(Collect(h, a, name)) == multiset(Collect(h, b, name))
  {
    GatherOrder(h, a, b, k => EqualFold(k, name));
  }

  ghost predicate SameFields(f: Fields, g: Fields) {
    && multiset(f.control) == multiset(g.control) && multiset(f.expires) == multiset(g.expires)
    && multiset(f.date) == multiset(g.date) && multiset(f.age) == multiset(g.age)
  }

  lemma OrderIrrelevant(h: Header, a: seq<string>, b: seq<string>)
    requires IterationOrder(h, a) && IterationOrder(h, b)
    ensures SameFields(FieldsOf(h, a), FieldsOf(h, b))
  {
    OrdersAreRearrangements(h, a, b);
    CollectOrder(h, a, b, "Cache-Control");
    CollectOrder(h, a, b, "Expires");
    CollectOrder(h, a, b, "Date");
    CollectOrder(h, a, b, "Age");
  }

  lemma SameMultiset(a: seq<string>, b: seq<string>)
    requires multiset(a) == multiset(b)
    ensures |a| == |b| && (forall v :: v in a <==> v in b) && (|a| == 1 ==> a == b)
  {
    assert |a| == |multiset(a)| && |b| == |multiset(b)|;
    assert forall v :: v in a <==> v in multiset(a);
    assert forall v :: v in b <==> v in multiset(b);
    if |a| == 1 {
      assert a[0] in b;
    }
  }

  lemma MaxAgeOfSet(a: seq<string>, b: seq<string>)
    requires forall v :: v in a <==> v in b
    ensures MaxAge(a) == MaxAge(b)
  {
    forall x ensures x in ParseAges(a) <==> x in ParseAges(b) {
      if x in ParseAges(a) {
        var i :| 0 <= i < |a| && ParseAges(a)[i] == x;
        assert a[i] in b;
      }
      if x in ParseAges(b) {
        var i :| 0 <= i < |b| && ParseAges(b)[i] == x;
        assert b[i] in a;
      }
    }
    LargestUnique(ParseAges(a), ParseAges(b), MaxAge(a), MaxAge(b));
  }

  /** The parsers see the same, and Expires and Date are the same up to the order of repetitions. */
  lemma FactsOfSame(f: Fields, g: Fields)
    requires SameFields(f, g)
    ensures FactsOf(f).freshness == FactsOf(g).freshness && FactsOf(f).age == FactsOf(g).age
  {
    SameMultiset(f.control, g.control);
    SameMultiset(f.age, g.age);
    ViewOfSet(f.control, g.control);
    MaxAgeOfSet(f.age, g.age);
  }

  lemma FreshnessOfFacts(parse: DateParser, f: Facts, f': Facts, g: Facts, g': Facts, delay: Duration,
                         receivedAt: Time, now: Time)
    requires f.freshness == g.freshness && multiset(f.expires) == multiset(g.expires)
        && multiset(f.date) == multiset(g.date)
    requires f'.age == g'.age && multiset(f'.date) == multiset(g'.date)
    requires delay >= 0 && InRange(f') && InRange(g')
    ensures DeclaredLifetime(parse, f, receivedAt) == DeclaredLifetime(parse, g, receivedAt)
    ensures HeaderAge(parse, f', delay, now) == HeaderAge(parse, g', delay, now)
    ensures ResponseFreshness(parse, f, f', delay, receivedAt, now) ==
        ResponseFreshness(parse, g, g', delay, receivedAt, now)
  {
    SameMultiset(f.expires, g.expires);
    SameMultiset(f.date, g.date);
    SameMultiset(f'.date, g'.date);
  }

  /** The freshness of a response as the code computes it: two passes over the map, each in an order of its own. */
  function FreshnessOfHeader(parse: DateParser, h: Header, a: seq<string>, b: seq<string>,
                             delay: Duration, receivedAt: Time, now: Time): Option<Duration>
    requires (forall k :: k in a ==> k in h) && (forall k :: k in b ==> k in h) && delay >= 0
  {
    FactsInRange(FieldsOf(h, b));
    ResponseFreshness(parse, FactsOf(FieldsOf(h, a)), FactsOf(FieldsOf(h, b)), delay, receivedAt, now)
  }

  /** It depends only on which values each field has and how often: two headers that agree on this have the same
    * freshness, whatever else they hold, however their keys are written and in whatever orders they are iterated. */
  lemma FreshnessOfValues(parse: DateParser, h: Header, a: seq<string>, b: seq<string>, h': Header, a': seq<string>,
                          b': seq<string>, delay: Duration, receivedAt: Time, now: Time)
    requires IterationOrder(h, a) && IterationOrder(h, b) && IterationOrder(h', a') && IterationOrder(h', b')
    requires SameFields(FieldsOf(h, a), FieldsOf(h', a')) && delay >= 0
    ensures FreshnessOfHeader(parse, h, a, b, delay, receivedAt, now) ==
            FreshnessOfHeader(parse, h', a', b', delay, receivedAt, now)
  {
    OrderIrrelevant(h, a, b);
    OrderIrrelevant(h', a', b');
    SameFreshness(parse, FieldsOf(h, a), FieldsOf(h, b), FieldsOf(h', a'), FieldsOf(h', b'), delay, receivedAt, now);
  }

  lemma SameFreshness(parse: DateParser, f: Fields, f': Fields, g: Fields, g': Fields, delay: Duration,
                      receivedAt: Time, now: Time)
    requires SameFields(f, g) && SameFields(f', g') && delay >= 0
    ensures InRange(FactsOf(f')) && InRange(FactsOf(g'))
    ensures ResponseFreshness(parse, FactsOf(f), FactsOf(f'), delay, receivedAt, now) ==
            ResponseFreshness(parse, FactsOf(g), FactsOf(g'), delay, receivedAt, now)
  {
    FactsInRange(f');
    FactsInRange(g');
    FactsOfSame(f, g);
    FactsOfSame(f', g');
    FreshnessOfFacts(parse, FactsOf(f), FactsOf(f'), FactsOf(g), FactsOf(g'), delay, receivedAt, now);
  }

  /** So the order of iteration does not matter, in either of the two passes. */
  lemma FreshnessIgnoresOrder(parse: DateParser, h: Header, a: seq<string>, b: seq<string>, a': seq<string>,
                              b': seq<string>, delay: Duration, receivedAt: Time, now: Time)
    requires IterationOrder(h, a) && IterationOrder(h, b) && IterationOrder(h, a') && IterationOrder(h, b')
             && delay >= 0
    ensures FreshnessOfHeader(parse, h, a, b, delay, receivedAt, now) ==
            FreshnessOfHeader(parse, h, a', b', delay, receivedAt, now)
  {
    OrderIrrelevant(h, a, a');
    FreshnessOfValues(parse, h, a, b, h, a', b', delay, receivedAt, now);
  }
}
