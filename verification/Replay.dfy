/** When a stored response may be replayed, and for how long it is stored: replayAge, the freshness test of replayable,
  * and cacheDecision in cache.go. */
module Replay {
  import opened Wrappers
  import opened Int64
  import opened CacheControl
  import opened Freshness
  import opened HeaderMaps

  /** What is kept with an entry: response_time and corrected_initial_age, both in nanoseconds. An entry of an older
    * format has no response time (0). */
  datatype Entry = Entry(header: Header, fields: Fields, responseTime: Duration, initialAge: Duration)

  /** http.Header.Get with a canonical name. */
  function GetFirst(h: Header, name: string): string {
    if name in h && h[name] != [] then h[name][0] else ""
  }

  function DateAge(parse: DateParser, h: Header, now: Time): Option<Duration> {
    var raw := GetFirst(h, "Date");
    if raw == "" || parse(raw).None? then None else Some(Max(Clamp(now - parse(raw).value), 0))
  }

  /** replayAge: the current age of the entry, or None if it cannot be told. */
  function ReplayAge(parse: DateParser, e: Entry, now: Time): Option<Duration> {
    var fromDate := DateAge(parse, e.header, now);
    var age := if fromDate.Some? then fromDate.value else 0;
    if e.responseTime > 0 then
      var resident := Max(Clamp(now - e.responseTime), 0);
      Some(Max(age, SaturatingAdd(resident, if e.initialAge <= 0 then 0 else e.initialAge)))
    else if fromDate.None? then None
    else
      var stored := MaxAge(if "Age" in e.header then e.header["Age"] else []);
      Some(Max(age, if stored.Some? then Clamp(stored.value) else 0))
  }

  /** replayable; admitted stands for the tests of the status code and of the caller's predicate. */
  predicate Replayable(parse: DateParser, admitted: bool, e: Entry, now: Time) {
    && admitted
    && var age := ReplayAge(parse, e, now);
       && age.Some?
       && var lifetime :=
           DeclaredLifetime(parse, FactsOf(e.fields), if e.responseTime > 0 then e.responseTime else now);
          lifetime.Some? ==> lifetime.value > age.value
  }

  // ---------------------------------------------------------------- in unbounded integers

  function TrueDateAge(parse: DateParser, h: Header, now: Time): nat {
    var raw := GetFirst(h, "Date");
    if raw == "" || parse(raw).None? then 0 else Max(now - parse(raw).value, 0)
  }

  /** current_age of section 4.2.3: time resident plus corrected_initial_age, or the age by Date if that is more. */
  function CurrentAge(parse: DateParser, e: Entry, now: Time): nat {
    Max(TrueDateAge(parse, e.header, now), Max(now - e.responseTime, 0) + Max(e.initialAge, 0))
  }

  lemma ReplayAgeIsClamped(parse: DateParser, e: Entry, now: Time)
    requires e.responseTime > 0
    ensures ReplayAge(parse, e, now) == Some(Clamp(CurrentAge(parse, e, now)))
  {
    SaturatingAddIsClamped(Max(Clamp(now - e.responseTime), 0), if e.initialAge <= 0 then 0 else e.initialAge);
  }

  /** The lifetime that the entry declares, in the numbers that are written. */
  function Lifetime(parse: DateParser, e: Entry): Option<int> {
    TrueLifetime(parse, WrittenFacts(e.fields), e.responseTime)
  }

  /** An entry with a response time is replayed exactly when it is admitted and, if it declared a lifetime, its current
    * age is below it and below the longest duration. Overlong declarations that conflict count as the longest duration,
    * not as none. */
  lemma ReplayExact(parse: DateParser, admitted: bool, e: Entry, now: Time)
    requires e.responseTime > 0
    ensures
      var l, age := Lifetime(parse, e), CurrentAge(parse, e, now);
      Replayable(parse, admitted, e, now) <==>
      admitted && (l.None? || (age < MAX && (Conflict(e.fields) || age < l.value)))
  {
    ReplayAgeIsClamped(parse, e, now);
    LifetimeOfFields(parse, e.fields, e.responseTime);
  }

  /** The same for an entry as it is made, with the ages that are written rather than the clamped initial age it
    * keeps. */
  lemma ReplayOfMade(parse: DateParser, admitted: bool, e: Entry, delay: Duration, at: Time, now: Time)
    requires e.responseTime > 0 && delay >= 0 && InRange(FactsOf(e.fields))
    requires e.initialAge == Max(HeaderAge(parse, FactsOf(e.fields), delay, at), 0)
    ensures
      var initial := TrueAge(parse, WrittenFacts(e.fields), delay, at);
      var l, age := Lifetime(parse, e), Max(TrueDateAge(parse, e.header, now), Max(now - e.responseTime, 0) + initial);
      Replayable(parse, admitted, e, now) <==>
      admitted && (l.None? || (age < MAX && (Conflict(e.fields) || age < l.value)))
  {
    AgeIsClamped(parse, e.fields, delay, at);
    ReplayExact(parse, admitted, e, now);
    ReplayAgeIsClamped(parse, e, now);
    LifetimeOfFields(parse, e.fields, e.responseTime);
  }

  /** Whatever TTL the store applied: a replay of an entry with declared lifetime l happens only while the time it has
    * been resident plus its initial age are below l, in unbounded integers, unless overlong declarations conflict. */
  lemma ReplayedWhileFresh(parse: DateParser, admitted: bool, e: Entry, now: Time)
    requires e.responseTime > 0 && Replayable(parse, admitted, e, now) && Lifetime(parse, e).Some?
    ensures (now - e.responseTime) + e.initialAge < if Conflict(e.fields) then MAX else Lifetime(parse, e).value
  {
    ReplayExact(parse, admitted, e, now);
  }

  /** The first line of Date is the date d. */
  predicate DatedFrom(parse: DateParser, h: Header, d: Time) {
    "Date" in h && h["Date"] != [] && h["Date"][0] != "" && parse(h["Date"][0]) == Some(d)
  }

  /** The current age is the least that is neither below what has passed since the Date, if there is a readable one, nor
    * below the initial age and the time of residence. */
  lemma CurrentAgeExact(parse: DateParser, e: Entry, now: Time, x: nat)
    ensures CurrentAge(parse, e, now) <= x <==>
            && (forall d: Time :: DatedFrom(parse, e.header, d) ==> now - d <= x)
            && (now - e.responseTime) + e.initialAge <= x && now - e.responseTime <= x && e.initialAge <= x
  {
    if "Date" in e.header && e.header["Date"] != [] && e.header["Date"][0] != "" {
      var parsed := parse(e.header["Date"][0]);
      assert parsed.Some? ==> DatedFrom(parse, e.header, parsed.value);
    }
  }

  /** The age that an entry of an older format states, as it is written. */
  function StatedAge(h: Header): Option<nat> {
    InNanoseconds(Largest(WrittenAges(if "Age" in h then h["Age"] else [])))
  }

  /** An entry without a response time is replayed exactly when it is admitted, has a readable Date and, if it
    * declared a lifetime, that is above the age since the Date and above the stated one; its lifetime by Expires
    * alone counts from the lookup. */
  lemma OldEntryExact(parse: DateParser, admitted: bool, e: Entry, now: Time, d: Time)
    requires e.responseTime <= 0 && DatedFrom(parse, e.header, d)
    ensures
      var l, stated := TrueLifetime(parse, WrittenFacts(e.fields), now), StatedAge(e.header);
      var age := Max(now - d, if stated.Some? then stated.value else 0);
      Replayable(parse, admitted, e, now) <==>
      admitted && (l.None? || (age < MAX && (Conflict(e.fields) || Max(age, 0) < l.value)))
  {
    LifetimeOfFields(parse, e.fields, now);
    AgeOfValues(if "Age" in e.header then e.header["Age"] else []);
  }

  /** An entry without a response time and without a readable Date is never replayed. */
  lemma UnknownAgeNotReplayed(parse: DateParser, admitted: bool, e: Entry, now: Time)
    requires e.responseTime <= 0 && (GetFirst(e.header, "Date") == "" || parse(GetFirst(e.header, "Date")).None?)
    ensures !Replayable(parse, admitted, e, now)
  {
  }

  ghost predicate Stale(parse: DateParser, e: Entry, now: Time) {
    !Replayable(parse, true, e, now)
  }

  ghost predicate Nondecreasing(times: seq<Time>) {
    forall i, j :: 0 <= i <= j < |times| ==> times[i] <= times[j]
  }

  /** Over any sequence of lookups under a clock that does not go back: once stale, never replayed again, whatever the
    * admission tests say. */
  lemma StaleForGood(parse: DateParser, e: Entry, times: seq<Time>, admitted: seq<bool>, i: nat, j: nat)
    requires e.responseTime > 0 && Nondecreasing(times) && |admitted| == |times|
    requires i <= j < |times| && Stale(parse, e, times[i])
    ensures !Replayable(parse, admitted[j], e, times[j])
  {
    ReplayExact(parse, true, e, times[i]);
    ReplayExact(parse, admitted[j], e, times[j]);
  }

  // ---------------------------------------------------------------- storing

  /** What cacheDecision looks at besides the freshness. */
  datatype Verdict = Verdict(written: bool, admitted: bool, tooLarge: bool, bodySize: nat, maxBodySize: nat)

  /** cacheDecision: the TTL to store with, or None for not storing; a TTL of 0 leaves the choice to the store. */
  function CacheDecision(v: Verdict, freshness: Option<Duration>, duration: nat): Option<nat> {
    if !v.written then None
    else if !v.admitted then None
    else if v.tooLarge then None
    else if v.maxBodySize > 0 && v.bodySize > v.maxBodySize then None
    else if freshness.Some? && freshness.value <= 0 then None
    else if freshness.Some? && duration > 0 && freshness.value < duration then Some(freshness.value)
    else Some(duration)
  }

  /** The true age at time t of a response whose age was a at the moment of the decision. */
  function AgeAt(a: nat, decided: Time, t: Time): int {
    a + (t - decided)
  }

  /** ttl is the longest that exceeds neither the configured duration nor what is left of the lifetime. */
  ghost predicate Longest(ttl: nat, duration: nat, left: int) {
    ttl <= duration && ttl <= left && (ttl == duration || ttl == left)
  }

  /** Exactly which responses are stored, and for how long: those with a body within the limit, if there is one,
    * whose age is below the lifetime they declare, if they do. A configured duration of zero is passed on; otherwise
    * the TTL takes no declared lifetime past its end. A lifetime counts up to the longest duration, and as that in a
    * conflict of overlong declarations. */
  lemma StoredExactly(parse: DateParser, v: Verdict, f: Fields, delay: Duration, receivedAt: Time, decided: Time,
                      duration: nat)
    requires delay >= 0 && InRange(FactsOf(f))
    ensures
      var left := ResponseFreshness(parse, FactsOf(f), FactsOf(f), delay, receivedAt, decided);
      var kept := CacheDecision(v, left, duration);
      var l, a := TrueLifetime(parse, WrittenFacts(f), receivedAt), TrueAge(parse, WrittenFacts(f), delay, decided);
      && (kept.Some? <==>
            && v.written && v.admitted && !v.tooLarge && (v.maxBodySize == 0 || v.bodySize <= v.maxBodySize)
            && (l.None? || (a < MAX && (Conflict(f) || a < l.value))))
      && (kept.Some? ==>
            && (duration == 0 || l.None? ==> kept.value == duration)
            && (duration > 0 && l.Some? && !Conflict(f) && l.value <= MAX ==>
                  Longest(kept.value, duration, l.value - a))
            && (duration > 0 && (Conflict(f) || (l.Some? && l.value > MAX)) ==>
                  Longest(kept.value, duration, MAX - a)))
  {
    FreshnessExact(parse, f, delay, receivedAt, decided);
    DecidedExactly(v, TrueLifetime(parse, WrittenFacts(f), receivedAt), TrueAge(parse, WrittenFacts(f), delay, decided),
                   Conflict(f), duration);
    FreshnessOfFields(f);
  }

  lemma DecidedExactly(v: Verdict, l: Option<int>, a: nat, conflict: bool, duration: nat)
    requires conflict ==> l.Some?
    ensures
      var kept := CacheDecision(v, Left(l, a, conflict), duration);
      && (kept.Some? <==>
            && v.written && v.admitted && !v.tooLarge && (v.maxBodySize == 0 || v.bodySize <= v.maxBodySize)
            && (l.None? || (a < MAX && (conflict || a < l.value))))
      && (kept.Some? ==>
            && (duration == 0 || l.None? ==> kept.value == duration)
            && (duration > 0 && l.Some? && !conflict && l.value <= MAX ==> Longest(kept.value, duration, l.value - a))
            && (duration > 0 && (conflict || (l.Some? && l.value > MAX)) ==> Longest(kept.value, duration, MAX - a)))
  {
  }

  /** The decision is made before the wait for the lock of the shard, and the store counts the TTL from the write. At
    * the end of an explicit TTL the age is therefore at most the lifetime plus the time between the two, and an entry
    * is never in the store beyond its lifetime if and only if that time fits into what the TTL left of the lifetime. */
  lemma StoredWithinLifetime(parse: DateParser, v: Verdict, f: Fields, delay: Duration, receivedAt: Time, decided: Time,
                             written: Time, duration: nat, ttl: nat)
    requires delay >= 0 && InRange(FactsOf(f)) && decided <= written
    requires CacheDecision(v, ResponseFreshness(parse, FactsOf(f), FactsOf(f), delay, receivedAt, decided),
        duration) == Some(ttl)
    ensures ttl <= duration && (ttl == 0 <==> duration == 0)
    ensures
      var l, a := TrueLifetime(parse, WrittenFacts(f), receivedAt), TrueAge(parse, WrittenFacts(f), delay, decided);
      l.Some? && !Conflict(f) ==> a < l.value && (duration > 0 ==> InTime(l.value, a, decided, written, ttl))
  {
    FreshnessExact(parse, f, delay, receivedAt, decided);
    var r := ResponseFreshness(parse, FactsOf(f), FactsOf(f), delay, receivedAt, decided);
    TtlInTime(r, TrueLifetime(parse, WrittenFacts(f), receivedAt), TrueAge(parse, WrittenFacts(f), delay, decided),
              Conflict(f), v, decided, written, duration, ttl);
  }

  ghost predicate InTime(l: int, a: nat, decided: Time, written: Time, ttl: nat) {
    && AgeAt(a, decided, written + ttl) <= l + (written - decided)
    && ((forall t :: written <= t <= written + ttl ==> AgeAt(a, decided, t) <= l) <==> written - decided <= l - a - ttl)
  }

  lemma TtlInTime(r: Option<Duration>, l: Option<int>, a: nat, conflict: bool, v: Verdict, decided: Time, written: Time,
                  duration: nat, ttl: nat)
    requires Remaining(r, l, a, conflict) && CacheDecision(v, r, duration) == Some(ttl)
    ensures ttl <= duration && (ttl == 0 <==> duration == 0)
    ensures l.Some? && !conflict ==> a < l.value && (duration > 0 ==> InTime(l.value, a, decided, written, ttl))
  {
    if l.Some? && !conflict && duration > 0 {
      assert a + ttl <= l.value;
      assert AgeAt(a, decided, written + ttl) == a + ttl + (written - decided);
    }
  }
}
