/** Cache-Control as cache.go reads it: admission and freshness in one pass over the field's values. */
module CacheControl {
  import opened Wrappers
  import opened Text
  import opened Int64

  const SECOND: nat := 1_000_000_000
  const MAX_DELTA_SECONDS: nat := MAX / SECOND

  // ---------------------------------------------------------------- delta-seconds

  /** unquote: a pair of quotes goes, a single one stays and makes the value invalid. */
  function Unquote(param: string): string {
    var v := TrimSpace(param);
    if |v| >= 2 && v[0] == '"' && v[|v| - 1] == '"' then v[1..|v| - 1] else v
  }

  /** parseDeltaSeconds: nanoseconds, clamped to the longest duration; None for anything but digits. */
  function ParseDeltaSeconds(param: string): Option<nat> {
    var v := Unquote(param);
    if !IsDigits(v) then None
    else if ToNat(v) > MAX || ToNat(v) > MAX_DELTA_SECONDS then Some(MAX)
    else Some(ToNat(v) * SECOND)
  }

  /** The number of seconds that is written, however large; None for anything but digits. */
  function Seconds(param: string): Option<nat> {
    var v := Unquote(param);
    if IsDigits(v) then Some(ToNat(v)) else None
  }

  /** The duration of a number of seconds, as far as it can be expressed. */
  function Clamped(seconds: Option<nat>): Option<nat> {
    if seconds.None? then None else Some(Clamp(seconds.value * SECOND))
  }

  /** The two clamps of the code are one: the parser returns the number that is written, clamped. */
  lemma DeltaSecondsClamped(param: string)
    ensures ParseDeltaSeconds(param) == Clamped(Seconds(param))
  {
  }

  /** Two numbers are told apart after clamping unless both are over the limit. */
  lemma ClampedApart(m: nat, n: nat)
    ensures Clamp(m * SECOND) == Clamp(n * SECOND) <==> m == n || (m > MAX_DELTA_SECONDS && n > MAX_DELTA_SECONDS)
    ensures m > MAX_DELTA_SECONDS <==> m * SECOND > MAX
  {
  }

  // ---------------------------------------------------------------- directives

  datatype Directive = Directive(name: string, param: string)

  datatype View = View(blocked: bool, noStore: bool, freshness: Option<nat>)

  function ToDirective(text: string): Directive {
    Directive(ToLower(TrimSpace(Before(text, '='))), After(text, '='))
  }

  function ToDirectives(texts: seq<string>): (ds: seq<Directive>)
    ensures |ds| == |texts| && forall i :: 0 <= i < |texts| ==> ds[i] == ToDirective(texts[i])
  {
    seq(|texts|, i requires 0 <= i < |texts| => ToDirective(texts[i]))
  }

  /** All directives of the field, in order. */
  function Directives(values: seq<string>): seq<Directive> {
    if values == [] then [] else Directives(values[..|values| - 1]) + ToDirectives(Split(values[|values| - 1], ','))
  }

  /** The parameters of all occurrences of a directive. */
  function Params(ds: seq<Directive>, name: string): seq<string> {
    if ds == [] then []
    else
      var d := ds[|ds| - 1];
      Params(ds[..|ds| - 1], name) + (if d.name == name then [d.param] else [])
  }

  /** The meaning of a repeated freshness directive: the common value if every occurrence is valid and they all agree,
    * and stale from the start otherwise. */
  function Common(params: seq<string>): Option<nat> {
    if params == [] then None
    else if ParseDeltaSeconds(params[0]).Some? && forall p :: p in params ==>
        ParseDeltaSeconds(p) == ParseDeltaSeconds(params[0])
    then ParseDeltaSeconds(params[0])
    else Some(0)
  }

  // ---------------------------------------------------------------- the same on the numbers that are written

  predicate AllNumbers(params: seq<string>) {
    forall p :: p in params ==> Seconds(p).Some?
  }

  predicate AllAgree(params: seq<string>) {
    forall p, q :: p in params && q in params ==> Seconds(p) == Seconds(q)
  }

  /** What repeated declarations mean, in seconds: their common number, and 0 if they conflict or are malformed. */
  function Declared(params: seq<string>): Option<nat> {
    if params == [] then None
    else if AllNumbers(params) && AllAgree(params) then Seconds(params[0])
    else Some(0)
  }

  /** The declarations conflict, but every one is longer than can be expressed. */
  predicate LongConflict(params: seq<string>) {
    && params != [] && AllNumbers(params) && !AllAgree(params)
    && forall p :: p in params ==> Seconds(p).value > MAX_DELTA_SECONDS
  }

  lemma ParsedAlike(p: string, q: string)
    ensures ParseDeltaSeconds(p).Some? <==> Seconds(p).Some?
    ensures Seconds(p).Some? && Seconds(q).Some? ==>
              (ParseDeltaSeconds(p) == ParseDeltaSeconds(q) <==>
               Seconds(p) == Seconds(q)
                   || (Seconds(p).value > MAX_DELTA_SECONDS && Seconds(q).value > MAX_DELTA_SECONDS))
  {
    DeltaSecondsClamped(p);
    DeltaSecondsClamped(q);
    if Seconds(p).Some? && Seconds(q).Some? {
      ClampedApart(Seconds(p).value, Seconds(q).value);
    }
  }

  /** The code compares after clamping: what it takes for the common value is that of the numbers that are written, if
    * and only if these are not different numbers that are all over the limit. Then it takes the longest duration. */
  lemma CommonExact(params: seq<string>)
    ensures Common(params) == Clamped(Declared(params)) <==> !LongConflict(params)
    ensures LongConflict(params) ==> Common(params) == Some(MAX) && Declared(params) == Some(0)
  {
    if params != [] {
      var first := params[0];
      DeltaSecondsClamped(first);
      forall p ensures ParseDeltaSeconds(p).Some? <==> Seconds(p).Some? {
        ParsedAlike(p, first);
      }
      if !AllNumbers(params) {
        NotANumber(params);
      } else {
        AllNumbersExact(params);
      }
    }
  }

  lemma NotANumber(params: seq<string>)
    requires params != [] && !AllNumbers(params)
    ensures Common(params) == Some(0)
  {
    var p :| p in params && Seconds(p).None?;
    ParsedAlike(p, params[0]);
  }

  lemma AllNumbersExact(params: seq<string>)
    requires params != [] && AllNumbers(params)
    ensures LongConflict(params) ==> Common(params) == Some(MAX)
    ensures !LongConflict(params) ==> Common(params) == Clamped(Declared(params))
  {
    var first := params[0];
    DeltaSecondsClamped(first);
    ClampedApart(Seconds(first).value, 0);
    forall p | p in params
      ensures ParseDeltaSeconds(p).Some?
      ensures ParseDeltaSeconds(p) == ParseDeltaSeconds(first) <==>
              Seconds(p) == Seconds(first)
                  || (Seconds(p).value > MAX_DELTA_SECONDS && Seconds(first).value > MAX_DELTA_SECONDS)
    {
      ParsedAlike(p, first);
    }
  }

  /** The numeral of k nines. */
  function Nines(k: nat): string {
    if k == 0 then "" else Nines(k - 1) + ['9']
  }

  function PowerOfTen(k: nat): nat {
    if k == 0 then 1 else 10 * PowerOfTen(k - 1)
  }

  lemma {:induction false} NinesAreDigits(k: nat)
    ensures AllDigits(Nines(k)) && |Nines(k)| == k
  {
    if k > 0 {
      NinesAreDigits(k - 1);
    }
  }

  lemma {:induction false} NinesValue(k: nat)
    ensures AllDigits(Nines(k)) && |Nines(k)| == k && ToNat(Nines(k)) + 1 == PowerOfTen(k)
  {
    NinesAreDigits(k);
    if k > 0 {
      NinesValue(k - 1);
      assert Nines(k)[..k - 1] == Nines(k - 1) && Nines(k)[k - 1] == '9';
    }
  }

  lemma SecondsOfDigits(s: string)
    requires IsDigits(s)
    ensures Seconds(s) == Some(ToNat(s))
  {
    assert !IsSpace(s[0]) && !IsSpace(s[|s| - 1]) && s[0..] == s;
  }

  lemma TenNines()
    ensures Seconds(Nines(10)) == Some(9_999_999_999) && Seconds(Nines(11)) == Some(99_999_999_999)
  {
    NinesValue(10);
    NinesValue(11);
    SecondsOfDigits(Nines(10));
    SecondsOfDigits(Nines(11));
    assert PowerOfTen(5) == 100_000;
    assert PowerOfTen(10) == 100_000 * PowerOfTen(5);
  }

  lemma TwoLongNumbers(a: string, b: string)
    requires Seconds(a).Some? && Seconds(b).Some? && Seconds(a) != Seconds(b)
    requires Seconds(a).value > MAX_DELTA_SECONDS && Seconds(b).value > MAX_DELTA_SECONDS
    ensures LongConflict([a, b])
  {
    assert a in [a, b] && b in [a, b];
  }

  /** Two declarations that conflict, ten nines and eleven nines, are taken for the longest duration. */
  lemma ConflictTakenForLongest()
    ensures Common([Nines(10), Nines(11)]) == Some(MAX)
    ensures Declared([Nines(10), Nines(11)]) == Some(0)
  {
    TenNines();
    TwoLongNumbers(Nines(10), Nines(11));
    CommonExact([Nines(10), Nines(11)]);
  }

  predicate Mentions(ds: seq<Directive>, name: string) {
    exists d :: d in ds && d.name == name
  }

  function ViewOf(ds: seq<Directive>): View {
    View(Mentions(ds, "no-store") || Mentions(ds, "private") || Mentions(ds, "no-cache"),
         Mentions(ds, "no-store"),
         Common(FreshnessParams(ds)))
  }

  /** The freshness of the view of a whole field. */
  function FreshnessOf(values: seq<string>): (r: Option<nat>)
    ensures r == ViewOf(Directives(values)).freshness
  {
    Common(FreshnessParams(Directives(values)))
  }

  /** s-maxage goes before max-age. */
  function FreshnessParams(ds: seq<Directive>): seq<string> {
    if Params(ds, "s-maxage") != [] then Params(ds, "s-maxage") else Params(ds, "max-age")
  }

  // ---------------------------------------------------------------- the code

  /** mergeFreshness: folds one more occurrence into what is known so far. */
  function MergeFreshness(current: nat, has: bool, param: string): nat {
    var parsed := ParseDeltaSeconds(param);
    if parsed.None? then 0
    else if !has then parsed.value
    else if parsed.value != current then 0
    else current
  }

  /** Folding one occurrence after the other gives the common value. */
  lemma MergeIsCommon(params: seq<string>, p: string)
    ensures Common(params + [p]) ==
            Some(MergeFreshness(if params == [] then 0 else Common(params).value, params != [], p))
  {
    var all := params + [p];
    assert p in all;
    if params != [] {
      assert all[0] == params[0] && params[0] in params;
      assert forall q :: q in params ==> q in all;
    }
  }

  /** The local variables of the scan. */
  datatype Scan = Scan(blocked: bool, noStore: bool, sMaxAge: nat, hasSMaxAge: bool, maxAge: nat, hasMaxAge: bool)

  /** The switch over the name of a directive. */
  function Note(acc: Scan, d: Directive): Scan {
    if d.name == "no-store" then acc.(blocked := true, noStore := true)
    else if d.name == "private" || d.name == "no-cache" then acc.(blocked := true)
    else if d.name == "s-maxage" then
      acc.(sMaxAge := MergeFreshness(acc.sMaxAge, acc.hasSMaxAge, d.param), hasSMaxAge := true)
    else if d.name == "max-age" then
      acc.(maxAge := MergeFreshness(acc.maxAge, acc.hasMaxAge, d.param), hasMaxAge := true)
    else acc
  }

  /** What has been scanned so far, said without the order in which it came. */
  ghost predicate Scanned(ds: seq<Directive>, acc: Scan) {
    && acc.noStore == Mentions(ds, "no-store")
    && acc.blocked == (Mentions(ds, "no-store") || Mentions(ds, "private") || Mentions(ds, "no-cache"))
    && acc.hasSMaxAge == (Params(ds, "s-maxage") != [])
    && acc.hasMaxAge == (Params(ds, "max-age") != [])
    && (if acc.hasSMaxAge then Common(Params(ds, "s-maxage")) == Some(acc.sMaxAge) else acc.sMaxAge == 0)
    && (if acc.hasMaxAge then Common(Params(ds, "max-age")) == Some(acc.maxAge) else acc.maxAge == 0)
  }

  lemma MentionsSnoc(ds: seq<Directive>, d: Directive, name: string)
    ensures Mentions(ds + [d], name) == (Mentions(ds, name) || d.name == name)
    ensures Params(ds + [d], name) == Params(ds, name) + (if d.name == name then [d.param] else [])
  {
    assert (ds + [d])[..|ds|] == ds;
    assert d in ds + [d];
  }

  lemma ScannedSnoc(ds: seq<Directive>, d: Directive, acc: Scan)
    requires Scanned(ds, acc)
    ensures Scanned(ds + [d], Note(acc, d))
  {
    MentionsSnoc(ds, d, "no-store");
    MentionsSnoc(ds, d, "private");
    MentionsSnoc(ds, d, "no-cache");
    MentionsSnoc(ds, d, "s-maxage");
    MentionsSnoc(ds, d, "max-age");
    MergeIsCommon(Params(ds, "s-maxage"), d.param);
    MergeIsCommon(Params(ds, "max-age"), d.param);
  }

  function Conclude(acc: Scan): View {
    View(acc.blocked, acc.noStore,
         if acc.hasSMaxAge then Some(acc.sMaxAge) else if acc.hasMaxAge then Some(acc.maxAge) else None)
  }

  function Fold(ds: seq<Directive>): Scan {
    if ds == [] then Scan(false, false, 0, false, 0, false) else Note(Fold(ds[..|ds| - 1]), ds[|ds| - 1])
  }

  /** However long the scan, its variables mean what Scanned says. */
  lemma {:induction false} FoldScanned(ds: seq<Directive>)
    ensures Scanned(ds, Fold(ds)) && Conclude(Fold(ds)) == ViewOf(ds)
  {
    if ds != [] {
      var init, last := ds[..|ds| - 1], ds[|ds| - 1];
      FoldScanned(init);
      assert ds == init + [last];
      ScannedSnoc(init, last, Fold(init));
    } else {
      NothingScanned();
    }
    ScannedConcludes(ds, Fold(ds));
  }

  lemma NothingScanned()
    ensures Scanned([], Fold([]))
  {
  }

  lemma ScannedConcludes(ds: seq<Directive>, acc: Scan)
    requires Scanned(ds, acc)
    ensures Conclude(acc) == ViewOf(ds)
  {
  }

  lemma FoldSnoc(ds: seq<Directive>, d: Directive)
    ensures Fold(ds + [d]) == Note(Fold(ds), d)
  {
    assert (ds + [d])[..|ds|] == ds;
  }

  lemma FoldStep(seen: seq<Directive>, ds: seq<Directive>, j: nat)
    requires j < |ds|
    ensures Fold(seen + ds[..j + 1]) == Note(Fold(seen + ds[..j]), ds[j])
  {
    assert seen + ds[..j + 1] == (seen + ds[..j]) + [ds[j]];
    FoldSnoc(seen + ds[..j], ds[j]);
  }

  lemma DirectivesSnoc(values: seq<string>, i: nat)
    requires i < |values|
    ensures Directives(values[..i + 1]) == Directives(values[..i]) + ToDirectives(Split(values[i], ','))
  {
    assert values[..i + 1][..i] == values[..i];
  }

  /** The inner loop: the directives of one value. */
  method ScanValue(value: string, acc: Scan, ghost seen: seq<Directive>) returns (acc': Scan)
    requires acc == Fold(seen)
    ensures acc' == Fold(seen + ToDirectives(Split(value, ',')))
  {
    var texts := Split(value, ',');
    acc' := acc;
    ghost var ds := ToDirectives(texts);
    assert seen + ds[..0] == seen;
    for j := 0 to |texts|
      invariant acc' == Fold(seen + ds[..j])
    {
      FoldStep(seen, ds, j);
      acc' := Note(acc', ToDirective(texts[j]));
    }
    assert ds[..|texts|] == ds;
  }

  method ParseCacheControl(values: seq<string>) returns (view: View)
    ensures view == ViewOf(Directives(values))
  {
    var acc := Fold([]);
    for i := 0 to |values|
      invariant acc == Fold(Directives(values[..i]))
    {
      acc := ScanValue(values[i], acc, Directives(values[..i]));
      DirectivesSnoc(values, i);
    }
    assert values[..|values|] == values;
    FoldScanned(Directives(values));
    view := Conclude(acc);
  }

  // ---------------------------------------------------------------- the order of the values does not matter

  lemma {:induction false} ParamsMeaning(ds: seq<Directive>, name: string)
    ensures forall p :: p in Params(ds, name) <==> Directive(name, p) in ds
  {
    if ds != [] {
      ParamsMeaning(ds[..|ds| - 1], name);
      assert ds == ds[..|ds| - 1] + [ds[|ds| - 1]];
    }
  }

  predicate InValue(d: Directive, v: string) {
    d in ToDirectives(Split(v, ','))
  }

  ghost predicate InSomeValue(d: Directive, values: seq<string>) {
    exists i :: 0 <= i < |values| && InValue(d, values[i])
  }

  lemma InSomeValueSnoc(d: Directive, values: seq<string>, v: string)
    ensures InSomeValue(d, values + [v]) <==> InSomeValue(d, values) || InValue(d, v)
  {
    var all := values + [v];
    assert all[|values|] == v;
    if i :| 0 <= i < |values| && InValue(d, values[i]) {
      assert all[i] == values[i];
    }
  }

  lemma DirectivesStep(init: seq<string>, last: string, d: Directive)
    requires d in Directives(init) <==> InSomeValue(d, init)
    requires Directives(init + [last]) == Directives(init) + ToDirectives(Split(last, ','))
    ensures d in Directives(init + [last]) <==> InSomeValue(d, init + [last])
  {
    InSomeValueSnoc(d, init, last);
  }

  lemma {:induction false} DirectivesMeaning(values: seq<string>, d: Directive)
    ensures d in Directives(values) <==> InSomeValue(d, values)
  {
    if values != [] {
      var n := |values| - 1;
      DirectivesMeaning(values[..n], d);
      DirectivesSnoc(values, n);
      assert values[..n + 1] == values[..n] + [values[n]] && values[..n + 1] == values;
      DirectivesStep(values[..n], values[n], d);
    }
  }

  lemma SameValues(d: Directive, values: seq<string>, values': seq<string>)
    requires forall v :: v in values <==> v in values'
    ensures InSomeValue(d, values) ==> InSomeValue(d, values')
  {
    if i :| 0 <= i < |values| && InValue(d, values[i]) {
      assert values[i] in values';
      var j :| 0 <= j < |values'| && values'[j] == values[i];
    }
  }

  lemma CommonOfSet(a: seq<string>, b: seq<string>)
    requires forall p :: p in a <==> p in b
    ensures Common(a) == Common(b)
  {
    if a != [] {
      assert a[0] in b;
    }
    if b != [] {
      assert b[0] in a;
    }
  }

  lemma SameDirectives(ds: seq<Directive>, ds': seq<Directive>, name: string)
    requires forall d :: d in ds <==> d in ds'
    ensures Mentions(ds, name) == Mentions(ds', name)
    ensures Params(ds, name) == [] <==> Params(ds', name) == []
    ensures Common(Params(ds, name)) == Common(Params(ds', name))
  {
    ParamsMeaning(ds, name);
    ParamsMeaning(ds', name);
    assert Params(ds, name) != [] ==> Params(ds, name)[0] in Params(ds', name);
    assert Params(ds', name) != [] ==> Params(ds', name)[0] in Params(ds, name);
    CommonOfSet(Params(ds, name), Params(ds', name));
  }

  /** The view depends on the set of values alone, so not on the order in which they were merged. */
  lemma ViewOfSet(values: seq<string>, values': seq<string>)
    requires forall v :: v in values <==> v in values'
    ensures ViewOf(Directives(values)) == ViewOf(Directives(values'))
  {
    var ds, ds' := Directives(values), Directives(values');
    forall d ensures d in ds <==> d in ds' {
      DirectivesMeaning(values, d);
      DirectivesMeaning(values', d);
      SameValues(d, values, values');
      SameValues(d, values', values);
    }
    SameDirectives(ds, ds', "no-store");
    SameDirectives(ds, ds', "private");
    SameDirectives(ds, ds', "no-cache");
    SameDirectives(ds, ds', "s-maxage");
    SameDirectives(ds, ds', "max-age");
  }
}
