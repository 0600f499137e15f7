/** Cache-Control as it is written (section 5.2 of RFC 9111), and what cache.go makes of it. */
module CacheControlReading {
  import opened Wrappers
  import opened Text
  import opened Int64
  import opened CacheControl

  // ---------------------------------------------------------------- fields as they are written

  /** One member of the list: a name in any spelling and perhaps a parameter, with white space around and between. */
  datatype Item = Item(before: string, name: string, between: string, param: Option<string>, after: string)

  /** Names have no separators in them; a parameter has no comma, since commas always separate. */
  ghost predicate WellFormed(item: Item) {
    && Spaces(item.before) && Spaces(item.between) && Spaces(item.after)
    && Trimmed(item.name) && ',' !in item.name && '=' !in item.name
    && (item.param.Some? ==> ',' !in item.param.value)
  }

  ghost predicate AllWellFormed(items: seq<Item>) {
    forall i :: 0 <= i < |items| ==> WellFormed(items[i])
  }

  function PrintItem(item: Item): string {
    var name := item.before + (item.name + item.between);
    match item.param
    case None => name + item.after
    case Some(p) => name + (['='] + (p + item.after))
  }

  function PrintItems(items: seq<Item>): seq<string> {
    if items == [] then [] else [PrintItem(items[0])] + PrintItems(items[1..])
  }

  /** One line of the field; a line without members is empty. */
  function PrintLine(items: seq<Item>): string {
    Join(PrintItems(items), ',')
  }

  function PrintLines(lines: seq<seq<Item>>): seq<string> {
    if lines == [] then [] else PrintLines(lines[..|lines| - 1]) + [PrintLine(lines[|lines| - 1])]
  }

  function ReadItem(item: Item): Directive {
    Directive(ToLower(item.name), if item.param.Some? then item.param.value + item.after else "")
  }

  function ReadItems(items: seq<Item>): (ds: seq<Directive>)
    ensures |ds| == |items| && forall i :: 0 <= i < |items| ==> ds[i] == ReadItem(items[i])
  {
    if items == [] then [] else [ReadItem(items[0])] + ReadItems(items[1..])
  }

  /** All members of all lines, in order. */
  function AllItems(lines: seq<seq<Item>>): seq<Item> {
    if lines == [] then [] else AllItems(lines[..|lines| - 1]) + lines[|lines| - 1]
  }

  // ---------------------------------------------------------------- reading them

  lemma NoCommaIn(a: string, b: string, c: char)
    ensures c in a + b <==> c in a || c in b
  {
  }

  lemma SpacesAreNot(b: string, c: char)
    requires Spaces(b) && !IsSpace(c)
    ensures c !in b
  {
  }

  /** What precedes the parameter. */
  lemma NamePart(item: Item)
    requires WellFormed(item)
    ensures var name := item.before + (item.name + item.between);
            ',' !in name && '=' !in name && TrimSpace(name) == item.name
  {
    SpacesAreNot(item.before, ',');
    SpacesAreNot(item.before, '=');
    SpacesAreNot(item.between, ',');
    SpacesAreNot(item.between, '=');
    TrimPadded(item.before, item.name, item.between);
  }

  lemma ItemHasNoComma(item: Item)
    requires WellFormed(item)
    ensures ',' !in PrintItem(item)
  {
    NamePart(item);
    SpacesAreNot(item.after, ',');
  }

  /** A member is read as its name in lower case and its parameter. */
  lemma ReadsItem(item: Item)
    requires WellFormed(item)
    ensures ToDirective(PrintItem(item)) == ReadItem(item)
  {
    var name := item.before + (item.name + item.between);
    NamePart(item);
    if item.param.Some? {
      CutAtFirst(name, '=', item.param.value + item.after);
    } else {
      SpacesAreNot(item.after, '=');
      NothingToCut(name + item.after, '=');
      TrimIgnoresEnd(name, item.after);
    }
  }

  lemma {:induction false} ItemsHaveNoComma(items: seq<Item>)
    requires AllWellFormed(items)
    ensures |PrintItems(items)| == |items|
    ensures forall i :: 0 <= i < |items| ==> PrintItems(items)[i] == PrintItem(items[i]) && ',' !in PrintItems(items)[i]
  {
    if items != [] {
      ItemHasNoComma(items[0]);
      ItemsHaveNoComma(items[1..]);
    }
  }

  lemma ReadsLine(items: seq<Item>)
    requires AllWellFormed(items) && items != []
    ensures ToDirectives(Split(PrintLine(items), ',')) == ReadItems(items)
  {
    ItemsHaveNoComma(items);
    SplitOfJoin(PrintItems(items), ',');
    forall i | 0 <= i < |items| ensures ToDirectives(PrintItems(items))[i] == ReadItem(items[i]) {
      ReadsItem(items[i]);
    }
  }

  lemma {:induction false} ReadAppend(a: seq<Item>, b: seq<Item>)
    ensures ReadItems(a + b) == ReadItems(a) + ReadItems(b)
  {
  }

  /** The directives of a field are those that are written, in order, over any number of lines. */
  lemma {:induction false} ReadsWhatIsWritten(lines: seq<seq<Item>>)
    requires Written(lines)
    ensures Directives(PrintLines(lines)) == ReadItems(AllItems(lines))
  {
    if lines != [] {
      var init, last := lines[..|lines| - 1], lines[|lines| - 1];
      ReadsWhatIsWritten(init);
      ReadsLine(last);
      assert PrintLines(lines)[..|PrintLines(lines)| - 1] == PrintLines(init);
      ReadAppend(AllItems(init), last);
    }
  }

  // ---------------------------------------------------------------- every field can be written like this

  lemma WrittenItem(part: string) returns (item: Item)
    requires ',' !in part
    ensures WellFormed(item) && PrintItem(item) == part
  {
    if '=' in part {
      CutIsWhole(part, '=');
      var b, a := TrimParts(Before(part, '='));
      item := Item(b, TrimSpace(Before(part, '=')), a, Some(After(part, '=')), "");
      assert After(part, '=') + "" == After(part, '=');
    } else {
      var b, a := TrimParts(part);
      item := Item(b, TrimSpace(part), a, None, "");
      assert part + "" == part;
    }
  }

  lemma ItemsCons(item: Item, rest: seq<Item>)
    ensures PrintItems([item] + rest) == [PrintItem(item)] + PrintItems(rest)
  {
    assert ([item] + rest)[1..] == rest;
  }

  lemma {:induction false} WrittenItems(parts: seq<string>) returns (items: seq<Item>)
    requires forall i :: 0 <= i < |parts| ==> ',' !in parts[i]
    ensures PrintItems(items) == parts && AllWellFormed(items) && |items| == |parts|
  {
    if parts == [] {
      items := [];
    } else {
      var item := WrittenItem(parts[0]);
      var rest := WrittenItems(parts[1..]);
      ItemsCons(item, rest);
      items := [item] + rest;
    }
  }

  lemma WrittenLine(value: string) returns (items: seq<Item>)
    ensures PrintLine(items) == value && AllWellFormed(items) && items != []
  {
    JoinOfSplit(value, ',');
    items := WrittenItems(Split(value, ','));
  }

  ghost predicate Written(lines: seq<seq<Item>>) {
    forall i :: 0 <= i < |lines| ==> AllWellFormed(lines[i]) && lines[i] != []
  }

  /** Whatever the values of a field are, they are a list of members. */
  lemma {:induction false} WrittenLines(values: seq<string>) returns (lines: seq<seq<Item>>)
    ensures PrintLines(lines) == values && Written(lines)
  {
    if values == [] {
      lines := [];
    } else {
      var init := WrittenLines(values[..|values| - 1]);
      var last := WrittenLine(values[|values| - 1]);
      lines := init + [last];
      assert lines[..|lines| - 1] == init;
    }
  }

  // ---------------------------------------------------------------- numbers as they are written

  function InQuotes(d: string): string {
    ['"'] + (d + ['"'])
  }

  /** Digits, bare or in a pair of quotes, with white space around. */
  ghost predicate WrittenAs(param: string, d: string) {
    exists b, a :: Spaces(b) && Spaces(a) && (param == b + (d + a) || param == b + (InQuotes(d) + a))
  }

  lemma UnquoteBare(p: string, d: string)
    requires IsDigits(d) && TrimSpace(p) == d
    ensures Unquote(p) == d
  {
    assert d[0] != '"';
  }

  lemma UnquoteQuoted(p: string, d: string)
    requires TrimSpace(p) == InQuotes(d)
    ensures Unquote(p) == d
  {
    assert InQuotes(d)[1..|d| + 1] == d;
  }

  lemma UnquotedParts(p: string)
    ensures TrimSpace(p) == Unquote(p) || TrimSpace(p) == InQuotes(Unquote(p))
  {
    var v := TrimSpace(p);
    if |v| >= 2 {
      FirstAndLast(v);
    }
  }

  lemma FirstAndLast(v: string)
    requires |v| >= 2
    ensures v == [v[0]] + (v[1..|v| - 1] + [v[|v| - 1]])
  {
  }

  lemma BareIsTrimmed(d: string)
    requires IsDigits(d)
    ensures Trimmed(d) && Trimmed(InQuotes(d))
  {
    assert '0' <= d[0] <= '9' && '0' <= d[|d| - 1] <= '9';
  }

  lemma ReadsWritten(param: string, d: string, core: string, b: string, a: string)
    requires IsDigits(d) && Spaces(b) && Spaces(a) && (core == d || core == InQuotes(d)) && param == b + (core + a)
    ensures Unquote(param) == d
  {
    BareIsTrimmed(d);
    TrimPadded(b, core, a);
    if core == d {
      UnquoteBare(param, d);
    } else {
      UnquoteQuoted(param, d);
    }
  }

  lemma WrittenIsRead(param: string, d: string)
    requires IsDigits(d) && WrittenAs(param, d)
    ensures Unquote(param) == d
  {
    var b, a :| Spaces(b) && Spaces(a) && (param == b + (d + a) || param == b + (InQuotes(d) + a));
    ReadsWritten(param, d, if param == b + (d + a) then d else InQuotes(d), b, a);
  }

  lemma ReadIsWritten(param: string)
    ensures WrittenAs(param, Unquote(param))
  {
    UnquotedParts(param);
    var b, a := TrimParts(param);
  }

  /** A parameter declares n seconds exactly if it is digits for n, bare or in a pair of quotes; with a sign, a
    * single quote or anything else in it, it declares nothing. */
  lemma SecondsExactly(param: string, n: nat)
    ensures Seconds(param) == Some(n) <==> exists d :: IsDigits(d) && ToNat(d) == n && WrittenAs(param, d)
  {
    ReadIsWritten(param);
    if d :| IsDigits(d) && ToNat(d) == n && WrittenAs(param, d) {
      WrittenIsRead(param, d);
    }
  }

  // ---------------------------------------------------------------- what they mean

  /** The member is the directive with this name, in any spelling of its letters. */
  predicate Is(item: Item, word: string) {
    SameLetters(item.name, word)
  }

  ghost predicate Has(items: seq<Item>, word: string) {
    exists i :: 0 <= i < |items| && Is(items[i], word)
  }

  /** The number of seconds that a member declares. */
  function Number(item: Item): Option<nat> {
    if item.param.None? then None else Seconds(item.param.value)
  }

  /** The members of the directive that decides: s-maxage, and max-age only without it. */
  ghost predicate Decides(items: seq<Item>, item: Item) {
    item in items && (Is(item, "s-maxage") || (Is(item, "max-age") && !Has(items, "s-maxage")))
  }

  ghost predicate Blocks(items: seq<Item>) {
    Has(items, "no-store") || Has(items, "private") || Has(items, "no-cache")
  }

  ghost predicate Decided(items: seq<Item>) {
    exists item :: Decides(items, item)
  }

  /** Every deciding member says n. */
  ghost predicate AllSay(items: seq<Item>, n: nat) {
    forall item :: Decides(items, item) ==> Number(item) == Some(n)
  }

  ghost predicate Differ(items: seq<Item>, a: Item, b: Item) {
    Decides(items, a) && Decides(items, b) && Number(a) != Number(b)
  }

  ghost predicate AllTooLong(items: seq<Item>) {
    forall item :: Decides(items, item) ==> TooLong(item)
  }

  /** A deciding member that is no number means stale. */
  ghost predicate SaysInvalid(items: seq<Item>, freshness: Option<nat>) {
    forall item :: Decides(items, item) && Number(item).None? ==> freshness == Some(0)
  }

  ghost predicate SaysCommon(items: seq<Item>, freshness: Option<nat>) {
    forall n: nat :: Decided(items) && AllSay(items, n) ==>
      freshness == Some(if n * SECOND <= MAX then n * SECOND else MAX)
  }

  /** Members that differ mean stale, unless all are too large to tell. */
  ghost predicate SaysDiffering(items: seq<Item>, freshness: Option<nat>) {
    forall a, b :: Differ(items, a, b) ==> freshness == if AllTooLong(items) then Some(MAX) else Some(0)
  }

  /** The freshness of a response is what the deciding members say, if there are any. */
  ghost predicate Says(items: seq<Item>, freshness: Option<nat>) {
    && (freshness.None? <==> !Decided(items))
    && SaysInvalid(items, freshness) && SaysCommon(items, freshness) && SaysDiffering(items, freshness)
  }

  predicate TooLong(item: Item) {
    Number(item).Some? && Number(item).value > MAX_DELTA_SECONDS
  }

  lemma SameUnquoted(p: string, q: string)
    requires TrimSpace(p) == TrimSpace(q)
    ensures Unquote(p) == Unquote(q)
  {
  }

  lemma SecondsIgnoreEnd(p: string, a: string)
    requires Spaces(a)
    ensures Seconds(p + a) == Seconds(p)
  {
    TrimIgnoresEnd(p, a);
    SameUnquoted(p + a, p);
  }

  lemma NoNumber()
    ensures Seconds("") == None
  {
    assert TrimSpace("") == "";
  }

  lemma ReadName(item: Item, word: string)
    requires NoUpper(word)
    ensures ReadItem(item).name == word <==> Is(item, word)
  {
    LowerIs(item.name, word);
  }

  lemma MentionsIsHas(items: seq<Item>, word: string)
    requires NoUpper(word)
    ensures Mentions(ReadItems(items), word) <==> Has(items, word)
  {
    var ds := ReadItems(items);
    if d :| d in ds && d.name == word {
      var i :| 0 <= i < |ds| && ds[i] == d;
      ReadName(items[i], word);
    }
    if i :| 0 <= i < |items| && Is(items[i], word) {
      ReadName(items[i], word);
      assert ds[i] in ds;
    }
  }

  /** The parameter of a directive, as it is read. */
  function Read(item: Item): string {
    ReadItem(item).param
  }

  lemma ReadNumber(item: Item)
    requires WellFormed(item)
    ensures Seconds(Read(item)) == Number(item)
  {
    if item.param.Some? {
      SecondsIgnoreEnd(item.param.value, item.after);
    } else {
      NoNumber();
    }
  }

  lemma ParamsOf(items: seq<Item>, word: string)
    requires NoUpper(word)
    ensures forall p :: p in Params(ReadItems(items), word) <==>
                        exists i :: 0 <= i < |items| && Is(items[i], word) && Read(items[i]) == p
  {
    var ds := ReadItems(items);
    ParamsMeaning(ds, word);
    forall p
      ensures p in Params(ds, word) <==> exists i :: 0 <= i < |items| && Is(items[i], word) && Read(items[i]) == p
    {
      if Directive(word, p) in ds {
        var i :| 0 <= i < |ds| && ds[i] == Directive(word, p);
        ReadName(items[i], word);
        assert Is(items[i], word) && Read(items[i]) == p;
      }
      if i :| 0 <= i < |items| && Is(items[i], word) && Read(items[i]) == p {
        ReadName(items[i], word);
        assert ds[i] == Directive(word, p);
      }
    }
  }

  /** The parameters that the code looks at are those of the deciding members. */
  lemma DecidingParams(items: seq<Item>)
    ensures forall p :: p in FreshnessParams(ReadItems(items)) <==>
                        exists item :: Decides(items, item) && Read(item) == p
  {
    var ds := ReadItems(items);
    ParamsOf(items, "s-maxage");
    ParamsOf(items, "max-age");
    if i :| 0 <= i < |items| && Is(items[i], "s-maxage") {
      assert Read(items[i]) in Params(ds, "s-maxage");
    }
    assert Params(ds, "s-maxage") != [] ==> Params(ds, "s-maxage")[0] in Params(ds, "s-maxage");
    assert Params(ds, "s-maxage") != [] <==> Has(items, "s-maxage");
    forall p
      ensures p in FreshnessParams(ds) <==> exists item :: Decides(items, item) && Read(item) == p
    {
      DecidingParam(items, p, Has(items, "s-maxage"));
    }
  }

  lemma DecidingParam(items: seq<Item>, p: string, shared: bool)
    requires shared == Has(items, "s-maxage")
    ensures (exists i :: 0 <= i < |items| && Is(items[i], if shared then "s-maxage" else "max-age")
                         && Read(items[i]) == p)
            <==> exists item :: Decides(items, item) && Read(item) == p
  {
    if i :| 0 <= i < |items| && Is(items[i], if shared then "s-maxage" else "max-age") && Read(items[i]) == p {
      assert Decides(items, items[i]);
    }
    if item :| Decides(items, item) && Read(item) == p {
      var i :| 0 <= i < |items| && items[i] == item;
      assert Is(item, "s-maxage") ==> Has(items, "s-maxage");
    }
  }

  /** params are what the deciding members have, read with their numbers. */
  ghost predicate Linked(items: seq<Item>, params: seq<string>) {
    && (forall p :: p in params ==> exists item :: Decides(items, item) && Read(item) == p)
    && (forall item :: Decides(items, item) ==> Read(item) in params && Seconds(Read(item)) == Number(item))
  }

  lemma LinkedNumber(items: seq<Item>, params: seq<string>, p: string) returns (item: Item)
    requires Linked(items, params) && p in params
    ensures Decides(items, item) && Read(item) == p && Seconds(p) == Number(item)
  {
    item :| Decides(items, item) && Read(item) == p;
  }

  lemma SaysNothing(items: seq<Item>, params: seq<string>)
    requires Linked(items, params)
    ensures Common(params).None? <==> !Decided(items)
  {
    if params != [] {
      var item := LinkedNumber(items, params, params[0]);
    }
  }

  lemma SaysNoNumber(items: seq<Item>, params: seq<string>, item: Item)
    requires Linked(items, params) && Decides(items, item) && Number(item).None?
    ensures Common(params) == Some(0)
  {
    assert Read(item) in params;
    NotANumber(params);
  }

  lemma CommonOfOne(params: seq<string>, n: nat)
    requires params != [] && forall p :: p in params ==> Seconds(p) == Some(n)
    ensures Common(params) == Some(if n * SECOND <= MAX then n * SECOND else MAX)
  {
    assert params[0] in params;
    CommonExact(params);
  }

  lemma SaysNumber(items: seq<Item>, params: seq<string>, n: nat)
    requires Linked(items, params) && Decided(items) && AllSay(items, n)
    ensures Common(params) == Some(if n * SECOND <= MAX then n * SECOND else MAX)
  {
    SaysNothing(items, params);
    forall p | p in params ensures Seconds(p) == Some(n) {
      var item := LinkedNumber(items, params, p);
    }
    CommonOfOne(params, n);
  }

  lemma SaysConflict(items: seq<Item>, params: seq<string>, a: Item, b: Item)
    requires Linked(items, params) && Differ(items, a, b)
    ensures Common(params) == if AllTooLong(items) then Some(MAX) else Some(0)
  {
    assert Read(a) in params && Read(b) in params && Seconds(Read(a)) != Seconds(Read(b));
    assert !AllAgree(params);
    forall p | p in params ensures AllTooLong(items) ==> Seconds(p).Some? && Seconds(p).value > MAX_DELTA_SECONDS {
      var item := LinkedNumber(items, params, p);
    }
    if !AllTooLong(items) {
      var item :| Decides(items, item) && !TooLong(item);
      assert Read(item) in params;
    }
    CommonExact(params);
  }

  lemma InvalidOfParams(items: seq<Item>, params: seq<string>)
    requires Linked(items, params)
    ensures SaysInvalid(items, Common(params))
  {
    forall item | Decides(items, item) && Number(item).None? ensures Common(params) == Some(0) {
      SaysNoNumber(items, params, item);
    }
  }

  lemma CommonOfParams(items: seq<Item>, params: seq<string>)
    requires Linked(items, params)
    ensures SaysCommon(items, Common(params))
  {
    forall n: nat | Decided(items) && AllSay(items, n)
      ensures Common(params) == Some(if n * SECOND <= MAX then n * SECOND else MAX)
    {
      SaysNumber(items, params, n);
    }
  }

  lemma DifferingOfParams(items: seq<Item>, params: seq<string>)
    requires Linked(items, params)
    ensures SaysDiffering(items, Common(params))
  {
    forall a, b | Differ(items, a, b) ensures Common(params) == if AllTooLong(items) then Some(MAX) else Some(0) {
      SaysConflict(items, params, a, b);
    }
  }

  lemma SaysOfParams(items: seq<Item>, params: seq<string>)
    requires Linked(items, params)
    ensures Says(items, Common(params))
  {
    SaysNothing(items, params);
    InvalidOfParams(items, params);
    CommonOfParams(items, params);
    DifferingOfParams(items, params);
  }

  lemma ItemsSay(items: seq<Item>)
    requires AllWellFormed(items)
    ensures Says(items, Common(FreshnessParams(ReadItems(items))))
  {
    DecidingParams(items);
    forall item | Decides(items, item) ensures Seconds(Read(item)) == Number(item) {
      ReadNumber(item);
    }
    SaysOfParams(items, FreshnessParams(ReadItems(items)));
  }

  lemma ViewParts(ds: seq<Directive>)
    ensures ViewOf(ds).freshness == Common(FreshnessParams(ds))
    ensures ViewOf(ds).noStore == Mentions(ds, "no-store")
    ensures ViewOf(ds).blocked == (Mentions(ds, "no-store") || Mentions(ds, "private") || Mentions(ds, "no-cache"))
  {
  }

  lemma ItemsBlock(items: seq<Item>)
    ensures var ds := ReadItems(items);
            && (Mentions(ds, "no-store") <==> Has(items, "no-store"))
            && (Mentions(ds, "private") <==> Has(items, "private"))
            && (Mentions(ds, "no-cache") <==> Has(items, "no-cache"))
  {
    NoStoreIsLower();
    OthersAreLower();
    MentionsIsHas(items, "no-store");
    MentionsIsHas(items, "private");
    MentionsIsHas(items, "no-cache");
  }

  lemma NoStoreIsLower()
    ensures NoUpper("no-store")
  {
  }

  lemma OthersAreLower()
    ensures NoUpper("private") && NoUpper("no-cache")
  {
  }

  /** What the code makes of a field as it is written, over any number of lines: it blocks the response for no-store,
    * private and no-cache, knows no-store apart, and takes the freshness that is declared, s-maxage before max-age. */
  lemma WrittenMeaning(lines: seq<seq<Item>>)
    requires Written(lines)
    ensures var view, items := ViewOf(Directives(PrintLines(lines))), AllItems(lines);
            && (view.blocked <==> Blocks(items)) && (view.noStore <==> Has(items, "no-store"))
            && Says(items, view.freshness)
  {
    var items := AllItems(lines);
    ReadsWhatIsWritten(lines);
    AllItemsWellFormed(lines);
    ViewParts(ReadItems(items));
    ItemsBlock(items);
    ItemsSay(items);
  }

  lemma {:induction false} AllItemsWellFormed(lines: seq<seq<Item>>)
    requires forall i :: 0 <= i < |lines| ==> AllWellFormed(lines[i])
    ensures AllWellFormed(AllItems(lines))
  {
    if lines != [] {
      AllItemsWellFormed(lines[..|lines| - 1]);
    }
  }
}
