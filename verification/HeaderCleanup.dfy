/** Which headers are dropped before a response is cached or replayed, and why the unallocating shortcut is right. */
module HeaderCleanup {
  import opened Text
  import opened HeaderMaps
  import opened Headers

  const HOP_BY_HOP: seq<string> := [
    "Connection", "Proxy-Connection", "Keep-Alive", "Te", "Trailer", "Transfer-Encoding", "Upgrade",
    "Proxy-Authenticate", "Proxy-Authentication-Info", "Proxy-Authorization"]

  const TRAILER_PREFIX: string := "Trailer:"
  const CONNECTION: string := "Connection"
  const TRAILER: string := "Trailer"
  const X_CACHE: string := "X-Cache"

  // ---------------------------------------------------------------- the fields that other fields name

  /** header.Del canonicalizes the name; blank members are skipped. */
  predicate PartNames(part: string, k: string) {
    TrimSpace(part) != "" && Canonical(TrimSpace(part)) == k
  }

  ghost predicate SomePartNames(parts: seq<string>, k: string) {
    exists i :: 0 <= i < |parts| && PartNames(parts[i], k)
  }

  /** The value is a comma-separated list with the field k in it. */
  ghost predicate Names(value: string, k: string) {
    SomePartNames(Split(value, ','), k)
  }

  ghost predicate SomeNames(values: seq<string>, k: string) {
    exists i :: 0 <= i < |values| && Names(values[i], k)
  }

  ghost predicate Drops(h: Header, k: string) {
    || SomeNames(At(h, CONNECTION), k) || SomeNames(At(h, TRAILER), k)
    || k in HOP_BY_HOP || HasPrefix(k, TRAILER_PREFIX)
  }

  ghost predicate Kept(h: Header, r: Header, k: string, gone: bool) {
    (k in r <==> k in h && !gone) && (k in r ==> r[k] == h[k])
  }

  ghost predicate WithoutParts(h: Header, parts: seq<string>, r: Header) {
    forall k :: Kept(h, r, k, SomePartNames(parts, k))
  }

  ghost predicate WithoutNamed(h: Header, values: seq<string>, r: Header) {
    forall k :: Kept(h, r, k, SomeNames(values, k))
  }

  ghost predicate Stripped(h: Header, r: Header) {
    forall k :: Kept(h, r, k, Drops(h, k))
  }

  lemma PartsSnoc(parts: seq<string>, part: string, k: string)
    ensures SomePartNames(parts + [part], k) <==> SomePartNames(parts, k) || PartNames(part, k)
  {
    var all := parts + [part];
    assert all[|parts|] == part;
    if i :| 0 <= i < |parts| && PartNames(parts[i], k) {
      assert all[i] == parts[i];
    }
  }

  lemma NamesSnoc(values: seq<string>, value: string, k: string)
    ensures SomeNames(values + [value], k) <==> SomeNames(values, k) || Names(value, k)
  {
    var all := values + [value];
    assert all[|values|] == value;
    if i :| 0 <= i < |values| && Names(values[i], k) {
      assert all[i] == values[i];
    }
  }

  lemma PartStep(h: Header, parts: seq<string>, i: nat, r: Header)
    requires i < |parts| && WithoutParts(h, parts[..i], r)
    ensures var name := TrimSpace(parts[i]);
            WithoutParts(h, parts[..i + 1], if name != "" then r - {Canonical(name)} else r)
  {
    var name := TrimSpace(parts[i]);
    var t, next := if name != "" then r - {Canonical(name)} else r, parts[..i + 1];
    assert next == parts[..i] + [parts[i]];
    forall k ensures Kept(h, t, k, SomePartNames(next, k)) {
      PartsSnoc(parts[..i], parts[i], k);
      assert Kept(h, r, k, SomePartNames(parts[..i], k));
    }
  }

  lemma ValueStep(h: Header, values: seq<string>, i: nat, r: Header, t: Header)
    requires i < |values| && WithoutNamed(h, values[..i], r) && WithoutParts(r, Split(values[i], ','), t)
    ensures WithoutNamed(h, values[..i + 1], t)
  {
    var next := values[..i + 1];
    assert next == values[..i] + [values[i]];
    forall k ensures Kept(h, t, k, SomeNames(next, k)) {
      NamesSnoc(values[..i], values[i], k);
      assert Kept(h, r, k, SomeNames(values[..i], k));
      assert Kept(r, t, k, SomePartNames(Split(values[i], ','), k));
    }
  }

  method DeleteNamed(h: Header, value: string) returns (r: Header)
    ensures WithoutParts(h, Split(value, ','), r)
  {
    r := h;
    var parts := Split(value, ',');
    for i := 0 to |parts|
      invariant WithoutParts(h, parts[..i], r)
    {
      PartStep(h, parts, i, r);
      var name := TrimSpace(parts[i]);
      if name != "" {
        r := r - {Canonical(name)};
      }
    }
    assert parts[..|parts|] == parts;
  }

  method DeleteAllNamed(h: Header, values: seq<string>) returns (r: Header)
    ensures WithoutNamed(h, values, r)
  {
    r := h;
    for i := 0 to |values|
      invariant WithoutNamed(h, values[..i], r)
    {
      var t := DeleteNamed(r, values[i]);
      ValueStep(h, values, i, r, t);
      r := t;
    }
    assert values[..|values|] == values;
  }

  method DeleteFixed(h: Header) returns (r: Header)
    ensures forall k :: Kept(h, r, k, k in HOP_BY_HOP)
  {
    r := h;
    for i := 0 to |HOP_BY_HOP|
      invariant forall k :: Kept(h, r, k, k in HOP_BY_HOP[..i])
    {
      assert HOP_BY_HOP[..i + 1] == HOP_BY_HOP[..i] + [HOP_BY_HOP[i]];
      r := r - {HOP_BY_HOP[i]};
    }
    assert HOP_BY_HOP[..|HOP_BY_HOP|] == HOP_BY_HOP;
  }

  /** The keys are visited in any order. */
  method DeleteTrailerKeys(h: Header) returns (r: Header)
    ensures forall k :: Kept(h, r, k, HasPrefix(k, TRAILER_PREFIX))
  {
    r := h;
    var todo := h.Keys;
    while todo != {}
      invariant todo <= h.Keys
      invariant forall k :: Kept(h, r, k, HasPrefix(k, TRAILER_PREFIX) && k !in todo)
      decreases |todo|
    {
      var key :| key in todo;
      todo := todo - {key};
      if HasPrefix(key, TRAILER_PREFIX) {
        r := r - {key};
      }
    }
  }

  lemma Composed(h: Header, a: Header, b: Header, c: Header, r: Header)
    requires WithoutNamed(h, At(h, CONNECTION), a) && WithoutNamed(a, At(h, TRAILER), b)
    requires forall k :: Kept(b, c, k, k in HOP_BY_HOP)
    requires forall k :: Kept(c, r, k, HasPrefix(k, TRAILER_PREFIX))
    ensures Stripped(h, r)
  {
    forall k ensures Kept(h, r, k, Drops(h, k)) {
      assert Kept(h, a, k, SomeNames(At(h, CONNECTION), k));
      assert Kept(a, b, k, SomeNames(At(h, TRAILER), k));
      assert Kept(b, c, k, k in HOP_BY_HOP);
      assert Kept(c, r, k, HasPrefix(k, TRAILER_PREFIX));
    }
  }

  /** Connection and Trailer are read before they are deleted themselves. */
  method DeleteHopByHopHeaders(h: Header) returns (r: Header)
    ensures Stripped(h, r)
  {
    var connection, trailer := At(h, CONNECTION), At(h, TRAILER);
    var a := DeleteAllNamed(h, connection);
    var b := DeleteAllNamed(a, trailer);
    var c := DeleteFixed(b);
    r := DeleteTrailerKeys(c);
    Composed(h, a, b, c, r);
  }

  // ---------------------------------------------------------------- the three callers

  ghost predicate Dirty(h: Header) {
    exists k :: k in h && DirtyKey(k)
  }

  predicate DirtyKey(k: string) {
    !IsCanonical(k) || HasPrefix(k, TRAILER_PREFIX) || k in HOP_BY_HOP
  }

  method NeedsHeaderCleanup(h: Header) returns (needs: bool)
    ensures needs <==> Dirty(h)
  {
    var todo := h.Keys;
    while todo != {}
      invariant todo <= h.Keys
      invariant forall k :: k in h && k !in todo ==> IsCanonical(k) && !HasPrefix(k, TRAILER_PREFIX)
      decreases |todo|
    {
      var key :| key in todo;
      todo := todo - {key};
      if Canonical(key) != key || HasPrefix(key, TRAILER_PREFIX) {
        assert DirtyKey(key);
        return true;
      }
    }
    for i := 0 to |HOP_BY_HOP|
      invariant forall k :: k in HOP_BY_HOP[..i] ==> k !in h
    {
      assert HOP_BY_HOP[..i + 1] == HOP_BY_HOP[..i] + [HOP_BY_HOP[i]];
      if HOP_BY_HOP[i] in h {
        assert DirtyKey(HOP_BY_HOP[i]);
        return true;
      }
    }
    assert HOP_BY_HOP[..|HOP_BY_HOP|] == HOP_BY_HOP;
    return false;
  }

  /** Canonical keys first, then the deletions. */
  ghost predicate Cleaned(h: Header, order: seq<string>, dropXCache: bool, r: Header) {
    exists mid :: Canonicalized(h, order, mid) && Stripped(if dropXCache then mid - {X_CACHE} else mid, r)
  }

  /** The write side; no header at all is the empty map. */
  method CloneCachedHeaders(src: Header, order: seq<string>) returns (r: Header)
    requires IterationOrder(src, order)
    ensures Cleaned(src, order, true, r)
  {
    if |src| == 0 {
      r := map[];
      CleanIsIdentity(src, order);
      return;
    }
    var mid := CanonicalizeHeaderKeys(src, order);
    r := mid - {X_CACHE};
    r := DeleteHopByHopHeaders(r);
  }

  /** What header.Set makes of the single values of an old entry: every field once, under its canonical key. Of several
    * keys of one field the one that is visited last remains. */
  ghost predicate FromLegacy(legacy: map<string, string>, header: Header) {
    && (forall k :: k in header <==> exists j :: j in legacy && Canonical(j) == k)
    && (forall k :: k in header ==> exists j :: j in legacy && Canonical(j) == k && header[k] == [legacy[j]])
  }

  method SetAll(legacy: map<string, string>) returns (header: Header)
    ensures FromLegacy(legacy, header)
  {
    header := map[];
    var todo := legacy.Keys;
    while todo != {}
      invariant todo <= legacy.Keys
      invariant forall k :: k in header ==> exists j :: j in legacy && Canonical(j) == k && header[k] == [legacy[j]]
      invariant forall j :: j in legacy && j !in todo ==> Canonical(j) in header
      decreases |todo|
    {
      var key :| key in todo;
      todo := todo - {key};
      header := header[Canonical(key) := [legacy[key]]];
    }
  }

  lemma LegacyIsCanonical(legacy: map<string, string>, header: Header, k: string)
    requires FromLegacy(legacy, header) && k in header
    ensures IsCanonical(k)
  {
    var j :| j in legacy && Canonical(j) == k;
    CanonicalTwice(j);
  }

  /** The read side: the header of an entry, or the single values of an old one. */
  method CachedHeaderView(headers: Header, legacy: map<string, string>, order: seq<string>) returns (r: Header)
    requires IterationOrder(headers, order)
    ensures headers != map[] ==> Cleaned(headers, order, false, r)
    ensures headers != map[] && !Dirty(headers) ==> r == headers
    ensures headers == map[] ==> exists header :: FromLegacy(legacy, header) && Stripped(header, r)
    ensures !Dirty(r)
  {
    if |headers| > 0 {
      var needs := NeedsHeaderCleanup(headers);
      if !needs {
        CleanIsIdentity(headers, order);
        return headers;
      }
      var cloned := CanonicalizeHeaderKeys(headers, order);
      r := DeleteHopByHopHeaders(cloned);
      CleanedIsClean(headers, order, false, r);
      return;
    }
    if |legacy| == 0 {
      r := map[];
      assert FromLegacy(legacy, r);
      NothingNamed(r);
      return;
    }
    var header := SetAll(legacy);
    forall k | k in header ensures IsCanonical(k) {
      LegacyIsCanonical(legacy, header, k);
    }
    r := DeleteHopByHopHeaders(header);
    StrippedIsClean(header, r);
  }

  // ---------------------------------------------------------------- what cleaning means

  /** For a header that needs no cleanup, the slow path is the identity. */
  lemma CleanIsIdentity(h: Header, order: seq<string>)
    requires IterationOrder(h, order) && !Dirty(h)
    ensures Canonicalized(h, order, h) && Stripped(h, h) && Stripped(h - {X_CACHE}, h - {X_CACHE})
  {
    NothingNamed(h);
    NothingNamed(h - {X_CACHE});
    forall k ensures (k in h <==> IsCanonical(k) && (k in h || Brings(h, order, k)))
                     && (k in h ==> h[k] == At(h, k) + Moved(h, order, k)) {
      forall i | 0 <= i < |order| ensures !MovesTo(order[i], k) {
        assert order[i] in order;
        assert !DirtyKey(order[i]);
      }
      GatherNone(h, order, q => MovesTo(q, k));
      assert k in h ==> !DirtyKey(k);
    }
  }

  lemma NothingNamed(h: Header)
    requires !Dirty(h)
    ensures Stripped(h, h)
  {
    forall k ensures Kept(h, h, k, Drops(h, k)) {
      assert k in h ==> !DirtyKey(k);
      assert DirtyKey(CONNECTION) && DirtyKey(TRAILER) by {
        assert HOP_BY_HOP[0] == CONNECTION && HOP_BY_HOP[4] == TRAILER;
      }
      assert CONNECTION !in h && TRAILER !in h;
    }
  }

  lemma StrippedIsClean(mid: Header, r: Header)
    requires Stripped(mid, r) && forall k :: k in mid ==> IsCanonical(k)
    ensures !Dirty(r)
  {
    forall k | k in r ensures !DirtyKey(k) {
      assert Kept(mid, r, k, Drops(mid, k));
    }
  }

  /** What comes out needs no further cleanup, whatever the order of iteration; the write side drops X-Cache as well. */
  lemma CleanedIsClean(h: Header, order: seq<string>, dropXCache: bool, r: Header)
    requires Cleaned(h, order, dropXCache, r)
    ensures !Dirty(r)
    ensures dropXCache ==> X_CACHE !in r
  {
    var mid :| Canonicalized(h, order, mid) && Stripped(if dropXCache then mid - {X_CACHE} else mid, r);
    var base := if dropXCache then mid - {X_CACHE} else mid;
    forall k | k in base ensures IsCanonical(k) {
    }
    StrippedIsClean(base, r);
    assert Kept(base, r, X_CACHE, Drops(base, X_CACHE));
  }

  /** An entry written through the write side is replayed unchanged by the shortcut of the read side. */
  lemma ShortcutIsExact(h: Header, order: seq<string>, r: Header)
    requires IterationOrder(h, order) && !Dirty(h)
    ensures Cleaned(h, order, false, r) <==> r == h
  {
    CleanIsIdentity(h, order);
    if Cleaned(h, order, false, r) {
      var mid :| Canonicalized(h, order, mid) && Stripped(mid, r);
      CanonicalizedUnique(h, order, h, mid);
      StrippedUnique(h, h, r);
    }
  }

  lemma CanonicalizedUnique(h: Header, order: seq<string>, a: Header, b: Header)
    requires Canonicalized(h, order, a) && Canonicalized(h, order, b)
    ensures a == b
  {
    forall k ensures (k in a <==> k in b) && (k in a ==> a[k] == b[k]) {
    }
  }

  lemma StrippedUnique(h: Header, a: Header, b: Header)
    requires Stripped(h, a) && Stripped(h, b)
    ensures a == b
  {
    forall k ensures (k in a <==> k in b) && (k in a ==> a[k] == b[k]) {
      assert Kept(h, a, k, Drops(h, k)) && Kept(h, b, k, Drops(h, k));
    }
  }

  /** No field is left that any Connection or Trailer field names, however their keys are written. */
  lemma NamedFieldsGone(h: Header, order: seq<string>, dropXCache: bool, r: Header, j: string, v: string, k: string)
    requires IterationOrder(h, order) && Cleaned(h, order, dropXCache, r)
    requires j in h && (Canonical(j) == CONNECTION || Canonical(j) == TRAILER) && v in h[j] && Names(v, k)
    ensures k !in r
  {
    var mid :| Canonicalized(h, order, mid) && Stripped(if dropXCache then mid - {X_CACHE} else mid, r);
    ValueArrives(h, order, mid, j, v);
    var name := Canonical(j);
    NamesSurvive(mid, name, dropXCache);
    NamedIsDropped(if dropXCache then mid - {X_CACHE} else mid, r, name, v, k);
  }

  /** The naming fields are still there when they are read. */
  lemma NamesSurvive(mid: Header, name: string, dropXCache: bool)
    requires name == CONNECTION || name == TRAILER
    ensures At(if dropXCache then mid - {X_CACHE} else mid, name) == At(mid, name)
  {
    assert name != X_CACHE;
  }

  lemma NamedIsDropped(base: Header, r: Header, name: string, v: string, k: string)
    requires Stripped(base, r) && (name == CONNECTION || name == TRAILER) && v in At(base, name) && Names(v, k)
    ensures k !in r
  {
    var i :| 0 <= i < |At(base, name)| && At(base, name)[i] == v;
    assert SomeNames(At(base, name), k);
    assert Kept(base, r, k, Drops(base, k));
  }

  /** Every value of a key is found under its canonical key. */
  lemma ValueArrives(h: Header, order: seq<string>, mid: Header, j: string, v: string)
    requires IterationOrder(h, order) && Canonicalized(h, order, mid) && j in h && v in h[j]
    ensures Canonical(j) in mid && v in mid[Canonical(j)]
  {
    var k := Canonical(j);
    CanonicalTwice(j);
    if !IsCanonical(j) {
      var i :| 0 <= i < |order| && order[i] == j;
      assert MovesTo(order[i], k);
      assert Brings(h, order, k);
      GatherHas(h, order, q => MovesTo(q, k), i, v);
    }
  }

  /** The values of a field: those of every key that is canonically that name. */
  function FieldValues(h: Header, order: seq<string>, name: string): seq<string> {
    Gather(h, order, q => Canonical(q) == name)
  }

  predicate HasField(h: Header, name: string) {
    exists j :: j in h && Canonical(j) == name
  }

  /** Canonicalization loses and invents no value of any field. */
  lemma CanonicalizedConserves(h: Header, order: seq<string>, mid: Header, k: string)
    requires IterationOrder(h, order) && Canonicalized(h, order, mid)
    ensures k in mid <==> HasField(h, k)
    ensures k in mid ==> multiset(mid[k]) == multiset(FieldValues(h, order, k))
  {
    if j :| j in h && Canonical(j) == k {
      CanonicalTwice(j);
      var i :| 0 <= i < |order| && order[i] == j;
      assert !IsCanonical(j) ==> MovesTo(order[i], k);
    }
    if k in mid && Brings(h, order, k) {
      var i :| 0 <= i < |order| && order[i] in h && MovesTo(order[i], k);
      assert Canonical(order[i]) == k;
    }
    if k in mid {
      GatherSplit(h, order, q => Canonical(q) == k, q => q == k, q => MovesTo(q, k));
      GatherOne(h, order, k);
      assert k in h ==> k in order;
    }
  }

  /** Whether a field goes, told from the header as it was: by the fixed list, by its prefix, or because it is named. */
  ghost predicate Goes(h: Header, k: string, dropXCache: bool) {
    || (dropXCache && k == X_CACHE) || k in HOP_BY_HOP || HasPrefix(k, TRAILER_PREFIX)
    || exists j, v :: j in h && (Canonical(j) == CONNECTION || Canonical(j) == TRAILER) && v in h[j] && Names(v, k)
  }

  /** Exactly the other fields stay, each with all its values. */
  lemma CleanedExactly(h: Header, order: seq<string>, dropXCache: bool, r: Header, k: string)
    requires IterationOrder(h, order) && Cleaned(h, order, dropXCache, r)
    ensures k in r <==> HasField(h, k) && !Goes(h, k, dropXCache)
    ensures k in r ==> multiset(r[k]) == multiset(FieldValues(h, order, k))
  {
    var mid :| Canonicalized(h, order, mid) && Stripped(if dropXCache then mid - {X_CACHE} else mid, r);
    var base := if dropXCache then mid - {X_CACHE} else mid;
    CanonicalizedConserves(h, order, mid, k);
    assert Kept(base, r, k, Drops(base, k));
    if j, v :| j in h && (Canonical(j) == CONNECTION || Canonical(j) == TRAILER) && v in h[j] && Names(v, k) {
      NamedFieldsGone(h, order, dropXCache, r, j, v, k);
    }
    if k in base && Drops(base, k) {
      DropsSource(h, order, dropXCache, mid, k);
    }
  }

  lemma DropsSource(h: Header, order: seq<string>, dropXCache: bool, mid: Header, k: string)
    requires IterationOrder(h, order) && Canonicalized(h, order, mid)
    requires Drops(if dropXCache then mid - {X_CACHE} else mid, k)
    ensures Goes(h, k, dropXCache)
  {
    NamesSurvive(mid, CONNECTION, dropXCache);
    NamesSurvive(mid, TRAILER, dropXCache);
    if SomeNames(At(mid, CONNECTION), k) {
      NamedBySource(h, order, mid, CONNECTION, k);
    } else if SomeNames(At(mid, TRAILER), k) {
      NamedBySource(h, order, mid, TRAILER, k);
    }
  }

  lemma NamedBySource(h: Header, order: seq<string>, mid: Header, name: string, k: string)
    requires IterationOrder(h, order) && Canonicalized(h, order, mid) && SomeNames(At(mid, name), k)
    ensures exists j, v :: j in h && Canonical(j) == name && v in h[j] && Names(v, k)
  {
    var i :| 0 <= i < |At(mid, name)| && Names(At(mid, name)[i], k);
    var v := At(mid, name)[i];
    CanonicalizedConserves(h, order, mid, name);
    assert v in multiset(mid[name]);
    var n := GatheredFrom(h, order, q => Canonical(q) == name, v);
    assert order[n] in h && v in h[order[n]];
  }

  /** The order of iteration decides nothing but the order of a field's values. */
  lemma CleanedIgnoresOrder(h: Header, a: seq<string>, b: seq<string>, dropXCache: bool, r: Header, t: Header)
    requires IterationOrder(h, a) && Cleaned(h, a, dropXCache, r)
    requires IterationOrder(h, b) && Cleaned(h, b, dropXCache, t)
    ensures r.Keys == t.Keys && forall k :: k in r ==> multiset(r[k]) == multiset(t[k])
  {
    OrdersAreRearrangements(h, a, b);
    forall k ensures (k in r <==> k in t) && (k in r ==> multiset(r[k]) == multiset(t[k])) {
      CleanedExactly(h, a, dropXCache, r, k);
      CleanedExactly(h, b, dropXCache, t, k);
      GatherOrder(h, a, b, q => Canonical(q) == k);
    }
  }
}
