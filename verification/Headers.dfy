/** Cleaning headers before they are cached or replayed (section 7.6.1 of RFC 9110): cloneCachedHeaders,
  * canonicalizeHeaderKeys, deleteHopByHopHeaders, needsHeaderCleanup and cachedHeaderView of cache.go. */
module Headers {
  import opened Text
  import opened HeaderMaps

  // ---------------------------------------------------------------- canonical keys

  predicate IsTokenChar(c: char) {
    'a' <= c <= 'z' || 'A' <= c <= 'Z' || '0' <= c <= '9' || c in "!#$%&'*+-.^_`|~"
  }

  predicate IsToken(key: string) {
    forall i :: 0 <= i < |key| ==> IsTokenChar(key[i])
  }

  function UpperChar(c: char): char {
    if 'a' <= c <= 'z' then (c as int - 32) as char else c
  }

  function Recased(key: string, upper: bool): (r: string)
    ensures |r| == |key|
  {
    if key == "" then ""
    else [if upper then UpperChar(key[0]) else LowerChar(key[0])] + Recased(key[1..], key[0] == '-')
  }

  /** http.CanonicalHeaderKey: a key that is not a token is left alone. */
  function Canonical(key: string): string {
    if IsToken(key) then Recased(key, true) else key
  }

  lemma {:induction false} RecasedTwice(key: string, upper: bool)
    ensures Recased(Recased(key, upper), upper) == Recased(key, upper)
    ensures IsToken(key) ==> IsToken(Recased(key, upper))
  {
    if key != "" {
      var r := Recased(key, upper);
      assert r[1..] == Recased(key[1..], key[0] == '-');
      RecasedTwice(key[1..], key[0] == '-');
      assert r[0] == '-' <==> key[0] == '-';
      assert IsToken(key) ==> IsTokenChar(key[0]) && IsToken(key[1..]);
      assert IsTokenChar(key[0]) ==> IsTokenChar(r[0]);
      assert r == [r[0]] + r[1..];
    }
  }

  lemma CanonicalTwice(key: string)
    ensures Canonical(Canonical(key)) == Canonical(key)
  {
    RecasedTwice(key, true);
  }

  predicate IsCanonical(key: string) {
    Canonical(key) == key
  }

  // ---------------------------------------------------------------- canonicalizeHeaderKeys

  predicate MovesTo(key: string, k: string) {
    !IsCanonical(key) && Canonical(key) == k
  }

  /** The values that the keys of order bring to the canonical key k: those that have to be moved. */
  function Moved(h: Header, order: seq<string>, k: string): seq<string> {
    Gather(h, order, key => MovesTo(key, k))
  }

  predicate Brings(h: Header, order: seq<string>, k: string) {
    exists i :: 0 <= i < |order| && order[i] in h && MovesTo(order[i], k)
  }

  /** After the keys of done: a moved key is gone, and its values follow those of its canonical key. */
  ghost predicate Fits(h: Header, done: seq<string>, r: Header, k: string) {
    FitsWith(h, r, k, IsCanonical(k), k in done, Brings(h, done, k), Moved(h, done, k))
  }

  ghost predicate FitsWith(h: Header, r: Header, k: string, canonical: bool, visited: bool, brings: bool,
      moved: seq<string>) {
    if canonical then (k in r <==> k in h || brings) && At(r, k) == At(h, k) + moved
    else (k in r <==> k in h && !visited) && (k in r ==> r[k] == h[k])
  }

  ghost predicate CanonicalizedUpTo(h: Header, done: seq<string>, r: Header) {
    forall k :: Fits(h, done, r, k)
  }

  /** All of them: only canonical keys are left, and no value is lost. */
  ghost predicate Canonicalized(h: Header, order: seq<string>, r: Header) {
    forall k :: (k in r <==> IsCanonical(k) && (k in h || Brings(h, order, k)))
                && (k in r ==> r[k] == At(h, k) + Moved(h, order, k))
  }

  function Move(r: Header, key: string): Header
    requires key in r
  {
    (r - {key})[Canonical(key) := At(r - {key}, Canonical(key)) + r[key]]
  }

  lemma BringsSnoc(h: Header, done: seq<string>, key: string, k: string)
    ensures Brings(h, done + [key], k) <==> Brings(h, done, k) || (key in h && MovesTo(key, k))
  {
    var all := done + [key];
    assert all[|done|] == key;
    if i :| 0 <= i < |done| && done[i] in h && MovesTo(done[i], k) {
      assert all[i] == done[i];
    }
  }

  lemma MovedSnoc(h: Header, done: seq<string>, key: string, k: string)
    ensures Moved(h, done + [key], k) == Moved(h, done, k) + (if MovesTo(key, k) then At(h, key) else [])
  {
    GatherSnoc(h, done, key, q => MovesTo(q, k));
  }

  lemma StepFits(h: Header, done: seq<string>, r: Header, key: string, k: string)
    requires Fits(h, done, r, k) && Fits(h, done, r, key) && key in h && key !in done
    ensures Fits(h, done + [key], if IsCanonical(key) then r else Move(r, key), k)
  {
    CanonicalTwice(key);
    BringsSnoc(h, done, key, k);
    MovedSnoc(h, done, key, k);
    assert k in done + [key] <==> k in done || k == key;
    if !IsCanonical(key) {
      MoveAt(r, key, k);
      MovedFits(h, r, Move(r, key), key, Canonical(key), k, IsCanonical(k), k in done, Brings(h, done, k),
          Moved(h, done, k));
    }
  }

  lemma MoveAt(r: Header, key: string, k: string)
    requires key in r && IsCanonical(Canonical(key)) && !IsCanonical(key)
    ensures k in Move(r, key) <==> (k in r && k != key) || k == Canonical(key)
    ensures At(Move(r, key), k) ==
            if k == key then [] else At(r, k) + (if k == Canonical(key) then r[key] else [])
  {
    var c := Canonical(key);
    assert c != key;
  }

  lemma MovedFits(h: Header, r: Header, t: Header, key: string, c: string, k: string,
                  canonical: bool, visited: bool, brings: bool, moved: seq<string>)
    requires key in r && key in h && r[key] == h[key] && FitsWith(h, r, k, canonical, visited, brings, moved)
    requires (k == key ==> !canonical) && (k == c ==> canonical)
    requires k in t <==> (k in r && k != key) || k == c
    requires At(t, k) == if k == key then [] else At(r, k) + (if k == c then r[key] else [])
    ensures FitsWith(h, t, k, canonical, visited || k == key, brings || c == k,
                     moved + (if c == k then At(h, key) else []))
  {
    if k == c {
      assert (At(h, k) + moved) + h[key] == At(h, k) + (moved + h[key]);
    }
    assert k in t ==> t[k] == At(t, k);
    assert k in r ==> r[k] == At(r, k);
  }

  lemma KeyStep(h: Header, order: seq<string>, i: nat, r: Header)
    requires IterationOrder(h, order) && i < |order| && CanonicalizedUpTo(h, order[..i], r)
    ensures order[i] in r
    ensures CanonicalizedUpTo(h, order[..i + 1], if IsCanonical(order[i]) then r else Move(r, order[i]))
  {
    var done, key, next := order[..i], order[i], order[..i + 1];
    assert next == done + [key];
    assert Fits(h, done, r, key);
    var t := if IsCanonical(key) then r else Move(r, key);
    forall k ensures Fits(h, next, t, k) {
      assert Fits(h, done, r, k);
      StepFits(h, done, r, key, k);
    }
  }

  lemma AllDone(h: Header, order: seq<string>, r: Header)
    requires IterationOrder(h, order) && CanonicalizedUpTo(h, order, r)
    ensures Canonicalized(h, order, r)
  {
    forall k ensures (k in r <==> IsCanonical(k) && (k in h || Brings(h, order, k)))
                     && (k in r ==> r[k] == At(h, k) + Moved(h, order, k)) {
      assert Fits(h, order, r, k);
    }
  }

  lemma NotStarted(h: Header)
    ensures CanonicalizedUpTo(h, [], h)
  {
    forall k ensures Fits(h, [], h, k) {
    }
  }

  method CanonicalizeHeaderKeys(h: Header, order: seq<string>) returns (r: Header)
    requires IterationOrder(h, order)
    ensures Canonicalized(h, order, r)
  {
    r := h;
    NotStarted(h);
    assert order[..0] == [];
    for i := 0 to |order|
      invariant CanonicalizedUpTo(h, order[..i], r)
    {
      var key := order[i];
      KeyStep(h, order, i, r);
      var values := r[key];
      var canonical := Canonical(key);
      if canonical == key {
        continue;
      }
      r := r - {key};
      r := r[canonical := At(r, canonical) + values];
    }
    assert order[..|order|] == order;
    AllDone(h, order, r);
  }
}
