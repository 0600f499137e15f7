/** Header maps of the Go standard library, whose order of iteration is arbitrary. */
module HeaderMaps {
  type Header = map<string, seq<string>>

  function At(h: Header, k: string): seq<string> {
    if k in h then h[k] else []
  }

  /** The keys of a map in some order of iteration. */
  ghost predicate IterationOrder(h: Header, order: seq<string>) {
    && (forall k :: k in h ==> k in order)
    && (forall k :: k in order ==> k in h)
    && forall i, j :: 0 <= i < j < |order| ==> order[i] != order[j]
  }

  /** The values of the keys that take accepts, in the order given. */
  function Gather(h: Header, order: seq<string>, take: string -> bool): seq<string> {
    if order == [] then []
    else
      var last := order[|order| - 1];
      Gather(h, order[..|order| - 1], take) + (if take(last) then At(h, last) else [])
  }

  lemma GatherSnoc(h: Header, done: seq<string>, key: string, take: string -> bool)
    ensures Gather(h, done + [key], take) == Gather(h, done, take) + (if take(key) then At(h, key) else [])
  {
    assert (done + [key])[..|done|] == done;
  }

  lemma {:induction false} GatherConcat(h: Header, a: seq<string>, b: seq<string>, take: string -> bool)
    ensures Gather(h, a + b, take) == Gather(h, a, take) + Gather(h, b, take)
  {
    if b == [] {
      assert a + b == a;
    } else {
      var c, k := b[..|b| - 1], b[|b| - 1];
      assert (a + b)[..|a + b| - 1] == a + c;
      GatherConcat(h, a, c, take);
    }
  }

  lemma GatherThree(h: Header, l: seq<string>, k: string, r: seq<string>, take: string -> bool)
    ensures multiset(Gather(h, l + [k] + r, take)) == multiset(Gather(h, l + r, take)) + multiset(Gather(h, [k], take))
  {
    GatherConcat(h, l + [k], r, take);
    GatherConcat(h, l, [k], take);
    GatherConcat(h, l, r, take);
  }

  /** Two orders of iteration gather the same values, each as often. */
  lemma {:induction false} GatherOrder(h: Header, a: seq<string>, b: seq<string>, take: string -> bool)
    requires multiset(a) == multiset(b)
    ensures multiset(Gather(h, a, take)) == multiset(Gather(h, b, take))
  {
    if a == [] {
      assert |multiset(b)| == 0 && b == [];
    } else {
      var init, k := a[..|a| - 1], a[|a| - 1];
      assert a == init + [k];
      var l, r := TakeOut(init, k, b);
      GatherThree(h, l, k, r, take);
      GatherOrder(h, init, l + r, take);
      GatherConcat(h, init, [k], take);
    }
  }

  /** b without one occurrence of k is a rearrangement of a, if b is one of a and k. */
  lemma TakeOut(a: seq<string>, k: string, b: seq<string>) returns (l: seq<string>, r: seq<string>)
    requires multiset(a + [k]) == multiset(b)
    ensures b == l + [k] + r && multiset(a) == multiset(l + r)
  {
    assert k in multiset(b);
    var i :| 0 <= i < |b| && b[i] == k;
    l, r := b[..i], b[i + 1..];
    assert b == l + [k] + r;
    assert multiset(b) == multiset(l + r) + multiset{k};
    assert multiset(a) == multiset(b) - multiset{k};
  }

  lemma OrdersAreRearrangements(h: Header, a: seq<string>, b: seq<string>)
    requires IterationOrder(h, a) && IterationOrder(h, b)
    ensures multiset(a) == multiset(b)
  {
    forall k ensures multiset(a)[k] == multiset(b)[k] {
      CountInOrder(a, k);
      CountInOrder(b, k);
    }
  }

  lemma {:induction false} CountInOrder(a: seq<string>, k: string)
    requires forall i, j :: 0 <= i < j < |a| ==> a[i] != a[j]
    ensures multiset(a)[k] == if k in a then 1 else 0
  {
    if a != [] {
      assert a == a[..|a| - 1] + [a[|a| - 1]];
      CountInOrder(a[..|a| - 1], k);
    }
  }

  lemma {:induction false} GatherNone(h: Header, order: seq<string>, take: string -> bool)
    requires forall i :: 0 <= i < |order| ==> !take(order[i])
    ensures Gather(h, order, take) == []
  {
    if order != [] {
      GatherNone(h, order[..|order| - 1], take);
    }
  }

  lemma {:induction false} GatherHas(h: Header, order: seq<string>, take: string -> bool, i: nat, v: string)
    requires i < |order| && take(order[i]) && v in At(h, order[i])
    ensures v in Gather(h, order, take)
  {
    if i < |order| - 1 {
      GatherHas(h, order[..|order| - 1], take, i, v);
    }
  }

  lemma {:induction false} GatheredFrom(h: Header, order: seq<string>, take: string -> bool, v: string) returns (i: nat)
    requires v in Gather(h, order, take)
    ensures i < |order| && take(order[i]) && v in At(h, order[i])
  {
    var n := |order| - 1;
    if take(order[n]) && v in At(h, order[n]) {
      i := n;
    } else {
      i := GatheredFrom(h, order[..n], take, v);
    }
  }

  /** Gathering by two conditions that exclude each other. */
  lemma {:induction false} GatherSplit(h: Header, order: seq<string>, both: string -> bool, one: string -> bool,
                                        other: string -> bool)
    requires forall k :: both(k) <==> one(k) || other(k)
    requires forall k :: !(one(k) && other(k))
    ensures multiset(Gather(h, order, both)) == multiset(Gather(h, order, one)) + multiset(Gather(h, order, other))
  {
    if order != [] {
      GatherSplit(h, order[..|order| - 1], both, one, other);
    }
  }

  /** One key is met once. */
  lemma {:induction false} GatherOne(h: Header, order: seq<string>, k: string)
    requires forall i, j :: 0 <= i < j < |order| ==> order[i] != order[j]
    ensures Gather(h, order, q => q == k) == if k in order then At(h, k) else []
  {
    if order != [] {
      var init, last := order[..|order| - 1], order[|order| - 1];
      assert order == init + [last];
      GatherSnoc(h, init, last, q => q == k);
      GatherOne(h, init, k);
    }
  }
}
