/** The in-memory first level: persist/memory.go. Items are told apart by identity, as the pointers of the code are. */
module MemoryStore {
  import opened Wrappers
  import opened Int64

  type Value = nat

  /** expiration is in Unix nanoseconds; zero and less mean never. */
  datatype Item = Item(id: nat, value: Value, expiration: int)

  predicate Expired(item: Item, now: int) {
    item.expiration > 0 && now > item.expiration
  }

  /** What SetWithContext stores for a lifetime: time.Now().Add(expire).UnixNano(), which wraps around. */
  function Expiration(now: int, expire: int): int {
    if expire > 0 then Wrap(now + expire) else 0
  }

  /** The item expires after its lifetime and not before; without a lifetime it never does. */
  ghost predicate LivesFor(item: Item, now: int, expire: int) {
    forall t: int :: Expired(item, t) <==> expire > 0 && t > now + expire
  }

  /** An item lives exactly as long as it was given, if and only if its end can be expressed in 64 bits: beyond, it
    * would never expire, as one that is given no lifetime. */
  lemma LifetimeExact(now: int, expire: int, id: nat, v: Value)
    requires 0 <= now <= MAX && expire <= MAX
    ensures LivesFor(Item(id, v, Expiration(now, expire)), now, expire) <==> expire <= 0 || now + expire <= MAX
  {
    var item := Item(id, v, Expiration(now, expire));
    if expire > 0 && now + expire > MAX {
      assert item.expiration <= 0;
      assert !Expired(item, now + expire + 1);
    }
  }

  class Store {
    var data: map<string, Item>
    const defaultExpiration: int

    constructor (defaultExpiration: int)
      ensures data == map[] && this.defaultExpiration == defaultExpiration
    {
      this.defaultExpiration, data := defaultExpiration, map[];
    }

    /** Get; newer is what a concurrent Set puts in place between the load and the deletion. */
    method Get(key: string, now: int, newer: Option<Item>) returns (hit: Option<Value>)
      requires newer.Some? && key in data ==> newer.value.id != data[key].id
      modifies this
      ensures hit.Some? <==> key in old(data) && !Expired(old(data)[key], now)
      ensures hit.Some? ==> hit.value == old(data)[key].value
      // the newer item is never the one that is deleted, and nothing that is alive is
      ensures newer.Some? ==> data == old(data)[key := newer.value]
      ensures newer.None? ==> data == if hit.None? then old(data) - {key} else old(data)
    {
      if key !in data {
        if newer.Some? {
          data := data[key := newer.value];
        }
        return None;
      }
      var item := data[key];
      if newer.Some? {
        data := data[key := newer.value];
      }
      if Expired(item, now) {
        CompareAndDelete(key, item);
        return None;
      }
      return Some(item.value);
    }

    method CompareAndDelete(key: string, item: Item)
      modifies this
      ensures data == if key in old(data) && old(data)[key].id == item.id then old(data) - {key} else old(data)
    {
      if key in data && data[key].id == item.id {
        data := data - {key};
      }
    }

    method Set(key: string, value: Value, expire: int, now: int, id: nat)
      modifies this
      ensures data ==
          old(data)[key := Item(id, value, Expiration(now, if expire == 0 then defaultExpiration else expire))]
      // zero stands for the default of the store
      ensures var lifetime := if expire != 0 then expire else defaultExpiration;
              0 <= now && now + Max(lifetime, 0) <= MAX ==> LivesFor(data[key], now, lifetime)
    {
      var effective := if expire == 0 then defaultExpiration else expire;
      if 0 <= now && now + Max(effective, 0) <= MAX {
        LifetimeExact(now, effective, id, value);
      }
      data := data[key := Item(id, value, Expiration(now, effective))];
    }

    method Delete(key: string)
      modifies this
      ensures data == old(data) - {key}
    {
      data := data - {key};
    }

    /** The keys are visited in any order. */
    method DeletePattern(matches: string -> bool) returns (deleted: nat)
      modifies this
      ensures forall k :: k in data <==> k in old(data) && !matches(k)
      ensures forall k :: k in data ==> data[k] == old(data)[k]
      ensures deleted == |old(data)| - |data|
    {
      deleted := 0;
      var todo := data.Keys;
      while todo != {}
        invariant todo <= data.Keys
        invariant forall k :: k in data <==> k in old(data) && (matches(k) ==> k in todo)
        invariant forall k :: k in data ==> data[k] == old(data)[k]
        invariant deleted + |data| == |old(data)|
        decreases |todo|
      {
        var key :| key in todo;
        todo := todo - {key};
        if matches(key) {
          assert data.Keys == (data - {key}).Keys + {key};
          assert |data.Keys| == |data| && |(data - {key}).Keys| == |data - {key}|;
          data := data - {key};
          deleted := deleted + 1;
        }
      }
    }

    method DeleteExpired(now: int)
      modifies this
      ensures forall k :: k in data <==> k in old(data) && !Expired(old(data)[k], now)
      ensures forall k :: k in data ==> data[k] == old(data)[k]
    {
      var todo := data.Keys;
      while todo != {}
        invariant todo <= data.Keys
        invariant forall k :: k in data <==> k in old(data) && (Expired(old(data)[k], now) ==> k in todo)
        invariant forall k :: k in data ==> data[k] == old(data)[k]
        decreases |todo|
      {
        var key :| key in todo;
        todo := todo - {key};
        if Expired(data[key], now) {
          CompareAndDelete(key, data[key]);
        }
      }
    }
  }
}
