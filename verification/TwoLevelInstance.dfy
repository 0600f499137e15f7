/** One instance of the two-level store, updated in place. Each method body is one critical section of the code, and its
  * contract is the step that TwoLevelProtocol takes for it. */
module TwoLevelInstance {
  import opened TwoLevelProtocol

  class Instance {
    var l1: map<Key, Entry>
    var flights: map<Key, ProcId>
    const generations: array<nat>

    ghost predicate Valid()
      reads this, generations
    {
      generations.Length == SHARDS
    }

    ghost function Snapshot(): Node
      requires Valid()
      reads this, generations
    {
      Node(l1, generations[..], flights)
    }

    constructor ()
      ensures Valid() && fresh(generations) && Snapshot() == FRESH_NODE
    {
      l1, flights := map[], map[];
      generations := new nat[SHARDS](_ => 0);
      new;
      assert generations[..] == seq(SHARDS, _ => 0);
    }

    /** begin */
    method Begin(shard: Shard) returns (gen: nat)
      requires Valid()
      ensures gen == Snapshot().gens[shard]
    {
      gen := generations[shard];
    }

    /** commitRead: refuses when the generation moved or the flight was released, and reports whether it wrote. */
    method CommitRead(shard: Shard, gen: nat, superseded: bool, k: Key, e: Entry) returns (written: bool)
      requires Valid()
      modifies this`l1
      ensures Valid() && Snapshot() == TwoLevelProtocol.CommitRead(old(Snapshot()), shard, gen, superseded, k, e)
      ensures written <==> old(Snapshot()).gens[shard] == gen && !superseded
    {
      if generations[shard] != gen || superseded {
        return false;
      }
      l1 := l1[k := e];
      return true;
    }

    /** commitMutation(nil) */
    method BumpGuard(shard: Shard)
      requires Valid()
      modifies generations
      ensures Valid() && Snapshot() == Bump(old(Snapshot()), shard)
    {
      generations[shard] := generations[shard] + 1;
    }

    /** commitMutation(delete) */
    method CommitMutation(shard: Shard, k: Key)
      requires Valid()
      modifies this`l1, generations
      ensures Valid() && Snapshot() == TwoLevelProtocol.CommitMutation(old(Snapshot()), shard, k)
    {
      generations[shard] := generations[shard] + 1;
      l1 := l1 - {k};
    }

    /** bumpAllGuards: every shard once, nothing else. */
    method BumpAllGuards()
      requires Valid()
      modifies generations
      ensures Valid() && Snapshot() == BumpFrom(old(Snapshot()), 0)
    {
      ghost var before := Snapshot();
      var i := 0;
      while i < generations.Length
        invariant i <= SHARDS
        invariant BumpFrom(before, 0) == BumpFrom(Snapshot(), i)
      {
        BumpGuard(i);
        i := i + 1;
      }
    }

    /** singleflight Do: join the registered flight of the key, or register a new one. */
    method Join(k: Key, next: ProcId) returns (flight: ProcId, leader: bool)
      requires Valid()
      modifies this`flights
      ensures Valid() && leader == (k !in old(flights))
      ensures Snapshot() == if leader then Register(old(Snapshot()), k, next) else old(Snapshot())
      ensures flight == if leader then next else old(flights)[k]
    {
      if k in flights {
        return flights[k], false;
      }
      flights := flights[k := next];
      return next, true;
    }

    method ForgetFlight(k: Key)
      requires Valid()
      modifies this`flights
      ensures Valid() && Snapshot() == Forget(old(Snapshot()), k)
    {
      flights := flights - {k};
    }

    /** InvalidateLocal: first the commit, then the release. */
    method InvalidateLocal(shard: Shard, k: Key)
      requires Valid()
      modifies this`l1, this`flights, generations
      ensures Valid() && Snapshot() == Forget(TwoLevelProtocol.CommitMutation(old(Snapshot()), shard, k), k)
    {
      CommitMutation(shard, k);
      ForgetFlight(k);
    }
  }

  /** The bumps of shards i, i+1, ... one after the other, as a pattern deletion performs them. */
  ghost function BumpFrom(nd: Node, i: nat): Node
    requires i <= SHARDS
    decreases SHARDS - i
  {
    if i == SHARDS then nd else BumpFrom(Bump(nd, i), i + 1)
  }

  /** All of them together move every generation by one and touch nothing else. */
  lemma {:induction false} BumpFromMeaning(nd: Node, i: nat)
    requires i <= SHARDS
    ensures BumpFrom(nd, i).l1 == nd.l1 && BumpFrom(nd, i).flights == nd.flights
    ensures forall sh: Shard :: BumpFrom(nd, i).gens[sh] == if sh < i then nd.gens[sh] else nd.gens[sh] + 1
    decreases SHARDS - i
  {
    if i < SHARDS {
      BumpFromMeaning(Bump(nd, i), i + 1);
    }
  }
}
