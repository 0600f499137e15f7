/** The order of the store writes of one flight key. */
module FlightWrites {
  import opened Wrappers
  import opened FlightKeys
  import opened Flights
  import opened FlightReplies
  import opened FlightSteps
  import opened FlightLocks

  /** As long as it is registered, no newer flight of its key can start; it needs that until it holds the lock. */
  ghost predicate NeedsRegistration(fl: Flight) {
    MayStore(fl) && !HoldsLock(fl.stage) && !fl.superseded
  }

  /** A timer callback releases a flight that is not its own and that is not marked, may still store, and does not hold
    * the lock of its shard yet. */
  ghost predicate Stray(s: State, a: Action) {
    && a.Forget? && a.f in s.flights && s.flights[a.f].fkey in s.registered
    && var g := s.registered[s.flights[a.f].fkey];
       g != a.f && g in s.flights && NeedsRegistration(s.flights[g])
  }

  ghost predicate NoStray(states: seq<State>, actions: seq<Action>, from: nat)
    requires |states| == |actions| + 1
  {
    forall j :: from <= j < |actions| ==> !Stray(states[j], actions[j])
  }

  ghost predicate WriterOk(cfg: Config, s: State, f: FlightId)
    requires f in s.flights
  {
    var fl := s.flights[f];
    && f < s.next
    && (NeedsRegistration(fl) ==> fl.fkey in s.registered && s.registered[fl.fkey] == f)
    && (NeedsRegistration(fl) ==> forall g :: g in s.flights && s.flights[g].fkey == fl.fkey ==> g <= f)
    && (MayStore(fl) && HoldsLock(fl.stage) && (fl.superseded ==> fl.stage.Checked?) ==>
          forall g :: g in s.log && g in s.flights && s.flights[g].fkey == fl.fkey ==> g < f)
  }

  ghost predicate SameKey(s: State, f: FlightId, g: FlightId) {
    f in s.flights && g in s.flights && s.flights[f].fkey == s.flights[g].fkey
  }

  /** The store writes of every key happened in the order in which its flights started. */
  ghost predicate InOrder(s: State) {
    forall i, j :: 0 <= i < j < |s.log| && SameKey(s, s.log[i], s.log[j]) ==> s.log[i] < s.log[j]
  }

  ghost predicate LogOk(s: State) {
    (forall f :: f in s.log ==> f in s.flights && !MayStore(s.flights[f])) && InOrder(s)
  }

  /** The entry of a slot that a flight stored is that of the newest flight of its key that stored anything. */
  ghost predicate StoredOk(s: State, slot: Slot)
    requires slot in s.stores
  {
    var w := s.stores[slot].writer;
    w.Some? ==>
      && w.value in s.log && w.value in s.flights && s.flights[w.value].slot == slot
      && forall g :: g in s.log && SameKey(s, g, w.value) && s.flights[g].slot == slot ==> g <= w.value
  }

  ghost predicate Fenced(cfg: Config, s: State) {
    && (forall f :: f in s.flights ==> WriterOk(cfg, s, f))
    && LogOk(s)
    && (forall slot :: slot in s.stores ==> StoredOk(s, slot))
  }

  // ---------------------------------------------------------------- what every step keeps

  /** Whatever flight loses its registration does not need it any more. */
  ghost predicate KeepsNeeded(s: State, s': State) {
    forall k :: k in s.registered && k !in s'.registered && s.registered[k] in s'.flights ==>
                  !NeedsRegistration(s'.flights[s.registered[k]])
  }

  lemma FlightStepRegistration(cfg: Config, s: State, a: Action)
    requires EnabledFlight(cfg, s, a) && !Stray(s, a) && Inv(cfg, s)
    ensures KeepsNeeded(s, NextFlight(cfg, s, a))
  {
  }

  lemma StartKeepsWriter(cfg: Config, s: State, s': State, f: FlightId)
    requires Fenced(cfg, s) && StartStep(cfg, s, s') && f in s'.flights
    ensures WriterOk(cfg, s', f)
  {
    assert f in s.flights ==> WriterOk(cfg, s, f);
    assert forall g :: g in s.flights ==> WriterOk(cfg, s, g);
  }

  lemma StartKeepsLog(cfg: Config, s: State, s': State)
    requires Fenced(cfg, s) && StartStep(cfg, s, s')
    ensures LogOk(s')
    ensures forall slot :: slot in s'.stores ==> StoredOk(s', slot)
  {
    forall slot | slot in s'.stores ensures StoredOk(s', slot) {
      assert StoredOk(s, slot);
    }
  }

  lemma WriteKeepsOwn(cfg: Config, s: State, s': State, f: FlightId)
    requires Fenced(cfg, s) && LocksOk(cfg, s) && f in s.flights && FlightFrame(s, s', f) && WriteStep(cfg, s, s', f)
    requires KeepsNeeded(s, s')
    ensures WriterOk(cfg, s', f)
  {
    assert WriterOk(cfg, s, f) && HolderOk(cfg, s, f);
  }

  lemma WriteKeepsOther(cfg: Config, s: State, s': State, f: FlightId, g: FlightId)
    requires Fenced(cfg, s) && LocksOk(cfg, s) && f in s.flights && FlightFrame(s, s', f) && WriteStep(cfg, s, s', f)
    requires KeepsNeeded(s, s')
    requires g in s.flights && g != f
    ensures WriterOk(cfg, s', g)
  {
    assert WriterOk(cfg, s, f) && WriterOk(cfg, s, g) && HolderOk(cfg, s, f) && HolderOk(cfg, s, g);
  }

  lemma WriteKeepsLog(cfg: Config, s: State, s': State, f: FlightId)
    requires Fenced(cfg, s) && LocksOk(cfg, s) && f in s.flights && FlightFrame(s, s', f) && WriteStep(cfg, s, s', f)
    ensures LogOk(s')
  {
    assert WriterOk(cfg, s, f);
    forall g | g in s'.log ensures g in s'.flights && !MayStore(s'.flights[g]) {
      assert g in s.log || g == f;
    }
    forall i, j | 0 <= i < j < |s'.log| && SameKey(s', s'.log[i], s'.log[j]) ensures s'.log[i] < s'.log[j] {
      assert s'.log[i] == s.log[i];
      assert j < |s.log| ==> SameKey(s, s.log[i], s.log[j]);
      assert j == |s.log| ==> s'.log[j] == f && s.log[i] in s.log;
    }
  }

  lemma WriteKeepsStored(cfg: Config, s: State, s': State, f: FlightId, slot: Slot)
    requires Fenced(cfg, s) && LocksOk(cfg, s) && f in s.flights && FlightFrame(s, s', f) && WriteStep(cfg, s, s', f)
    requires slot in s'.stores
    ensures StoredOk(s', slot)
  {
    assert WriterOk(cfg, s, f);
    assert slot in s.stores ==> StoredOk(s, slot);
  }

  lemma FencedKept(cfg: Config, s: State, a: Action)
    requires Enabled(cfg, s, a) && Fenced(cfg, s) && Sound(cfg, s) && !Stray(s, a)
    ensures Fenced(cfg, Next(cfg, s, a))
  {
    var s' := Next(cfg, s, a);
    if EnabledRequest(s, a) {
      RequestStepStarts(cfg, s, a);
      StartKeepsLog(cfg, s, s');
      forall f | f in s'.flights ensures WriterOk(cfg, s', f) {
        StartKeepsWriter(cfg, s, s', f);
      }
    } else if EnabledFlight(cfg, s, a) {
      FlightStepFrame(cfg, s, a);
      FlightStepWrites(cfg, s, a);
      FlightStepRegistration(cfg, s, a);
      WriteKeepsLog(cfg, s, s', a.f);
      forall f | f in s'.flights ensures WriterOk(cfg, s', f) {
        if f == a.f { WriteKeepsOwn(cfg, s, s', f); } else { WriteKeepsOther(cfg, s, s', a.f, f); }
      }
      forall slot | slot in s'.stores ensures StoredOk(s', slot) {
        WriteKeepsStored(cfg, s, s', a.f, slot);
      }
    } else {
      OtherKept(cfg, s, a);
    }
  }

  lemma OtherKept(cfg: Config, s: State, a: Action)
    requires EnabledOther(s, a) && Fenced(cfg, s) && !EnabledRequest(s, a) && !EnabledFlight(cfg, s, a)
    ensures Fenced(cfg, Next(cfg, s, a))
  {
    var s' := Next(cfg, s, a);
    forall f | f in s'.flights ensures WriterOk(cfg, s', f) {
      assert WriterOk(cfg, s, f);
    }
    forall slot | slot in s'.stores ensures StoredOk(s', slot) {
      assert slot in s.stores ==> StoredOk(s, slot);
    }
  }

  lemma {:induction false} RunFenced(cfg: Config, states: seq<State>, actions: seq<Action>, i: nat)
    requires Run(cfg, states, actions) && i < |states| && NoStray(states, actions, 0)
    ensures Fenced(cfg, states[i])
  {
    if i > 0 {
      RunFenced(cfg, states, actions, i - 1);
      RunSound(cfg, states, actions, i - 1);
      FencedKept(cfg, states[i - 1], actions[i - 1]);
    }
  }

  /** As long as no timer callback is stray, the store writes of one flight key happen in the order in which the flights
    * started, under every interleaving of leaders, timers and locks; and what a slot holds of our writes is the
    * response of the newest flight of its key that wrote. */
  lemma WritesInOrder(cfg: Config, states: seq<State>, actions: seq<Action>, i: nat)
    requires Run(cfg, states, actions) && i < |states| && NoStray(states, actions, 0)
    ensures
      var s := states[i];
      && InOrder(s)
      && (forall slot, f :: slot in s.stores && s.stores[slot].writer == Some(f) ==>
            f in s.flights && s.flights[f].slot == slot
            && forall g :: g in s.log && SameKey(s, g, f) && s.flights[g].slot == slot ==> g <= f)
  {
    RunFenced(cfg, states, actions, i);
    forall slot, f | slot in states[i].stores && states[i].stores[slot].writer == Some(f)
      ensures f in states[i].flights && states[i].flights[f].slot == slot
      ensures forall g :: g in states[i].log && SameKey(states[i], g, f) && states[i].flights[g].slot == slot ==> g <= f
    {
      assert StoredOk(states[i], slot);
    }
  }
}
