/** Exactly which timer callbacks endanger the order of writes. A callback that is already running when its flight ends
  * is not stopped: it can release the flight that has taken the key since, without marking it. Two unmarked flights
  * then overlap, and the older response can be stored last. */
module FlightStrayTimer {
  import opened Wrappers
  import opened Fresh
  import opened FlightKeys
  import opened Flights
  import opened FlightReplies
  import opened FlightSteps
  import opened FlightLocks
  import opened FlightWrites

  // ---------------------------------------------------------------- steps of a continuation

  lemma DoStore(cfg: Config, s: State, f: FlightId)
    requires f in s.flights && s.flights[f].stage.Checked?
    ensures Enabled(cfg, s, Store(f, true))
    ensures var s' := Next(cfg, s, Store(f, true));
            && s'.requests == s.requests && s'.registered == s.registered && s'.next == s.next && s'.locks == s.locks
            && s'.log == s.log + [f] && f in s'.flights && s'.flights[f].stage.Leaving?
            && s'.flights == s.flights[f := s.flights[f].(stage := s'.flights[f].stage)]
            && s.flights[f].slot in s'.stores && s'.stores[s.flights[f].slot].writer == Some(f)
  {
  }

  lemma DoLock(cfg: Config, s: State, f: FlightId)
    requires f in s.flights && s.flights[f].stage.Ran? && s.flights[f].stage.keep
    requires cfg.shardOf(s.flights[f].fkey) !in s.locks
    ensures Enabled(cfg, s, Lock(f))
    ensures var s' := Next(cfg, s, Lock(f));
            && Within(s, s', f) && s'.flights[f].stage.Locked?
            && s'.locks == s.locks[cfg.shardOf(s.flights[f].fkey) := f]
  {
  }

  lemma DoEmpty(cfg: Config, s: State, slot: Slot)
    ensures Enabled(cfg, s, External(slot, None))
    ensures Next(cfg, s, External(slot, None)) == s.(stores := s.stores - {slot})
  {
  }

  /** A step of a flight that leaves everything but its own stage and its leader's request alone. */
  ghost predicate Advanced(s: State, s': State, f: FlightId)
    requires f in s.flights
  {
    && s'.requests.Keys == s.requests.Keys && s'.registered == s.registered && s'.next == s.next
    && s'.log == s.log && s'.locks == s.locks && f in s'.flights
    && s'.flights == s.flights[f := s.flights[f].(stage := s'.flights[f].stage, executed := s'.flights[f].executed)]
  }

  /** To where the handler of f has run and its response is to be stored. */
  lemma ToRan(cfg: Config, states: seq<State>, actions: seq<Action>, f: FlightId)
    returns (states': seq<State>, actions': seq<Action>, s': State)
    requires Run(cfg, states, actions)
    requires var s := states[|actions|];
             f in s.flights && NeedsRegistration(s.flights[f]) && s.flights[f].leader in s.requests
    ensures Continues(cfg, states, actions, states', actions') && s' == states'[|actions'|]
    ensures Advanced(states[|actions|], s', f) && s'.flights[f].stage.Ran? && s'.flights[f].stage.keep
  {
    states', actions', s' := states, actions, states[|actions|];
    if s'.flights[f].stage.Looking? {
      var slot := s'.flights[f].slot;
      DoEmpty(cfg, s', slot);
      states', actions', s' := Extend(cfg, states', actions', External(slot, None));
      DoRecheck(cfg, s', f);
      states', actions', s' := Extend(cfg, states', actions', Recheck(f));
    }
    if s'.flights[f].stage.Running? {
      DoRunHandler(cfg, s', f, true);
      SameKeys(s'.requests, Next(cfg, s', RunHandler(f, "", true, false, true)).requests);
      states', actions', s' := Extend(cfg, states', actions', RunHandler(f, "", true, false, true));
    }
  }

  lemma SameKeys(a: map<RequestId, Request>, b: map<RequestId, Request>)
    requires Steps(a) == Steps(b)
    ensures a.Keys == b.Keys
  {
    assert a.Keys == Steps(a).Keys && b.Keys == Steps(b).Keys;
  }

  /** From there through the critical section. */
  lemma LockAndStore(cfg: Config, states: seq<State>, actions: seq<Action>, f: FlightId)
    returns (states': seq<State>, actions': seq<Action>, s': State)
    requires Run(cfg, states, actions)
    requires var s := states[|actions|];
             && f in s.flights && s.flights[f].stage.Ran? && s.flights[f].stage.keep && !s.flights[f].superseded
             && cfg.shardOf(s.flights[f].fkey) !in s.locks
    ensures Continues(cfg, states, actions, states', actions') && s' == states'[|actions'|]
    ensures var s := states[|actions|];
            && s'.log == s.log + [f] && s'.locks == s.locks && s'.requests.Keys == s.requests.Keys && f in s'.flights
            && s'.flights == s.flights[f := s.flights[f].(stage := s'.flights[f].stage)]
            && s.flights[f].slot in s'.stores && s'.stores[s.flights[f].slot].writer == Some(f)
  {
    DoLock(cfg, states[|actions|], f);
    states', actions', s' := Extend(cfg, states, actions, Lock(f));
    DoCheck(cfg, s', f);
    states', actions', s' := Extend(cfg, states', actions', Check(f));
    DoStore(cfg, s', f);
    states', actions', s' := Extend(cfg, states', actions', Store(f, true));
    DoUnlock(cfg, s', f);
    states', actions', s' := Extend(cfg, states', actions', Unlock(f));
  }

  lemma RunAndStore(cfg: Config, states: seq<State>, actions: seq<Action>, f: FlightId)
    returns (states': seq<State>, actions': seq<Action>, s': State)
    requires Run(cfg, states, actions)
    requires var s := states[|actions|];
             && f in s.flights && NeedsRegistration(s.flights[f]) && s.flights[f].leader in s.requests
             && cfg.shardOf(s.flights[f].fkey) !in s.locks
    ensures Continues(cfg, states, actions, states', actions') && s' == states'[|actions'|]
    ensures var s := states[|actions|];
            && s'.log == s.log + [f] && s'.locks == s.locks && s'.requests.Keys == s.requests.Keys && f in s'.flights
            && s'.flights ==
                s.flights[f := s.flights[f].(stage := s'.flights[f].stage, executed := s'.flights[f].executed)]
            && s.flights[f].slot in s'.stores && s'.stores[s.flights[f].slot].writer == Some(f)
  {
    states', actions', s' := ToRan(cfg, states, actions, f);
    states', actions', s' := LockAndStore(cfg, states', actions', f);
  }

  /** A new request finds nothing in the store and leads a flight. */
  lemma Lead(cfg: Config, states: seq<State>, actions: seq<Action>, id: RequestId, slot: Slot)
    returns (states': seq<State>, actions': seq<Action>, s': State)
    requires Run(cfg, states, actions)
    requires var s := states[|actions|]; id !in s.requests && cfg.keyOf(slot, s.serial) !in s.registered
    ensures Continues(cfg, states, actions, states', actions') && s' == states'[|actions'|]
    ensures var s := states[|actions|];
            var fkey := cfg.keyOf(slot, s.serial);
            && s.next !in s.flights
            && s'.log == s.log && s'.locks == s.locks && s'.next == s.next + 1
            && s'.requests.Keys == s.requests.Keys + {id} && s'.registered == s.registered[fkey := s.next]
            && s'.flights == s.flights[s.next := Flight(fkey, s.serial, slot, id, false, Looking, false, false)]
  {
    NextIsFree(cfg, states, actions);
    states', actions', s' := Extend(cfg, states, actions, Arrive(id, slot, false, false));
    DoEmpty(cfg, s', slot);
    states', actions', s' := Extend(cfg, states', actions', External(slot, None));
    states', actions', s' := Extend(cfg, states', actions', Lookup(id));
    states', actions', s' := Extend(cfg, states', actions', Do(id));
  }

  // ---------------------------------------------------------------- a stray callback endangers the order

  /** Two flights of one key are of a store with an identity, so any later request for it gets the same key. */
  lemma SharedKey(cfg: Config, s: State, f: FlightId, g: FlightId, serial: nat)
    requires UsesFlightKey(cfg) && Sound(cfg, s) && SameKey(s, f, g) && f != g
    ensures cfg.keyOf(s.flights[g].slot, serial) == s.flights[g].fkey
  {
    var fl, gl := s.flights[f], s.flights[g];
    assert FlightOk(cfg, s, f) && FlightOk(cfg, s, g) && Distinct(fl, gl);
    FlightKeyInjective(IdentityOf(fl.slot.store, fl.serial), fl.slot.key,
                       IdentityOf(gl.slot.store, gl.serial), gl.slot.key);
  }

  /** An unregistered flight g that may still store is overtaken by a new flight of its key. */
  lemma Overtaken(cfg: Config, states: seq<State>, actions: seq<Action>, g: FlightId)
    returns (states': seq<State>, actions': seq<Action>, s': State)
    requires Run(cfg, states, actions)
    requires var s := states[|actions|];
             && g in s.flights && g < s.next && NeedsRegistration(s.flights[g]) && s.flights[g].leader in s.requests
             && s.flights[g].fkey !in s.registered && cfg.shardOf(s.flights[g].fkey) !in s.locks
             && cfg.keyOf(s.flights[g].slot, s.serial) == s.flights[g].fkey
    ensures Continues(cfg, states, actions, states', actions') && s' == states'[|actions'|]
    ensures var s := states[|actions|];
            && s'.log == s.log + [s.next, g] && SameKey(s', s.next, g)
            && s.flights[g].slot in s'.stores && s'.stores[s.flights[g].slot].writer == Some(g)
  {
    var s := states[|actions|];
    var id := Above(s.requests.Keys);
    states', actions', s' := Lead(cfg, states, actions, id, s.flights[g].slot);
    states', actions', s' := RunAndStore(cfg, states', actions', s.next);
    assert s'.flights[g] == s.flights[g];
    states', actions', s' := RunAndStore(cfg, states', actions', g);
    assert s.log + [s.next] + [g] == s.log + [s.next, g];
  }

  /** After a stray callback of f, a new flight and then the released one can store: the older response last. */
  lemma StrayBreaksOrder(cfg: Config, states: seq<State>, actions: seq<Action>, f: FlightId)
    returns (states': seq<State>, actions': seq<Action>, h: FlightId)
    requires Run(cfg, states, actions) && Stray(states[|actions|], Forget(f))
    requires states[|actions|].flights[f].superseded
    ensures Follows(cfg, states, actions, Forget(f), states', actions')
    ensures var s, s' := states[|actions|], states'[|actions'|];
            var g := s.registered[s.flights[f].fkey];
            && h == s.next && s'.log == s.log + [h, g] && SameKey(s', h, g) && g < h
            && s.flights[g].slot in s'.stores && s'.stores[s.flights[g].slot].writer == Some(g)
  {
    var s := states[|actions|];
    var fkey := s.flights[f].fkey;
    var g := s.registered[fkey];
    var s';
    Released(cfg, states, actions, f);
    DoForget(cfg, s, f);
    states', actions', s' := Extend(cfg, states, actions, Forget(f));
    ghost var released := actions';
    states', actions', s' := FreeLock(cfg, states', actions', cfg.shardOf(fkey));
    h := s'.next;
    assert s'.flights[g] == s.flights[g];
    SharedKey(cfg, s, f, g, s'.serial);
    states', actions', s' := Overtaken(cfg, states', actions', g);
    assert released <= actions' && released[|actions|] == Forget(f);
  }

  lemma DoForget(cfg: Config, s: State, f: FlightId)
    requires f in s.flights && s.flights[f].superseded
    ensures Enabled(cfg, s, Forget(f))
    ensures Next(cfg, s, Forget(f)) == s.(registered := s.registered - {s.flights[f].fkey})
  {
  }

  /** What is known of the two flights when the callback is about to run. */
  lemma Released(cfg: Config, states: seq<State>, actions: seq<Action>, f: FlightId)
    requires Run(cfg, states, actions) && Stray(states[|actions|], Forget(f))
    ensures var s := states[|actions|];
            var g := s.registered[s.flights[f].fkey];
            Sound(cfg, s) && SameKey(s, f, g) && g < s.next && s.flights[g].leader in s.requests
  {
    RunSound(cfg, states, actions, |actions|);
    ReleasedIn(cfg, states[|actions|], f);
  }

  lemma ReleasedIn(cfg: Config, s: State, f: FlightId)
    requires Inv(cfg, s) && Stray(s, Forget(f))
    ensures var g := s.registered[s.flights[f].fkey];
            SameKey(s, f, g) && g < s.next && s.flights[g].leader in s.requests
  {
    assert FlightOk(cfg, s, s.registered[s.flights[f].fkey]);
  }

  /** A longer run whose next action is a, with no stray callback after that. */
  ghost predicate Follows(cfg: Config, states: seq<State>, actions: seq<Action>, a: Action,
                          states': seq<State>, actions': seq<Action>) {
    && Run(cfg, states', actions') && states <= states' && actions + [a] <= actions'
    && NoStray(states', actions', |actions| + 1)
  }

  /** Exactly: after a run without stray callbacks, the callback of f leaves the order of writes safe in every
    * continuation without further stray callbacks if and only if it is not stray itself. */
  lemma StrayExactly(cfg: Config, states: seq<State>, actions: seq<Action>, f: FlightId)
    requires Run(cfg, states, actions) && NoStray(states, actions, 0)
    requires f in states[|actions|].flights && states[|actions|].flights[f].superseded
    ensures (forall states', actions' :: Follows(cfg, states, actions, Forget(f), states', actions') ==>
               InOrder(states'[|actions'|]))
            <==> !Stray(states[|actions|], Forget(f))
  {
    if Stray(states[|actions|], Forget(f)) {
      var states', actions', h := StrayBreaksOrder(cfg, states, actions, f);
      var s := states'[|actions'|];
      var n := |states[|actions|].log|;
      assert s.log[n] == h && s.log[n + 1] < h && SameKey(s, s.log[n], s.log[n + 1]);
    } else {
      forall states', actions' | Follows(cfg, states, actions, Forget(f), states', actions')
        ensures InOrder(states'[|actions'|])
      {
        forall j | 0 <= j < |actions'| ensures !Stray(states'[j], actions'[j]) {
          assert j < |actions| ==> states'[j] == states[j] && actions'[j] == actions[j];
          assert j == |actions| ==> states'[j] == states[j] && actions'[j] == (actions + [Forget(f)])[j];
        }
        WritesInOrder(cfg, states', actions', |actions'|);
      }
    }
  }

  // ---------------------------------------------------------------- an instance

  const SLOT: Slot := Slot(DefaultStore, "k")

  function Cfg(): Config {
    Config((slot: Slot, n: nat) => FlightKey(IdentityOf(slot.store, n), slot.key), k => 0, (r, t) => false)
  }

  function Fkey(): string {
    FlightKey(Default, "k")
  }

  /** The timer of a registered flight marks it, and the flight ends without storing anything. */
  lemma MarkedEnds(states: seq<State>, actions: seq<Action>, f: FlightId)
    returns (states': seq<State>, actions': seq<Action>, s': State)
    requires Run(Cfg(), states, actions)
    requires var s := states[|actions|];
             && f in s.flights && s.flights[f].stage.Ran? && !s.flights[f].stage.keep
             && s.registered == map[s.flights[f].fkey := f]
    ensures Continues(Cfg(), states, actions, states', actions') && s' == states'[|actions'|]
    ensures var s := states[|actions|];
            && s'.log == s.log && s'.locks == s.locks && s'.next == s.next && s'.requests == s.requests
            && s'.registered == map[] && s'.flights.Keys == s.flights.Keys && s'.flights[f].fkey == s.flights[f].fkey
            && s'.flights[f].superseded
  {
    states', actions', s' := Extend(Cfg(), states, actions, Mark(f));
    states', actions', s' := Extend(Cfg(), states', actions', Skip(f));
    states', actions', s' := Extend(Cfg(), states', actions', Finish(f));
  }

  /** Flight 0 has ended while its timer callback is running. */
  lemma FirstEnds() returns (states: seq<State>, actions: seq<Action>, s: State)
    ensures Run(Cfg(), states, actions) && s == states[|actions|]
    ensures s.locks == map[] && s.log == [] && s.requests.Keys == {1} && s.registered == map[] && s.next == 1
    ensures s.flights.Keys == {0} && s.flights[0].fkey == Fkey() && s.flights[0].superseded
  {
    s := State(0, 0, 0, map[], map[], map[], map[], map[], []);
    states, actions := [s], [];
    states, actions, s := Lead(Cfg(), states, actions, 1, SLOT);
    DoEmpty(Cfg(), s, SLOT);
    states, actions, s := Extend(Cfg(), states, actions, External(SLOT, None));
    DoRecheck(Cfg(), s, 0);
    states, actions, s := Extend(Cfg(), states, actions, Recheck(0));
    DoRunHandler(Cfg(), s, 0, false);
    SameKeys(s.requests, Next(Cfg(), s, RunHandler(0, "", true, false, false)).requests);
    states, actions, s := Extend(Cfg(), states, actions, RunHandler(0, "", true, false, false));
    states, actions, s := MarkedEnds(states, actions, 0);
  }

  /** Flight 1 has taken the key; the stray callback releases it, flight 2 starts and stores its response, and flight 1
    * stores its older one last. */
  lemma OldResponseStoredLast() returns (states: seq<State>, actions: seq<Action>)
    ensures Run(Cfg(), states, actions)
    ensures
      var s := states[|actions|];
      && s.log == [2, 1] && SameKey(s, 1, 2)
      && SLOT in s.stores && s.stores[SLOT].writer == Some(1)
  {
    var s;
    states, actions, s := FirstEnds();
    states, actions, s := Lead(Cfg(), states, actions, 2, SLOT);
    assert Stray(s, Forget(0));
    var h;
    states, actions, h := StrayBreaksOrder(Cfg(), states, actions, 0);
  }
}
