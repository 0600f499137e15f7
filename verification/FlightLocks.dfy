/** Who holds the lock of a shard, and that every request can always still be answered. */
module FlightLocks {
  import opened Wrappers
  import opened FlightKeys
  import opened Flights
  import opened FlightReplies
  import opened FlightSteps

  ghost predicate HolderOk(cfg: Config, s: State, f: FlightId)
    requires f in s.flights
  {
    HoldsLock(s.flights[f].stage) ==>
      cfg.shardOf(s.flights[f].fkey) in s.locks && s.locks[cfg.shardOf(s.flights[f].fkey)] == f
  }

  ghost predicate LockOk(cfg: Config, s: State, shard: Shard)
    requires shard in s.locks
  {
    var f := s.locks[shard];
    f in s.flights && HoldsLock(s.flights[f].stage) && cfg.shardOf(s.flights[f].fkey) == shard
  }

  /** A lock is held exactly by the flight that is in its critical section. */
  ghost predicate LocksOk(cfg: Config, s: State) {
    && (forall f :: f in s.flights ==> HolderOk(cfg, s, f))
    && (forall shard :: shard in s.locks ==> LockOk(cfg, s, shard))
  }

  ghost predicate Distinct(fl: Flight, gl: Flight) {
    fl.slot.store.ValueStore? && gl.slot.store.ValueStore? ==> fl.serial != gl.serial
  }

  /** A flight of a store without identity shares its serial number with no other. */
  ghost predicate Private(s: State) {
    forall f, g :: f in s.flights && g in s.flights && f != g ==> Distinct(s.flights[f], s.flights[g])
  }

  ghost predicate Sound(cfg: Config, s: State) {
    Inv(cfg, s) && LocksOk(cfg, s) && Private(s)
  }

  // ---------------------------------------------------------------- what every step keeps

  lemma StartKeepsLocks(cfg: Config, s: State, s': State)
    requires LocksOk(cfg, s) && StartStep(cfg, s, s')
    ensures LocksOk(cfg, s')
  {
    forall f | f in s'.flights ensures HolderOk(cfg, s', f) {
      assert f in s.flights ==> HolderOk(cfg, s, f);
    }
    forall shard | shard in s'.locks ensures LockOk(cfg, s', shard) {
      assert LockOk(cfg, s, shard);
    }
  }

  lemma WriteKeepsLocks(cfg: Config, s: State, s': State, f: FlightId)
    requires LocksOk(cfg, s) && f in s.flights && FlightFrame(s, s', f) && WriteStep(cfg, s, s', f)
    ensures LocksOk(cfg, s')
  {
    assert HolderOk(cfg, s, f);
    forall g | g in s'.flights ensures HolderOk(cfg, s', g) {
      assert HolderOk(cfg, s, g);
    }
    forall shard | shard in s'.locks ensures LockOk(cfg, s', shard) {
      assert shard in s.locks ==> LockOk(cfg, s, shard);
    }
  }

  lemma PrivateByRequest(cfg: Config, s: State, a: Action)
    requires Inv(cfg, s) && Private(s) && EnabledRequest(s, a)
    ensures Private(NextRequest(cfg, s, a))
  {
    var s' := NextRequest(cfg, s, a);
    RequestStepFrame(cfg, s, a);
    forall f, g | f in s'.flights && g in s'.flights && f != g ensures Distinct(s'.flights[f], s'.flights[g]) {
      assert f in s.flights ==> FlightOk(cfg, s, f);
      assert g in s.flights ==> FlightOk(cfg, s, g);
      if f !in s.flights {
        NewSerial(cfg, s, a, f);
      }
      if g !in s.flights {
        NewSerial(cfg, s, a, g);
      }
    }
  }

  lemma NewSerial(cfg: Config, s: State, a: Action, f: FlightId)
    requires EnabledRequest(s, a) && f in NextRequest(cfg, s, a).flights && f !in s.flights
    ensures f == s.next && NextRequest(cfg, s, a).flights[f].serial == s.serial
  {
  }

  lemma SoundKept(cfg: Config, s: State, a: Action)
    requires UsesFlightKey(cfg) && Sound(cfg, s) && Enabled(cfg, s, a)
    ensures Sound(cfg, Next(cfg, s, a))
  {
    InvKept(cfg, s, a);
    if EnabledRequest(s, a) {
      RequestStepStarts(cfg, s, a);
      StartKeepsLocks(cfg, s, Next(cfg, s, a));
      PrivateByRequest(cfg, s, a);
    } else if EnabledFlight(cfg, s, a) {
      FlightStepFrame(cfg, s, a);
      FlightStepWrites(cfg, s, a);
      WriteKeepsLocks(cfg, s, Next(cfg, s, a), a.f);
    } else {
      OtherKeepsLocks(cfg, s, a);
    }
  }

  lemma OtherKeepsLocks(cfg: Config, s: State, a: Action)
    requires EnabledOther(s, a) && !EnabledRequest(s, a) && !EnabledFlight(cfg, s, a) && LocksOk(cfg, s) && Private(s)
    ensures LocksOk(cfg, Next(cfg, s, a)) && Private(Next(cfg, s, a))
  {
    var s' := Next(cfg, s, a);
    forall f | f in s'.flights ensures HolderOk(cfg, s', f) {
      assert HolderOk(cfg, s, f);
    }
    forall shard | shard in s'.locks ensures LockOk(cfg, s', shard) {
      assert LockOk(cfg, s, shard);
    }
  }

  lemma {:induction false} RunSound(cfg: Config, states: seq<State>, actions: seq<Action>, i: nat)
    requires Run(cfg, states, actions) && i < |states|
    ensures Sound(cfg, states[i])
  {
    if i > 0 {
      RunSound(cfg, states, actions, i - 1);
      SoundKept(cfg, states[i - 1], actions[i - 1]);
    }
  }

  // ---------------------------------------------------------------- continuing a run

  ghost predicate NoForget(actions: seq<Action>, from: nat) {
    forall i :: from <= i < |actions| ==> !actions[i].Forget?
  }

  /** A longer run, without timers that release anything. */
  ghost predicate Continues(cfg: Config, states: seq<State>, actions: seq<Action>, states': seq<State>,
      actions': seq<Action>) {
    Run(cfg, states', actions') && states <= states' && actions <= actions' && NoForget(actions', |actions|)
  }

  lemma Extend(cfg: Config, states: seq<State>, actions: seq<Action>, a: Action)
    returns (states': seq<State>, actions': seq<Action>, s': State)
    requires Run(cfg, states, actions) && Enabled(cfg, states[|actions|], a)
    ensures states' == states + [s'] && actions' == actions + [a] && Run(cfg, states', actions')
    ensures s' == states'[|actions'|] == Next(cfg, states[|actions|], a)
  {
    s' := Next(cfg, states[|actions|], a);
    states', actions' := states + [s'], actions + [a];
  }

  /** Nothing but the stage of flight f and the locks has changed. */
  ghost predicate Within(s: State, s': State, f: FlightId)
    requires f in s.flights
  {
    && s'.requests == s.requests && s'.registered == s.registered && s'.next == s.next && s'.serial == s.serial
    && s'.log == s.log && s'.stores == s.stores && f in s'.flights
    && s'.flights == s.flights[f := s.flights[f].(stage := s'.flights[f].stage)]
  }

  lemma DoCheck(cfg: Config, s: State, f: FlightId)
    requires f in s.flights && s.flights[f].stage.Locked?
    ensures Enabled(cfg, s, Check(f))
    ensures var s' := Next(cfg, s, Check(f));
            && Within(s, s', f) && s'.locks == s.locks
            && (s'.flights[f].stage.Checked? || s'.flights[f].stage.Leaving?)
            && (!s.flights[f].superseded ==> s'.flights[f].stage.Checked?)
  {
  }

  lemma DoSkipStore(cfg: Config, s: State, f: FlightId)
    requires f in s.flights && s.flights[f].stage.Checked?
    ensures Enabled(cfg, s, Store(f, false))
    ensures var s' := Next(cfg, s, Store(f, false));
            Within(s, s', f) && s'.locks == s.locks && s'.flights[f].stage.Leaving?
  {
  }

  lemma DoUnlock(cfg: Config, s: State, f: FlightId)
    requires f in s.flights && s.flights[f].stage.Leaving?
    ensures Enabled(cfg, s, Unlock(f))
    ensures var s' := Next(cfg, s, Unlock(f));
            && Within(s, s', f) && s'.locks == s.locks - {cfg.shardOf(s.flights[f].fkey)}
            && s'.flights[f].stage.Resolved?
  {
  }

  /** To the end of the critical section, without storing. */
  lemma ToLeaving(cfg: Config, states: seq<State>, actions: seq<Action>, f: FlightId)
    returns (states': seq<State>, actions': seq<Action>, s': State)
    requires Run(cfg, states, actions)
    requires var s := states[|actions|]; f in s.flights && (s.flights[f].stage.Checked? || s.flights[f].stage.Leaving?)
    ensures Continues(cfg, states, actions, states', actions') && s' == states'[|actions'|]
    ensures var s := states[|actions|];
            Within(s, s', f) && s'.locks == s.locks && s'.flights[f].stage.Leaving?
  {
    states', actions', s' := states, actions, states[|actions|];
    if s'.flights[f].stage.Checked? {
      DoSkipStore(cfg, s', f);
      states', actions', s' := Extend(cfg, states', actions', Store(f, false));
    }
  }

  /** A flight past the check can leave its critical section without storing. */
  lemma LeaveChecked(cfg: Config, states: seq<State>, actions: seq<Action>, f: FlightId)
    returns (states': seq<State>, actions': seq<Action>, s': State)
    requires Run(cfg, states, actions)
    requires var s := states[|actions|]; f in s.flights && (s.flights[f].stage.Checked? || s.flights[f].stage.Leaving?)
    ensures Continues(cfg, states, actions, states', actions') && s' == states'[|actions'|]
    ensures var s := states[|actions|];
            && Within(s, s', f) && s'.locks == s.locks - {cfg.shardOf(s.flights[f].fkey)}
            && s'.flights[f].stage.Resolved?
  {
    states', actions', s' := ToLeaving(cfg, states, actions, f);
    DoUnlock(cfg, s', f);
    states', actions', s' := Extend(cfg, states', actions', Unlock(f));
  }

  /** A flight in its critical section can leave it without storing. */
  lemma Leave(cfg: Config, states: seq<State>, actions: seq<Action>, f: FlightId)
    returns (states': seq<State>, actions': seq<Action>, s': State)
    requires Run(cfg, states, actions)
    requires var s := states[|actions|]; f in s.flights && HoldsLock(s.flights[f].stage)
    ensures Continues(cfg, states, actions, states', actions') && s' == states'[|actions'|]
    ensures var s := states[|actions|];
            && Within(s, s', f) && s'.locks == s.locks - {cfg.shardOf(s.flights[f].fkey)}
            && s'.flights[f].stage.Resolved?
  {
    states', actions', s' := states, actions, states[|actions|];
    if s'.flights[f].stage.Locked? {
      DoCheck(cfg, s', f);
      states', actions', s' := Extend(cfg, states', actions', Check(f));
    }
    states', actions', s' := LeaveChecked(cfg, states', actions', f);
  }

  /** The lock of any shard can be made free, whoever holds it. */
  lemma FreeLock(cfg: Config, states: seq<State>, actions: seq<Action>, shard: Shard)
    returns (states': seq<State>, actions': seq<Action>, s': State)
    requires Run(cfg, states, actions)
    ensures Continues(cfg, states, actions, states', actions') && s' == states'[|actions'|] && shard !in s'.locks
    ensures var s := states[|actions|];
            && s'.requests == s.requests && s'.registered == s.registered && s'.next == s.next && s'.serial == s.serial
            && s'.flights.Keys == s.flights.Keys && s'.log == s.log && s'.stores == s.stores
            && forall g :: g in s.flights && !HoldsLock(s.flights[g].stage) ==> s'.flights[g] == s.flights[g]
  {
    var s := states[|actions|];
    RunSound(cfg, states, actions, |actions|);
    if shard in s.locks {
      assert LockOk(cfg, s, shard);
      states', actions', s' := Leave(cfg, states, actions, s.locks[shard]);
    } else {
      states', actions', s' := states, actions, s;
    }
  }

  // ---------------------------------------------------------------- every request can be answered

  /** Whatever it is waiting for, a flight that has run its handler can be brought to its end. */
  lemma Resolve(cfg: Config, states: seq<State>, actions: seq<Action>, f: FlightId)
    returns (states': seq<State>, actions': seq<Action>, s': State)
    requires Run(cfg, states, actions)
    requires var s := states[|actions|]; f in s.flights && s.flights[f].stage.Ran?
    ensures Continues(cfg, states, actions, states', actions') && s' == states'[|actions'|]
    ensures f in s'.flights && s'.flights[f].stage.Resolved? && s'.requests == states[|actions|].requests
  {
    var s := states[|actions|];
    if s.flights[f].stage.keep {
      states', actions', s' := FreeLock(cfg, states, actions, cfg.shardOf(s.flights[f].fkey));
      states', actions', s' := Extend(cfg, states', actions', Lock(f));
      states', actions', s' := Leave(cfg, states', actions', f);
    } else {
      states', actions', s' := Extend(cfg, states, actions, Skip(f));
    }
  }

  /** Where each request stands. */
  ghost function Steps(requests: map<RequestId, Request>): map<RequestId, Step> {
    map id | id in requests :: requests[id].step
  }

  lemma DoRecheck(cfg: Config, s: State, f: FlightId)
    requires f in s.flights && s.flights[f].stage.Looking?
    ensures Enabled(cfg, s, Recheck(f))
    ensures var s' := Next(cfg, s, Recheck(f));
            && Within(s, s', f) && s'.locks == s.locks
            && (s'.flights[f].stage.Running? || s'.flights[f].stage.Resolved?)
            && (s.flights[f].slot !in s.stores ==> s'.flights[f].stage.Running?)
  {
  }

  /** The handler writes a response that may be stored. */
  lemma DoRunHandler(cfg: Config, s: State, f: FlightId, admitted: bool)
    requires f in s.flights && s.flights[f].stage.Running? && s.flights[f].leader in s.requests
    ensures Enabled(cfg, s, RunHandler(f, "", true, false, admitted))
    ensures var s' := Next(cfg, s, RunHandler(f, "", true, false, admitted));
            && Steps(s'.requests) == Steps(s.requests) && s'.registered == s.registered && s'.next == s.next
            && s'.serial == s.serial && s'.locks == s.locks && s'.log == s.log && s'.stores == s.stores
            && f in s'.flights && s'.flights[f].stage.Ran?
            && s'.flights == s.flights[f := s.flights[f].(stage := s'.flights[f].stage, executed := true)]
            && s'.flights[f].stage.keep == (!s.flights[f].noStore && admitted)
  {
    var a := RunHandler(f, "", true, false, admitted);
    assert Enabled(cfg, s, a) && !EnabledRequest(s, a);
    var s' := NextFlight(cfg, s, a);
    assert Steps(s'.requests) == Steps(s.requests);
  }

  lemma RunToHandler(cfg: Config, states: seq<State>, actions: seq<Action>, f: FlightId)
    returns (states': seq<State>, actions': seq<Action>, s': State)
    requires Run(cfg, states, actions)
    requires var s := states[|actions|]; f in s.flights && (s.flights[f].stage.Looking? || s.flights[f].stage.Running?)
    ensures Continues(cfg, states, actions, states', actions') && s' == states'[|actions'|]
    ensures f in s'.flights && (s'.flights[f].stage.Ran? || s'.flights[f].stage.Resolved?)
    ensures Steps(s'.requests) == Steps(states[|actions|].requests)
  {
    states', actions', s' := states, actions, states[|actions|];
    LeaderIsThere(cfg, states, actions, f);
    if s'.flights[f].stage.Looking? {
      DoRecheck(cfg, s', f);
      states', actions', s' := Extend(cfg, states', actions', Recheck(f));
    }
    if s'.flights[f].stage.Running? {
      DoRunHandler(cfg, s', f, false);
      states', actions', s' := Extend(cfg, states', actions', RunHandler(f, "", true, false, false));
    }
  }

  lemma LeaderIsThere(cfg: Config, states: seq<State>, actions: seq<Action>, f: FlightId)
    requires Run(cfg, states, actions) && f in states[|actions|].flights
    ensures !states[|actions|].flights[f].stage.Finished? ==>
              states[|actions|].flights[f].leader in states[|actions|].requests
  {
    RunSound(cfg, states, actions, |actions|);
    assert FlightOk(cfg, states[|actions|], f);
  }

  lemma DoFinish(cfg: Config, s: State, f: FlightId)
    requires f in s.flights && s.flights[f].stage.Resolved?
    ensures Enabled(cfg, s, Finish(f))
    ensures var s' := Next(cfg, s, Finish(f));
            s'.requests == s.requests && f in s'.flights && s'.flights[f].stage.Finished?
  {
  }

  lemma FinishFlight(cfg: Config, states: seq<State>, actions: seq<Action>, f: FlightId)
    returns (states': seq<State>, actions': seq<Action>, s': State)
    requires Run(cfg, states, actions) && f in states[|actions|].flights
    ensures Continues(cfg, states, actions, states', actions') && s' == states'[|actions'|]
    ensures f in s'.flights && s'.flights[f].stage.Finished?
    ensures Steps(s'.requests) == Steps(states[|actions|].requests)
  {
    states', actions', s' := states, actions, states[|actions|];
    if s'.flights[f].stage.Looking? || s'.flights[f].stage.Running? {
      states', actions', s' := RunToHandler(cfg, states', actions', f);
    }
    if s'.flights[f].stage.Ran? {
      states', actions', s' := Resolve(cfg, states', actions', f);
    }
    if HoldsLock(s'.flights[f].stage) {
      states', actions', s' := Leave(cfg, states', actions', f);
    }
    if s'.flights[f].stage.Resolved? {
      DoFinish(cfg, s', f);
      states', actions', s' := Extend(cfg, states', actions', Finish(f));
    }
  }

  /** A request that waits for a flight gets its answer when the flight has ended. */
  lemma AwaitFlight(cfg: Config, states: seq<State>, actions: seq<Action>, id: RequestId)
    returns (states': seq<State>, actions': seq<Action>, s': State)
    requires Run(cfg, states, actions)
    requires var s := states[|actions|];
             id in s.requests && (s.requests[id].step.Leading? || s.requests[id].step.Waiting?)
    ensures Continues(cfg, states, actions, states', actions') && s' == states'[|actions'|]
    ensures id in s'.requests && s'.requests[id].step.Answered?
  {
    var s := states[|actions|];
    RunSound(cfg, states, actions, |actions|);
    assert RequestOk(cfg, s, s.requests[id], id);
    var step := s.requests[id].step;
    states', actions', s' := FinishFlight(cfg, states, actions, if step.Leading? then step.flight else step.joined);
    assert id in Steps(s.requests) && Steps(s'.requests)[id] == step;
    states', actions', s' := Extend(cfg, states', actions', Take(id));
  }

  /** A request that has arrived is answered at once, or misses the store. */
  lemma DoArrived(cfg: Config, s: State, id: RequestId)
    requires id in s.requests && s.requests[id].step.Arrived?
    ensures var a := if s.requests[id].range then Bypass(id) else Lookup(id);
            && Enabled(cfg, s, a) && id in Next(cfg, s, a).requests
            && var step := Next(cfg, s, a).requests[id].step; step.Answered? || step.Missed?
  {
  }

  /** One that has missed leads a flight or waits for one. */
  lemma DoMissed(cfg: Config, s: State, id: RequestId)
    requires id in s.requests && s.requests[id].step.Missed? && s.next !in s.flights
    ensures Enabled(cfg, s, Do(id)) && id in Next(cfg, s, Do(id)).requests
    ensures var step := Next(cfg, s, Do(id)).requests[id].step; step.Leading? || step.Waiting?
  {
  }

  /** No request is ever lost: whatever has happened, and without any timer, it can still get its answer. */
  lemma CanBeAnswered(cfg: Config, states: seq<State>, actions: seq<Action>, id: RequestId)
    returns (states': seq<State>, actions': seq<Action>, s': State)
    requires Run(cfg, states, actions) && id in states[|actions|].requests
    ensures Continues(cfg, states, actions, states', actions') && s' == states'[|actions'|]
    ensures id in s'.requests && s'.requests[id].step.Answered?
  {
    states', actions', s' := states, actions, states[|actions|];
    if s'.requests[id].step.Arrived? {
      DoArrived(cfg, s', id);
      states', actions', s' := Extend(cfg, states', actions', if s'.requests[id].range then Bypass(id) else Lookup(id));
    }
    if s'.requests[id].step.Missed? {
      NextIsFree(cfg, states', actions');
      DoMissed(cfg, s', id);
      states', actions', s' := Extend(cfg, states', actions', Do(id));
    }
    if !s'.requests[id].step.Answered? {
      states', actions', s' := AwaitFlight(cfg, states', actions', id);
    }
  }

  lemma NextIsFree(cfg: Config, states: seq<State>, actions: seq<Action>)
    requires Run(cfg, states, actions)
    ensures states[|actions|].next !in states[|actions|].flights
  {
    RunSound(cfg, states, actions, |actions|);
    var s := states[|actions|];
    assert forall f :: f in s.flights ==> FlightOk(cfg, s, f);
  }
}
