/** Every request is answered exactly once, and only with what it may have. */
module FlightReplies {
  import opened Wrappers
  import opened FlightKeys
  import opened Flights

  /** What a flight carries was produced for its own slot; what its handler produced is stored, or given to waiters,
    * only if it may be shared. */
  ghost predicate CarriesOwn(fl: Flight) {
    match fl.stage
    case Looking => true
    case Running => true
    case Ran(r, share, keep) => r.slot == fl.slot && share == Shareable(fl.noStore, r) && (keep ==> share)
    case Locked(r, share) => r.slot == fl.slot && share && Shareable(fl.noStore, r)
    case Checked(r, share) => r.slot == fl.slot && share && Shareable(fl.noStore, r)
    case Leaving(r, share) => r.slot == fl.slot && share && Shareable(fl.noStore, r)
    case Resolved(r) => Presentable(fl, r)
    case Finished(r) => Presentable(fl, r)
  }

  ghost predicate Presentable(fl: Flight, r: Option<Response>) {
    r.Some? ==> r.value.slot == fl.slot && (fl.executed ==> Shareable(fl.noStore, r.value))
  }

  /** Whether the handler of the leader has run. */
  ghost predicate Executed(fl: Flight) {
    match fl.stage
    case Looking => !fl.executed
    case Running => !fl.executed
    case Resolved(_) => true
    case Finished(_) => true
    case _ => fl.executed
  }

  ghost predicate FlightOk(cfg: Config, s: State, f: FlightId)
    requires f in s.flights
  {
    var fl := s.flights[f];
    && f < s.next
    && fl.fkey == cfg.keyOf(fl.slot, fl.serial)
    && (fl.slot.store.ValueStore? ==> fl.serial < s.serial)
    && CarriesOwn(fl) && Executed(fl)
    && (!fl.stage.Finished? ==> fl.leader in s.requests && s.requests[fl.leader].step == Leading(f))
  }

  ghost predicate AllowedReply(cfg: Config, s: State, slot: Slot, reply: Reply) {
    reply.Replay? ==> reply.response.slot == slot && reply.at <= s.now && cfg.replayable(reply.response, reply.at)
  }

  /** What a request has run and answered so far. */
  ghost predicate RequestOk(cfg: Config, s: State, r: Request, id: RequestId) {
    match r.step
    case Arrived => r.runs == 0 && r.replies == []
    case Missed => !r.range && r.runs == 0 && r.replies == []
    case Waiting(f) => !r.range && f in s.flights && s.flights[f].slot == r.slot && r.runs == 0 && r.replies == []
    case Leading(f) =>
      && !r.range && f in s.flights && s.flights[f].slot == r.slot && s.flights[f].leader == id
      && (if s.flights[f].executed then r.runs == 1 && r.replies == [Own] else r.runs == 0 && r.replies == [])
    case Answered =>
      && |r.replies| == 1 && AllowedReply(cfg, s, r.slot, r.replies[0])
      && (r.range ==> r.replies[0].Own?)
      && r.runs == (if r.replies[0].Own? then 1 else 0)
  }

  ghost predicate Inv(cfg: Config, s: State) {
    && (forall slot :: slot in s.stores ==> s.stores[slot].response.slot == slot)
    && (forall k :: k in s.registered ==> s.registered[k] in s.flights && s.flights[s.registered[k]].fkey == k)
    && (forall f :: f in s.flights ==> FlightOk(cfg, s, f))
    && (forall id :: id in s.requests ==> RequestOk(cfg, s, s.requests[id], id))
  }

  /** A registered flight under the request's own key serves the request's own slot. */
  lemma JoinedSlot(cfg: Config, s: State, slot: Slot)
    requires UsesFlightKey(cfg) && Inv(cfg, s) && cfg.keyOf(slot, s.serial) in s.registered
    ensures s.flights[s.registered[cfg.keyOf(slot, s.serial)]].slot == slot
  {
    var fl := s.flights[s.registered[cfg.keyOf(slot, s.serial)]];
    assert FlightOk(cfg, s, s.registered[cfg.keyOf(slot, s.serial)]);
    assert fl.fkey == FlightKey(IdentityOf(fl.slot.store, fl.serial), fl.slot.key);
    FlightKeyInjective(IdentityOf(slot.store, s.serial), slot.key, IdentityOf(fl.slot.store, fl.serial), fl.slot.key);
  }

  // ---------------------------------------------------------------- what a step leaves alone

  /** A step of flight f changes, of all flights and registrations, at most f's stage and marks and one registration. */
  ghost predicate FlightFrame(s: State, s': State, f: FlightId)
    requires f in s.flights
  {
    && s'.now == s.now && s'.next == s.next && s'.serial == s.serial && s'.flights.Keys == s.flights.Keys
    && (forall g :: g in s.flights && g != f ==> s'.flights[g] == s.flights[g])
    && s'.flights[f] == s.flights[f].(stage := s'.flights[f].stage, executed := s'.flights[f].executed,
                                      superseded := s'.flights[f].superseded)
    && (forall k :: k in s'.registered ==> k in s.registered && s'.registered[k] == s.registered[k])
  }

  lemma FlightStepFrame(cfg: Config, s: State, a: Action)
    requires EnabledFlight(cfg, s, a)
    ensures FlightFrame(s, NextFlight(cfg, s, a), a.f)
  {
    if a.Forget? || a.Finish? {
      ReleaseFrame(cfg, s, a);
    } else if a.RunHandler? || a.Store? {
      WorkFrame(cfg, s, a);
    } else {
      StageFrame(cfg, s, a);
    }
  }

  lemma ReleaseFrame(cfg: Config, s: State, a: Action)
    requires EnabledFlight(cfg, s, a) && (a.Forget? || a.Finish?)
    ensures FlightFrame(s, NextFlight(cfg, s, a), a.f)
  {
  }

  lemma WorkFrame(cfg: Config, s: State, a: Action)
    requires EnabledFlight(cfg, s, a) && (a.RunHandler? || a.Store?)
    ensures FlightFrame(s, NextFlight(cfg, s, a), a.f)
  {
  }

  lemma StageFrame(cfg: Config, s: State, a: Action)
    requires EnabledFlight(cfg, s, a) && !a.Forget? && !a.Finish? && !a.RunHandler? && !a.Store?
    ensures FlightFrame(s, NextFlight(cfg, s, a), a.f)
  {
  }

  lemma FlightStepRequests(cfg: Config, s: State, a: Action)
    requires EnabledFlight(cfg, s, a) && !a.RunHandler?
    ensures NextFlight(cfg, s, a).requests == s.requests
    ensures NextFlight(cfg, s, a).flights[a.f].executed == s.flights[a.f].executed
  {
    FlightStepExecuted(cfg, s, a);
  }

  lemma FlightStepExecuted(cfg: Config, s: State, a: Action)
    requires EnabledFlight(cfg, s, a) && !a.RunHandler?
    ensures NextFlight(cfg, s, a).flights[a.f].executed == s.flights[a.f].executed
  {
  }

  lemma FlightStepStage(cfg: Config, s: State, a: Action)
    requires EnabledFlight(cfg, s, a) && Executed(s.flights[a.f]) && CarriesOwn(s.flights[a.f])
    requires s.flights[a.f].slot in s.stores ==> s.stores[s.flights[a.f].slot].response.slot == s.flights[a.f].slot
    ensures var fl, fl' := s.flights[a.f], NextFlight(cfg, s, a).flights[a.f];
            Executed(fl') && CarriesOwn(fl') && (fl.stage.Finished? ==> fl'.stage.Finished?)
  {
  }

  ghost predicate RequestFrame(s: State, s': State, id: RequestId) {
    && s'.now == s.now && s'.next >= s.next && s'.serial >= s.serial
    && s'.requests.Keys == s.requests.Keys + {id}
    && (forall q :: q in s.requests && q != id ==> s'.requests[q] == s.requests[q])
    && (forall f :: f in s.flights ==> f in s'.flights && s'.flights[f] == s.flights[f])
  }

  lemma RequestStepFrame(cfg: Config, s: State, a: Action)
    requires EnabledRequest(s, a)
    ensures RequestFrame(s, NextRequest(cfg, s, a), a.id)
  {
    if a.Do? {
      DoFrame(cfg, s, a);
    } else {
      ReplyFrame(cfg, s, a);
    }
  }

  lemma DoFrame(cfg: Config, s: State, a: Action)
    requires EnabledRequest(s, a) && a.Do?
    ensures RequestFrame(s, NextRequest(cfg, s, a), a.id)
  {
  }

  lemma ReplyFrame(cfg: Config, s: State, a: Action)
    requires EnabledRequest(s, a) && !a.Do?
    ensures RequestFrame(s, NextRequest(cfg, s, a), a.id)
  {
  }

  /** A flight that a request step adds is the one it starts for itself. */
  lemma NewFlight(cfg: Config, s: State, a: Action, f: FlightId)
    requires EnabledRequest(s, a) && f in NextRequest(cfg, s, a).flights && f !in s.flights
    ensures a.Do? && FlightOk(cfg, NextRequest(cfg, s, a), f)
  {
  }

  // ---------------------------------------------------------------- the invariant is kept

  lemma RequestStepFlight(cfg: Config, s: State, a: Action, f: FlightId)
    requires Inv(cfg, s) && EnabledRequest(s, a) && f in NextRequest(cfg, s, a).flights
    ensures FlightOk(cfg, NextRequest(cfg, s, a), f)
  {
    RequestStepFrame(cfg, s, a);
    if f in s.flights {
      assert FlightOk(cfg, s, f);
      if !s.flights[f].stage.Finished? && s.flights[f].leader == a.id {
        assert a.id in s.requests && s.requests[a.id].step == Leading(f);
      }
    } else {
      NewFlight(cfg, s, a, f);
    }
  }

  /** A flight that is not stepped, seen from the frame of the step. */
  lemma OtherFlight(cfg: Config, s: State, s': State, f: FlightId, g: FlightId)
    requires f in s.flights && FlightFrame(s, s', f) && g in s.flights && g != f && FlightOk(cfg, s, g)
    requires forall q :: q in s.requests ==> q in s'.requests && s'.requests[q].step == s.requests[q].step
    ensures FlightOk(cfg, s', g)
  {
  }

  lemma FlightStepKeepsSteps(cfg: Config, s: State, a: Action)
    requires EnabledFlight(cfg, s, a)
    ensures forall q :: q in s.requests ==>
              q in NextFlight(cfg, s, a).requests && NextFlight(cfg, s, a).requests[q].step == s.requests[q].step
  {
  }

  lemma FlightStepFlight(cfg: Config, s: State, a: Action, f: FlightId)
    requires Inv(cfg, s) && EnabledFlight(cfg, s, a) && f in NextFlight(cfg, s, a).flights
    ensures FlightOk(cfg, NextFlight(cfg, s, a), f)
  {
    FlightStepFrame(cfg, s, a);
    FlightStepKeepsSteps(cfg, s, a);
    assert FlightOk(cfg, s, f);
    if f == a.f {
      FlightStepStage(cfg, s, a);
    } else {
      OtherFlight(cfg, s, NextFlight(cfg, s, a), a.f, f);
    }
  }

  lemma OwnRequestStep(cfg: Config, s: State, a: Action)
    requires EnabledRequest(s, a)
    requires a.id in s.requests ==> RequestOk(cfg, s, s.requests[a.id], a.id)
    requires a.id in s.requests && s.requests[a.id].slot in s.stores ==>
               s.stores[s.requests[a.id].slot].response.slot == s.requests[a.id].slot
    requires a.Do? && cfg.keyOf(s.requests[a.id].slot, s.serial) in s.registered ==>
               var f := s.registered[cfg.keyOf(s.requests[a.id].slot, s.serial)];
               f in s.flights && s.flights[f].slot == s.requests[a.id].slot
    requires a.Take? ==>
               var step := s.requests[a.id].step;
               var f := if step.Leading? then step.flight else step.joined;
               CarriesOwn(s.flights[f])
    ensures RequestOk(cfg, NextRequest(cfg, s, a), NextRequest(cfg, s, a).requests[a.id], a.id)
  {
  }

  lemma RequestStepRequest(cfg: Config, s: State, a: Action, id: RequestId)
    requires UsesFlightKey(cfg) && Inv(cfg, s) && EnabledRequest(s, a) && id in NextRequest(cfg, s, a).requests
    ensures RequestOk(cfg, NextRequest(cfg, s, a), NextRequest(cfg, s, a).requests[id], id)
  {
    RequestStepFrame(cfg, s, a);
    if id in s.requests {
      assert RequestOk(cfg, s, s.requests[id], id);
    }
    if id == a.id {
      if a.Do? && cfg.keyOf(s.requests[id].slot, s.serial) in s.registered {
        JoinedSlot(cfg, s, s.requests[id].slot);
      } else if a.Take? {
        var step := s.requests[id].step;
        assert FlightOk(cfg, s, if step.Leading? then step.flight else step.joined);
      }
      OwnRequestStep(cfg, s, a);
    }
  }

  lemma FlightStepRequest(cfg: Config, s: State, a: Action, id: RequestId)
    requires Inv(cfg, s) && EnabledFlight(cfg, s, a) && id in NextFlight(cfg, s, a).requests
    ensures RequestOk(cfg, NextFlight(cfg, s, a), NextFlight(cfg, s, a).requests[id], id)
  {
    assert FlightOk(cfg, s, a.f);
    assert id in s.requests && RequestOk(cfg, s, s.requests[id], id);
    FlightStepFrame(cfg, s, a);
    if a.RunHandler? {
      HandlerStepRequest(cfg, s, a, id);
    } else {
      FlightStepRequests(cfg, s, a);
    }
  }

  lemma HandlerStepRequest(cfg: Config, s: State, a: Action, id: RequestId)
    requires EnabledFlight(cfg, s, a) && a.RunHandler? && id in s.requests
    requires FlightOk(cfg, s, a.f) && RequestOk(cfg, s, s.requests[id], id)
    ensures RequestOk(cfg, NextFlight(cfg, s, a), NextFlight(cfg, s, a).requests[id], id)
  {
  }

  lemma StoresKept(cfg: Config, s: State, a: Action, slot: Slot)
    requires Enabled(cfg, s, a) && slot in Next(cfg, s, a).stores
    requires slot in s.stores ==> s.stores[slot].response.slot == slot
    requires a.Store? && a.f in s.flights ==> FlightOk(cfg, s, a.f)
    ensures Next(cfg, s, a).stores[slot].response.slot == slot
  {
    if EnabledRequest(s, a) {
      RequestStores(cfg, s, a);
    } else if EnabledFlight(cfg, s, a) {
      FlightStores(cfg, s, a);
    }
  }

  lemma RequestStores(cfg: Config, s: State, a: Action)
    requires EnabledRequest(s, a)
    ensures NextRequest(cfg, s, a).stores == s.stores
  {
  }

  lemma FlightStores(cfg: Config, s: State, a: Action)
    requires EnabledFlight(cfg, s, a)
    ensures NextFlight(cfg, s, a).stores ==
            if a.Store? && a.ok then
              s.stores[s.flights[a.f].slot := Stored(s.flights[a.f].stage.response, Some(a.f))]
            else s.stores
  {
  }

  lemma RegisteredKept(cfg: Config, s: State, a: Action, k: string)
    requires Enabled(cfg, s, a) && k in Next(cfg, s, a).registered
    requires k in s.registered ==> s.registered[k] in s.flights && s.flights[s.registered[k]].fkey == k
    ensures var s' := Next(cfg, s, a); s'.registered[k] in s'.flights && s'.flights[s'.registered[k]].fkey == k
  {
    if EnabledRequest(s, a) {
      RegisteredByRequest(cfg, s, a, k);
    } else if EnabledFlight(cfg, s, a) {
      FlightStepFrame(cfg, s, a);
    }
  }

  lemma RegisteredByRequest(cfg: Config, s: State, a: Action, k: string)
    requires EnabledRequest(s, a) && k in NextRequest(cfg, s, a).registered
    requires k in s.registered ==> s.registered[k] in s.flights && s.flights[s.registered[k]].fkey == k
    ensures var s' := NextRequest(cfg, s, a); s'.registered[k] in s'.flights && s'.flights[s'.registered[k]].fkey == k
  {
    if a.Do? {
      RegisteredByDo(cfg, s, a, k);
    } else {
      SameRegistered(cfg, s, a);
    }
  }

  lemma RegisteredByDo(cfg: Config, s: State, a: Action, k: string)
    requires EnabledRequest(s, a) && a.Do? && k in NextRequest(cfg, s, a).registered
    requires k in s.registered ==> s.registered[k] in s.flights && s.flights[s.registered[k]].fkey == k
    ensures var s' := NextRequest(cfg, s, a); s'.registered[k] in s'.flights && s'.flights[s'.registered[k]].fkey == k
  {
  }

  lemma SameRegistered(cfg: Config, s: State, a: Action)
    requires EnabledRequest(s, a) && !a.Do?
    ensures NextRequest(cfg, s, a).registered == s.registered && NextRequest(cfg, s, a).flights == s.flights
  {
  }

  lemma InvKept(cfg: Config, s: State, a: Action)
    requires UsesFlightKey(cfg) && Inv(cfg, s) && Enabled(cfg, s, a)
    ensures Inv(cfg, Next(cfg, s, a))
  {
    var s' := Next(cfg, s, a);
    forall slot | slot in s'.stores ensures s'.stores[slot].response.slot == slot {
      StoresKept(cfg, s, a, slot);
    }
    forall k | k in s'.registered ensures s'.registered[k] in s'.flights && s'.flights[s'.registered[k]].fkey == k {
      RegisteredKept(cfg, s, a, k);
    }
    forall f | f in s'.flights ensures FlightOk(cfg, s', f) {
      if EnabledRequest(s, a) {
        RequestStepFlight(cfg, s, a, f);
      } else if EnabledFlight(cfg, s, a) {
        FlightStepFlight(cfg, s, a, f);
      } else {
        assert FlightOk(cfg, s, f);
      }
    }
    forall id | id in s'.requests ensures RequestOk(cfg, s', s'.requests[id], id) {
      if EnabledRequest(s, a) {
        RequestStepRequest(cfg, s, a, id);
      } else if EnabledFlight(cfg, s, a) {
        FlightStepRequest(cfg, s, a, id);
      } else {
        assert RequestOk(cfg, s, s.requests[id], id);
      }
    }
  }

  lemma {:induction false} RunInv(cfg: Config, states: seq<State>, actions: seq<Action>, i: nat)
    requires Run(cfg, states, actions) && i < |states|
    ensures Inv(cfg, states[i])
  {
    if i > 0 {
      RunInv(cfg, states, actions, i - 1);
      InvKept(cfg, states[i - 1], actions[i - 1]);
    }
  }

  /** In every interleaving a request runs its handler chain at most once and is answered at most once; when it is over
    * it has exactly one answer, its own handler's or a replay, never both; and a replayed response comes from the
    * request's own store and key and passed replayable at that moment. A range request is never answered by a
    * replay. */
  lemma AnsweredOnce(cfg: Config, states: seq<State>, actions: seq<Action>, i: nat, id: RequestId)
    requires Run(cfg, states, actions) && i < |states| && id in states[i].requests
    ensures
      var r := states[i].requests[id];
      && r.runs <= 1 && |r.replies| <= 1
      && (r.step.Answered? ==> |r.replies| == 1)
      && (r.runs == 1 <==> r.replies == [Own])
      && (r.range && r.step.Answered? ==> r.replies == [Own])
      && forall reply :: reply in r.replies && reply.Replay? ==>
           reply.response.slot == r.slot && reply.at <= states[i].now && cfg.replayable(reply.response, reply.at)
  {
    RunInv(cfg, states, actions, i);
    assert RequestOk(cfg, states[i], states[i].requests[id], id);
  }

  /** What waiters can be given of a handler's response was seen in full, and not requested with no-store. */
  lemma OnlyShareableIsShared(cfg: Config, states: seq<State>, actions: seq<Action>, i: nat, f: FlightId)
    requires Run(cfg, states, actions) && i < |states| && f in states[i].flights
    requires states[i].flights[f].executed && states[i].flights[f].stage.Finished?
        && states[i].flights[f].stage.outcome.Some?
    ensures
      var fl := states[i].flights[f];
      !fl.noStore && fl.stage.outcome.value.written && !fl.stage.outcome.value.tooLarge
          && fl.stage.outcome.value.slot == fl.slot
  {
    RunInv(cfg, states, actions, i);
    assert FlightOk(cfg, states[i], f);
  }
}
