/** What requests are answered with: the response of the flight they joined or of the store whenever it may be replayed,
  * and their own handler only when there is nothing else. */
module FlightOutcomes {
  import opened Wrappers
  import opened Flights
  import opened FlightReplies
  import opened FlightLocks

  // ---------------------------------------------------------------- the moment of the answer

  /** r is answered with resp at time t, without running its handler. */
  ghost predicate Replayed(r: Request, r': Request, resp: Response, t: Time) {
    r'.step == Answered && r'.runs == r.runs && r'.replies == r.replies + [Replay(resp, t)]
  }

  ghost predicate RunsOwn(r: Request, r': Request) {
    r'.step == Answered && r'.runs == r.runs + 1 && r'.replies == r.replies + [Own]
  }

  /** What the store holds for the request and may be replayed now. */
  ghost predicate InStore(cfg: Config, s: State, slot: Slot, resp: Response) {
    slot in s.stores && s.stores[slot].response == resp && cfg.replayable(resp, s.now)
  }

  ghost predicate NothingInStore(cfg: Config, s: State, slot: Slot) {
    forall resp :: !InStore(cfg, s, slot, resp)
  }

  /** The flight that a request leads or has joined. */
  function FlightOf(step: Step): FlightId
    requires step.Leading? || step.Waiting?
  {
    if step.Leading? then step.flight else step.joined
  }

  /** A request that has arrived and finds a replayable entry is answered with it; otherwise it has missed. */
  lemma LookupAnswers(cfg: Config, s: State, id: RequestId, resp: Response)
    requires Enabled(cfg, s, Lookup(id))
    ensures var r, r' := s.requests[id], Next(cfg, s, Lookup(id)).requests[id];
            && (InStore(cfg, s, r.slot, resp) ==> Replayed(r, r', resp, s.now))
            && (NothingInStore(cfg, s, r.slot) ==> r' == r.(step := Missed))
  {
    var r := s.requests[id];
    assert r.slot in s.stores && cfg.replayable(s.stores[r.slot].response, s.now) ==>
             InStore(cfg, s, r.slot, s.stores[r.slot].response);
  }

  /** A flight that looks again and finds a replayable entry carries it and runs no handler; otherwise it is to run. */
  lemma RecheckFinds(cfg: Config, s: State, f: FlightId, resp: Response)
    requires Enabled(cfg, s, Recheck(f))
    ensures var fl, fl' := s.flights[f], Next(cfg, s, Recheck(f)).flights[f];
            && fl'.executed == fl.executed
            && (InStore(cfg, s, fl.slot, resp) ==> fl'.stage == Resolved(Some(resp)))
            && (NothingInStore(cfg, s, fl.slot) ==> fl'.stage == Running)
  {
    var fl := s.flights[f];
    assert fl.slot in s.stores && cfg.replayable(s.stores[fl.slot].response, s.now) ==>
             InStore(cfg, s, fl.slot, s.stores[fl.slot].response);
  }

  /** What a request does when its flight has ended: if its own handler ran in it, it is over; else it is answered
    * with the flight's response if that may be replayed now, and runs its own handler if there is none or it may
    * not. */
  lemma TakeAnswers(cfg: Config, s: State, id: RequestId)
    requires Enabled(cfg, s, Take(id))
    ensures var r, r' := s.requests[id], Next(cfg, s, Take(id)).requests[id];
            var fl := s.flights[FlightOf(r.step)];
            if r.step.Leading? && fl.executed then r' == r.(step := Answered)
            else match fl.stage.outcome
                 case None => RunsOwn(r, r')
                 case Some(resp) => if cfg.replayable(resp, s.now) then Replayed(r, r', resp, s.now) else RunsOwn(r, r')
  {
  }

  /** Over all runs: a request whose own handler has not run is answered, once and only, with the outcome of the
    * flight it takes whenever there is one that passes replayable then, and with its own handler otherwise. */
  lemma TakenIsTheAnswer(cfg: Config, states: seq<State>, actions: seq<Action>, j: nat, id: RequestId)
    requires Run(cfg, states, actions) && j < |actions| && actions[j] == Take(id)
    ensures id in states[j].requests && id in states[j + 1].requests
    ensures var r, r' := states[j].requests[id], states[j + 1].requests[id];
            && (r.step.Leading? || r.step.Waiting?) && FlightOf(r.step) in states[j].flights && r'.step == Answered
            && var fl := states[j].flights[FlightOf(r.step)];
               fl.stage.Finished?
               && if r.step.Leading? && fl.executed then r'.runs == 1 && r'.replies == [Own]
                  else if fl.stage.outcome.Some? && cfg.replayable(fl.stage.outcome.value, states[j].now)
                  then r'.runs == 0 && r'.replies == [Replay(fl.stage.outcome.value, states[j].now)]
                  else r'.runs == 1 && r'.replies == [Own]
  {
    assert Enabled(cfg, states[j], actions[j]) && states[j + 1] == Next(cfg, states[j], actions[j]);
    RunSound(cfg, states, actions, j);
    assert RequestOk(cfg, states[j], states[j].requests[id], id);
    TakeAnswers(cfg, states[j], id);
  }

  /** Over all runs: a request that finds a replayable entry in the store is answered with it alone, and its handler
    * never runs before that. */
  lemma FoundIsTheAnswer(cfg: Config, states: seq<State>, actions: seq<Action>, j: nat, id: RequestId, resp: Response)
    requires Run(cfg, states, actions) && j < |actions| && actions[j] == Lookup(id)
    requires id in states[j].requests && InStore(cfg, states[j], states[j].requests[id].slot, resp)
    ensures id in states[j + 1].requests
    ensures var r' := states[j + 1].requests[id];
            r'.step == Answered && r'.runs == 0 && r'.replies == [Replay(resp, states[j].now)]
  {
    assert Enabled(cfg, states[j], actions[j]) && states[j + 1] == Next(cfg, states[j], actions[j]);
    RunSound(cfg, states, actions, j);
    assert RequestOk(cfg, states[j], states[j].requests[id], id);
    LookupAnswers(cfg, states[j], id, resp);
  }

  // ---------------------------------------------------------------- what a flight carries to its end

  /** From the handler on, the flight has what the handler wrote; what it will give to waiters is that very response
    * if it may be shared, and nothing otherwise. */
  ghost predicate Carries(fl: Flight, resp: Response) {
    match fl.stage
    case Looking => false
    case Running => false
    case Ran(r, share, _) => r == resp && share == Sharing(fl, resp)
    case Locked(r, share) => r == resp && share == Sharing(fl, resp)
    case Checked(r, share) => r == resp && share == Sharing(fl, resp)
    case Leaving(r, share) => r == resp && share == Sharing(fl, resp)
    case Resolved(o) => o == if Sharing(fl, resp) then Some(resp) else None
    case Finished(o) => o == if Sharing(fl, resp) then Some(resp) else None
  }

  /** The request did not forbid it, and the wrapper saw all of the response. */
  predicate Sharing(fl: Flight, resp: Response) {
    !fl.noStore && resp.written && !resp.tooLarge
  }

  ghost predicate CarriesIn(s: State, f: FlightId, resp: Response) {
    f in s.flights && Carries(s.flights[f], resp)
  }

  /** What the handler of flight f writes. */
  ghost function Handled(s: State, a: Action): Response
    requires a.RunHandler? && a.f in s.flights
  {
    Response(s.flights[a.f].slot, a.body, a.written, a.tooLarge)
  }

  lemma HandlerCarries(cfg: Config, s: State, a: Action)
    requires Enabled(cfg, s, a) && a.RunHandler?
    ensures a.f in s.flights && CarriesIn(Next(cfg, s, a), a.f, Handled(s, a))
  {
  }

  lemma CarriesKept(cfg: Config, s: State, a: Action, f: FlightId, resp: Response)
    requires Enabled(cfg, s, a) && CarriesIn(s, f, resp)
    ensures CarriesIn(Next(cfg, s, a), f, resp)
  {
    if EnabledRequest(s, a) {
      RequestStepFrame(cfg, s, a);
      NotStarted(cfg, s, a, f);
    } else if EnabledFlight(cfg, s, a) {
      FlightStepFrame(cfg, s, a);
      if f == a.f {
        OwnCarries(cfg, s, a, resp);
      }
    }
  }

  lemma NotStarted(cfg: Config, s: State, a: Action, f: FlightId)
    requires EnabledRequest(s, a) && f in s.flights
    ensures f in NextRequest(cfg, s, a).flights && NextRequest(cfg, s, a).flights[f] == s.flights[f]
  {
  }

  lemma OwnCarries(cfg: Config, s: State, a: Action, resp: Response)
    requires EnabledFlight(cfg, s, a) && Carries(s.flights[a.f], resp)
    ensures CarriesIn(NextFlight(cfg, s, a), a.f, resp)
  {
  }

  lemma CarriesInRun(cfg: Config, states: seq<State>, actions: seq<Action>, i: nat, f: FlightId, resp: Response)
    requires Run(cfg, states, actions) && i + 1 < |states| && CarriesIn(states[i], f, resp)
    ensures CarriesIn(states[i + 1], f, resp)
  {
    assert Enabled(cfg, states[i], actions[i]) && states[i + 1] == Next(cfg, states[i], actions[i]);
    CarriesKept(cfg, states[i], actions[i], f, resp);
  }

  lemma {:induction false} CarriesFrom(cfg: Config, states: seq<State>, actions: seq<Action>, i: nat, j: nat,
                                       f: FlightId, resp: Response)
    requires Run(cfg, states, actions) && i <= j < |states| && CarriesIn(states[i], f, resp)
    ensures CarriesIn(states[j], f, resp)
    decreases j - i
  {
    if i < j {
      CarriesFrom(cfg, states, actions, i, j - 1, f, resp);
      CarriesInRun(cfg, states, actions, j - 1, f, resp);
    }
  }

  /** The waiters of a flight get what its leader's handler wrote: in every run, when the handler of flight f has run
    * (step i) and a request that waits for f takes its outcome (step j), it is answered with exactly the handler's
    * response if that may be shared and passes replayable at that moment, and otherwise runs its own handler. */
  lemma WaitersGetTheResponse(cfg: Config, states: seq<State>, actions: seq<Action>, i: nat, j: nat, id: RequestId)
    requires Run(cfg, states, actions) && i < j < |actions|
    requires actions[i].RunHandler? && actions[j] == Take(id)
    requires id in states[j].requests && states[j].requests[id].step == Waiting(actions[i].f)
    ensures actions[i].f in states[i].flights && id in states[j + 1].requests
    ensures var resp := Handled(states[i], actions[i]);
            var r, r' := states[j].requests[id], states[j + 1].requests[id];
            if Sharing(states[i].flights[actions[i].f], resp) && cfg.replayable(resp, states[j].now)
            then r'.step == Answered && r'.runs == 0 && r'.replies == [Replay(resp, states[j].now)]
            else r'.step == Answered && r'.runs == 1 && r'.replies == [Own]
  {
    var f := actions[i].f;
    assert Enabled(cfg, states[i], actions[i]) && states[i + 1] == Next(cfg, states[i], actions[i]);
    assert Enabled(cfg, states[j], actions[j]) && states[j + 1] == Next(cfg, states[j], actions[j]);
    HandlerCarries(cfg, states[i], actions[i]);
    CarriesFrom(cfg, states, actions, i + 1, j, f, Handled(states[i], actions[i]));
    NoStoreStays(cfg, states, actions, i, j, f);
    TakeAnswers(cfg, states[j], id);
    RunSound(cfg, states, actions, j);
    assert RequestOk(cfg, states[j], states[j].requests[id], id);
  }

  ghost predicate HasNoStore(s: State, f: FlightId, noStore: bool) {
    f in s.flights && s.flights[f].noStore == noStore
  }

  lemma NoStoreStep(cfg: Config, s: State, a: Action, f: FlightId, noStore: bool)
    requires Enabled(cfg, s, a) && HasNoStore(s, f, noStore)
    ensures HasNoStore(Next(cfg, s, a), f, noStore)
  {
    if EnabledRequest(s, a) {
      NotStarted(cfg, s, a, f);
    } else if EnabledFlight(cfg, s, a) {
      FlightStepFrame(cfg, s, a);
    }
  }

  lemma NoStoreInRun(cfg: Config, states: seq<State>, actions: seq<Action>, i: nat, f: FlightId, noStore: bool)
    requires Run(cfg, states, actions) && i + 1 < |states| && HasNoStore(states[i], f, noStore)
    ensures HasNoStore(states[i + 1], f, noStore)
  {
    assert Enabled(cfg, states[i], actions[i]) && states[i + 1] == Next(cfg, states[i], actions[i]);
    NoStoreStep(cfg, states[i], actions[i], f, noStore);
  }

  lemma {:induction false} NoStoreStays(cfg: Config, states: seq<State>, actions: seq<Action>, i: nat, j: nat,
                                        f: FlightId)
    requires Run(cfg, states, actions) && i <= j < |states| && f in states[i].flights
    ensures HasNoStore(states[j], f, states[i].flights[f].noStore)
    decreases j - i
  {
    if i < j {
      NoStoreStays(cfg, states, actions, i, j - 1, f);
      NoStoreInRun(cfg, states, actions, j - 1, f, states[i].flights[f].noStore);
    }
  }

  // ---------------------------------------------------------------- when a handler may run

  ghost predicate RanMore(s: State, s': State, id: RequestId) {
    id in s'.requests && s'.requests[id].runs > (if id in s.requests then s.requests[id].runs else 0)
  }

  /** The only steps in which the handler of request id runs. */
  ghost predicate MayRun(cfg: Config, s: State, a: Action, id: RequestId) {
    id in s.requests
    && match a
       case Bypass(q) => q == id && s.requests[id].range
       case RunHandler(f, _, _, _, _) =>
         f in s.flights && s.flights[f].stage == Running && s.requests[id].step == Leading(f)
       case Take(q) =>
         && q == id && (s.requests[id].step.Leading? || s.requests[id].step.Waiting?)
         && FlightOf(s.requests[id].step) in s.flights
         && var fl := s.flights[FlightOf(s.requests[id].step)];
            && fl.stage.Finished? && !(s.requests[id].step.Leading? && fl.executed)
            && (fl.stage.outcome.Some? ==> !cfg.replayable(fl.stage.outcome.value, s.now))
       case _ => false
  }

  lemma RunsOnlyIf(cfg: Config, s: State, a: Action, id: RequestId)
    requires Enabled(cfg, s, a) && Sound(cfg, s) && RanMore(s, Next(cfg, s, a), id)
    ensures MayRun(cfg, s, a, id)
  {
    if EnabledFlight(cfg, s, a) {
      if a.RunHandler? {
        assert FlightOk(cfg, s, a.f);
      } else {
        FlightStepRequests(cfg, s, a);
      }
    } else if EnabledRequest(s, a) {
      RequestRunsOnlyIf(cfg, s, a, id);
    }
  }

  lemma RequestRunsOnlyIf(cfg: Config, s: State, a: Action, id: RequestId)
    requires EnabledRequest(s, a) && RanMore(s, NextRequest(cfg, s, a), id)
    ensures MayRun(cfg, s, a, id)
  {
  }

  /** In every run a handler runs only for a range request, for the leader of a flight that has found nothing
    * replayable in the store, or for a request that takes the outcome of a flight that has nothing replayable to
    * give. */
  lemma HandlerRunsOnlyIf(cfg: Config, states: seq<State>, actions: seq<Action>, i: nat, id: RequestId)
    requires Run(cfg, states, actions) && i < |actions| && RanMore(states[i], states[i + 1], id)
    ensures MayRun(cfg, states[i], actions[i], id)
  {
    RunSound(cfg, states, actions, i);
    assert Enabled(cfg, states[i], actions[i]) && states[i + 1] == Next(cfg, states[i], actions[i]);
    RunsOnlyIf(cfg, states[i], actions[i], id);
  }

  // ---------------------------------------------------------------- joining

  ghost predicate UnderWay(s: State, k: string)
    requires k in s.registered
  {
    s.registered[k] in s.flights && !s.flights[s.registered[k]].stage.Finished?
  }

  /** No flight that has ended is registered any more. */
  ghost predicate OnlyRunning(s: State) {
    forall k :: k in s.registered ==> UnderWay(s, k)
  }

  lemma RunningByFlight(cfg: Config, s: State, a: Action, k: string)
    requires EnabledFlight(cfg, s, a) && Inv(cfg, s) && OnlyRunning(s) && k in NextFlight(cfg, s, a).registered
    ensures UnderWay(NextFlight(cfg, s, a), k)
  {
    FlightStepFrame(cfg, s, a);
    assert k in s.registered && UnderWay(s, k);
    if a.f == s.registered[k] {
      RunningOwn(cfg, s, a, k);
    }
  }

  lemma RunningOwn(cfg: Config, s: State, a: Action, k: string)
    requires EnabledFlight(cfg, s, a) && k in s.registered && s.registered[k] == a.f && s.flights[a.f].fkey == k
    requires k in NextFlight(cfg, s, a).registered && !s.flights[a.f].stage.Finished?
    ensures NextFlight(cfg, s, a).registered[k] == a.f
    ensures a.f in NextFlight(cfg, s, a).flights && !NextFlight(cfg, s, a).flights[a.f].stage.Finished?
  {
  }

  lemma RunningByRequest(cfg: Config, s: State, a: Action)
    requires EnabledRequest(s, a) && OnlyRunning(s)
    ensures OnlyRunning(NextRequest(cfg, s, a))
  {
    var s' := NextRequest(cfg, s, a);
    RequestStepFrame(cfg, s, a);
    forall k | k in s'.registered ensures UnderWay(s', k) {
      assert k in s.registered ==> UnderWay(s, k);
    }
  }

  lemma RunningKept(cfg: Config, s: State, a: Action)
    requires Enabled(cfg, s, a) && Inv(cfg, s) && OnlyRunning(s)
    ensures OnlyRunning(Next(cfg, s, a))
  {
    if EnabledRequest(s, a) {
      RunningByRequest(cfg, s, a);
    } else if EnabledFlight(cfg, s, a) {
      forall k | k in Next(cfg, s, a).registered ensures UnderWay(Next(cfg, s, a), k) {
        RunningByFlight(cfg, s, a, k);
      }
    } else {
      forall k | k in Next(cfg, s, a).registered ensures UnderWay(Next(cfg, s, a), k) {
        assert UnderWay(s, k);
      }
    }
  }

  lemma {:induction false} RunOnlyRunning(cfg: Config, states: seq<State>, actions: seq<Action>, i: nat)
    requires Run(cfg, states, actions) && i < |states|
    ensures OnlyRunning(states[i])
  {
    if i > 0 {
      RunOnlyRunning(cfg, states, actions, i - 1);
      RunSound(cfg, states, actions, i - 1);
      assert Enabled(cfg, states[i - 1], actions[i - 1]) && states[i] == Next(cfg, states[i - 1], actions[i - 1]);
      RunningKept(cfg, states[i - 1], actions[i - 1]);
    }
  }

  /** Requests are merged: a request that has missed joins the flight registered under its key, which is under way and
    * serves its own slot; it leads a flight of its own only if there is none. */
  lemma MissJoins(cfg: Config, states: seq<State>, actions: seq<Action>, i: nat, id: RequestId)
    requires Run(cfg, states, actions) && i < |actions| && actions[i] == Do(id)
    ensures id in states[i].requests && id in states[i + 1].requests
    ensures var s, s' := states[i], states[i + 1];
            var fkey := cfg.keyOf(s.requests[id].slot, s.serial);
            if fkey in s.registered then
              && s.registered[fkey] in s.flights
              && s'.requests[id].step == Waiting(s.registered[fkey]) && s'.flights == s.flights
              && s.flights[s.registered[fkey]].slot == s.requests[id].slot
              && !s.flights[s.registered[fkey]].stage.Finished?
            else
              && s'.requests[id].step == Leading(s.next) && s'.registered == s.registered[fkey := s.next]
              && s.next in s'.flights && s'.flights[s.next].slot == s.requests[id].slot
              && s'.flights[s.next].leader == id && s'.flights[s.next].noStore == s.requests[id].noStore
  {
    var s := states[i];
    assert Enabled(cfg, s, actions[i]) && states[i + 1] == Next(cfg, s, actions[i]);
    RunSound(cfg, states, actions, i);
    RunOnlyRunning(cfg, states, actions, i);
    var fkey := cfg.keyOf(s.requests[id].slot, s.serial);
    if fkey in s.registered {
      JoinedSlot(cfg, s, s.requests[id].slot);
      assert UnderWay(s, fkey);
    }
  }
}
