/** What is stored: of the responses of flights exactly those that may be shared and are admitted, as the handler wrote
  * them, unless the flight was released before its write (cacheResponseFenced in cache.go). */
module FlightStoring {
  import opened Wrappers
  import opened Flights
  import opened FlightReplies
  import opened FlightLocks
  import opened FlightOutcomes

  /** Whether the response is to be stored, as long as that is open. */
  ghost predicate Fated(fl: Flight, resp: Response, admitted: bool) {
    match fl.stage
    case Looking => false
    case Running => false
    case Ran(r, _, keep) => r == resp && keep == (Sharing(fl, resp) && admitted)
    case Locked(r, _) => r == resp && Sharing(fl, resp) && admitted
    case Checked(r, _) => r == resp && Sharing(fl, resp) && admitted
    case _ => true
  }

  ghost predicate FatedIn(s: State, f: FlightId, resp: Response, admitted: bool) {
    f in s.flights && Fated(s.flights[f], resp, admitted) && s.flights[f].slot == resp.slot
  }

  lemma HandlerFates(cfg: Config, s: State, a: Action)
    requires Enabled(cfg, s, a) && a.RunHandler?
    ensures a.f in s.flights && FatedIn(Next(cfg, s, a), a.f, Handled(s, a), a.admitted)
  {
  }

  lemma OwnFate(cfg: Config, s: State, a: Action, resp: Response, admitted: bool)
    requires EnabledFlight(cfg, s, a) && FatedIn(s, a.f, resp, admitted)
    ensures FatedIn(NextFlight(cfg, s, a), a.f, resp, admitted)
  {
  }

  lemma FatedKept(cfg: Config, s: State, a: Action, f: FlightId, resp: Response, admitted: bool)
    requires Enabled(cfg, s, a) && FatedIn(s, f, resp, admitted)
    ensures FatedIn(Next(cfg, s, a), f, resp, admitted)
  {
    if EnabledRequest(s, a) {
      NotStarted(cfg, s, a, f);
    } else if EnabledFlight(cfg, s, a) {
      FlightStepFrame(cfg, s, a);
      if f == a.f {
        OwnFate(cfg, s, a, resp, admitted);
      }
    }
  }

  lemma FatedInRun(cfg: Config, states: seq<State>, actions: seq<Action>, i: nat, f: FlightId, resp: Response,
                   admitted: bool)
    requires Run(cfg, states, actions) && i + 1 < |states| && FatedIn(states[i], f, resp, admitted)
    ensures FatedIn(states[i + 1], f, resp, admitted)
  {
    assert Enabled(cfg, states[i], actions[i]) && states[i + 1] == Next(cfg, states[i], actions[i]);
    FatedKept(cfg, states[i], actions[i], f, resp, admitted);
  }

  lemma {:induction false} FatedFrom(cfg: Config, states: seq<State>, actions: seq<Action>, i: nat, j: nat)
    requires Run(cfg, states, actions) && i < j < |states| && actions[i].RunHandler?
    ensures actions[i].f in states[i].flights
            && FatedIn(states[j], actions[i].f, Handled(states[i], actions[i]), actions[i].admitted)
    decreases j - i
  {
    if i + 1 < j {
      FatedFrom(cfg, states, actions, i, j - 1);
      FatedInRun(cfg, states, actions, j - 1, actions[i].f, Handled(states[i], actions[i]), actions[i].admitted);
    } else {
      assert Enabled(cfg, states[i], actions[i]) && states[i + 1] == Next(cfg, states[i], actions[i]);
      HandlerFates(cfg, states[i], actions[i]);
    }
  }

  /** The response of the handler step a may be shared and is admitted. */
  ghost predicate ToBeStored(s: State, a: Action)
    requires a.RunHandler? && a.f in s.flights
  {
    Sharing(s.flights[a.f], Handled(s, a)) && a.admitted
  }

  lemma StoreChanges(cfg: Config, s: State, a: Action)
    requires Enabled(cfg, s, a) && Next(cfg, s, a).stores != s.stores
    ensures a.External? || (a.Store? && a.ok)
  {
    if EnabledRequest(s, a) {
      RequestStores(cfg, s, a);
    } else if EnabledFlight(cfg, s, a) {
      FlightStores(cfg, s, a);
    }
  }

  lemma StoreStepWrites(cfg: Config, s: State, a: Action, resp: Response, admitted: bool)
    requires Enabled(cfg, s, a) && a.Store? && FatedIn(s, a.f, resp, admitted)
    ensures Sharing(s.flights[a.f], resp) && admitted && resp.slot == s.flights[a.f].slot
    ensures Next(cfg, s, a).stores == if a.ok then s.stores[resp.slot := Stored(resp, Some(a.f))] else s.stores
  {
  }

  /** A store write of a flight stores exactly what its handler wrote, in the slot of the request, and nothing else; it
    * happens only for a response that may be shared and is admitted. No other step of the cache changes a store. */
  lemma WritesTheResponse(cfg: Config, states: seq<State>, actions: seq<Action>, i: nat, j: nat)
    requires Run(cfg, states, actions) && i < j < |actions|
    requires actions[i].RunHandler? && actions[j].Store? && actions[j].f == actions[i].f
    ensures actions[i].f in states[i].flights && ToBeStored(states[i], actions[i])
    ensures var resp := Handled(states[i], actions[i]);
            states[j + 1].stores ==
            if actions[j].ok then states[j].stores[resp.slot := Stored(resp, Some(actions[i].f))] else states[j].stores
    ensures forall m :: 0 <= m < |actions| && states[m + 1].stores != states[m].stores ==>
              actions[m].External? || (actions[m].Store? && actions[m].ok)
  {
    FatedFrom(cfg, states, actions, i, j);
    NoStoreStays(cfg, states, actions, i, j, actions[i].f);
    assert Enabled(cfg, states[j], actions[j]) && states[j + 1] == Next(cfg, states[j], actions[j]);
    StoreStepWrites(cfg, states[j], actions[j], Handled(states[i], actions[i]), actions[i].admitted);
    forall m | 0 <= m < |actions| && states[m + 1].stores != states[m].stores
      ensures actions[m].External? || (actions[m].Store? && actions[m].ok)
    {
      assert Enabled(cfg, states[m], actions[m]) && states[m + 1] == Next(cfg, states[m], actions[m]);
      StoreChanges(cfg, states[m], actions[m]);
    }
  }

  // ---------------------------------------------------------------- nothing is left unwritten without reason

  /** Flight f has tried to write in one of the steps from i to j. */
  ghost predicate Tried(actions: seq<Action>, i: nat, j: nat, f: FlightId) {
    exists m :: i < m < j <= |actions| && actions[m].Store? && actions[m].f == f
  }

  predicate StillToWrite(stage: Stage) {
    stage.Ran? || stage.Locked? || stage.Checked?
  }

  /** The write is still to come or was tried, or the flight has been released, or the response is not to be stored. */
  ghost predicate Accounted(s: State, f: FlightId, tried: bool, toBeStored: bool) {
    f in s.flights && (StillToWrite(s.flights[f].stage) || tried || s.flights[f].superseded || !toBeStored)
  }

  lemma AccountedStep(cfg: Config, s: State, a: Action, f: FlightId, tried: bool, resp: Response, admitted: bool)
    requires Enabled(cfg, s, a) && FatedIn(s, f, resp, admitted)
    requires Accounted(s, f, tried, Sharing(s.flights[f], resp) && admitted)
    ensures Accounted(Next(cfg, s, a), f, tried || (a.Store? && a.f == f), Sharing(s.flights[f], resp) && admitted)
  {
    if EnabledRequest(s, a) {
      NotStarted(cfg, s, a, f);
    } else if EnabledFlight(cfg, s, a) {
      FlightStepFrame(cfg, s, a);
      if f == a.f {
        OwnAccounted(cfg, s, a, tried, resp, admitted);
      }
    }
  }

  lemma OwnAccounted(cfg: Config, s: State, a: Action, tried: bool, resp: Response, admitted: bool)
    requires EnabledFlight(cfg, s, a) && FatedIn(s, a.f, resp, admitted)
    requires Accounted(s, a.f, tried, Sharing(s.flights[a.f], resp) && admitted)
    ensures Accounted(NextFlight(cfg, s, a), a.f, tried || a.Store?, Sharing(s.flights[a.f], resp) && admitted)
  {
  }

  lemma TriedGrows(actions: seq<Action>, i: nat, j: nat, f: FlightId)
    requires i < j < |actions|
    ensures Tried(actions, i, j + 1, f) <==> Tried(actions, i, j, f) || (actions[j].Store? && actions[j].f == f)
  {
  }

  lemma AccountedInRun(cfg: Config, states: seq<State>, actions: seq<Action>, m: nat, f: FlightId, tried: bool,
                       resp: Response, admitted: bool)
    requires Run(cfg, states, actions) && m + 1 < |states| && FatedIn(states[m], f, resp, admitted)
    requires Accounted(states[m], f, tried, Sharing(states[m].flights[f], resp) && admitted)
    ensures Accounted(states[m + 1], f, tried || (actions[m].Store? && actions[m].f == f),
                      Sharing(states[m].flights[f], resp) && admitted)
  {
    assert Enabled(cfg, states[m], actions[m]) && states[m + 1] == Next(cfg, states[m], actions[m]);
    AccountedStep(cfg, states[m], actions[m], f, tried, resp, admitted);
  }

  lemma HandlerAccounted(cfg: Config, s: State, a: Action)
    requires Enabled(cfg, s, a) && a.RunHandler?
    ensures a.f in s.flights && a.f in Next(cfg, s, a).flights && Next(cfg, s, a).flights[a.f].stage.Ran?
  {
  }

  lemma {:induction false} AccountedFrom(cfg: Config, states: seq<State>, actions: seq<Action>, i: nat, j: nat)
    requires Run(cfg, states, actions) && i < j < |states| && actions[i].RunHandler?
    ensures actions[i].f in states[i].flights
            && Accounted(states[j], actions[i].f, Tried(actions, i, j, actions[i].f), ToBeStored(states[i], actions[i]))
    decreases j - i
  {
    var f := actions[i].f;
    if i + 1 < j {
      AccountedFrom(cfg, states, actions, i, j - 1);
      FatedFrom(cfg, states, actions, i, j - 1);
      NoStoreStays(cfg, states, actions, i, j - 1, f);
      AccountedInRun(cfg, states, actions, j - 1, f, Tried(actions, i, j - 1, f), Handled(states[i], actions[i]),
                     actions[i].admitted);
      TriedGrows(actions, i, j - 1, f);
    } else {
      assert Enabled(cfg, states[i], actions[i]) && states[i + 1] == Next(cfg, states[i], actions[i]);
      HandlerAccounted(cfg, states[i], actions[i]);
    }
  }

  /** Over all runs: a flight whose handler has run and that has ended has tried to write its response, if that may be
    * shared and is admitted, unless the flight has been released. */
  lemma NothingUnwritten(cfg: Config, states: seq<State>, actions: seq<Action>, i: nat, j: nat)
    requires Run(cfg, states, actions) && i < j < |states| && actions[i].RunHandler?
    requires actions[i].f in states[j].flights && states[j].flights[actions[i].f].stage.Finished?
    ensures actions[i].f in states[i].flights
    ensures ToBeStored(states[i], actions[i]) && !states[j].flights[actions[i].f].superseded ==>
              Tried(actions, i, j, actions[i].f)
  {
    AccountedFrom(cfg, states, actions, i, j);
  }
}
