/** That the store does its work: a Get is answered with what L1 or Redis holds, and what it fetches is kept in L1.
  * And that a released flight keeps nothing. */
module TwoLevelReadThrough {
  import opened Wrappers
  import opened Fresh
  import opened TwoLevelProtocol
  import opened TwoLevelCoherence
  import opened TwoLevelLaterReads

  /** What Redis would answer for k now. */
  ghost function Remote(s: System, k: Key): Option<Answer> {
    if k in s.redis then Some(Answer(Entry(s.redis[k], Now(s)), FlightRemote)) else None
  }

  /** Whenever L1 holds k, a new Get is answered at once with its entry, and nothing changes. */
  lemma HitIsServed(cfg: Config, states: seq<System>, actions: seq<Action>, n: NodeId, k: Key, g: ProcId)
    returns (states': seq<System>, actions': seq<Action>, s': System)
    requires Run(cfg, states, actions) && n in cfg.nodes
    requires var s := states[|actions|]; g !in s.procs && k in s.nodes(n).l1
    ensures Run(cfg, states', actions') && states <= states' && s' == states'[|actions'|]
    ensures actions' == actions + [GetCall(g, n, k), GetLookup(g)]
    ensures var s := states[|actions|];
            s' == s.(procs := s.procs[g := Getter(n, k, Returned(Some(Answer(s.nodes(n).l1[k], Outer))))])
  {
    var s := states[|actions|];
    states', actions', s' := Extend(cfg, states, actions, GetCall(g, n, k));
    states', actions', s' := Extend(cfg, states', actions', GetLookup(g));
    assert s'.procs == s.procs[g := Getter(n, k, Returned(Some(Answer(s.nodes(n).l1[k], Outer))))];
  }

  /** Otherwise, without a flight to join, it leads one. */
  lemma MissLeads(cfg: Config, states: seq<System>, actions: seq<Action>, n: NodeId, k: Key, g: ProcId, f: ProcId)
    returns (states': seq<System>, actions': seq<Action>, s': System)
    requires Run(cfg, states, actions) && n in cfg.nodes
    requires var s := states[|actions|];
             g !in s.procs && f !in s.procs && f != g && k !in s.nodes(n).l1 && k !in s.nodes(n).flights
    ensures Run(cfg, states', actions') && states <= states' && s' == states'[|actions'|]
    ensures var s := states[|actions|];
            && s'.redis == s.redis && s'.past == s.past && s'.nodes(n) == Register(s.nodes(n), k, f)
            && s'.procs == s.procs[f := Flight(n, k, Started, false)][g := Getter(n, k, Waiting(f))]
  {
    states', actions', s' := Extend(cfg, states, actions, GetCall(g, n, k));
    states', actions', s' := Extend(cfg, states', actions', GetLookup(g));
    states', actions', s' := Extend(cfg, states', actions', GetJoin(g, f));
  }

  /** The flight asks Redis. */
  lemma FlightAsks(cfg: Config, states: seq<System>, actions: seq<Action>, n: NodeId, k: Key, f: ProcId)
    returns (states': seq<System>, actions': seq<Action>, s': System)
    requires Run(cfg, states, actions)
    requires var s := states[|actions|];
             f in s.procs && s.procs[f] == Flight(n, k, Started, false) && k !in s.nodes(n).l1
    ensures Run(cfg, states', actions') && states <= states' && s' == states'[|actions'|]
    ensures var s := states[|actions|];
            && s'.redis == s.redis && s'.past == s.past && s'.nodes(n) == s.nodes(n)
            && s'.procs == s.procs[f := Flight(n, k,
                 if k in s.redis then Fetched(s.nodes(n).gens[cfg.shardOf(k)], Remote(s, k).value.entry)
                 else Resolved(None), false)]
  {
    states', actions', s' := Extend(cfg, states, actions, FlightLookup(f));
    states', actions', s' := Extend(cfg, states', actions', FlightBegin(f));
    states', actions', s' := Extend(cfg, states', actions', FlightFetch(f, true));
  }

  /** It keeps what it got, if nothing has invalidated the key. */
  lemma FlightKeeps(cfg: Config, states: seq<System>, actions: seq<Action>, n: NodeId, k: Key, f: ProcId, e: Entry)
    returns (states': seq<System>, actions': seq<Action>, s': System)
    requires Run(cfg, states, actions)
    requires var s := states[|actions|];
             f in s.procs && s.procs[f] == Flight(n, k, Fetched(s.nodes(n).gens[cfg.shardOf(k)], e), false)
    ensures Run(cfg, states', actions') && states <= states' && s' == states'[|actions'|]
    ensures var s := states[|actions|];
            && s'.redis == s.redis && s'.past == s.past
            && s'.nodes(n).l1 == s.nodes(n).l1[k := e] && s'.nodes(n).flights == s.nodes(n).flights
            && s'.procs == s.procs[f := Flight(n, k, Resolved(Some(Answer(e, FlightRemote))), false)]
  {
    states', actions', s' := Extend(cfg, states, actions, FlightCommit(f, true));
  }

  /** It ends, and the Get that waits for it returns. */
  lemma FlightAnswersGet(cfg: Config, states: seq<System>, actions: seq<Action>, n: NodeId, k: Key, g: ProcId,
                         f: ProcId, r: Option<Answer>)
    returns (states': seq<System>, actions': seq<Action>, s': System)
    requires Run(cfg, states, actions)
    requires var s := states[|actions|];
             && f in s.procs && s.procs[f] == Flight(n, k, Resolved(r), false)
             && g in s.procs && s.procs[g] == Getter(n, k, Waiting(f))
             && s.nodes(n).flights[k := f] == s.nodes(n).flights
    ensures Run(cfg, states', actions') && states <= states' && s' == states'[|actions'|]
    ensures var s := states[|actions|];
            && s'.redis == s.redis && s'.past == s.past && s'.nodes(n).l1 == s.nodes(n).l1
            && k !in s'.nodes(n).flights && g in s'.procs && s'.procs[g] == Getter(n, k, Returned(r))
  {
    states', actions', s' := Extend(cfg, states, actions, FlightFinish(f));
    states', actions', s' := Extend(cfg, states', actions', GetReturn(g));
  }

  /** From every reachable state in which n has neither the key nor a flight for it: a new Get can be answered with
    * exactly what Redis holds, L1 then holds the same, and the flight is gone. */
  lemma MissIsReadThrough(cfg: Config, states: seq<System>, actions: seq<Action>, n: NodeId, k: Key, g: ProcId,
                          f: ProcId)
    returns (states': seq<System>, actions': seq<Action>, s': System)
    requires Run(cfg, states, actions) && n in cfg.nodes
    requires var s := states[|actions|];
             g !in s.procs && f !in s.procs && f != g && k !in s.nodes(n).l1 && k !in s.nodes(n).flights
    ensures Continues(cfg, states, states', actions') && s' == states'[|actions'|]
    ensures var s := states[|actions|];
            && s'.redis == s.redis && k !in s'.nodes(n).flights
            && g in s'.procs && s'.procs[g] == Getter(n, k, Returned(Remote(s, k)))
            && s'.nodes(n).l1 == (if k in s.redis then s.nodes(n).l1[k := Remote(s, k).value.entry] else s.nodes(n).l1)
  {
    var s := states[|actions|];
    states', actions', s' := MissLeads(cfg, states, actions, n, k, g, f);
    states', actions', s' := FlightAsks(cfg, states', actions', n, k, f);
    if k in s.redis {
      states', actions', s' := FlightKeeps(cfg, states', actions', n, k, f, Remote(s, k).value.entry);
    }
    states', actions', s' := FlightAnswersGet(cfg, states', actions', n, k, g, f, Remote(s, k));
  }

  // ---------------------------------------------------------------- released flights

  ghost predicate Released(s: System, f: ProcId) {
    IsFlight(s, f) && s.procs[f].superseded
  }

  lemma TimerReleases(cfg: Config, s: System, f: ProcId)
    requires Enabled(cfg, s, TimerMark(f))
    ensures Released(Next(cfg, s, TimerMark(f)), f)
  {
  }

  lemma ReleasedStays(cfg: Config, s: System, a: Action, f: ProcId)
    requires Enabled(cfg, s, a) && Released(s, f)
    ensures Released(Next(cfg, s, a), f)
  {
    if EnabledGet(cfg, s, a) {
      assert NextGet(cfg, s, a).procs[f] == s.procs[f];
    } else if EnabledFlight(s, a) {
      ReleasedStaysInFlight(cfg, s, a, f);
    } else if EnabledMutation(cfg, s, a) {
      assert NextMutation(cfg, s, a).procs[f] == s.procs[f];
    } else if EnabledSweep(cfg, s, a) {
      assert NextSweep(cfg, s, a).procs[f] == s.procs[f];
    } else if EnabledDelivery(s, a) {
      assert NextDelivery(cfg, s, a).procs[f] == s.procs[f];
    }
  }

  lemma ReleasedStaysInFlight(cfg: Config, s: System, a: Action, f: ProcId)
    requires EnabledFlight(s, a) && Released(s, f)
    ensures Released(NextFlight(cfg, s, a), f)
  {
  }

  lemma ReleasedInRun(cfg: Config, states: seq<System>, actions: seq<Action>, i: nat, f: ProcId)
    requires Run(cfg, states, actions) && i + 1 < |states| && Released(states[i], f)
    ensures Released(states[i + 1], f)
  {
    assert Enabled(cfg, states[i], actions[i]) && states[i + 1] == Next(cfg, states[i], actions[i]);
    ReleasedStays(cfg, states[i], actions[i], f);
  }

  lemma ReleasedCommit(cfg: Config, s: System, a: Action, n: NodeId)
    requires Enabled(cfg, s, a) && a.FlightCommit? && Released(s, a.id)
    ensures Next(cfg, s, a).nodes(n).l1 == s.nodes(n).l1
  {
  }

  /** Once its timer has fired, a flight never writes L1 again, whatever the generations say. */
  lemma ReleasedNeverWrites(cfg: Config, states: seq<System>, actions: seq<Action>, i: nat, j: nat, f: ProcId,
                            n: NodeId)
    requires Run(cfg, states, actions) && i < j < |actions|
    requires actions[i] == TimerMark(f) && actions[j].FlightCommit? && actions[j].id == f
    ensures states[j + 1].nodes(n).l1 == states[j].nodes(n).l1
  {
    assert Enabled(cfg, states[i], actions[i]) && states[i + 1] == Next(cfg, states[i], actions[i]);
    TimerReleases(cfg, states[i], f);
    var holds := (s: System) => Released(s, f);
    forall t | i + 1 <= t < j && holds(states[t]) ensures holds(states[t + 1]) {
      ReleasedInRun(cfg, states, actions, t, f);
    }
    KeptFrom(states, holds, i + 1, j);
    assert Enabled(cfg, states[j], actions[j]) && states[j + 1] == Next(cfg, states[j], actions[j]);
    ReleasedCommit(cfg, states[j], actions[j], n);
  }

  /** A stuck flight holds nobody up: once its timer has released the key, and as long as L1 does not have it, a new Get
    * leads a flight of its own and can be answered with exactly what Redis holds. */
  lemma ReleaseServes(cfg: Config, states: seq<System>, actions: seq<Action>, n: NodeId, k: Key, stuck: ProcId,
                      g: ProcId, f: ProcId)
    returns (states': seq<System>, actions': seq<Action>, s': System)
    requires Run(cfg, states, actions) && n in cfg.nodes && actions != []
    requires var s := states[|actions| - 1];
             actions[|actions| - 1] == TimerForget(stuck) && IsFlight(s, stuck)
             && s.procs[stuck].node == n && s.procs[stuck].key == k
    requires var s := states[|actions|]; g !in s.procs && f !in s.procs && f != g && k !in s.nodes(n).l1
    ensures Continues(cfg, states, states', actions') && s' == states'[|actions'|]
    ensures var s := states[|actions|];
            g in s'.procs && s'.procs[g] == Getter(n, k, Returned(Remote(s, k))) && s'.redis == s.redis
  {
    var i := |actions| - 1;
    assert Enabled(cfg, states[i], actions[i]) && states[i + 1] == Next(cfg, states[i], actions[i]);
    states', actions', s' := MissIsReadThrough(cfg, states, actions, n, k, g, f);
  }
}
