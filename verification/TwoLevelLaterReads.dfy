/** What a Get may answer that starts once L1 holds nothing older than a given moment: the argument common to Set and to
  * pattern deletions, neither of which leaves L1 and the registered flight new at the same moment. */
module TwoLevelLaterReads {
  import opened Wrappers
  import opened TwoLevelProtocol
  import opened TwoLevelCoherence
  import opened TwoLevelReads

  /** r is nothing, or a value that Redis held at floor or later. */
  ghost predicate New(floor: nat, r: Option<Answer>) {
    r.Some? ==> r.value.entry.at >= floor
  }

  ghost predicate L1New(s: System, n: NodeId, k: Key, floor: nat) {
    k in s.nodes(n).l1 ==> s.nodes(n).l1[k].at >= floor
  }

  /** The answer that the registered flight of the key has, or is about to give, if it is older than floor. */
  ghost function LeftBehind(s: System, n: NodeId, k: Key, floor: nat): Option<Answer> {
    if k in s.nodes(n).flights && IsFlight(s, s.nodes(n).flights[k]) then
      match s.procs[s.nodes(n).flights[k]].stage
      case Fetched(_, e) => if e.at < floor then Some(Answer(e, FlightRemote)) else None
      case Resolved(r) => if New(floor, r) then None else r
      case _ => None
    else None
  }

  /** g started after the state s, on node n and key k, and has returned with r in s'. */
  ghost predicate LaterAnswer(s: System, s': System, n: NodeId, k: Key, g: ProcId, r: Option<Answer>) {
    g !in s.procs && g in s'.procs && s'.procs[g] == Getter(n, k, Returned(r))
  }

  ghost predicate Continues(cfg: Config, states: seq<System>, states': seq<System>, actions': seq<Action>) {
    Run(cfg, states', actions') && states <= states'
  }

  // ---------------------------------------------------------------- two more facts about every state

  /** A registered flight is under way, and Sets and pattern deletions run on instances that exist. */
  ghost predicate Placed(cfg: Config, s: System) {
    && (forall n, k :: k in s.nodes(n).flights ==> Unfinished(s, s.nodes(n).flights[k]))
    && (forall m :: IsMutator(s, m) && s.procs[m].kind.SetOf? ==> s.procs[m].node in cfg.nodes)
    && (forall w :: IsSweeper(s, w) && s.procs[w].local ==> s.procs[w].node in cfg.nodes)
  }

  ghost predicate Unfinished(s: System, f: ProcId) {
    IsFlight(s, f) && !s.procs[f].stage.Finished?
  }

  lemma PlacedByGet(cfg: Config, s: System, a: Action)
    requires EnabledGet(cfg, s, a) && Placed(cfg, s)
    ensures Placed(cfg, NextGet(cfg, s, a))
  {
    forall n, k | k in NextGet(cfg, s, a).nodes(n).flights
      ensures Unfinished(NextGet(cfg, s, a), NextGet(cfg, s, a).nodes(n).flights[k])
    {
      assert k in s.nodes(n).flights ==> Unfinished(s, s.nodes(n).flights[k]);
    }
  }

  lemma PlacedByFlight(cfg: Config, s: System, a: Action)
    requires EnabledFlight(s, a) && Placed(cfg, s) && Bookkeeping(cfg, s)
    ensures Placed(cfg, NextFlight(cfg, s, a))
  {
    var s' := NextFlight(cfg, s, a);
    forall n, k | k in s'.nodes(n).flights ensures Unfinished(s', s'.nodes(n).flights[k]) {
      assert k in s.nodes(n).flights && Unfinished(s, s.nodes(n).flights[k]);
      UnfinishedByFlight(cfg, s, a, n, k);
    }
    SettersByFlight(cfg, s, a);
  }

  lemma UnfinishedByFlight(cfg: Config, s: System, a: Action, n: NodeId, k: Key)
    requires EnabledFlight(s, a) && Bookkeeping(cfg, s) && k in s.nodes(n).flights
    requires k in NextFlight(cfg, s, a).nodes(n).flights && Unfinished(s, s.nodes(n).flights[k])
    ensures NextFlight(cfg, s, a).nodes(n).flights[k] == s.nodes(n).flights[k]
    ensures Unfinished(NextFlight(cfg, s, a), s.nodes(n).flights[k])
  {
    if a.FlightFinish? {
      UnfinishedByFinish(cfg, s, a, n, k);
    } else {
      UnfinishedByOther(cfg, s, a, n, k);
    }
  }

  /** A flight that ends takes its registration with it. */
  lemma UnfinishedByFinish(cfg: Config, s: System, a: Action, n: NodeId, k: Key)
    requires EnabledFlight(s, a) && a.FlightFinish? && Bookkeeping(cfg, s) && k in s.nodes(n).flights
    requires k in NextFlight(cfg, s, a).nodes(n).flights && Unfinished(s, s.nodes(n).flights[k])
    ensures NextFlight(cfg, s, a).nodes(n).flights[k] == s.nodes(n).flights[k]
    ensures Unfinished(NextFlight(cfg, s, a), s.nodes(n).flights[k])
  {
  }

  lemma UnfinishedByOther(cfg: Config, s: System, a: Action, n: NodeId, k: Key)
    requires EnabledFlight(s, a) && !a.FlightFinish? && k in s.nodes(n).flights
    requires k in NextFlight(cfg, s, a).nodes(n).flights && Unfinished(s, s.nodes(n).flights[k])
    ensures NextFlight(cfg, s, a).nodes(n).flights[k] == s.nodes(n).flights[k]
    ensures Unfinished(NextFlight(cfg, s, a), s.nodes(n).flights[k])
  {
  }

  lemma SettersByFlight(cfg: Config, s: System, a: Action)
    requires EnabledFlight(s, a)
    ensures forall m :: IsMutator(NextFlight(cfg, s, a), m) ==>
                          IsMutator(s, m) && NextFlight(cfg, s, a).procs[m] == s.procs[m]
  {
  }

  lemma PlacedByMutation(cfg: Config, s: System, a: Action)
    requires EnabledMutation(cfg, s, a) && Placed(cfg, s)
    ensures Placed(cfg, NextMutation(cfg, s, a))
  {
    var s' := NextMutation(cfg, s, a);
    forall n, k | k in s'.nodes(n).flights ensures Unfinished(s', s'.nodes(n).flights[k]) {
      assert k in s.nodes(n).flights && Unfinished(s, s.nodes(n).flights[k]);
    }
  }

  lemma PlacedBySweep(cfg: Config, s: System, a: Action)
    requires EnabledSweep(cfg, s, a) && Placed(cfg, s)
    ensures Placed(cfg, NextSweep(cfg, s, a))
  {
    var s' := NextSweep(cfg, s, a);
    forall n, k | k in s'.nodes(n).flights ensures Unfinished(s', s'.nodes(n).flights[k]) {
      assert k in s.nodes(n).flights && Unfinished(s, s.nodes(n).flights[k]);
    }
  }

  lemma PlacedByDelivery(cfg: Config, s: System, a: Action)
    requires EnabledDelivery(s, a) && Placed(cfg, s)
    ensures Placed(cfg, NextDelivery(cfg, s, a))
  {
    var s' := NextDelivery(cfg, s, a);
    forall n, k | k in s'.nodes(n).flights ensures Unfinished(s', s'.nodes(n).flights[k]) {
      assert k in s.nodes(n).flights && Unfinished(s, s.nodes(n).flights[k]);
    }
  }

  lemma PlacedKept(cfg: Config, s: System, a: Action)
    requires Enabled(cfg, s, a) && Placed(cfg, s) && Bookkeeping(cfg, s)
    ensures Placed(cfg, Next(cfg, s, a))
  {
    if EnabledGet(cfg, s, a) {
      PlacedByGet(cfg, s, a);
    } else if EnabledFlight(s, a) {
      PlacedByFlight(cfg, s, a);
    } else if EnabledMutation(cfg, s, a) {
      PlacedByMutation(cfg, s, a);
    } else if EnabledSweep(cfg, s, a) {
      PlacedBySweep(cfg, s, a);
    } else if EnabledDelivery(s, a) {
      PlacedByDelivery(cfg, s, a);
    } else {
      PlacedByEviction(cfg, s, a.n, a.k);
    }
  }

  lemma PlacedByEviction(cfg: Config, s: System, n: NodeId, k: Key)
    requires Placed(cfg, s)
    ensures Placed(cfg, PutNode(s, n, Drop(s.nodes(n), k)))
  {
    var s' := PutNode(s, n, Drop(s.nodes(n), k));
    forall n', k' | k' in s'.nodes(n').flights ensures Unfinished(s', s'.nodes(n').flights[k']) {
      assert k' in s.nodes(n').flights && Unfinished(s, s.nodes(n').flights[k']);
    }
  }

  lemma PlacedInRun(cfg: Config, states: seq<System>, actions: seq<Action>, i: nat)
    requires Run(cfg, states, actions) && i + 1 < |states| && Placed(cfg, states[i])
    ensures Placed(cfg, states[i + 1])
  {
    RunInv(cfg, states, actions, i);
    assert Enabled(cfg, states[i], actions[i]) && states[i + 1] == Next(cfg, states[i], actions[i]);
    PlacedKept(cfg, states[i], actions[i]);
  }

  lemma RunPlaced(cfg: Config, states: seq<System>, actions: seq<Action>, i: nat)
    requires Run(cfg, states, actions) && i < |states|
    ensures Placed(cfg, states[i])
  {
    var holds := (s: System) => Placed(cfg, s);
    forall k | 0 <= k < i && holds(states[k]) ensures holds(states[k + 1]) {
      PlacedInRun(cfg, states, actions, k);
    }
    KeptFrom(states, holds, 0, i);
  }

  // ---------------------------------------------------------------- every other answer is new

  /** r is new, or it is the one answer left behind. */
  ghost predicate NewOr(floor: nat, left: Option<Answer>, r: Option<Answer>) {
    New(floor, r) || r == left
  }

  ghost predicate StageNew(floor: nat, left: Option<Answer>, st: FlightStage) {
    match st
    case Fetched(_, e) => NewOr(floor, left, Some(Answer(e, FlightRemote)))
    case Resolved(r) => NewOr(floor, left, r)
    case Finished(r) => NewOr(floor, left, r)
    case _ => true
  }

  ghost predicate FlightNew(s: System, n: NodeId, k: Key, floor: nat, left: Option<Answer>, f: ProcId) {
    IsFlight(s, f) && s.procs[f].node == n && s.procs[f].key == k && StageNew(floor, left, s.procs[f].stage)
  }

  ghost predicate GetNew(s: System, n: NodeId, k: Key, floor: nat, left: Option<Answer>, st: GetStage) {
    match st
    case Waiting(f) => FlightNew(s, n, k, floor, left, f)
    case Returned(r) => NewOr(floor, left, r)
    case _ => true
  }

  ghost predicate LaterGetter(s: System, n: NodeId, k: Key, earlier: set<ProcId>, g: ProcId) {
    IsGetter(s, g) && g !in earlier && s.procs[g].node == n && s.procs[g].key == k
  }

  /** The registered flight and every Get that started later have, and will get, nothing else. */
  ghost predicate AllNew(s: System, n: NodeId, k: Key, floor: nat, left: Option<Answer>, earlier: set<ProcId>) {
    && earlier <= s.procs.Keys
    && (k in s.nodes(n).flights ==> FlightNew(s, n, k, floor, left, s.nodes(n).flights[k]))
    && (forall g :: LaterGetter(s, n, k, earlier, g) ==> GetNew(s, n, k, floor, left, s.procs[g].getStage))
  }

  lemma FlightStaysNew(cfg: Config, s: System, s': System, n: NodeId, k: Key, floor: nat, left: Option<Answer>,
                       f: ProcId)
    requires Transition(cfg, s, s') && floor <= Now(s) && L1New(s, n, k, floor)
    requires FlightNew(s, n, k, floor, left, f)
    ensures FlightNew(s', n, k, floor, left, f)
  {
    assert Moves(cfg, s, s', s.procs[f], s'.procs[f]);
  }

  lemma GetStaysNew(cfg: Config, s: System, s': System, n: NodeId, k: Key, floor: nat, left: Option<Answer>,
                    earlier: set<ProcId>, g: ProcId)
    requires Transition(cfg, s, s') && floor <= Now(s) && L1New(s, n, k, floor)
    requires AllNew(s, n, k, floor, left, earlier) && LaterGetter(s', n, k, earlier, g)
    requires k in s'.nodes(n).flights ==> FlightNew(s', n, k, floor, left, s'.nodes(n).flights[k])
    ensures GetNew(s', n, k, floor, left, s'.procs[g].getStage)
  {
    if g in s.procs {
      assert Moves(cfg, s, s', s.procs[g], s'.procs[g]);
      assert LaterGetter(s, n, k, earlier, g);
      var st := s.procs[g].getStage;
      if st.Waiting? && s'.procs[g].getStage == st {
        FlightStaysNew(cfg, s, s', n, k, floor, left, st.flight);
      }
    }
  }

  lemma AllNewKept(cfg: Config, s: System, s': System, n: NodeId, k: Key, floor: nat, left: Option<Answer>,
                   earlier: set<ProcId>)
    requires Transition(cfg, s, s') && floor <= Now(s) && L1New(s, n, k, floor)
    requires AllNew(s, n, k, floor, left, earlier)
    ensures AllNew(s', n, k, floor, left, earlier)
  {
    if k in s'.nodes(n).flights {
      var f := s'.nodes(n).flights[k];
      if f in s.procs {
        FlightStaysNew(cfg, s, s', n, k, floor, left, f);
      }
    }
    forall g | LaterGetter(s', n, k, earlier, g) ensures GetNew(s', n, k, floor, left, s'.procs[g].getStage) {
      GetStaysNew(cfg, s, s', n, k, floor, left, earlier, g);
    }
  }

  ghost predicate AllNewFrom(s: System, n: NodeId, k: Key, floor: nat, left: Option<Answer>, earlier: set<ProcId>) {
    floor <= Now(s) && AllNew(s, n, k, floor, left, earlier)
  }

  lemma AllNewInRun(cfg: Config, states: seq<System>, actions: seq<Action>, i: nat,
                    n: NodeId, k: Key, floor: nat, left: Option<Answer>, earlier: set<ProcId>)
    requires Run(cfg, states, actions) && i + 1 < |states|
    requires L1New(states[i], n, k, floor) && AllNewFrom(states[i], n, k, floor, left, earlier)
    ensures AllNewFrom(states[i + 1], n, k, floor, left, earlier)
  {
    StepInRun(cfg, states, actions, i);
    AllNewKept(cfg, states[i], states[i + 1], n, k, floor, left, earlier);
  }

  lemma StartsNew(cfg: Config, s: System, n: NodeId, k: Key, floor: nat)
    requires Bookkeeping(cfg, s) && Placed(cfg, s)
    ensures AllNew(s, n, k, floor, LeftBehind(s, n, k, floor), s.procs.Keys)
  {
    if k in s.nodes(n).flights {
      assert Unfinished(s, s.nodes(n).flights[k]);
    }
  }

  /** As long as L1 holds nothing older than floor: a Get that starts later answers with a miss, with a value that Redis
    * held at floor or later, or with the one answer that the flight registered at the beginning had. */
  lemma LaterReads(cfg: Config, states: seq<System>, actions: seq<Action>, i: nat, j: nat,
                   n: NodeId, k: Key, floor: nat, g: ProcId, r: Option<Answer>)
    requires Run(cfg, states, actions) && i <= j < |states| && floor <= Now(states[i])
    requires forall t :: i <= t < j ==> L1New(states[t], n, k, floor)
    requires LaterAnswer(states[i], states[j], n, k, g, r)
    ensures New(floor, r) || r == LeftBehind(states[i], n, k, floor)
    ensures r.Some? ==> Genuine(states[j], k, r.value.entry)
  {
    var s, left := states[i], LeftBehind(states[i], n, k, floor);
    RunInv(cfg, states, actions, i);
    RunInv(cfg, states, actions, j);
    RunPlaced(cfg, states, actions, i);
    StartsNew(cfg, s, n, k, floor);
    var holds := (t: System) => AllNewFrom(t, n, k, floor, left, s.procs.Keys);
    forall t | i <= t < j && holds(states[t]) ensures holds(states[t + 1]) {
      AllNewInRun(cfg, states, actions, t, n, k, floor, left, s.procs.Keys);
    }
    KeptFrom(states, holds, i, j);
    assert LaterGetter(states[j], n, k, s.procs.Keys, g);
  }

  // ---------------------------------------------------------------- what is left behind can be read

  lemma Extend(cfg: Config, states: seq<System>, actions: seq<Action>, a: Action)
    returns (states': seq<System>, actions': seq<Action>, s': System)
    requires Run(cfg, states, actions) && Enabled(cfg, states[|actions|], a)
    ensures states' == states + [s'] && actions' == actions + [a]
    ensures Run(cfg, states', actions') && s' == states'[|actions'|] == Next(cfg, states[|actions|], a)
  {
    s' := Next(cfg, states[|actions|], a);
    states', actions' := states + [s'], actions + [a];
  }

  /** A new Get joins the registered flight, if L1 no longer has the key. */
  lemma Joins(cfg: Config, states: seq<System>, actions: seq<Action>, g: ProcId, h: ProcId, n: NodeId, k: Key)
    returns (states': seq<System>, actions': seq<Action>, s': System)
    requires Run(cfg, states, actions)
    requires var s := states[|actions|];
             n in cfg.nodes && g !in s.procs && h !in s.procs && h != g && k in s.nodes(n).flights
    ensures Run(cfg, states', actions') && states <= states' && actions <= actions' && s' == states'[|actions'|]
    ensures var s := states[|actions|];
            && s'.redis == s.redis && s'.past == s.past && s'.nodes(n).flights == s.nodes(n).flights
            && s'.procs == s.procs[g := Getter(n, k, Waiting(s.nodes(n).flights[k]))]
  {
    states', actions', s' := Extend(cfg, states, actions, GetCall(g, n, k));
    states', actions', s' := Extend(cfg, states', actions', Evict(n, k));
    states', actions', s' := Extend(cfg, states', actions', GetLookup(g));
    states', actions', s' := Extend(cfg, states', actions', GetJoin(g, h));
  }

  lemma Answers(cfg: Config, states: seq<System>, actions: seq<Action>, g: ProcId, f: ProcId)
    returns (states': seq<System>, actions': seq<Action>, s': System)
    requires Run(cfg, states, actions)
    requires var s := states[|actions|];
             IsFlight(s, f) && s.procs[f].stage.Resolved? && IsGetter(s, g) && s.procs[g].getStage == Waiting(f)
    ensures Run(cfg, states', actions') && states <= states' && actions <= actions' && s' == states'[|actions'|]
    ensures var s := states[|actions|];
            && s'.redis == s.redis && s'.past == s.past && g in s'.procs
            && s'.procs[g] == Getter(s.procs[g].node, s.procs[g].key, Returned(s.procs[f].stage.result))
  {
    states', actions', s' := Extend(cfg, states, actions, FlightFinish(f));
    states', actions', s' := Extend(cfg, states', actions', GetReturn(g));
  }

  /** The flight that left it behind has it, or gets it when it tries to write it to L1. */
  lemma Resolves(cfg: Config, states: seq<System>, actions: seq<Action>, f: ProcId)
    returns (states': seq<System>, actions': seq<Action>, s': System)
    requires Run(cfg, states, actions)
    requires var s := states[|actions|]; IsFlight(s, f) && (s.procs[f].stage.Fetched? || s.procs[f].stage.Resolved?)
    ensures Run(cfg, states', actions') && states <= states' && actions <= actions' && s' == states'[|actions'|]
    ensures var s := states[|actions|];
            var st := s.procs[f].stage;
            var r := if st.Fetched? then Some(Answer(st.entry, FlightRemote)) else st.result;
            && s'.redis == s.redis && s'.past == s.past
            && s'.procs == s.procs[f := s.procs[f].(stage := Resolved(r))]
  {
    states', actions', s' := states, actions, states[|actions|];
    if s'.procs[f].stage.Fetched? {
      states', actions', s' := Extend(cfg, states', actions', FlightCommit(f, true));
    }
  }

  /** A new Get g can join that flight and return with what was left behind. */
  lemma LeftIsRead(cfg: Config, states: seq<System>, actions: seq<Action>, n: NodeId, k: Key, floor: nat,
                   g: ProcId, h: ProcId)
    returns (states': seq<System>, actions': seq<Action>)
    requires Run(cfg, states, actions) && n in cfg.nodes
    requires var s := states[|actions|]; LeftBehind(s, n, k, floor).Some? && g !in s.procs && h !in s.procs && h != g
    ensures Continues(cfg, states, states', actions') && actions <= actions'
    ensures var s, s' := states[|actions|], states'[|actions'|];
            && s'.redis == s.redis && s'.past == s.past
            && LaterAnswer(s, s', n, k, g, LeftBehind(s, n, k, floor)) && !New(floor, LeftBehind(s, n, k, floor))
  {
    var f := states[|actions|].nodes(n).flights[k];
    var s';
    states', actions', s' := Joins(cfg, states, actions, g, h, n, k);
    states', actions', s' := Resolves(cfg, states', actions', f);
    states', actions', s' := Answers(cfg, states', actions', g, f);
  }
}
