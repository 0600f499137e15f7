/** Exactly when a Get may read what a pattern deletion removed. DeletePattern releases no flight, so a Get that starts
  * after it has returned can still join one that fetched the key before. */
module TwoLevelReadAfterPattern {
  import opened Wrappers
  import opened Fresh
  import opened TwoLevelProtocol
  import opened TwoLevelCoherence
  import opened TwoLevelReads
  import opened TwoLevelLaterReads

  /** The deletion w has been past key k, which it removed from Redis and whose pattern the local matcher accepts. */
  ghost predicate Swept(cfg: Config, s: System, w: ProcId, n: NodeId, k: Key, floor: nat) {
    && IsSweeper(s, w) && s.procs[w].local && s.procs[w].node == n
    && k in s.procs[w].removed && s.procs[w].removed[k] == floor
    && Cleared(s.procs[w], k) && cfg.localMatch(n, s.procs[w].pattern, k)
  }

  /** It has also returned. */
  ghost predicate PatternReturned(cfg: Config, s: System, w: ProcId, n: NodeId, k: Key, floor: nat) {
    Swept(cfg, s, w, n, k, floor) && s.procs[w].sweep.SweepDone?
  }

  lemma SweptKept(cfg: Config, s: System, s': System, w: ProcId, n: NodeId, k: Key, floor: nat)
    requires Transition(cfg, s, s') && Swept(cfg, s, w, n, k, floor)
    ensures Swept(cfg, s', w, n, k, floor)
  {
    assert Moves(cfg, s, s', s.procs[w], s'.procs[w]);
  }

  lemma SweptInRun(cfg: Config, states: seq<System>, actions: seq<Action>, i: nat, w: ProcId, n: NodeId, k: Key,
                   floor: nat)
    requires Run(cfg, states, actions) && i + 1 < |states| && Swept(cfg, states[i], w, n, k, floor)
    ensures Swept(cfg, states[i + 1], w, n, k, floor)
  {
    StepInRun(cfg, states, actions, i);
    SweptKept(cfg, states[i], states[i + 1], w, n, k, floor);
  }

  lemma SweptStays(cfg: Config, states: seq<System>, actions: seq<Action>, i: nat, t: nat, w: ProcId, n: NodeId, k: Key,
                   floor: nat)
    requires Run(cfg, states, actions) && i <= t < |states| && Swept(cfg, states[i], w, n, k, floor)
    ensures Swept(cfg, states[t], w, n, k, floor)
  {
    var holds := (s: System) => Swept(cfg, s, w, n, k, floor);
    forall q | i <= q < t && holds(states[q]) ensures holds(states[q + 1]) {
      SweptInRun(cfg, states, actions, q, w, n, k, floor);
    }
    KeptFrom(states, holds, i, t);
  }

  lemma SweptKeepsL1New(cfg: Config, states: seq<System>, actions: seq<Action>, i: nat, t: nat, w: ProcId, n: NodeId,
                        k: Key, floor: nat)
    requires Run(cfg, states, actions) && i <= t < |states| && Swept(cfg, states[i], w, n, k, floor)
    ensures L1New(states[t], n, k, floor) && floor <= Now(states[t])
  {
    SweptStays(cfg, states, actions, i, t, w, n, k, floor);
    RunInv(cfg, states, actions, t);
    assert SweepFloor(cfg, states[t], w) && OrderedSweep(cfg, states[t], states[t].procs[w]);
  }

  /** A Get that starts after DeletePattern has returned answers with a miss, with a value that Redis held after the
    * removal, or with the one older answer of the flight that was registered at that moment. */
  lemma ReadAfterPattern(cfg: Config, states: seq<System>, actions: seq<Action>, i: nat, j: nat, w: ProcId, n: NodeId,
                         k: Key, floor: nat, g: ProcId, r: Option<Answer>)
    requires Run(cfg, states, actions) && i <= j < |states| && PatternReturned(cfg, states[i], w, n, k, floor)
    requires LaterAnswer(states[i], states[j], n, k, g, r)
    ensures New(floor, r) || r == LeftBehind(states[i], n, k, floor)
    ensures r.Some? ==> Genuine(states[j], k, r.value.entry)
  {
    forall t | i <= t <= j ensures L1New(states[t], n, k, floor) && floor <= Now(states[t]) {
      SweptKeepsL1New(cfg, states, actions, i, t, w, n, k, floor);
    }
    LaterReads(cfg, states, actions, i, j, n, k, floor, g, r);
  }

  /** Exactly: every Get that starts later, in every continuation, answers with a miss or with a value Redis held after
    * the removal, if and only if the flight registered when DeletePattern returned has not fetched or found an older
    * one. */
  lemma ReadAfterPatternExactly(cfg: Config, states: seq<System>, actions: seq<Action>, w: ProcId, n: NodeId, k: Key,
                                floor: nat)
    requires Run(cfg, states, actions) && PatternReturned(cfg, states[|actions|], w, n, k, floor)
    ensures
      var s := states[|actions|];
      (forall states', actions', g, r ::
         Continues(cfg, states, states', actions') && LaterAnswer(s, states'[|actions'|], n, k, g, r) ==> New(floor, r))
      <==> LeftBehind(s, n, k, floor).None?
  {
    var s := states[|actions|];
    if LeftBehind(s, n, k, floor).Some? {
      RunPlaced(cfg, states, actions, |actions|);
      var g := Above(s.procs.Keys);
      var states', actions' := LeftIsRead(cfg, states, actions, n, k, floor, g, g + 1);
      assert Continues(cfg, states, states', actions');
    } else {
      forall states', actions', g, r
        | Continues(cfg, states, states', actions') && LaterAnswer(s, states'[|actions'|], n, k, g, r)
        ensures New(floor, r)
      {
        assert states'[|actions|] == s;
        ReadAfterPattern(cfg, states', actions', |actions|, |actions'|, w, n, k, floor, g, r);
      }
    }
  }
}
