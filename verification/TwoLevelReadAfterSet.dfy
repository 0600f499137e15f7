/** Exactly when a Get may read what a Set replaced: the condition is about the state that Set leaves behind. */
module TwoLevelReadAfterSet {
  import opened Wrappers
  import opened Fresh
  import opened TwoLevelProtocol
  import opened TwoLevelCoherence
  import opened TwoLevelReads
  import opened TwoLevelLaterReads

  /** The Set m has returned, and has taken effect in Redis. */
  ghost predicate SetReturned(s: System, m: ProcId) {
    IsMutator(s, m) && Done(s.procs[m]) && s.procs[m].kind.SetOf? && s.procs[m].wrote.Some?
  }

  /** The registered flight of the key has already answered, from L1, with what m replaced. */
  ghost predicate LeavesOldFlight(s: System, m: Proc)
    requires m.Mutator? && m.wrote.Some?
  {
    && m.key in s.nodes(m.node).flights
    && IsFlight(s, s.nodes(m.node).flights[m.key])
    && var st := s.procs[s.nodes(m.node).flights[m.key]].stage;
       st.Resolved? && st.result.Some? && st.result.value.via.FlightLocal? && !New(m.wrote.value, st.result)
  }

  ghost function OldAnswer(s: System, m: Proc): Option<Answer>
    requires m.Mutator? && m.wrote.Some?
  {
    if LeavesOldFlight(s, m) then s.procs[s.nodes(m.node).flights[m.key]].stage.result else None
  }

  /** A Set leaves nothing else behind: what was fetched from Redis in time to be registered is new. */
  lemma SetLeaves(cfg: Config, s: System, m: ProcId)
    requires Inv(cfg, s) && FlightsAnswer(s) && SetReturned(s, m)
    ensures var p := s.procs[m];
            && p.wrote.value <= Now(s) && p.forgot && p.committed.Some?
            && LeftBehind(s, p.node, p.key, p.wrote.value) == OldAnswer(s, p)
  {
    var p := s.procs[m];
    assert MutatorFloor(cfg, s, m) && Ordered(s, p);
    if p.key in s.nodes(p.node).flights {
      assert IsFlight(s, s.nodes(p.node).flights[p.key]);
      assert FlightAnswers(s.procs[s.nodes(p.node).flights[p.key]].stage);
    }
  }

  lemma SetKeepsL1New(cfg: Config, states: seq<System>, actions: seq<Action>, i: nat, t: nat, m: ProcId)
    requires Run(cfg, states, actions) && i <= t < |states| && SetReturned(states[i], m) && states[i].procs[m].forgot
    ensures var p := states[i].procs[m]; L1New(states[t], p.node, p.key, p.wrote.value)
  {
    LaterGetsInRun(cfg, states, actions, i, t, m);
    RunInv(cfg, states, actions, t);
    assert MutatorFloor(cfg, states[t], m) && Ordered(states[t], states[t].procs[m]);
  }

  /** Read after Set: a Get that starts after Set has returned answers with a miss, with a value that Redis held after
    * the Set wrote, or with the one old answer that the flight registered at that moment already had. */
  lemma ReadAfterSet(cfg: Config, states: seq<System>, actions: seq<Action>, i: nat, j: nat, m: ProcId,
                     g: ProcId, r: Option<Answer>)
    requires Run(cfg, states, actions) && i <= j < |states| && SetReturned(states[i], m)
    requires LaterAnswer(states[i], states[j], states[i].procs[m].node, states[i].procs[m].key, g, r)
    ensures New(states[i].procs[m].wrote.value, r) || r == OldAnswer(states[i], states[i].procs[m])
    ensures r.Some? ==> Genuine(states[j], states[i].procs[m].key, r.value.entry)
  {
    var p := states[i].procs[m];
    RunInv(cfg, states, actions, i);
    RunFlightsAnswer(cfg, states, actions, i);
    SetLeaves(cfg, states[i], m);
    forall t | i <= t < j ensures L1New(states[t], p.node, p.key, p.wrote.value) {
      SetKeepsL1New(cfg, states, actions, i, t, m);
    }
    LaterReads(cfg, states, actions, i, j, p.node, p.key, p.wrote.value, g, r);
  }

  lemma OldFlightIsJoined(cfg: Config, states: seq<System>, actions: seq<Action>, m: ProcId, g: ProcId, h: ProcId)
    returns (states': seq<System>, actions': seq<Action>, r: Option<Answer>)
    requires Run(cfg, states, actions) && SetReturned(states[|actions|], m)
    requires LeavesOldFlight(states[|actions|], states[|actions|].procs[m])
    requires g !in states[|actions|].procs && h !in states[|actions|].procs && h != g
    ensures Continues(cfg, states, states', actions') && actions <= actions'
    ensures var s, s' := states[|actions|], states'[|actions'|];
            var p := s.procs[m];
            && s'.redis == s.redis && s'.past == s.past && r == OldAnswer(s, p)
            && LaterAnswer(s, s', p.node, p.key, g, r) && !New(p.wrote.value, r)
  {
    var s := states[|actions|];
    var p := s.procs[m];
    RunInv(cfg, states, actions, |actions|);
    RunFlightsAnswer(cfg, states, actions, |actions|);
    RunPlaced(cfg, states, actions, |actions|);
    SetLeaves(cfg, s, m);
    r := OldAnswer(s, p);
    states', actions' := LeftIsRead(cfg, states, actions, p.node, p.key, p.wrote.value, g, h);
  }

  /** Read after Set, exactly: in every continuation every Get that starts later on the node and the key of a returned
    * Set answers with a miss or with a value Redis held after the Set wrote, if and only if the flight registered at
    * that moment has not already answered from L1 with an older one. */
  lemma ReadAfterSetExactly(cfg: Config, states: seq<System>, actions: seq<Action>, m: ProcId)
    requires Run(cfg, states, actions) && SetReturned(states[|actions|], m)
    ensures
      var s := states[|actions|];
      var p := s.procs[m];
      (forall states', actions', g, r ::
         Continues(cfg, states, states', actions') && LaterAnswer(s, states'[|actions'|], p.node, p.key, g, r) ==>
           New(p.wrote.value, r))
      <==> !LeavesOldFlight(s, p)
  {
    var s := states[|actions|];
    var p := s.procs[m];
    if LeavesOldFlight(s, p) {
      var g := Above(s.procs.Keys);
      var states', actions', r := OldFlightIsJoined(cfg, states, actions, m, g, g + 1);
      assert Continues(cfg, states, states', actions');
    } else {
      forall states', actions', g, r
        | Continues(cfg, states, states', actions') && LaterAnswer(s, states'[|actions'|], p.node, p.key, g, r)
        ensures New(p.wrote.value, r)
      {
        assert states'[|actions|] == s;
        ReadAfterSet(cfg, states', actions', |actions|, |actions'|, m, g, r);
      }
    }
  }
}
