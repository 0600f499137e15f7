/** What a Get may answer once a mutation of its key has returned. */
module TwoLevelReads {
  import opened Wrappers
  import opened TwoLevelProtocol
  import opened TwoLevelCoherence

  /** r is not older than m: what the Get found in L1 by itself dates from after the commit, what a flight gave it from
    * after the mutation (see EntryAbove for the one exception, a Set and a flight answered from L1). */
  ghost predicate GetAbove(m: Proc, r: Option<Answer>)
    requires m.Mutator?
  {
    && AnswerAbove(m, r)
    && (r.Some? && r.value.via.Outer? && m.committed.Some? ==> r.value.entry.at >= m.committed.value)
  }

  /** The Gets of m's node and key, other than those in earlier, have and will get nothing older than m. */
  ghost predicate LaterGets(s: System, m: Proc, earlier: set<ProcId>)
    requires m.Mutator?
  {
    forall g :: IsGetter(s, g) && g !in earlier && s.procs[g].node == m.node && s.procs[g].key == m.key ==>
      LaterGet(s, m, s.procs[g].getStage)
  }

  ghost predicate LaterGet(s: System, m: Proc, st: GetStage)
    requires m.Mutator?
  {
    match st
    case Waiting(f) => IsFlight(s, f) && StageAbove(m, s.procs[f].stage)
    case Returned(r) => GetAbove(m, r)
    case _ => true
  }

  /** A Get that was waiting for a flight goes on waiting for one that carries nothing older than m. */
  lemma WaitingKept(cfg: Config, s: System, s': System, m: ProcId, f: ProcId)
    requires Transition(cfg, s, s') && Bookkeeping(cfg, s)
    requires IsMutator(s, m) && IsMutator(s', m) && s'.procs[m] == s.procs[m] && s.procs[m].forgot
        && MutatorFloor(cfg, s, m)
    requires IsFlight(s, f) && s.procs[f].node == s.procs[m].node && s.procs[f].key == s.procs[m].key
    requires StageAbove(s.procs[m], s.procs[f].stage)
    ensures IsFlight(s', f) && StageAbove(s.procs[m], s'.procs[f].stage)
  {
    assert Moves(cfg, s, s', s.procs[f], s'.procs[f]) && Moves(cfg, s, s', s.procs[m], s.procs[m]);
    StageAboveKept(cfg, s, s', s.procs[m], s.procs[m], s.procs[f], s'.procs[f]);
  }

  /** What a Get returns comes from L1 or from the flight it waited for. */
  lemma ReturnedAbove(cfg: Config, s: System, s': System, m: Proc, p: Proc, p': Proc)
    requires m.Mutator? && p.Getter? && GetterMoves(s, s', p, p') && p'.getStage.Returned?
    requires p.node == m.node && p.key == m.key && Ordered(s, m) && m.committed.Some?
    requires m.key in s.nodes(m.node).l1 ==> s.nodes(m.node).l1[m.key].at >= m.committed.value
    requires LaterGet(s, m, p.getStage)
    requires p.getStage.Waiting? && IsFlight(s, p.getStage.flight) ==> FlightAnswers(s.procs[p.getStage.flight].stage)
    ensures GetAbove(m, p'.getStage.answer)
  {
  }

  ghost predicate FlightAnswers(st: FlightStage) {
    && (st.Resolved? && st.result.Some? ==> !st.result.value.via.Outer?)
    && (st.Finished? && st.outcome.Some? ==> !st.outcome.value.via.Outer?)
  }

  ghost predicate FlightsAnswer(s: System) {
    forall f :: f in s.procs && s.procs[f].Flight? ==> FlightAnswers(s.procs[f].stage)
  }

  lemma FlightsAnswerKept(cfg: Config, s: System, s': System)
    requires Transition(cfg, s, s') && FlightsAnswer(s)
    ensures FlightsAnswer(s')
  {
    forall f | f in s'.procs && s'.procs[f].Flight? ensures FlightAnswers(s'.procs[f].stage) {
      assert f in s.procs ==> Moves(cfg, s, s', s.procs[f], s'.procs[f]);
    }
  }

  lemma FlightsAnswerStep(cfg: Config, s: System, a: Action)
    requires Enabled(cfg, s, a) && Bookkeeping(cfg, s) && FlightsAnswer(s)
    ensures FlightsAnswer(Next(cfg, s, a))
  {
    StepIsTransition(cfg, s, a);
    FlightsAnswerKept(cfg, s, Next(cfg, s, a));
  }

  lemma FlightsAnswerInRun(cfg: Config, states: seq<System>, actions: seq<Action>, i: nat)
    requires Run(cfg, states, actions) && i + 1 < |states| && FlightsAnswer(states[i])
    ensures FlightsAnswer(states[i + 1])
  {
    RunInv(cfg, states, actions, i);
    FlightsAnswerStep(cfg, states[i], actions[i]);
  }

  lemma RunFlightsAnswer(cfg: Config, states: seq<System>, actions: seq<Action>, i: nat)
    requires Run(cfg, states, actions) && i < |states|
    ensures FlightsAnswer(states[i])
  {
    forall k | 0 <= k < i && FlightsAnswer(states[k]) ensures FlightsAnswer(states[k + 1]) {
      FlightsAnswerInRun(cfg, states, actions, k);
    }
    KeptFrom(states, FlightsAnswer, 0, i);
  }

  lemma LaterGetKept(cfg: Config, s: System, s': System, m: ProcId, g: ProcId)
    requires Transition(cfg, s, s') && Bookkeeping(cfg, s) && Bookkeeping(cfg, s')
    requires IsMutator(s, m) && IsMutator(s', m) && s'.procs[m] == s.procs[m]
    requires s.procs[m].forgot && s.procs[m].committed.Some? && MutatorFloor(cfg, s, m) && MutatorFloor(cfg, s', m)
    requires IsGetter(s', g) && s'.procs[g].node == s.procs[m].node && s'.procs[g].key == s.procs[m].key
    requires g in s.procs ==> IsGetter(s, g) && LaterGet(s, s.procs[m], s.procs[g].getStage)
    requires FlightsAnswer(s)
    ensures LaterGet(s', s.procs[m], s'.procs[g].getStage)
  {
    var st' := s'.procs[g].getStage;
    if g in s.procs {
      assert Moves(cfg, s, s', s.procs[g], s'.procs[g]);
      if st'.Waiting? && s.procs[g].getStage == st' {
        WaitingKept(cfg, s, s', m, st'.flight);
      } else if st'.Returned? {
        ReturnedAbove(cfg, s, s', s.procs[m], s.procs[g], s'.procs[g]);
      }
    }
  }

  lemma LaterGetsKept(cfg: Config, s: System, s': System, m: ProcId, earlier: set<ProcId>)
    requires Transition(cfg, s, s') && Inv(cfg, s) && Inv(cfg, s')
    requires IsMutator(s, m) && Done(s.procs[m]) && s.procs[m].forgot
    requires LaterGets(s, s.procs[m], earlier) && earlier <= s.procs.Keys
    requires FlightsAnswer(s)
    ensures IsMutator(s', m) && s'.procs[m] == s.procs[m] && LaterGets(s', s.procs[m], earlier)
        && earlier <= s'.procs.Keys
  {
    assert Moves(cfg, s, s', s.procs[m], s'.procs[m]);
    forall g | IsGetter(s', g) && g !in earlier && s'.procs[g].node == s.procs[m].node
        && s'.procs[g].key == s.procs[m].key
      ensures LaterGet(s', s.procs[m], s'.procs[g].getStage)
    {
      if g in s.procs {
        assert Moves(cfg, s, s', s.procs[g], s'.procs[g]);
      }
      LaterGetKept(cfg, s, s', m, g);
    }
  }

  /** One step of a run, by its shape. */
  lemma StepInRun(cfg: Config, states: seq<System>, actions: seq<Action>, i: nat)
    requires Run(cfg, states, actions) && i + 1 < |states|
    ensures Transition(cfg, states[i], states[i + 1]) && FlightsAnswer(states[i])
    ensures Inv(cfg, states[i]) && Inv(cfg, states[i + 1])
  {
    RunInv(cfg, states, actions, i);
    RunInv(cfg, states, actions, i + 1);
    RunFlightsAnswer(cfg, states, actions, i);
    StepIsTransition(cfg, states[i], actions[i]);
  }

  /** What holds from the return of mutation p on. */
  ghost predicate After(s: System, m: ProcId, p: Proc, earlier: set<ProcId>) {
    IsMutator(s, m) && s.procs[m] == p && LaterGets(s, p, earlier) && earlier <= s.procs.Keys
  }

  lemma AfterKept(cfg: Config, states: seq<System>, actions: seq<Action>, i: nat, m: ProcId, p: Proc,
                  earlier: set<ProcId>)
    requires Run(cfg, states, actions) && i + 1 < |states|
    requires p.Mutator? && Done(p) && p.forgot && After(states[i], m, p, earlier)
    ensures After(states[i + 1], m, p, earlier)
  {
    StepInRun(cfg, states, actions, i);
    LaterGetsKept(cfg, states[i], states[i + 1], m, earlier);
  }

  lemma LaterGetsInRun(cfg: Config, states: seq<System>, actions: seq<Action>, i: nat, j: nat, m: ProcId)
    requires Run(cfg, states, actions) && i <= j < |states|
    requires IsMutator(states[i], m) && Done(states[i].procs[m]) && states[i].procs[m].forgot
    ensures After(states[j], m, states[i].procs[m], states[i].procs.Keys)
  {
    var p, earlier := states[i].procs[m], states[i].procs.Keys;
    var holds := (s: System) => After(s, m, p, earlier);
    forall k | i <= k < j && holds(states[k]) ensures holds(states[k + 1]) {
      AfterKept(cfg, states, actions, k, m, p, earlier);
    }
    KeptFrom(states, holds, i, j);
  }

  /** Read after Delete (and after InvalidateLocal): a Get that starts once the mutation has returned answers with a
    * miss or with a value Redis held at some moment after the mutation took effect, whether it finds the value in L1,
    * joins a flight or leads one. */
  lemma ReadAfterDelete(cfg: Config, states: seq<System>, actions: seq<Action>, i: nat, j: nat, m: ProcId, g: ProcId)
    requires Run(cfg, states, actions) && i <= j < |states|
    requires IsMutator(states[i], m) && Done(states[i].procs[m]) && !states[i].procs[m].kind.SetOf?
    requires g !in states[i].procs && IsGetter(states[j], g) && states[j].procs[g].getStage.Returned?
    requires states[j].procs[g].node == states[i].procs[m].node && states[j].procs[g].key == states[i].procs[m].key
    requires states[j].procs[g].getStage.answer.Some?
    ensures
      var e := states[j].procs[g].getStage.answer.value.entry;
      && Genuine(states[j], states[j].procs[g].key, e)
      && states[i].procs[m].committed.Some? && e.at >= states[i].procs[m].committed.value
      && (states[i].procs[m].wrote.Some? ==> e.at >= states[i].procs[m].wrote.value)
  {
    RunInv(cfg, states, actions, i);
    RunInv(cfg, states, actions, j);
    LaterGetsInRun(cfg, states, actions, i, j, m);
    assert LaterGet(states[j], states[i].procs[m], states[j].procs[g].getStage);
  }
}
