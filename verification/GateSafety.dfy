/** What the gate guarantees in every interleaving. */
module GateSafety {
  import opened Wrappers
  import opened Gate

  // ---------------------------------------------------------------- the invariant

  ghost predicate Alone(s: System, h: Id) {
    h in s.ops && Holding(s.ops[h].pc) && forall o :: o in s.ops && Holding(s.ops[o].pc) ==> o == h
  }

  /** One token: in the channel, or with one operation. */
  ghost predicate OneToken(s: System) {
    || (s.gate == 1 && forall o :: o in s.ops ==> !Holding(s.ops[o].pc))
    || (s.gate == 0 && exists h :: Alone(s, h))
  }

  ghost predicate Untouched(s: System) {
    s.engine && s.state != 2 && s.closeErr == None && ClosedNatively !in s.log
  }

  /** The native Close has run if it is ours to run. */
  ghost predicate Shut(s: System) {
    (s.owned <==> ClosedNatively in s.log) && (!s.owned ==> s.closeErr == None)
  }

  ghost predicate Finished(s: System) {
    !s.engine && s.state == 2 && Shut(s)
  }

  ghost predicate PcFits(s: System, op: Op) {
    match op.pc
    case MarkClosing | Decide => op.kind.CloseOwner?
    case CheckView | CheckState | RecheckState => op.kind.Use?
    case RecheckView => op.kind.Use? && Untouched(s)
    case Inside | Calling => op.kind.Use? && op.kind.view !in s.closedViews && Untouched(s)
    case MarkView => op.kind.CloseView?
    case NativeClose => op.kind.CloseOwner? && s.owned && s.state == 1 && Untouched(s)
    case Clear(err) => op.kind.CloseOwner? && s.engine && s.state == 1 && Shut(s) && err == s.closeErr
    case MarkClosed(err) => op.kind.CloseOwner? && !s.engine && s.state == 1 && Shut(s) && err == s.closeErr
    case Release(outcome) => OutcomeFits(s, op.kind, outcome)
    case Done(outcome) => OutcomeFits(s, op.kind, outcome)
    case _ => true
  }

  ghost predicate OutcomeFits(s: System, kind: Kind, outcome: Outcome) {
    match outcome
    case Closed(err) => kind.CloseOwner? && Finished(s) && err == s.closeErr
    case Success => !kind.CloseOwner? && (kind.CloseView? ==> kind.view in s.closedViews)
    case ErrClosed => kind.Use?
    case ErrCancelled => true
  }

  ghost predicate PcsFit(s: System) {
    forall o :: o in s.ops ==> PcFits(s, s.ops[o])
  }

  ghost predicate Ending(pc: Pc) {
    pc.Clear? || pc.MarkClosed? || (pc.Release? && pc.outcome.Closed?) || (pc.Done? && pc.outcome.Closed?)
  }

  ghost predicate Accountable(s: System, o: Id) {
    o in s.ops && s.ops[o].kind.CloseOwner? && Ending(s.ops[o].pc)
  }

  /** Only a Close that got through has touched the engine. */
  ghost predicate EngineStory(s: System) {
    Untouched(s) || exists o :: Accountable(s, o)
  }

  ghost predicate StateStory(s: System) {
    s.state <= 2 && forall o :: o in s.ops && s.ops[o].kind.CloseOwner? && s.ops[o].pc != MarkClosing ==> s.state >= 1
  }

  /** Nothing follows the native Close, and no call of a view follows its Close. */
  ghost predicate InOrder(first: Event, later: Event) {
    && (first.ClosedNatively? ==> later.ViewWasClosed?)
    && (first.ViewWasClosed? && later.Called? ==> later.view != first.view)
  }

  ghost predicate LogStory(s: System) {
    && (forall i, j :: 0 <= i < j < |s.log| ==> InOrder(s.log[i], s.log[j]))
    && (forall i :: 0 <= i < |s.log| && s.log[i].ViewWasClosed? ==> s.log[i].view in s.closedViews)
  }

  ghost predicate Inv(s: System) {
    OneToken(s) && PcsFit(s) && EngineStory(s) && StateStory(s) && LogStory(s)
  }

  // ---------------------------------------------------------------- one step

  function H(s: System, id: Id): nat {
    if id in s.ops && Holding(s.ops[id].pc) then 1 else 0
  }

  /** A step changes one operation and, unless it holds the token, none of the state that the token protects. */
  ghost predicate Moves(s: System, t: System, id: Id) {
    && (forall o :: o in s.ops ==> o in t.ops && t.ops[o].kind == s.ops[o].kind)
    && (forall o :: o in t.ops && o != id ==> o in s.ops && t.ops[o] == s.ops[o])
    && s.gate + H(s, id) == t.gate + H(t, id)
    && s.owned == t.owned
    && (s.state == t.state || (s.state == 0 && t.state == 1) || H(s, id) == 1)
  }

  /** The protected state stays. */
  ghost predicate Quiet(s: System, t: System) {
    s.engine == t.engine && s.closeErr == t.closeErr && s.log == t.log && s.closedViews == t.closedViews
        && s.owned == t.owned
    && (s.state == t.state || (s.state == 0 && t.state == 1))
  }

  lemma StepMoves(s: System, a: Action)
    requires Enabled(s, a)
    ensures Moves(s, Next(s, a), a.id)
  {
    if a.Step? {
      var op := s.ops[a.id];
      EffectCount(s, a.id, op);
      PutMoves(s, Effect(s, op), a.id, NextPc(s, a.id, op));
    } else {
      ChoiceMoves(s, a);
    }
  }

  lemma ChoiceMoves(s: System, a: Action)
    requires Enabled(s, a) && !a.Step?
    ensures Moves(s, Next(s, a), a.id)
  {
    if a.Start? || a.Cancel? {
      OutsideMoves(s, a);
    } else if a.Take? || a.GiveUp? {
      SelectMoves(s, a);
    }
  }

  lemma OutsideMoves(s: System, a: Action)
    requires Enabled(s, a) && (a.Start? || a.Cancel?)
    ensures Moves(s, Next(s, a), a.id)
  {
  }

  lemma SelectMoves(s: System, a: Action)
    requires Enabled(s, a) && (a.Take? || a.GiveUp?)
    ensures Moves(s, Next(s, a), a.id)
  {
  }

  lemma EffectCount(s: System, id: Id, op: Op)
    requires id in s.ops && s.ops[id] == op && Deterministic(s, op.pc)
    ensures var mid, pc := Effect(s, op), NextPc(s, id, op);
            && mid.ops == s.ops && mid.owned == s.owned
            && s.gate + H(s, id) == mid.gate + (if Holding(pc) then 1 else 0)
            && (s.state == mid.state || (s.state == 0 && mid.state == 1) || H(s, id) == 1)
  {
  }

  /** The token count of a step, from what it does to the gate. */
  lemma PutMoves(s: System, mid: System, id: Id, pc: Pc)
    requires id in s.ops && mid.ops == s.ops && mid.owned == s.owned
    requires s.gate + H(s, id) == mid.gate + (if Holding(pc) then 1 else 0)
    requires s.state == mid.state || (s.state == 0 && mid.state == 1) || H(s, id) == 1
    ensures Moves(s, Put(mid, id, pc), id)
  {
  }

  lemma TokenKept(s: System, t: System, id: Id)
    requires OneToken(s) && Moves(s, t, id)
    ensures OneToken(t)
  {
    if s.gate == 0 {
      var h :| Alone(s, h);
      if H(s, id) == 1 {
        assert h == id;
      } else {
        assert t.ops[h] == s.ops[h];
      }
      if H(t, h) == 1 {
        assert Alone(t, h);
      }
    } else if H(t, id) == 1 {
      assert Alone(t, id);
    }
  }

  lemma OthersWait(s: System, id: Id, o: Id)
    requires OneToken(s) && id in s.ops && Holding(s.ops[id].pc) && o in s.ops && o != id
    ensures !Holding(s.ops[o].pc)
  {
  }

  /** Only these steps touch what the token protects. */
  ghost predicate Loud(s: System, a: Action) {
    a.id in s.ops && (a.Call? || a.CallClose? || (a.Step? && Loudly(s.ops[a.id].pc)))
  }

  predicate Loudly(pc: Pc) {
    pc.MarkView? || pc.Clear? || pc.MarkClosed?
  }

  lemma QuietStep(s: System, a: Action)
    requires Enabled(s, a) && !Loud(s, a)
    ensures Quiet(s, Next(s, a))
  {
  }

  lemma LoudHolds(s: System, a: Action)
    requires Enabled(s, a) && Loud(s, a)
    ensures Holding(s.ops[a.id].pc)
  {
  }

  lemma FitsWhenQuiet(s: System, t: System, op: Op)
    requires Quiet(s, t) && PcFits(s, op)
    ensures PcFits(t, op)
  {
  }

  /** An operation without the token is not disturbed by what the holder does. */
  lemma OtherFits(s: System, a: Action, o: Id)
    requires Inv(s) && Enabled(s, a) && o in s.ops && o != a.id
    ensures PcFits(Next(s, a), s.ops[o])
  {
    if Loud(s, a) {
      LoudHolds(s, a);
      OthersWait(s, a.id, o);
      assert PcFits(s, s.ops[a.id]) && PcFits(s, s.ops[o]);
      LoudKeeps(s, a, s.ops[o]);
    } else {
      QuietStep(s, a);
      FitsWhenQuiet(s, Next(s, a), s.ops[o]);
    }
  }

  lemma LoudKeeps(s: System, a: Action, op: Op)
    requires Enabled(s, a) && Loud(s, a) && PcFits(s, s.ops[a.id])
    requires PcFits(s, op) && !Holding(op.pc)
    ensures PcFits(Next(s, a), op)
  {
  }

  lemma OwnFits(s: System, a: Action)
    requires Inv(s) && Enabled(s, a) && a.id in Next(s, a).ops
    ensures PcFits(Next(s, a), Next(s, a).ops[a.id])
  {
    if a.id in s.ops {
      assert PcFits(s, s.ops[a.id]);
      if a.Step? {
        var op := s.ops[a.id];
        OwnStepFits(s, a.id, op);
        var mid, pc := Effect(s, op), NextPc(s, a.id, op);
        assert Quiet(mid, Put(mid, a.id, pc)) && a.id in mid.ops;
        FitsWhenQuiet(mid, Put(mid, a.id, pc), op.(pc := pc));
      } else {
        OwnChoiceFits(s, a);
      }
    }
  }

  lemma OwnChoiceFits(s: System, a: Action)
    requires Enabled(s, a) && a.id in s.ops && !a.Step? && PcFits(s, s.ops[a.id])
    ensures PcFits(Next(s, a), Next(s, a).ops[a.id])
  {
  }

  lemma OwnStepFits(s: System, id: Id, op: Op)
    requires id in s.ops && s.ops[id] == op && PcFits(s, op) && Deterministic(s, op.pc)
    requires EngineStory(s) && StateStory(s) && OneToken(s) && PcsFit(s)
    ensures PcFits(Effect(s, op), op.(pc := NextPc(s, id, op)))
  {
    if op.pc.RecheckState? || op.pc.Decide? {
      TouchedIsFinished(s, id);
    }
  }

  /** Whoever holds the token without having closed finds the engine untouched or the Owner closed. */
  lemma TouchedIsFinished(s: System, h: Id)
    requires h in s.ops && Holding(s.ops[h].pc) && !Ending(s.ops[h].pc)
    requires EngineStory(s) && OneToken(s) && PcsFit(s)
    ensures Untouched(s) || Finished(s)
  {
    if !Untouched(s) {
      var o :| Accountable(s, o);
      assert PcFits(s, s.ops[o]);
      OthersWait(s, h, o);
    }
  }

  lemma PcsKept(s: System, a: Action)
    requires Inv(s) && Enabled(s, a)
    ensures PcsFit(Next(s, a))
  {
    var t := Next(s, a);
    StepMoves(s, a);
    forall o | o in t.ops ensures PcFits(t, t.ops[o]) {
      if o == a.id {
        OwnFits(s, a);
      } else {
        OtherFits(s, a, o);
      }
    }
  }

  lemma StaysAccountable(s: System, a: Action, o: Id)
    requires Enabled(s, a) && Accountable(s, o)
    ensures Accountable(Next(s, a), o)
  {
    if o == a.id && a.Step? {
      var mid := Effect(s, s.ops[o]);
      assert mid.ops == s.ops;
      assert Ending(NextPc(s, o, s.ops[o]));
    } else if o != a.id {
      StepMoves(s, a);
    }
  }

  lemma LoudAccounts(s: System, a: Action)
    requires Enabled(s, a) && Loud(s, a) && Untouched(s) && PcFits(s, s.ops[a.id])
    ensures Untouched(Next(s, a)) || Accountable(Next(s, a), a.id)
  {
  }

  lemma EngineStoryKept(s: System, a: Action)
    requires Inv(s) && Enabled(s, a)
    ensures EngineStory(Next(s, a))
  {
    if o :| Accountable(s, o) {
      StaysAccountable(s, a, o);
    } else if Loud(s, a) {
      LoudAccounts(s, a);
    } else {
      QuietStep(s, a);
    }
  }

  lemma StateStoryKept(s: System, a: Action)
    requires Inv(s) && Enabled(s, a)
    ensures StateStory(Next(s, a))
  {
    if a.id in s.ops {
      assert PcFits(s, s.ops[a.id]);
    }
  }

  /** What a loud step appends to the log, if anything. */
  lemma LoudAppends(s: System, a: Action)
    requires Enabled(s, a) && Loud(s, a)
    ensures var t := Next(s, a);
            && s.closedViews <= t.closedViews
            && (t.log == s.log || (|t.log| == |s.log| + 1 && t.log[..|s.log|] == s.log))
  {
  }

  lemma LoudEvent(s: System, a: Action)
    requires Enabled(s, a) && Loud(s, a) && PcFits(s, s.ops[a.id]) && |Next(s, a).log| > |s.log|
    ensures var e, t := Next(s, a).log[|s.log|], Next(s, a);
            && (e.Called? ==> ClosedNatively !in s.log && e.view !in s.closedViews)
            && (e.ClosedNatively? ==> ClosedNatively !in s.log)
            && (e.ViewWasClosed? ==> e.view in t.closedViews)
  {
  }

  lemma LogStoryKept(s: System, a: Action)
    requires Inv(s) && Enabled(s, a)
    ensures LogStory(Next(s, a))
  {
    var t := Next(s, a);
    if Loud(s, a) {
      assert PcFits(s, s.ops[a.id]);
      LoudAppends(s, a);
      if t.log != s.log {
        LoudEvent(s, a);
      }
      LogGrows(s, t);
    } else {
      QuietStep(s, a);
    }
  }

  lemma LogGrows(s: System, t: System)
    requires LogStory(s) && s.closedViews <= t.closedViews
    requires t.log == s.log || (|t.log| == |s.log| + 1 && t.log[..|s.log|] == s.log)
    requires t.log != s.log ==>
               var e := t.log[|s.log|];
               && (e.Called? ==> ClosedNatively !in s.log && e.view !in s.closedViews)
               && (e.ClosedNatively? ==> ClosedNatively !in s.log)
               && (e.ViewWasClosed? ==> e.view in t.closedViews)
    ensures LogStory(t)
  {
    var n := |s.log|;
    forall i, j | 0 <= i < j < |t.log| ensures InOrder(t.log[i], t.log[j]) {
      assert t.log[i] == s.log[i] && s.log[i] in s.log;
      if j < n {
        assert t.log[j] == s.log[j];
      }
    }
    forall i | 0 <= i < |t.log| && t.log[i].ViewWasClosed? ensures t.log[i].view in t.closedViews {
      assert i < n ==> t.log[i] == s.log[i];
    }
  }

  lemma InvKept(s: System, a: Action)
    requires Inv(s) && Enabled(s, a)
    ensures Inv(Next(s, a))
  {
    StepMoves(s, a);
    TokenKept(s, Next(s, a), a.id);
    PcsKept(s, a);
    EngineStoryKept(s, a);
    StateStoryKept(s, a);
    LogStoryKept(s, a);
  }

  lemma {:induction false} RunInv(states: seq<System>, actions: seq<Action>, owned: bool)
    requires Run(states, actions, owned)
    ensures forall i :: 0 <= i < |states| ==> Inv(states[i]) && states[i].owned == owned
  {
    var n := |actions|;
    if n > 0 {
      RunInv(states[..n], actions[..n - 1], owned);
      var s, a := states[n - 1], actions[n - 1];
      assert Inv(states[..n][n - 1]);
      assert Enabled(s, a) && states[n] == Next(s, a);
      InvKept(s, a);
      StepMoves(s, a);
      forall i | 0 <= i < |states| ensures Inv(states[i]) && states[i].owned == owned {
        assert i < n ==> states[i] == states[..n][i];
      }
    }
  }

  // ---------------------------------------------------------------- the guarantees

  predicate InTheEngine(pc: Pc) {
    pc.Calling? || pc.NativeClose? || pc.Clear?
  }

  ghost predicate EngineUser(s: System, o: Id) {
    o in s.ops && InTheEngine(s.ops[o].pc)
  }

  /** At most one operation is in the engine, and giving the token back never blocks. */
  lemma Exclusive(states: seq<System>, actions: seq<Action>, owned: bool, i: nat)
    requires Run(states, actions, owned) && i < |states|
    ensures forall o, p :: EngineUser(states[i], o) && EngineUser(states[i], p) ==> o == p
    ensures forall o :: o in states[i].ops && states[i].ops[o].pc.Release? ==> Enabled(states[i], Step(o))
  {
    RunInv(states, actions, owned);
  }

  /** The native Close runs at most once, only on an owned engine, and nothing is called after it; an operation that may
    * call finds the engine in place. */
  lemma NothingFollowsTheClose(states: seq<System>, actions: seq<Action>, owned: bool, i: nat)
    requires Run(states, actions, owned) && i < |states|
    ensures var s := states[i];
            && (forall j, k :: 0 <= j < k < |s.log| && s.log[j].ClosedNatively? ==> s.log[k].ViewWasClosed?)
            && (ClosedNatively in s.log ==> owned)
            && (forall o :: o in s.ops && (s.ops[o].pc.Inside? || s.ops[o].pc.Calling? || s.ops[o].pc.NativeClose?) ==>
                  s.engine && ClosedNatively !in s.log)
  {
    RunInv(states, actions, owned);
    var s := states[i];
    assert Inv(s) && s.owned == owned;
    forall j, k | 0 <= j < k < |s.log| && s.log[j].ClosedNatively? ensures s.log[k].ViewWasClosed? {
      assert InOrder(s.log[j], s.log[k]);
    }
    forall o | o in s.ops ensures PcFits(s, s.ops[o]) {
    }
    if ClosedNatively in s.log {
      var o :| Accountable(s, o);
      assert PcFits(s, s.ops[o]);
    }
  }

  /** After Store.Close has returned, no operation of that view reaches the engine. */
  lemma ClosedViewIsSilent(states: seq<System>, actions: seq<Action>, owned: bool, i: nat, o: Id)
    requires Run(states, actions, owned) && i < |states|
    requires o in states[i].ops && states[i].ops[o].kind.CloseView? && states[i].ops[o].pc == Done(Success)
    ensures states[i].ops[o].kind.view in states[i].closedViews
    ensures forall p :: p in states[i].ops && states[i].ops[p].kind == Use(states[i].ops[o].kind.view) ==>
                          !states[i].ops[p].pc.Inside? && !states[i].ops[p].pc.Calling?
  {
    RunInv(states, actions, owned);
    var s := states[i];
    assert PcFits(s, s.ops[o]);
    forall p | p in s.ops ensures PcFits(s, s.ops[p]) {
    }
  }

  /** Every Close that got through returns the same result, with the Owner closed. */
  lemma ClosesAgree(states: seq<System>, actions: seq<Action>, owned: bool, i: nat, o: Id, p: Id)
    requires Run(states, actions, owned) && i < |states|
    requires o in states[i].ops && states[i].ops[o].pc.Done? && states[i].ops[o].pc.outcome.Closed?
    requires p in states[i].ops && states[i].ops[p].pc.Done? && states[i].ops[p].pc.outcome.Closed?
    ensures states[i].ops[o].pc == states[i].ops[p].pc
    ensures Finished(states[i])
  {
    RunInv(states, actions, owned);
    assert PcFits(states[i], states[i].ops[o]) && PcFits(states[i], states[i].ops[p]);
  }

  /** While every Close has been cancelled or has not got through, the engine is as it was. */
  lemma CancelledCloseLeavesTheEngine(states: seq<System>, actions: seq<Action>, owned: bool, i: nat)
    requires Run(states, actions, owned) && i < |states|
    requires forall o :: o in states[i].ops && states[i].ops[o].kind.CloseOwner? ==> !Ending(states[i].ops[o].pc)
    ensures Untouched(states[i])
  {
    RunInv(states, actions, owned);
    assert Inv(states[i]);
  }

  lemma StateGrows(s: System, a: Action)
    requires Inv(s) && Enabled(s, a)
    ensures s.state <= Next(s, a).state <= s.state + 1
  {
    if a.id in s.ops {
      assert PcFits(s, s.ops[a.id]);
    }
  }

  /** Has passed every check on the state. */
  predicate Admitted(pc: Pc) {
    pc.RecheckView? || pc.Inside? || pc.Calling?
  }

  ghost predicate AdmittedIn(s: System, o: Id) {
    o in s.ops && Admitted(s.ops[o].pc)
  }

  lemma NotAdmittedStep(s: System, a: Action, o: Id)
    requires Inv(s) && Enabled(s, a) && s.state != 0 && !AdmittedIn(s, o)
    ensures Next(s, a).state != 0 && !AdmittedIn(Next(s, a), o)
  {
    StateGrows(s, a);
    if o == a.id && o in s.ops && a.Step? {
      assert PcFits(s, s.ops[o]);
      assert Effect(s, s.ops[o]).ops == s.ops;
      assert !Admitted(NextPc(s, o, s.ops[o]));
    } else if o != a.id {
      StepMoves(s, a);
    } else if o in s.ops {
      assert PcFits(s, s.ops[o]);
    }
  }

  lemma AdmissionStep(s: System, a: Action, o: Id)
    requires Inv(s) && Enabled(s, a)
    ensures s.state <= Next(s, a).state <= 2
    ensures s.state != 0 && !AdmittedIn(s, o) ==> !AdmittedIn(Next(s, a), o)
  {
    StateGrows(s, a);
    StateStoryKept(s, a);
    if s.state != 0 && !AdmittedIn(s, o) {
      NotAdmittedStep(s, a, o);
    }
  }

  lemma AdmissionInRun(states: seq<System>, actions: seq<Action>, owned: bool, i: nat, o: Id)
    requires Run(states, actions, owned) && i + 1 < |states|
    ensures states[i].state <= states[i + 1].state <= 2
    ensures states[i].state != 0 && !AdmittedIn(states[i], o) ==> !AdmittedIn(states[i + 1], o)
  {
    RunInv(states, actions, owned);
    assert Enabled(states[i], actions[i]) && states[i + 1] == Next(states[i], actions[i]);
    AdmissionStep(states[i], actions[i], o);
  }

  /** From s to t the state has not fallen, and o has not been admitted if it was to be refused. */
  ghost predicate Barred(s: System, t: System, o: Id) {
    s.state <= t.state && (s.state != 0 && !AdmittedIn(s, o) ==> !AdmittedIn(t, o))
  }

  /** The state only goes from active to closing to closed, and from the moment a Close has begun no operation gets
    * past acquire that had not got past it before. */
  lemma ClosingAdmitsNobody(states: seq<System>, actions: seq<Action>, owned: bool, i: nat, j: nat, o: Id)
    requires Run(states, actions, owned) && i <= j < |states|
    ensures states[i].state <= states[j].state <= 2
    ensures states[i].state != 0 && !AdmittedIn(states[i], o) ==> !AdmittedIn(states[j], o)
  {
    forall k | i <= k < j ensures Barred(states[k], states[k + 1], o) {
      AdmissionInRun(states, actions, owned, k, o);
    }
    BarredThroughout(states, i, j, o);
    RunInv(states, actions, owned);
  }

  lemma {:induction false} BarredThroughout(states: seq<System>, i: nat, j: nat, o: Id)
    requires i <= j < |states| && forall k :: i <= k < j ==> Barred(states[k], states[k + 1], o)
    ensures Barred(states[i], states[j], o)
    decreases j - i
  {
    if i < j {
      BarredThroughout(states, i, j - 1, o);
    }
  }

  ghost predicate CanMove(s: System, o: Id) {
    || Enabled(s, Step(o)) || Enabled(s, Call(o)) || Enabled(s, CallClose(o, None))
    || Enabled(s, Take(o)) || Enabled(s, GiveUp(o))
  }

  /** No deadlock: an operation that cannot move waits for the token, and the one that has it can move. */
  lemma NeverStuck(states: seq<System>, actions: seq<Action>, owned: bool, i: nat, o: Id)
    requires Run(states, actions, owned) && i < |states|
    requires o in states[i].ops && !states[i].ops[o].pc.Done?
    ensures CanMove(states[i], o)
            || exists h :: h in states[i].ops && Holding(states[i].ops[h].pc) && CanMove(states[i], h)
  {
    RunInv(states, actions, owned);
    var s := states[i];
    if s.gate == 0 {
      var h :| Alone(s, h);
      assert CanMove(s, h);
    } else {
      assert CanMove(s, o);
    }
  }

  // ---------------------------------------------------------------- a later Close finishes

  /** The state after some steps, and whether each of them could be taken. */
  function Play(s: System, script: seq<Action>): System
    decreases |script|
  {
    if script == [] then s else Play(Next(s, script[0]), script[1..])
  }

  ghost predicate Playable(s: System, script: seq<Action>)
    decreases |script|
  {
    script != [] ==> Enabled(s, script[0]) && Playable(Next(s, script[0]), script[1..])
  }

  /** Playable scripts are pieces of runs. */
  lemma {:induction false} PlayIsSteps(s: System, script: seq<Action>) returns (states: seq<System>)
    requires Playable(s, script)
    ensures Steps(states, script) && states[0] == s && states[|script|] == Play(s, script)
    decreases |script|
  {
    if script == [] {
      states := [s];
    } else {
      var rest := PlayIsSteps(Next(s, script[0]), script[1..]);
      states := [s] + rest;
      forall i | 0 <= i < |script| ensures Enabled(states[i], script[i])
          && states[i + 1] == Next(states[i], script[i]) {
        if i > 0 {
          assert states[i] == rest[i - 1] && script[i] == script[1..][i - 1];
          assert Enabled(rest[i - 1], script[1..][i - 1]) && rest[i] == Next(rest[i - 1], script[1..][i - 1]);
        }
      }
    }
  }

  lemma First(s: System, a: Action, rest: seq<Action>)
    requires Enabled(s, a) && Playable(Next(s, a), rest)
    ensures Playable(s, [a] + rest) && Play(s, [a] + rest) == Play(Next(s, a), rest)
  {
    assert ([a] + rest)[1..] == rest;
  }

  /** The shared state is that of base, and the operation stands at pc. */
  function With(base: System, id: Id, kind: Kind, pc: Pc): System {
    base.(ops := base.ops[id := Op(kind, pc)])
  }

  lemma WithStep(base: System, id: Id, kind: Kind, pc: Pc)
    requires Deterministic(base, pc)
    ensures var op := Op(kind, pc);
            Enabled(With(base, id, kind, pc), Step(id))
            && Next(With(base, id, kind, pc), Step(id)) == With(Effect(base, op), id, kind, NextPc(base, id, op))
  {
    var s := With(base, id, kind, pc);
    var op := Op(kind, pc);
    assert s.ops[id] == op;
    assert Effect(s, op).ops == s.ops && NextPc(s, id, op) == NextPc(base, id, op);
    assert Effect(s, op) == With(Effect(base, op), id, kind, pc);
    OverwriteSame(Effect(base, op), id, kind, pc, NextPc(base, id, op));
  }

  lemma OverwriteSame(base: System, id: Id, kind: Kind, pc: Pc, next: Pc)
    ensures Put(With(base, id, kind, pc), id, next) == With(base, id, kind, next)
  {
  }

  /** The last steps of a Close whose result is err. */
  lemma Finish(base: System, id: Id, err: Option<nat>)
    requires base.gate == 0
    ensures var script := [Step(id), Step(id), Step(id)];
            Playable(With(base, id, CloseOwner, Clear(err)), script)
            && Play(With(base, id, CloseOwner, Clear(err)), script)
               == With(base.(engine := false, state := 2, gate := 1), id, CloseOwner, Done(Closed(err)))
  {
    var b1 := base.(engine := false);
    var b2 := b1.(state := 2);
    WithStep(base, id, CloseOwner, Clear(err));
    WithStep(b1, id, CloseOwner, MarkClosed(err));
    WithStep(b2, id, CloseOwner, Release(Closed(err)));
    First(With(b2, id, CloseOwner, Release(Closed(err))), Step(id), []);
    First(With(b1, id, CloseOwner, MarkClosed(err)), Step(id), [Step(id)]);
    First(With(base, id, CloseOwner, Clear(err)), Step(id), [Step(id), Step(id)]);
    assert [Step(id)] + [Step(id), Step(id)] == [Step(id), Step(id), Step(id)];
  }

  /** From the decision on. */
  lemma FinishFromDecision(base: System, id: Id, result: Option<nat>) returns (script: seq<Action>, end: System)
    requires base.gate == 0 && base.state <= 2 && (base.state == 2 ==> Finished(base))
        && (base.state != 2 ==> Untouched(base))
    ensures Playable(With(base, id, CloseOwner, Decide), script)
    ensures Play(With(base, id, CloseOwner, Decide), script) == end
    ensures Finished(end) && id in end.ops && end.ops[id] == Op(CloseOwner, Done(Closed(end.closeErr)))
    ensures end.closeErr == if base.state == 2 || !base.owned then base.closeErr else result
  {
    WithStep(base, id, CloseOwner, Decide);
    if base.state == 2 {
      var pc := Release(Closed(base.closeErr));
      WithStep(base, id, CloseOwner, pc);
      First(With(base, id, CloseOwner, pc), Step(id), []);
      script := [Step(id)] + ([Step(id)] + []);
      end := With(base.(gate := 1), id, CloseOwner, Done(Closed(base.closeErr)));
    } else if !base.owned {
      Finish(base, id, base.closeErr);
      script := [Step(id)] + [Step(id), Step(id), Step(id)];
      end := With(base.(engine := false, state := 2, gate := 1), id, CloseOwner, Done(Closed(base.closeErr)));
    } else {
      var after := base.(closeErr := result, log := base.log + [ClosedNatively]);
      NativeStep(base, id, result);
      Finish(after, id, result);
      First(With(base, id, CloseOwner, NativeClose), CallClose(id, result), [Step(id), Step(id), Step(id)]);
      script := [Step(id)] + ([CallClose(id, result)] + [Step(id), Step(id), Step(id)]);
      end := With(after.(engine := false, state := 2, gate := 1), id, CloseOwner, Done(Closed(result)));
      assert ClosedNatively in end.log;
    }
    First(With(base, id, CloseOwner, Decide), Step(id), script[1..]);
  }

  lemma NativeStep(base: System, id: Id, result: Option<nat>)
    ensures var a := CallClose(id, result);
            Enabled(With(base, id, CloseOwner, NativeClose), a)
            && Next(With(base, id, CloseOwner, NativeClose), a)
               == With(base.(closeErr := result, log := base.log + [ClosedNatively]), id, CloseOwner, Clear(result))
  {
    OverwriteSame(base, id, CloseOwner, NativeClose, Clear(result));
  }

  lemma FreeTokenMeansRest(s: System)
    requires Inv(s) && s.gate == 1
    ensures s.state == 2 ==> Finished(s)
    ensures s.state != 2 ==> Untouched(s)
  {
    if o :| Accountable(s, o) {
      assert PcFits(s, s.ops[o]);
    }
  }

  /** From the context check to the decision. */
  lemma UpToDecision(base: System, id: Id, rest: seq<Action>)
    requires base.gate == 1 && id !in base.cancelled
    requires Playable(With(base.(gate := 0), id, CloseOwner, Decide), rest)
    ensures var script := [Step(id)] + ([Take(id)] + ([Step(id)] + rest));
            && Playable(With(base, id, CloseOwner, CheckContext), script)
            && Play(With(base, id, CloseOwner, CheckContext), script)
               == Play(With(base.(gate := 0), id, CloseOwner, Decide), rest)
  {
    var taken := base.(gate := 0);
    WithStep(base, id, CloseOwner, CheckContext);
    WithStep(taken, id, CloseOwner, GotToken);
    OverwriteSame(base, id, CloseOwner, Waiting, GotToken);
    assert Next(With(base, id, CloseOwner, Waiting), Take(id)) == With(taken, id, CloseOwner, GotToken);
    First(With(taken, id, CloseOwner, GotToken), Step(id), rest);
    First(With(base, id, CloseOwner, Waiting), Take(id), [Step(id)] + rest);
    First(With(base, id, CloseOwner, CheckContext), Step(id), [Take(id)] + ([Step(id)] + rest));
  }

  lemma {:induction false} Append(s: System, a: seq<Action>, b: seq<Action>)
    requires Playable(s, a) && Playable(Play(s, a), b)
    ensures Playable(s, a + b) && Play(s, a + b) == Play(Play(s, a), b)
    decreases |a|
  {
    if a == [] {
      assert a + b == b;
    } else {
      Append(Next(s, a[0]), a[1..], b);
      First(s, a[0], a[1..] + b);
      assert [a[0]] + (a[1..] + b) == a + b;
    }
  }

  // ---------------------------------------------------------------- the holder of the token can always leave

  /** How far an operation with the token is from giving it back. */
  function ToGo(pc: Pc): nat {
    match pc
    case GotToken => 6
    case RecheckState => 5
    case Decide => 5
    case RecheckView => 4
    case NativeClose => 4
    case Calling => 3
    case Clear(_) => 3
    case Inside => 2
    case MarkView => 2
    case MarkClosed(_) => 2
    case Release(_) => 1
    case _ => 0
  }

  /** What it does next, with result for what the native Close returns. */
  function LeavingAction(pc: Pc, h: Id, result: Option<nat>): Action {
    match pc
    case Inside => Leave(h)
    case NativeClose => CallClose(h, result)
    case _ => Step(h)
  }

  /** From s to t the native Close has run with result, or not at all. */
  ghost predicate ClosedWith(s: System, t: System, result: Option<nat>) {
    && s.owned == t.owned && s.cancelled == t.cancelled && s.ops.Keys == t.ops.Keys
    && (if !s.owned || ClosedNatively in s.log then t.closeErr == s.closeErr
        else ClosedNatively in t.log ==> t.closeErr == result)
    && (ClosedNatively in s.log ==> ClosedNatively in t.log)
  }

  lemma LeavingIsEnabled(s: System, h: Id, result: Option<nat>)
    requires Inv(s) && Alone(s, h)
    ensures s.gate == 0 && Enabled(s, LeavingAction(s.ops[h].pc, h, result))
  {
  }

  lemma LeavingStep(s: System, h: Id, result: Option<nat>)
    requires h in s.ops && Holding(s.ops[h].pc) && s.gate == 0 && PcFits(s, s.ops[h])
    requires Enabled(s, LeavingAction(s.ops[h].pc, h, result))
    ensures var t := Next(s, LeavingAction(s.ops[h].pc, h, result));
            && ClosedWith(s, t, result) && h in t.ops && ToGo(t.ops[h].pc) < ToGo(s.ops[h].pc)
            && (t.gate == 0 ==> Holding(t.ops[h].pc))
  {
    var op := s.ops[h];
    if LeavingAction(op.pc, h, result) == Step(h) {
      LeavingByStep(s, h);
    }
  }

  lemma LeavingByStep(s: System, h: Id)
    requires h in s.ops && Holding(s.ops[h].pc) && s.gate == 0 && Deterministic(s, s.ops[h].pc)
    ensures var op := s.ops[h];
            var mid, pc := Effect(s, op), NextPc(s, h, op);
            && ToGo(pc) < ToGo(op.pc) && (mid.gate == 0 ==> Holding(pc)) && mid.ops == s.ops
            && mid.owned == s.owned && mid.cancelled == s.cancelled && mid.closeErr == s.closeErr
            && (ClosedNatively in mid.log <==> ClosedNatively in s.log)
  {
  }

  lemma HolderLeaves(s: System, h: Id, result: Option<nat>) returns (script: seq<Action>, end: System)
    requires Inv(s) && Alone(s, h)
    ensures Playable(s, script) && Play(s, script) == end && Inv(end) && end.gate == 1 && ClosedWith(s, end, result)
    decreases ToGo(s.ops[h].pc)
  {
    var a := LeavingAction(s.ops[h].pc, h, result);
    LeavingIsEnabled(s, h, result);
    LeavingStep(s, h, result);
    InvKept(s, a);
    var t := Next(s, a);
    if t.gate == 0 {
      var rest;
      rest, end := HolderLeaves(t, h, result);
      First(s, a, rest);
      script := [a] + rest;
    } else {
      First(s, a, []);
      script, end := [a] + [], t;
    }
  }

  /** With the token free, a new Close that is not cancelled closes the Owner. */
  lemma CloseFromRest(s: System, id: Id, result: Option<nat>) returns (script: seq<Action>, end: System)
    requires Inv(s) && s.gate == 1 && id !in s.ops && id !in s.cancelled
    ensures Playable(s, script) && Play(s, script) == end
    ensures Finished(end) && id in end.ops && end.ops[id] == Op(CloseOwner, Done(Closed(end.closeErr)))
    ensures end.closeErr == if s.state == 2 || !s.owned then s.closeErr else result
  {
    FreeTokenMeansRest(s);
    var marked := if s.state == 0 then s.(state := 1) else s;
    var rest;
    rest, end := FinishFromDecision(marked.(gate := 0), id, result);
    UpToDecision(marked, id, rest);
    script := [Step(id)] + ([Take(id)] + ([Step(id)] + rest));
    WithStep(s, id, CloseOwner, MarkClosing);
    First(With(s, id, CloseOwner, MarkClosing), Step(id), script);
    script := [Step(id)] + script;
    First(s, Start(id, CloseOwner), script);
    script := [Start(id, CloseOwner)] + script;
  }

  /** Whatever has happened, and however many Closes have been cancelled: in every reachable state a new Close that is
    * not cancelled can close the Owner, once the operation that has the token has left. It returns the result of the
    * native Close, if there is one: the one that it had already, or that of the call now. */
  lemma LaterCloseFinishes(s: System, id: Id, result: Option<nat>) returns (script: seq<Action>, end: System)
    requires Inv(s) && id !in s.ops && id !in s.cancelled
    ensures Playable(s, script) && Play(s, script) == end
    ensures Finished(end) && id in end.ops && end.ops[id] == Op(CloseOwner, Done(Closed(end.closeErr)))
    ensures end.closeErr == if !s.owned || ClosedNatively in s.log then s.closeErr else result
  {
    var free := s;
    script := [];
    if s.gate == 0 {
      var h :| Alone(s, h);
      script, free := HolderLeaves(s, h, result);
    }
    FreeTokenMeansRest(free);
    var closing;
    closing, end := CloseFromRest(free, id, result);
    Append(s, script, closing);
    script := script + closing;
  }
}
