/** What the gate is there for: operations on an open view of an active Owner are served, one after another, and none is
  * refused without cause (persist/internal/localadapter/owner.go and store.go). */
module GateService {
  import opened Wrappers
  import opened Gate
  import opened GateSafety

  // ---------------------------------------------------------------- refused only for cause

  /** An operation that is refused as closed finds its Owner closing or its view closed; one that is refused as
    * cancelled has been cancelled. */
  ghost predicate Cause(s: System, id: Id, outcome: Outcome)
    requires id in s.ops
  {
    match outcome
    case ErrClosed => s.state != 0 || (s.ops[id].kind.Use? && s.ops[id].kind.view in s.closedViews)
    case ErrCancelled => id in s.cancelled
    case _ => true
  }

  ghost predicate CauseIn(s: System, id: Id) {
    id in s.ops && (s.ops[id].pc.Release? || s.ops[id].pc.Done? ==> Cause(s, id, s.ops[id].pc.outcome))
  }

  ghost predicate AllForCause(s: System) {
    forall id :: id in s.ops ==> CauseIn(s, id)
  }

  /** What makes a cause stays. */
  ghost predicate Lasting(s: System, t: System) {
    (s.state != 0 ==> t.state != 0) && s.closedViews <= t.closedViews && s.cancelled <= t.cancelled
  }

  lemma StepLasts(s: System, a: Action)
    ensures Lasting(s, Next(s, a))
  {
  }

  lemma OwnCause(s: System, a: Action)
    requires Enabled(s, a) && !a.Cancel? && (a.Start? || CauseIn(s, a.id))
    ensures CauseIn(Next(s, a), a.id)
  {
    if a.Step? {
      StepCause(s, a.id, s.ops[a.id]);
    }
  }

  lemma StepCause(s: System, id: Id, op: Op)
    requires id in s.ops && s.ops[id] == op && Deterministic(s, op.pc) && CauseIn(s, id)
    ensures var pc := NextPc(s, id, op);
            pc.Release? || pc.Done? ==>
              (pc.outcome == ErrClosed ==> s.state != 0 || (op.kind.Use? && op.kind.view in s.closedViews))
              && (pc.outcome == ErrCancelled ==> id in s.cancelled)
  {
  }

  lemma OtherCause(s: System, a: Action, o: Id)
    requires Enabled(s, a) && o in Next(s, a).ops && (a.Cancel? || o != a.id) && (o in s.ops ==> CauseIn(s, o))
    ensures CauseIn(Next(s, a), o)
  {
    StepLasts(s, a);
    assert o in s.ops && Next(s, a).ops[o] == s.ops[o];
  }

  lemma CauseKept(s: System, a: Action)
    requires Enabled(s, a) && AllForCause(s)
    ensures AllForCause(Next(s, a))
  {
    forall o | o in Next(s, a).ops ensures CauseIn(Next(s, a), o) {
      if !a.Cancel? && o == a.id {
        OwnCause(s, a);
      } else {
        OtherCause(s, a, o);
      }
    }
  }

  /** Over all runs: no operation is refused without cause. */
  lemma {:induction false} RefusedForCause(states: seq<System>, actions: seq<Action>, owned: bool, i: nat)
    requires Run(states, actions, owned) && i < |states|
    ensures AllForCause(states[i])
  {
    if i > 0 {
      RefusedForCause(states, actions, owned, i - 1);
      assert Enabled(states[i - 1], actions[i - 1]) && states[i] == Next(states[i - 1], actions[i - 1]);
      CauseKept(states[i - 1], actions[i - 1]);
    }
  }

  // ---------------------------------------------------------------- served

  /** With the token free, a new operation that is not cancelled goes through acquire. */
  lemma ToTheEngine(base: System, id: Id, view: View, rest: seq<Action>)
    requires base.gate == 1 && base.state == 0 && view !in base.closedViews && id !in base.cancelled
    requires Playable(With(base.(gate := 0), id, Use(view), Inside), rest)
    ensures var script := [Step(id), Step(id), Step(id), Take(id), Step(id), Step(id), Step(id)] + rest;
            && Playable(With(base, id, Use(view), CheckView), script)
            && Play(With(base, id, Use(view), CheckView), script)
               == Play(With(base.(gate := 0), id, Use(view), Inside), rest)
  {
    var k := Use(view);
    var held := base.(gate := 0);
    var r1 := [Step(id)] + rest;
    var r2 := [Step(id)] + r1;
    var r3 := [Step(id)] + r2;
    AfterToken(held, id, view, rest);
    TakeStep(base, id, k);
    First(With(base, id, k, Waiting), Take(id), r3);
    var r4 := [Take(id)] + r3;
    StepTo(base, id, k, CheckState, Waiting, r4);
    var r5 := [Step(id)] + r4;
    StepTo(base, id, k, CheckContext, CheckState, r5);
    var r6 := [Step(id)] + r5;
    StepTo(base, id, k, CheckView, CheckContext, r6);
    assert [Step(id)] + r6 == [Step(id), Step(id), Step(id), Take(id), Step(id), Step(id), Step(id)] + rest;
  }

  lemma TakeStep(base: System, id: Id, kind: Kind)
    requires base.gate == 1
    ensures Enabled(With(base, id, kind, Waiting), Take(id))
            && Next(With(base, id, kind, Waiting), Take(id)) == With(base.(gate := 0), id, kind, GotToken)
  {
    OverwriteSame(base, id, kind, Waiting, GotToken);
  }

  lemma AfterToken(held: System, id: Id, view: View, rest: seq<Action>)
    requires held.state == 0 && view !in held.closedViews && id !in held.cancelled
    requires Playable(With(held, id, Use(view), Inside), rest)
    ensures var script := [Step(id)] + ([Step(id)] + ([Step(id)] + rest));
            && Playable(With(held, id, Use(view), GotToken), script)
            && Play(With(held, id, Use(view), GotToken), script) == Play(With(held, id, Use(view), Inside), rest)
  {
    var k := Use(view);
    StepTo(held, id, k, RecheckView, Inside, rest);
    StepTo(held, id, k, RecheckState, RecheckView, [Step(id)] + rest);
    StepTo(held, id, k, GotToken, RecheckState, [Step(id)] + ([Step(id)] + rest));
  }

  /** A step that changes nothing but where the operation stands. */
  lemma StepTo(base: System, id: Id, kind: Kind, pc: Pc, next: Pc, rest: seq<Action>)
    requires Deterministic(base, pc) && Effect(base, Op(kind, pc)) == base && NextPc(base, id, Op(kind, pc)) == next
    requires Playable(With(base, id, kind, next), rest)
    ensures Playable(With(base, id, kind, pc), [Step(id)] + rest)
    ensures Play(With(base, id, kind, pc), [Step(id)] + rest) == Play(With(base, id, kind, next), rest)
  {
    WithStep(base, id, kind, pc);
    First(With(base, id, kind, pc), Step(id), rest);
  }

  /** A native call, and the end of the operation. */
  lemma CallAndLeave(held: System, id: Id, view: View)
    requires held.gate == 0
    ensures var script := [Call(id)] + ([Step(id)] + ([Leave(id)] + ([Step(id)] + [])));
            && Playable(With(held, id, Use(view), Inside), script)
            && Play(With(held, id, Use(view), Inside), script)
               == With(held.(log := held.log + [Called(id, view)], gate := 1), id, Use(view), Done(Success))
  {
    var k := Use(view);
    var called := held.(log := held.log + [Called(id, view)]);
    OverwriteSame(held, id, k, Inside, Calling);
    assert Next(With(held, id, k, Inside), Call(id)) == With(called, id, k, Calling);
    OverwriteSame(called, id, k, Inside, Release(Success));
    assert Next(With(called, id, k, Inside), Leave(id)) == With(called, id, k, Release(Success));
    WithStep(called, id, k, Release(Success));
    First(With(called, id, k, Release(Success)), Step(id), []);
    First(With(called, id, k, Inside), Leave(id), [Step(id)] + []);
    StepTo(called, id, k, Calling, Inside, [Leave(id)] + ([Step(id)] + []));
    First(With(held, id, k, Inside), Call(id), [Step(id)] + ([Leave(id)] + ([Step(id)] + [])));
  }

  /** An open view of an active Owner is served: whenever the token is free, a new operation on it that is not cancelled
    * can reach the engine, call it, return successfully and give the token back. */
  lemma OpenViewIsServed(s: System, id: Id, view: View) returns (script: seq<Action>, end: System)
    requires s.gate == 1 && s.state == 0 && view !in s.closedViews && id !in s.ops && id !in s.cancelled
    ensures Playable(s, script) && Play(s, script) == end
    ensures end == s.(ops := s.ops[id := Op(Use(view), Done(Success))], log := s.log + [Called(id, view)])
  {
    var held := s.(gate := 0);
    var rest := [Call(id)] + ([Step(id)] + ([Leave(id)] + ([Step(id)] + [])));
    CallAndLeave(held, id, view);
    ToTheEngine(s, id, view, rest);
    script := [Step(id), Step(id), Step(id), Take(id), Step(id), Step(id), Step(id)] + rest;
    assert Next(s, Start(id, Use(view))) == With(s, id, Use(view), CheckView);
    First(s, Start(id, Use(view)), script);
    script := [Start(id, Use(view))] + script;
    end := With(held.(log := held.log + [Called(id, view)], gate := 1), id, Use(view), Done(Success));
  }
}
