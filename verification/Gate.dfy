/** The operation gate of an adapter's Owner (persist/internal/localadapter/owner.go and Store.acquire, Store.Close):
  * any number of operations, each a small program over a one-slot channel, an atomic state and a context that may be
  * cancelled at any moment. */
module Gate {
  import opened Wrappers

  type Id = nat
  type View = nat

  datatype Kind =
    | Use(view: View)        // GetBytes, setBytes, Delete, Stats
    | CloseView(view: View)  // Store.Close
    | CloseOwner             // Owner.Close

  /** What an operation returns; an error of the native Close is a number. */
  datatype Outcome = Success | ErrClosed | ErrCancelled | Closed(err: Option<nat>)

  /** The next thing an operation does. */
  datatype Pc =
    | MarkClosing                       // state.CompareAndSwap(0, 1)
    | CheckView | CheckContext | CheckState
    | Waiting                           // select on the context and the gate
    | GotToken | RecheckState | RecheckView
    | Inside | Calling                  // between native calls, in one
    | MarkView                          // s.closed.Store(true)
    | Decide | NativeClose | Clear(err: Option<nat>) | MarkClosed(err: Option<nat>)
    | Release(outcome: Outcome)
    | Done(outcome: Outcome)

  datatype Op = Op(kind: Kind, pc: Pc)

  datatype Event = Called(caller: Id, view: View) | ClosedNatively | ViewWasClosed(view: View)

  datatype System = System(
    owned: bool, gate: nat, state: nat, engine: bool, closeErr: Option<nat>,
    closedViews: set<View>, cancelled: set<Id>, ops: map<Id, Op>, log: seq<Event>)

  datatype Action =
    | Start(id: Id, kind: Kind)
    | Cancel(id: Id)
    | Take(id: Id)                            // the select receives the token
    | GiveUp(id: Id)                          // the select sees the cancelled context
    | Call(id: Id)
    | Leave(id: Id)                           // the operation is done with the engine
    | CallClose(id: Id, result: Option<nat>)
    | Step(id: Id)                            // every other step has no choice

  function Initial(owned: bool): System {
    System(owned, 1, 0, true, None, {}, {}, map[], [])
  }

  function FirstPc(kind: Kind): Pc {
    match kind
    case Use(_) => CheckView
    case CloseView(_) => CheckContext
    case CloseOwner => MarkClosing
  }

  predicate Holding(pc: Pc) {
    match pc
    case MarkClosing | CheckView | CheckContext | CheckState | Waiting | Done(_) => false
    case _ => true
  }

  predicate HasPc(s: System, id: Id, pc: Pc) {
    id in s.ops && s.ops[id].pc == pc
  }

  ghost predicate Enabled(s: System, a: Action) {
    match a
    case Start(id, _) => id !in s.ops
    case Cancel(_) => true
    case Take(id) => HasPc(s, id, Waiting) && s.gate > 0
    case GiveUp(id) => HasPc(s, id, Waiting) && id in s.cancelled
    case Call(id) => HasPc(s, id, Inside)
    case Leave(id) => HasPc(s, id, Inside)
    case CallClose(id, _) => HasPc(s, id, NativeClose)
    case Step(id) => id in s.ops && Deterministic(s, s.ops[id].pc)
  }

  /** The channel has one slot: a send needs it empty. */
  ghost predicate Deterministic(s: System, pc: Pc) {
    match pc
    case Waiting | Inside | NativeClose | Done(_) => false
    case Release(_) => s.gate == 0
    case _ => true
  }

  /** What a step with no choice does to the operation: the branches of acquire, of Store.acquire and of Close. */
  function NextPc(s: System, id: Id, op: Op): Pc {
    match op.pc
    case MarkClosing => CheckContext
    case CheckView => if op.kind.Use? && op.kind.view in s.closedViews then Done(ErrClosed) else CheckContext
    case CheckContext =>
      if id in s.cancelled then Done(ErrCancelled) else if op.kind.Use? then CheckState else Waiting
    case CheckState => if s.state != 0 then Done(ErrClosed) else Waiting
    case GotToken =>
      if id in s.cancelled then Release(ErrCancelled)
      else if op.kind.Use? then RecheckState
      else if op.kind.CloseView? then MarkView
      else Decide
    case RecheckState => if s.state != 0 then Release(ErrClosed) else RecheckView
    case RecheckView => if op.kind.Use? && op.kind.view in s.closedViews then Release(ErrClosed) else Inside
    case Calling => Inside
    case MarkView => Release(Success)
    case Decide => if s.state == 2 then Release(Closed(s.closeErr)) else if s.owned then NativeClose
                     else Clear(s.closeErr)
    case Clear(err) => MarkClosed(err)
    case MarkClosed(err) => Release(Closed(err))
    case Release(outcome) => Done(outcome)
    case _ => op.pc
  }

  /** What such a step does to the shared state. */
  function Effect(s: System, op: Op): System {
    match op.pc
    case MarkClosing => if s.state == 0 then s.(state := 1) else s
    case MarkView =>
      if op.kind.CloseView?
      then s.(closedViews := s.closedViews + {op.kind.view}, log := s.log + [ViewWasClosed(op.kind.view)])
      else s
    case Clear(_) => s.(engine := false)
    case MarkClosed(_) => s.(state := 2)
    case Release(_) => s.(gate := s.gate + 1)
    case _ => s
  }

  function Put(s: System, id: Id, pc: Pc): System {
    if id in s.ops then s.(ops := s.ops[id := s.ops[id].(pc := pc)]) else s
  }

  function CallView(op: Op): View {
    if op.kind.CloseOwner? then 0 else op.kind.view
  }

  function Next(s: System, a: Action): System {
    if a.id !in s.ops then
      match a
      case Start(id, kind) => s.(ops := s.ops[id := Op(kind, FirstPc(kind))])
      case Cancel(id) => s.(cancelled := s.cancelled + {id})
      case _ => s
    else
      match a
      case Start(_, _) => s
      case Cancel(id) => s.(cancelled := s.cancelled + {id})
      case Take(id) => if s.gate > 0 then Put(s, id, GotToken).(gate := s.gate - 1) else s
      case GiveUp(id) => Put(s, id, Done(ErrCancelled))
      case Call(id) => Put(s, id, Calling).(log := s.log + [Called(id, CallView(s.ops[id]))])
      case Leave(id) => Put(s, id, Release(Success))
      case CallClose(id, err) => Put(s, id, Clear(err)).(closeErr := err, log := s.log + [ClosedNatively])
      case Step(id) => Put(Effect(s, s.ops[id]), id, NextPc(s, id, s.ops[id]))
  }

  ghost predicate Run(states: seq<System>, actions: seq<Action>, owned: bool) {
    && |states| == |actions| + 1
    && states[0] == Initial(owned)
    && Steps(states, actions)
  }

  ghost predicate Steps(states: seq<System>, actions: seq<Action>) {
    && |states| == |actions| + 1
    && forall i :: 0 <= i < |actions| ==> Enabled(states[i], actions[i]) && states[i + 1] == Next(states[i], actions[i])
  }
}
