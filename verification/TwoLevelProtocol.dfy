/** The two-level store of persist/twolevel.go as a state machine.
  *
  * Every action below is one atomic step of the code: one critical section of a shard lock, one Redis command,
  * one operation of the local cache, one locked step of the singleflight group, or one delivery of a message.
  * Any number of instances (nodes) and operations interleave freely.
  */
module TwoLevelProtocol {
  import opened Wrappers

  type Key = string
  type Value = string
  type Pattern = string
  type NodeId = nat
  type ProcId = nat

  const SHARDS: nat := 256

  type Shard = x: nat | x < SHARDS witness 0
  type Generations = g: seq<nat> | |g| == SHARDS witness seq(SHARDS, _ => 0)

  /** A cached value, stamped with the position in the history of Redis from which it was fetched. */
  datatype Entry = Entry(value: Value, at: nat)

  /** What one instance keeps: its local cache, the generation of every shard, and the registered flights. */
  datatype Node = Node(l1: map<Key, Entry>, gens: Generations, flights: map<Key, ProcId>)

  /** The hash and the two matchers are arbitrary: Redis matches a pattern with its own glob,
    * the local cache with a translated regular expression, or with nothing if it has no pattern deletion. */
  datatype Config = Config(
    nodes: set<NodeId>,
    shardOf: Key -> Shard,
    remoteMatch: (Pattern, Key) -> bool,
    localMatch: (NodeId, Pattern, Key) -> bool)

  // ---------------------------------------------------------------- operations of one node

  /** commitRead: write under the shard lock, unless the generation moved or the flight was released. */
  function CommitRead(nd: Node, shard: Shard, gen: nat, superseded: bool, k: Key, e: Entry): Node {
    if nd.gens[shard] == gen && !superseded then nd.(l1 := nd.l1[k := e]) else nd
  }

  /** commitMutation(nil): only the generation moves. */
  function Bump(nd: Node, shard: Shard): Node {
    nd.(gens := nd.gens[shard := nd.gens[shard] + 1])
  }

  /** commitMutation(delete): the generation moves and the local entry goes, in one critical section. */
  function CommitMutation(nd: Node, shard: Shard, k: Key): Node {
    Bump(nd, shard).(l1 := nd.l1 - {k})
  }

  function Drop(nd: Node, k: Key): Node {
    nd.(l1 := nd.l1 - {k})
  }

  /** singleflight Forget: removes whatever flight is registered under the key. */
  function Forget(nd: Node, k: Key): Node {
    nd.(flights := nd.flights - {k})
  }

  /** End of a flight: the registration goes only if it is still this flight's own. */
  function Unregister(nd: Node, k: Key, f: ProcId): Node {
    if k in nd.flights && nd.flights[k] == f then Forget(nd, k) else nd
  }

  function Register(nd: Node, k: Key, f: ProcId): Node {
    nd.(flights := nd.flights[k := f])
  }

  // ---------------------------------------------------------------- processes

  /** How a Get obtained its answer: its own first look at L1, a flight answered from L1, a flight answered from
    * Redis. */
  datatype Via = Outer | FlightLocal | FlightRemote

  datatype Answer = Answer(entry: Entry, via: Via)

  /** The callback of one singleflight call. */
  datatype FlightStage =
    | Started
    | Looked
    | Begun(gen: nat)
    | Fetched(fetchedGen: nat, entry: Entry)
    | Resolved(result: Option<Answer>)
    | Finished(outcome: Option<Answer>)

  datatype GetStage =
    | Calling
    | Missed
    | Waiting(flight: ProcId)
    | Returned(answer: Option<Answer>)

  datatype Kind = SetOf(newValue: Value) | DeleteOf | InvalidateOf | ReceiveOf

  datatype SweepStage = Removing | Bumping(next: nat) | Sweeping(todo: set<Key>) | Swept | SweepDone

  datatype Proc =
    | Flight(node: NodeId, key: Key, stage: FlightStage, superseded: bool)
    | Getter(node: NodeId, key: Key, getStage: GetStage)
      /** A mutation of one key: tried says the remote command was sent, wrote where it took effect in the history. */
    | Mutator(node: NodeId, key: Key, kind: Kind, tried: bool, wrote: Option<nat>, committed: Option<nat>,
              forgot: bool, published: bool)
      /** A mutation by pattern; local is false when it handles a message of another instance. */
    | Sweeper(node: NodeId, pattern: Pattern, local: bool, removed: map<Key, nat>, sweep: SweepStage)

  datatype Subject = KeyOf(key: Key) | PatternOf(pattern: Pattern)

  /** A published invalidation and the instances that have not handled it yet. */
  datatype Message = Message(origin: NodeId, subject: Subject, pending: set<NodeId>)

  /** past holds the earlier contents of Redis, oldest first. */
  datatype System = System(
    past: seq<map<Key, Value>>,
    redis: map<Key, Value>,
    nodes: NodeId -> Node,
    procs: map<ProcId, Proc>,
    mail: map<nat, Message>)

  function Now(s: System): nat {
    |s.past|
  }

  function RedisAt(s: System, i: nat): map<Key, Value>
    requires i <= Now(s)
  {
    if i < |s.past| then s.past[i] else s.redis
  }

  function Write(s: System, contents: map<Key, Value>): System {
    s.(past := s.past + [s.redis], redis := contents)
  }

  function PutNode(s: System, n: NodeId, nd: Node): System {
    s.(nodes := (m: NodeId) => if m == n then nd else s.nodes(m))
  }

  function PutProc(s: System, id: ProcId, p: Proc): System {
    s.(procs := s.procs[id := p])
  }

  const FRESH_NODE: Node := Node(map[], seq(SHARDS, _ => 0), map[])

  ghost predicate Init(s: System) {
    && s.past == [] && s.procs == map[] && s.mail == map[]
    && forall n :: s.nodes(n) == FRESH_NODE
  }

  // ---------------------------------------------------------------- order of the steps of a mutation

  datatype Move = Send | Release | Announce | Commit | Nothing

  /** The next step of a mutation. SetWithContext forgets before it commits; Delete commits before it forgets. */
  function NextMove(p: Proc): Move
    requires p.Mutator?
  {
    match p.kind
    case SetOf(_) =>
      if !p.tried then Send
      else if p.wrote.None? then Nothing
      else if !p.forgot then Release
      else if !p.published then Announce
      else if p.committed.None? then Commit
      else Nothing
    case DeleteOf =>
      if !p.tried then Send
      else if p.committed.None? then Commit
      else if !p.forgot then Release
      else if p.wrote.Some? && !p.published then Announce
      else Nothing
    case _ =>
      if p.committed.None? then Commit
      else if !p.forgot then Release
      else Nothing
  }

  ghost predicate Done(p: Proc) {
    p.Mutator? && NextMove(p) == Nothing
  }

  // ---------------------------------------------------------------- actions

  datatype Action =
    | GetCall(id: ProcId, n: NodeId, k: Key)
    | GetLookup(id: ProcId)
    | GetJoin(id: ProcId, f: ProcId)
    | GetReturn(id: ProcId)
    | FlightLookup(id: ProcId)
    | FlightBegin(id: ProcId)
    | FlightFetch(id: ProcId, ok: bool)
    | FlightCommit(id: ProcId, backfill: bool)
    | FlightFinish(id: ProcId)
    | TimerMark(id: ProcId)
    | TimerForget(id: ProcId)
    | MutCall(id: ProcId, n: NodeId, k: Key, kind: Kind)
    | MutSend(id: ProcId, ok: bool)
    | MutCommit(id: ProcId)
    | MutForget(id: ProcId)
    | MutPublish(id: ProcId, m: nat)
    | SweepCall(id: ProcId, n: NodeId, p: Pattern, remote: bool)
    | SweepRemove(id: ProcId, k: Key)
    | SweepBump(id: ProcId)
    | SweepKey(id: ProcId, k: Key)
    | SweepEnd(id: ProcId)
    | SweepPublish(id: ProcId, m: nat, send: bool)
    | Deliver(id: ProcId, m: nat, n: NodeId)
    | Evict(n: NodeId, k: Key)

  ghost predicate IsFlight(s: System, id: ProcId) {
    id in s.procs && s.procs[id].Flight?
  }

  ghost predicate IsGetter(s: System, id: ProcId) {
    id in s.procs && s.procs[id].Getter?
  }

  ghost predicate IsMutator(s: System, id: ProcId) {
    id in s.procs && s.procs[id].Mutator?
  }

  ghost predicate IsSweeper(s: System, id: ProcId) {
    id in s.procs && s.procs[id].Sweeper?
  }

  /** When the actions of a Get can happen. */
  ghost predicate EnabledGet(cfg: Config, s: System, a: Action) {
    match a
    case GetCall(id, n, k) => id !in s.procs && n in cfg.nodes
    case GetLookup(id) => IsGetter(s, id) && s.procs[id].getStage.Calling?
    case GetJoin(id, f) => IsGetter(s, id) && s.procs[id].getStage.Missed? && f !in s.procs
    case GetReturn(id) =>
      && IsGetter(s, id) && s.procs[id].getStage.Waiting?
      && IsFlight(s, s.procs[id].getStage.flight) && s.procs[s.procs[id].getStage.flight].stage.Finished?
    case _ => false
  }

  ghost predicate EnabledFlight(s: System, a: Action) {
    match a
    case FlightLookup(id) => IsFlight(s, id) && s.procs[id].stage.Started?
    case FlightBegin(id) => IsFlight(s, id) && s.procs[id].stage.Looked?
    case FlightFetch(id, ok) => IsFlight(s, id) && s.procs[id].stage.Begun?
    case FlightCommit(id, backfill) => IsFlight(s, id) && s.procs[id].stage.Fetched?
    case FlightFinish(id) => IsFlight(s, id) && s.procs[id].stage.Resolved?
    case TimerMark(id) => IsFlight(s, id)
    case TimerForget(id) => IsFlight(s, id) && s.procs[id].superseded
    case _ => false
  }

  ghost predicate EnabledMutation(cfg: Config, s: System, a: Action) {
    match a
    case MutCall(id, n, k, kind) => id !in s.procs && n in cfg.nodes && !kind.ReceiveOf?
    case MutSend(id, ok) => IsMutator(s, id) && NextMove(s.procs[id]) == Send
    case MutCommit(id) => IsMutator(s, id) && NextMove(s.procs[id]) == Commit
    case MutForget(id) => IsMutator(s, id) && NextMove(s.procs[id]) == Release
    case MutPublish(id, m) => IsMutator(s, id) && NextMove(s.procs[id]) == Announce && m !in s.mail
    case _ => false
  }

  ghost predicate EnabledSweep(cfg: Config, s: System, a: Action) {
    match a
    case SweepCall(id, n, p, remote) => id !in s.procs && n in cfg.nodes
    case SweepRemove(id, k) =>
      && IsSweeper(s, id) && s.procs[id].sweep.Removing?
      && k in s.redis && cfg.remoteMatch(s.procs[id].pattern, k)
    case SweepBump(id) =>
      && IsSweeper(s, id)
      && (s.procs[id].sweep.Removing? || (s.procs[id].sweep.Bumping? && s.procs[id].sweep.next < SHARDS))
    case SweepKey(id, k) => IsSweeper(s, id) && s.procs[id].sweep.Sweeping? && k in s.procs[id].sweep.todo
    case SweepEnd(id) => IsSweeper(s, id) && s.procs[id].sweep.Sweeping? && s.procs[id].sweep.todo == {}
    case SweepPublish(id, m, send) =>
      && IsSweeper(s, id) && s.procs[id].sweep.Swept? && m !in s.mail
      && (send ==> s.procs[id].local) && (!send ==> s.procs[id].removed == map[])
    case _ => false
  }

  ghost predicate EnabledDelivery(s: System, a: Action) {
    a.Deliver? && a.m in s.mail && a.n in s.mail[a.m].pending && a.id !in s.procs
  }

  /** When an action can happen; an eviction from L1 (or an expiry there) always can. */
  ghost predicate Enabled(cfg: Config, s: System, a: Action) {
    EnabledGet(cfg, s, a) || EnabledFlight(s, a) || EnabledMutation(cfg, s, a) || EnabledSweep(cfg, s, a)
    || EnabledDelivery(s, a) || a.Evict?
  }

  function AsAnswer(nd: Node, k: Key, via: Via): Option<Answer> {
    if k in nd.l1 then Some(Answer(nd.l1[k], via)) else None
  }

  /** Get: first look at L1, then join the registered flight of the key or become the leader of a new one. */
  function NextGet(cfg: Config, s: System, a: Action): System
    requires EnabledGet(cfg, s, a)
  {
    match a
    case GetCall(id, n, k) => PutProc(s, id, Getter(n, k, Calling))
    case GetLookup(id) =>
      var p := s.procs[id];
      var found := AsAnswer(s.nodes(p.node), p.key, Outer);
      PutProc(s, id, p.(getStage := if found.Some? then Returned(found) else Missed))
    case GetJoin(id, f) =>
      var p := s.procs[id];
      var nd := s.nodes(p.node);
      if p.key in nd.flights then PutProc(s, id, p.(getStage := Waiting(nd.flights[p.key])))
      else
        PutProc(
          PutProc(PutNode(s, p.node, Register(nd, p.key, f)), f, Flight(p.node, p.key, Started, false)),
          id, p.(getStage := Waiting(f)))
    case GetReturn(id) =>
      var p := s.procs[id];
      PutProc(s, id, p.(getStage := Returned(s.procs[p.getStage.flight].stage.outcome)))
  }

  /** The leader's callback, and the timer that releases it. */
  function NextFlight(cfg: Config, s: System, a: Action): System
    requires EnabledFlight(s, a)
  {
    var p := s.procs[a.id];
    var nd := s.nodes(p.node);
    match a
    case FlightLookup(id) =>
      var found := AsAnswer(nd, p.key, FlightLocal);
      PutProc(s, id, p.(stage := if found.Some? then Resolved(found) else Looked))
    case FlightBegin(id) => PutProc(s, id, p.(stage := Begun(nd.gens[cfg.shardOf(p.key)])))
    case FlightFetch(id, ok) =>
      PutProc(s, id, p.(stage := if ok && p.key in s.redis
                                 then Fetched(p.stage.gen, Entry(s.redis[p.key], Now(s))) else Resolved(None)))
    case FlightCommit(id, backfill) =>
      var st := p.stage;
      var nd' := if backfill then CommitRead(nd, cfg.shardOf(p.key), st.fetchedGen, p.superseded, p.key, st.entry)
          else nd;
      PutProc(PutNode(s, p.node, nd'), id, p.(stage := Resolved(Some(Answer(st.entry, FlightRemote)))))
    case FlightFinish(id) =>
      PutProc(PutNode(s, p.node, Unregister(nd, p.key, id)), id, p.(stage := Finished(p.stage.result)))
    case TimerMark(id) => PutProc(s, id, p.(superseded := true))
    case TimerForget(id) => PutNode(s, p.node, Forget(nd, p.key))
  }

  /** Set, Delete, InvalidateLocal, and the handling of a key message. */
  function NextMutation(cfg: Config, s: System, a: Action): System
    requires EnabledMutation(cfg, s, a)
  {
    match a
    case MutCall(id, n, k, kind) => PutProc(s, id, Mutator(n, k, kind, false, None, None, false, false))
    case MutSend(id, ok) =>
      var p := s.procs[id];
      if !ok then PutProc(s, id, p.(tried := true))
      else
        var s' := Write(s, if p.kind.SetOf? then s.redis[p.key := p.kind.newValue] else s.redis - {p.key});
        PutProc(s', id, p.(tried := true, wrote := Some(Now(s'))))
    case MutCommit(id) =>
      var p := s.procs[id];
      PutProc(PutNode(s, p.node, CommitMutation(s.nodes(p.node), cfg.shardOf(p.key), p.key)),
              id, p.(committed := Some(Now(s))))
    case MutForget(id) =>
      var p := s.procs[id];
      PutProc(PutNode(s, p.node, Forget(s.nodes(p.node), p.key)), id, p.(forgot := true))
    case MutPublish(id, m) =>
      var p := s.procs[id];
      PutProc(s.(mail := s.mail[m := Message(p.node, KeyOf(p.key), cfg.nodes)]), id, p.(published := true))
  }

  /** DeletePattern, InvalidateLocalPattern, and the handling of a pattern message. */
  function NextSweep(cfg: Config, s: System, a: Action): System
    requires EnabledSweep(cfg, s, a)
  {
    match a
    case SweepCall(id, n, p, remote) =>
      PutProc(s, id, Sweeper(n, p, true, map[], if remote then Removing else Bumping(0)))
    case SweepRemove(id, k) =>
      var p := s.procs[id];
      var s' := Write(s, s.redis - {k});
      PutProc(s', id, p.(removed := p.removed[k := Now(s')]))
    case SweepBump(id) =>
      var p := s.procs[id];
      if p.sweep.Removing? then PutProc(s, id, p.(sweep := Bumping(0)))
      else
        var j := p.sweep.next;
        var nd := s.nodes(p.node);
        PutProc(PutNode(s, p.node, Bump(nd, j)), id,
                p.(sweep := if j + 1 == SHARDS then Sweeping(nd.l1.Keys) else Bumping(j + 1)))
    case SweepKey(id, k) =>
      var p := s.procs[id];
      var nd := s.nodes(p.node);
      PutProc(PutNode(s, p.node, if cfg.localMatch(p.node, p.pattern, k) then Drop(nd, k) else nd), id,
              p.(sweep := Sweeping(p.sweep.todo - {k})))
    case SweepEnd(id) => PutProc(s, id, s.procs[id].(sweep := Swept))
    case SweepPublish(id, m, send) =>
      var p := s.procs[id];
      PutProc(if send then s.(mail := s.mail[m := Message(p.node, PatternOf(p.pattern), cfg.nodes)]) else s,
              id, p.(sweep := SweepDone))
  }

  /** One instance takes one message; it skips its own. */
  function NextDelivery(cfg: Config, s: System, a: Action): System
    requires EnabledDelivery(s, a)
  {
    var Deliver(id, m, n) := a;
    var msg := s.mail[m];
    var s' := s.(mail := s.mail[m := msg.(pending := msg.pending - {n})]);
    if n == msg.origin then s'
    else
      PutProc(s', id,
              match msg.subject
              case KeyOf(k) => Mutator(n, k, ReceiveOf, false, None, None, false, false)
              case PatternOf(p) => Sweeper(n, p, false, map[], Bumping(0)))
  }

  ghost function Next(cfg: Config, s: System, a: Action): System
    requires Enabled(cfg, s, a)
  {
    if EnabledGet(cfg, s, a) then NextGet(cfg, s, a)
    else if EnabledFlight(s, a) then NextFlight(cfg, s, a)
    else if EnabledMutation(cfg, s, a) then NextMutation(cfg, s, a)
    else if EnabledSweep(cfg, s, a) then NextSweep(cfg, s, a)
    else if EnabledDelivery(s, a) then NextDelivery(cfg, s, a)
    else PutNode(s, a.n, Drop(s.nodes(a.n), a.k))
  }

  /** A run: the states passed through, and the actions between them. */
  ghost predicate Run(cfg: Config, states: seq<System>, actions: seq<Action>) {
    && |states| == |actions| + 1
    && Init(states[0])
    && forall i :: 0 <= i < |actions| ==>
        Enabled(cfg, states[i], actions[i]) && states[i + 1] == Next(cfg, states[i], actions[i])
  }
}
