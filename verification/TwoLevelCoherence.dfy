/** Coherence of the two-level store: what every step of TwoLevelProtocol keeps, and what follows for whole runs. */
module TwoLevelCoherence {
  import opened Wrappers
  import opened TwoLevelProtocol

  // ---------------------------------------------------------------- provenance

  /** e was in Redis under k at the moment it is stamped with. */
  ghost predicate Genuine(s: System, k: Key, e: Entry) {
    e.at <= Now(s) && k in RedisAt(s, e.at) && RedisAt(s, e.at)[k] == e.value
  }

  ghost predicate GenuineAnswer(s: System, k: Key, r: Option<Answer>) {
    r.Some? ==> Genuine(s, k, r.value.entry)
  }

  ghost predicate GenuineStage(s: System, k: Key, st: FlightStage) {
    match st
    case Fetched(_, e) => Genuine(s, k, e)
    case Resolved(r) => GenuineAnswer(s, k, r)
    case Finished(r) => GenuineAnswer(s, k, r)
    case _ => true
  }

  /** Every value kept anywhere was once in Redis, at the time it is stamped with. */
  ghost predicate Provenance(s: System) {
    && (forall n, k :: k in s.nodes(n).l1 ==> Genuine(s, k, s.nodes(n).l1[k]))
    && (forall f :: IsFlight(s, f) ==> GenuineStage(s, s.procs[f].key, s.procs[f].stage))
    && (forall g :: IsGetter(s, g) && s.procs[g].getStage.Returned? ==>
          GenuineAnswer(s, s.procs[g].key, s.procs[g].getStage.answer))
  }

  // ---------------------------------------------------------------- bookkeeping

  ghost predicate HoldsGeneration(st: FlightStage) {
    st.Begun? || st.Fetched?
  }

  function HeldGeneration(st: FlightStage): nat
    requires HoldsGeneration(st)
  {
    if st.Begun? then st.gen else st.fetchedGen
  }

  /** The flags of a mutation respect the order of its steps. */
  ghost predicate Ordered(s: System, p: Proc)
    requires p.Mutator?
  {
    && (p.wrote.Some? ==> p.tried && p.wrote.value <= Now(s))
    && (p.committed.Some? ==> p.committed.value <= Now(s))
    && (p.wrote.Some? && p.committed.Some? ==> p.wrote.value <= p.committed.value)
    && (p.kind.SetOf? && p.committed.Some? ==> p.wrote.Some? && p.forgot && p.published)
    && (p.kind.SetOf? && p.forgot ==> p.wrote.Some?)
    && (!p.kind.SetOf? && p.forgot ==> p.committed.Some?)
    && (p.kind.DeleteOf? && p.committed.Some? ==> p.tried)
    && (p.published ==> p.wrote.Some?)
    && (!p.kind.SetOf? && !p.kind.DeleteOf? ==> p.wrote.None?)
  }

  ghost predicate OrderedSweep(cfg: Config, s: System, p: Proc)
    requires p.Sweeper?
  {
    && (forall k :: k in p.removed ==> p.removed[k] <= Now(s) && cfg.remoteMatch(p.pattern, k))
    && (p.sweep.Bumping? ==> p.sweep.next < SHARDS)
    && (!p.local ==> p.removed == map[] && !p.sweep.Removing?)
  }

  ghost predicate Bookkeeping(cfg: Config, s: System) {
    && (forall f :: IsFlight(s, f) && HoldsGeneration(s.procs[f].stage) ==>
          HeldGeneration(s.procs[f].stage) <= s.nodes(s.procs[f].node).gens[cfg.shardOf(s.procs[f].key)])
    && (forall n, k :: k in s.nodes(n).flights ==>
          && IsFlight(s, s.nodes(n).flights[k])
          && s.procs[s.nodes(n).flights[k]].node == n && s.procs[s.nodes(n).flights[k]].key == k)
    && (forall g :: IsGetter(s, g) && s.procs[g].getStage.Waiting? ==>
          && IsFlight(s, s.procs[g].getStage.flight)
          && s.procs[s.procs[g].getStage.flight].node == s.procs[g].node
          && s.procs[s.procs[g].getStage.flight].key == s.procs[g].key)
    && (forall m :: IsMutator(s, m) ==> Ordered(s, s.procs[m]))
    && (forall w :: IsSweeper(s, w) ==> OrderedSweep(cfg, s, s.procs[w]))
  }

  // ---------------------------------------------------------------- unfinished business

  /** The sweep has moved the generation of shard sh. */
  ghost predicate Bumped(p: Proc, sh: Shard)
    requires p.Sweeper?
  {
    match p.sweep
    case Removing => false
    case Bumping(next) => sh < next
    case _ => true
  }

  /** The sweep is past key k in the local cache. */
  ghost predicate Cleared(p: Proc, k: Key)
    requires p.Sweeper?
  {
    match p.sweep
    case Removing => false
    case Bumping(_) => false
    case Sweeping(todo) => k !in todo
    case _ => true
  }

  /** p removed k from Redis, or handles a message that says it may have been removed. */
  ghost predicate Affects(cfg: Config, p: Proc, k: Key)
    requires p.Sweeper?
  {
    if p.local then k in p.removed else cfg.remoteMatch(p.pattern, k)
  }

  ghost predicate MutatorPending(p: Proc, n: NodeId, k: Key)
    requires p.Mutator?
  {
    && p.key == k
    && (if p.node == n then p.committed.None? && (p.wrote.Some? || p.kind.ReceiveOf?)
        else p.wrote.Some? && !p.published)
  }

  /** p changed k in Redis and node n has not deleted its entry for that change (or handles the message about it). */
  ghost predicate Pending(cfg: Config, p: Proc, n: NodeId, k: Key) {
    match p
    case Flight(_, _, _, _) => false
    case Getter(_, _, _) => false
    case Mutator(_, _, _, _, _, _, _, _) => MutatorPending(p, n, k)
    case Sweeper(node, _, local, _, sweep) =>
      Affects(cfg, p, k) && (if node == n then !Cleared(p, k) else local && !sweep.SweepDone?)
  }

  /** As Pending, but for the fetches under way: a sweep stops them when it bumps the shard of k. */
  ghost predicate PendingForReads(cfg: Config, p: Proc, n: NodeId, k: Key) {
    match p
    case Flight(_, _, _, _) => false
    case Getter(_, _, _) => false
    case Mutator(_, _, _, _, _, _, _, _) => MutatorPending(p, n, k)
    case Sweeper(node, _, local, _, sweep) =>
      Affects(cfg, p, k) && (if node == n then !Bumped(p, cfg.shardOf(k)) else local && !sweep.SweepDone?)
  }

  /** A message about k is still to be handled by n. */
  ghost predicate Unread(cfg: Config, m: Message, n: NodeId, k: Key) {
    && n in m.pending && n != m.origin
    && (match m.subject
        case KeyOf(key) => key == k
        case PatternOf(p) => cfg.remoteMatch(p, k))
  }

  ghost predicate SomePending(cfg: Config, s: System, n: NodeId, k: Key) {
    exists i :: i in s.procs && Pending(cfg, s.procs[i], n, k)
  }

  ghost predicate SomePendingForReads(cfg: Config, s: System, n: NodeId, k: Key) {
    exists i :: i in s.procs && PendingForReads(cfg, s.procs[i], n, k)
  }

  ghost predicate SomeUnread(cfg: Config, s: System, n: NodeId, k: Key) {
    exists m :: m in s.mail && Unread(cfg, s.mail[m], n, k)
  }

  // ---------------------------------------------------------------- coherence

  ghost predicate Agrees(s: System, k: Key, e: Entry) {
    k in s.redis && s.redis[k] == e.value
  }

  /** Every pattern deletion that has removed k, as far as n knows, is one for whose pattern n's own matcher accepts
    * k. */
  ghost predicate Covered(cfg: Config, s: System, n: NodeId, k: Key) {
    forall w :: IsSweeper(s, w) && s.procs[w].node == n && Affects(cfg, s.procs[w], k) ==>
                  cfg.localMatch(n, s.procs[w].pattern, k)
  }

  ghost predicate CoherentL1(cfg: Config, s: System, n: NodeId, k: Key) {
    k in s.nodes(n).l1 ==> Agrees(s, k, s.nodes(n).l1[k]) || SomePending(cfg, s, n, k) || SomeUnread(cfg, s, n, k)
  }

  /** f has fetched a value and would still be allowed to write it to L1. */
  ghost predicate Writable(cfg: Config, s: System, f: ProcId) {
    && IsFlight(s, f) && s.procs[f].stage.Fetched?
    && s.procs[f].stage.fetchedGen == s.nodes(s.procs[f].node).gens[cfg.shardOf(s.procs[f].key)]
  }

  ghost predicate CoherentFetch(cfg: Config, s: System, f: ProcId)
    requires IsFlight(s, f) && s.procs[f].stage.Fetched?
  {
    var p := s.procs[f];
    Agrees(s, p.key, p.stage.entry) || SomePendingForReads(cfg, s, p.node, p.key) || SomeUnread(cfg, s, p.node, p.key)
  }

  ghost predicate Coherent(cfg: Config, s: System) {
    && (forall n, k :: n in cfg.nodes && Covered(cfg, s, n, k) ==> CoherentL1(cfg, s, n, k))
    && (forall f :: Writable(cfg, s, f) && s.procs[f].node in cfg.nodes ==> CoherentFetch(cfg, s, f))
  }

  // ---------------------------------------------------------------- freshness floors

  /** e is not older than mutation m. Of a Set, whose release precedes its commit, this is promised only for what came
    * from Redis: between the two steps L1 may still answer with the replaced value. */
  ghost predicate EntryAbove(m: Proc, e: Entry, fromL1: bool)
    requires m.Mutator?
  {
    if m.kind.SetOf? then !fromL1 && m.wrote.Some? ==> e.at >= m.wrote.value
    else m.committed.Some? ==> e.at >= m.committed.value
  }

  ghost predicate AnswerAbove(m: Proc, r: Option<Answer>)
    requires m.Mutator?
  {
    r.Some? ==> EntryAbove(m, r.value.entry, r.value.via.FlightLocal?)
  }

  ghost predicate StageAbove(m: Proc, st: FlightStage)
    requires m.Mutator?
  {
    match st
    case Fetched(_, e) => EntryAbove(m, e, false)
    case Resolved(r) => AnswerAbove(m, r)
    case Finished(r) => AnswerAbove(m, r)
    case _ => true
  }

  /** Once m has committed, its node's L1 holds nothing fetched before the commit, and no fetch from before it can
    * still be written; once m has also released the key, the registered flight carries nothing older than m. */
  ghost predicate MutatorFloor(cfg: Config, s: System, m: ProcId)
    requires IsMutator(s, m)
  {
    var p := s.procs[m];
    && (p.committed.Some? && p.key in s.nodes(p.node).l1 ==> s.nodes(p.node).l1[p.key].at >= p.committed.value)
    && (forall f :: p.committed.Some? && Writable(cfg, s, f) && s.procs[f].node == p.node && s.procs[f].key == p.key ==>
          s.procs[f].stage.entry.at >= p.committed.value)
    && (p.forgot && p.key in s.nodes(p.node).flights && IsFlight(s, s.nodes(p.node).flights[p.key]) ==>
          StageAbove(p, s.procs[s.nodes(p.node).flights[p.key]].stage))
  }

  /** Once a sweep has bumped the shard of a key it removed, no fetch from before the removal can be written; once it
    * has also cleared the key, L1 holds nothing fetched before the removal. */
  ghost predicate SweepFloor(cfg: Config, s: System, w: ProcId)
    requires IsSweeper(s, w)
  {
    var p := s.procs[w];
    forall k :: k in p.removed ==>
      && (forall f ::
            (Bumped(p, cfg.shardOf(k)) && Writable(cfg, s, f) && s.procs[f].node == p.node && s.procs[f].key == k) ==>
              s.procs[f].stage.entry.at >= p.removed[k])
      && (Cleared(p, k) && cfg.localMatch(p.node, p.pattern, k) && k in s.nodes(p.node).l1 ==>
            s.nodes(p.node).l1[k].at >= p.removed[k])
  }

  ghost predicate Floors(cfg: Config, s: System) {
    && (forall m :: IsMutator(s, m) ==> MutatorFloor(cfg, s, m))
    && (forall w :: IsSweeper(s, w) ==> SweepFloor(cfg, s, w))
  }

  ghost predicate Inv(cfg: Config, s: System) {
    Provenance(s) && Bookkeeping(cfg, s) && Coherent(cfg, s) && Floors(cfg, s)
  }

  lemma InitInv(cfg: Config, s: System)
    requires Init(s)
    ensures Inv(cfg, s)
  {
  }

  // ---------------------------------------------------------------- what one step may do, process by process

  ghost predicate FlightMoves(cfg: Config, s: System, s': System, p: Proc, p': Proc)
    requires p.Flight?
  {
    && p'.Flight? && p'.node == p.node && p'.key == p.key
    && (p'.stage == p.stage
        || match p'.stage
           case Started => false
           case Looked => true
           case Begun(gen) => gen == s.nodes(p.node).gens[cfg.shardOf(p.key)]
           case Fetched(gen, e) => p.stage == Begun(gen) && e.at == Now(s') && Agrees(s', p.key, e)
           case Resolved(r) =>
             || r.None?
             || (p.key in s.nodes(p.node).l1 && r.value == Answer(s.nodes(p.node).l1[p.key], FlightLocal))
             || (p.stage.Fetched? && r.value == Answer(p.stage.entry, FlightRemote))
           case Finished(r) => p.stage == Resolved(r))
  }

  ghost predicate GetterMoves(s: System, s': System, p: Proc, p': Proc)
    requires p.Getter?
  {
    && p'.Getter? && p'.node == p.node && p'.key == p.key
    && (p'.getStage == p.getStage
        || match p'.getStage
           case Calling => false
           case Missed => true
           case Waiting(f) =>
             && p.key in s'.nodes(p.node).flights && s'.nodes(p.node).flights[p.key] == f
           case Returned(r) =>
             || (r.Some? && p.key in s.nodes(p.node).l1 && r.value == Answer(s.nodes(p.node).l1[p.key], Outer))
             || (p.getStage.Waiting? && IsFlight(s, p.getStage.flight)
                 && s.procs[p.getStage.flight].stage == Finished(r)))
  }

  ghost predicate MutatorMoves(cfg: Config, s: System, s': System, p: Proc, p': Proc)
    requires p.Mutator?
  {
    && p'.Mutator? && p'.node == p.node && p'.key == p.key && p'.kind == p.kind
    && Ordered(s', p')
    && (p'.wrote == p.wrote || (p.wrote.None? && p'.wrote == Some(Now(s'))))
    && (p'.committed == p.committed
        || (&& p.committed.None? && p'.committed == Some(Now(s'))
            && p.key !in s'.nodes(p.node).l1
            && s'.nodes(p.node).gens[cfg.shardOf(p.key)] > s.nodes(p.node).gens[cfg.shardOf(p.key)]))
    && (p'.forgot == p.forgot || (p'.forgot && p.key !in s'.nodes(p.node).flights))
    && (p.forgot ==> p'.wrote == p.wrote)
    && (p'.published == p.published
        || forall n :: n in cfg.nodes && n != p.node ==> SomeUnread(cfg, s', n, p.key))
    && (Done(p) ==> p' == p)
  }

  ghost predicate SweeperMoves(cfg: Config, s: System, s': System, p: Proc, p': Proc)
    requires p.Sweeper?
  {
    && p'.Sweeper? && p'.node == p.node && p'.pattern == p.pattern && p'.local == p.local
    && OrderedSweep(cfg, s', p')
    && p.removed.Keys <= p'.removed.Keys
    && (forall k :: k in p'.removed ==>
          (k in p.removed && p'.removed[k] == p.removed[k])
              || (p'.removed[k] == Now(s') && p.sweep.Removing? && p'.sweep.Removing?))
    && (forall sh: Shard :: Bumped(p, sh) ==> Bumped(p', sh))
    && (forall sh: Shard :: Bumped(p', sh) && !Bumped(p, sh) ==> s'.nodes(p.node).gens[sh] > s.nodes(p.node).gens[sh])
    && (forall k :: Cleared(p, k) ==> Cleared(p', k))
    && (forall k :: Cleared(p', k) && !Cleared(p, k) && cfg.localMatch(p.node, p.pattern, k) ==>
        k !in s'.nodes(p.node).l1)
    && (p'.sweep.SweepDone? && !p.sweep.SweepDone? ==>
          && p'.removed == p.removed
          && forall n, k :: n in cfg.nodes && n != p.node && k in p.removed ==> SomeUnread(cfg, s', n, k))
  }

  ghost predicate Moves(cfg: Config, s: System, s': System, p: Proc, p': Proc) {
    match p
    case Flight(_, _, _, _) => FlightMoves(cfg, s, s', p, p')
    case Getter(_, _, _) => GetterMoves(s, s', p, p')
    case Mutator(_, _, _, _, _, _, _, _) => MutatorMoves(cfg, s, s', p, p')
    case Sweeper(_, _, _, _, _) => SweeperMoves(cfg, s, s', p, p')
  }

  ghost predicate Fresh(cfg: Config, s': System, p: Proc) {
    match p
    case Flight(_, _, stage, _) => stage.Started?
    case Getter(_, _, stage) => stage.Calling?
    case Mutator(_, _, _, tried, wrote, committed, forgot, published) =>
      !tried && wrote.None? && committed.None? && !forgot && !published
    case Sweeper(_, _, local, removed, sweep) =>
      removed == map[] && (sweep.Removing? || sweep == Bumping(0)) && (sweep.Removing? ==> local)
  }

  ghost predicate ProcsMove(cfg: Config, s: System, s': System) {
    && (forall i :: i in s.procs ==> i in s'.procs && Moves(cfg, s, s', s.procs[i], s'.procs[i]))
    && (forall i :: i in s'.procs && i !in s.procs ==> Fresh(cfg, s', s'.procs[i]))
  }

  ghost predicate HistoryGrows(s: System, s': System) {
    && Now(s) <= Now(s')
    && forall i :: 0 <= i <= Now(s) ==> RedisAt(s', i) == RedisAt(s, i)
  }

  /** What enters L1 comes from a flight that was still allowed to write it. */
  ghost predicate WrittenBy(cfg: Config, s: System, n: NodeId, k: Key, e: Entry) {
    exists f :: Writable(cfg, s, f) && s.procs[f].node == n && s.procs[f].key == k && s.procs[f].stage.entry == e
  }

  ghost predicate NodesMove(cfg: Config, s: System, s': System) {
    && (forall n, k :: k in s'.nodes(n).l1 ==>
          || (k in s.nodes(n).l1 && s'.nodes(n).l1[k] == s.nodes(n).l1[k])
          || (WrittenBy(cfg, s, n, k, s'.nodes(n).l1[k]) && s'.nodes(n).gens == s.nodes(n).gens))
    && (forall n, sh: Shard :: s.nodes(n).gens[sh] <= s'.nodes(n).gens[sh])
    && (forall n, k :: k in s'.nodes(n).flights ==>
          || (k in s.nodes(n).flights && s'.nodes(n).flights[k] == s.nodes(n).flights[k])
          || (&& s'.nodes(n).flights[k] !in s.procs && s'.nodes(n).flights[k] in s'.procs
              && s'.procs[s'.nodes(n).flights[k]] == Flight(n, k, Started, false)))
  }

  /** A change of Redis leaves unfinished business everywhere; handling a message takes it over. */
  ghost predicate BusinessMoves(cfg: Config, s: System, s': System) {
    && (forall n, k, e :: n in cfg.nodes && Agrees(s, k, e) && !Agrees(s', k, e) ==>
          SomePending(cfg, s', n, k) && SomePendingForReads(cfg, s', n, k))
    && (forall m, n, k :: m in s.mail && Unread(cfg, s.mail[m], n, k) ==>
          || (m in s'.mail && Unread(cfg, s'.mail[m], n, k))
          || (SomePending(cfg, s', n, k) && SomePendingForReads(cfg, s', n, k)))
  }

  ghost predicate Transition(cfg: Config, s: System, s': System) {
    HistoryGrows(s, s') && ProcsMove(cfg, s, s') && NodesMove(cfg, s, s') && BusinessMoves(cfg, s, s')
  }

  /** A process that an action does not touch. */
  lemma Untouched(cfg: Config, s: System, s': System, p: Proc)
    requires HistoryGrows(s, s')
    requires p.Mutator? ==> Ordered(s, p)
    requires p.Sweeper? ==> OrderedSweep(cfg, s, p)
    ensures Moves(cfg, s, s', p, p)
  {
  }

  lemma GetNodes(cfg: Config, s: System, a: Action)
    requires EnabledGet(cfg, s, a) && Bookkeeping(cfg, s)
    ensures HistoryGrows(s, NextGet(cfg, s, a)) && NodesMove(cfg, s, NextGet(cfg, s, a))
  {
    if a.GetJoin? {
      JoinNodes(cfg, s, a);
    } else {
      assert NextGet(cfg, s, a).nodes == s.nodes;
    }
  }

  lemma JoinNodes(cfg: Config, s: System, a: Action)
    requires EnabledGet(cfg, s, a) && a.GetJoin?
    ensures HistoryGrows(s, NextGet(cfg, s, a)) && NodesMove(cfg, s, NextGet(cfg, s, a))
  {
    var s', p := NextGet(cfg, s, a), s.procs[a.id];
    forall n ensures s'.nodes(n).l1 == s.nodes(n).l1 && s'.nodes(n).gens == s.nodes(n).gens {}
  }

  lemma GetBusiness(cfg: Config, s: System, a: Action)
    requires EnabledGet(cfg, s, a) && Bookkeeping(cfg, s)
    ensures BusinessMoves(cfg, s, NextGet(cfg, s, a))
  {
  }

  lemma GetProcs(cfg: Config, s: System, a: Action)
    requires EnabledGet(cfg, s, a) && Bookkeeping(cfg, s)
    requires HistoryGrows(s, NextGet(cfg, s, a))
    ensures ProcsMove(cfg, s, NextGet(cfg, s, a))
  {
    var s' := NextGet(cfg, s, a);
    forall i | i in s.procs ensures i in s'.procs && Moves(cfg, s, s', s.procs[i], s'.procs[i]) {
      OtherThanGetter(cfg, s, a, i);
      if i == a.id {
        GetterStep(cfg, s, a);
      } else {
        Untouched(cfg, s, s', s.procs[i]);
      }
    }
    NewByGet(cfg, s, a);
  }

  lemma OtherThanGetter(cfg: Config, s: System, a: Action, i: ProcId)
    requires EnabledGet(cfg, s, a) && i in s.procs
    ensures i in NextGet(cfg, s, a).procs && (i != a.id ==> NextGet(cfg, s, a).procs[i] == s.procs[i])
  {
  }

  lemma GetterStep(cfg: Config, s: System, a: Action)
    requires EnabledGet(cfg, s, a) && a.id in s.procs
    ensures Moves(cfg, s, NextGet(cfg, s, a), s.procs[a.id], NextGet(cfg, s, a).procs[a.id])
  {
  }

  lemma NewByGet(cfg: Config, s: System, a: Action)
    requires EnabledGet(cfg, s, a)
    ensures var s' := NextGet(cfg, s, a);
            forall i :: i in s'.procs && i !in s.procs ==> Fresh(cfg, s', s'.procs[i])
  {
  }

  lemma FlightRest(cfg: Config, s: System, a: Action)
    requires EnabledFlight(s, a) && Bookkeeping(cfg, s)
    ensures var s' := NextFlight(cfg, s, a);
            HistoryGrows(s, s') && NodesMove(cfg, s, s') && BusinessMoves(cfg, s, s')
  {
    FlightNodes(cfg, s, a);
  }

  lemma FlightNodes(cfg: Config, s: System, a: Action)
    requires EnabledFlight(s, a) && Bookkeeping(cfg, s)
    ensures HistoryGrows(s, NextFlight(cfg, s, a)) && NodesMove(cfg, s, NextFlight(cfg, s, a))
  {
    if a.FlightCommit? {
      CommitNodes(cfg, s, a);
    } else {
      UnwrittenNodes(cfg, s, a);
    }
  }

  lemma CommitNodes(cfg: Config, s: System, a: Action)
    requires EnabledFlight(s, a) && a.FlightCommit?
    ensures HistoryGrows(s, NextFlight(cfg, s, a)) && NodesMove(cfg, s, NextFlight(cfg, s, a))
  {
  }

  lemma UnwrittenNodes(cfg: Config, s: System, a: Action)
    requires EnabledFlight(s, a) && !a.FlightCommit?
    ensures HistoryGrows(s, NextFlight(cfg, s, a)) && NodesMove(cfg, s, NextFlight(cfg, s, a))
  {
  }

  lemma FlightProcs(cfg: Config, s: System, a: Action)
    requires EnabledFlight(s, a) && Bookkeeping(cfg, s)
    requires HistoryGrows(s, NextFlight(cfg, s, a))
    ensures ProcsMove(cfg, s, NextFlight(cfg, s, a))
  {
    var s' := NextFlight(cfg, s, a);
    forall i | i in s.procs ensures i in s'.procs && Moves(cfg, s, s', s.procs[i], s'.procs[i]) {
      if s'.procs[i] == s.procs[i] { Untouched(cfg, s, s', s.procs[i]); }
    }
  }

  lemma MutationNodes(cfg: Config, s: System, a: Action)
    requires EnabledMutation(cfg, s, a) && Bookkeeping(cfg, s)
    ensures HistoryGrows(s, NextMutation(cfg, s, a)) && NodesMove(cfg, s, NextMutation(cfg, s, a))
  {
    if a.MutCommit? || a.MutForget? {
      LocalMutationNodes(cfg, s, a);
    } else {
      RemoteMutationNodes(cfg, s, a);
    }
  }

  lemma LocalMutationNodes(cfg: Config, s: System, a: Action)
    requires EnabledMutation(cfg, s, a) && (a.MutCommit? || a.MutForget?)
    ensures HistoryGrows(s, NextMutation(cfg, s, a)) && NodesMove(cfg, s, NextMutation(cfg, s, a))
  {
  }

  lemma RemoteMutationNodes(cfg: Config, s: System, a: Action)
    requires EnabledMutation(cfg, s, a) && !a.MutCommit? && !a.MutForget?
    ensures HistoryGrows(s, NextMutation(cfg, s, a)) && NodesMove(cfg, s, NextMutation(cfg, s, a))
  {
  }

  lemma MutationBusiness(cfg: Config, s: System, a: Action)
    requires EnabledMutation(cfg, s, a) && Bookkeeping(cfg, s)
    ensures BusinessMoves(cfg, s, NextMutation(cfg, s, a))
  {
    var s' := NextMutation(cfg, s, a);
    forall n, k, e | n in cfg.nodes && Agrees(s, k, e) && !Agrees(s', k, e)
      ensures SomePending(cfg, s', n, k) && SomePendingForReads(cfg, s', n, k)
    {
      assert a.MutSend?;
      assert Pending(cfg, s'.procs[a.id], n, k) && PendingForReads(cfg, s'.procs[a.id], n, k);
    }
  }

  lemma MutationMoves(cfg: Config, s: System, a: Action)
    requires EnabledMutation(cfg, s, a) && Bookkeeping(cfg, s)
    requires !a.MutCall?
    ensures Moves(cfg, s, NextMutation(cfg, s, a), s.procs[a.id], NextMutation(cfg, s, a).procs[a.id])
  {
    var s', p := NextMutation(cfg, s, a), s.procs[a.id];
    if a.MutPublish? {
      forall n | n in cfg.nodes && n != p.node ensures SomeUnread(cfg, s', n, p.key) {
        assert Unread(cfg, s'.mail[a.m], n, p.key);
      }
    }
  }

  lemma MutationProcs(cfg: Config, s: System, a: Action)
    requires EnabledMutation(cfg, s, a) && Bookkeeping(cfg, s)
    requires HistoryGrows(s, NextMutation(cfg, s, a))
    ensures ProcsMove(cfg, s, NextMutation(cfg, s, a))
  {
    var s' := NextMutation(cfg, s, a);
    forall i | i in s.procs ensures i in s'.procs && Moves(cfg, s, s', s.procs[i], s'.procs[i]) {
      if i == a.id { MutationMoves(cfg, s, a); } else { Untouched(cfg, s, s', s.procs[i]); }
    }
  }

  lemma SweepNodes(cfg: Config, s: System, a: Action)
    requires EnabledSweep(cfg, s, a) && Bookkeeping(cfg, s)
    ensures HistoryGrows(s, NextSweep(cfg, s, a)) && NodesMove(cfg, s, NextSweep(cfg, s, a))
  {
  }

  lemma SweepBusiness(cfg: Config, s: System, a: Action)
    requires EnabledSweep(cfg, s, a) && Bookkeeping(cfg, s)
    ensures BusinessMoves(cfg, s, NextSweep(cfg, s, a))
  {
    var s' := NextSweep(cfg, s, a);
    forall n, k, e | n in cfg.nodes && Agrees(s, k, e) && !Agrees(s', k, e)
      ensures SomePending(cfg, s', n, k) && SomePendingForReads(cfg, s', n, k)
    {
      assert a.SweepRemove?;
      assert Pending(cfg, s'.procs[a.id], n, k) && PendingForReads(cfg, s'.procs[a.id], n, k);
    }
  }

  lemma SweepMoves(cfg: Config, s: System, a: Action)
    requires EnabledSweep(cfg, s, a) && Bookkeeping(cfg, s)
    requires !a.SweepCall?
    ensures Moves(cfg, s, NextSweep(cfg, s, a), s.procs[a.id], NextSweep(cfg, s, a).procs[a.id])
  {
    if a.SweepPublish? {
      SweepPublishMoves(cfg, s, a);
    } else if a.SweepBump? {
      BumpMoves(cfg, s, a);
    } else if a.SweepRemove? {
      SweepRemoveMoves(cfg, s, a);
    } else {
      SweepKeyMoves(cfg, s, a);
    }
  }

  lemma SweepRemoveMoves(cfg: Config, s: System, a: Action)
    requires EnabledSweep(cfg, s, a) && Bookkeeping(cfg, s) && a.SweepRemove?
    ensures Moves(cfg, s, NextSweep(cfg, s, a), s.procs[a.id], NextSweep(cfg, s, a).procs[a.id])
  {
  }

  lemma SweepKeyMoves(cfg: Config, s: System, a: Action)
    requires EnabledSweep(cfg, s, a) && Bookkeeping(cfg, s) && (a.SweepKey? || a.SweepEnd?)
    ensures Moves(cfg, s, NextSweep(cfg, s, a), s.procs[a.id], NextSweep(cfg, s, a).procs[a.id])
  {
  }

  lemma SweepPublishMoves(cfg: Config, s: System, a: Action)
    requires EnabledSweep(cfg, s, a) && Bookkeeping(cfg, s) && a.SweepPublish?
    ensures Moves(cfg, s, NextSweep(cfg, s, a), s.procs[a.id], NextSweep(cfg, s, a).procs[a.id])
  {
    var s', p := NextSweep(cfg, s, a), s.procs[a.id];
    forall n, k | n in cfg.nodes && n != p.node && k in p.removed ensures SomeUnread(cfg, s', n, k) {
      assert Unread(cfg, s'.mail[a.m], n, k);
    }
  }

  lemma BumpMoves(cfg: Config, s: System, a: Action)
    requires EnabledSweep(cfg, s, a) && Bookkeeping(cfg, s)
    requires a.SweepBump?
    ensures SweeperMoves(cfg, s, NextSweep(cfg, s, a), s.procs[a.id], NextSweep(cfg, s, a).procs[a.id])
  {
    var s', p := NextSweep(cfg, s, a), s.procs[a.id];
    var p' := s'.procs[a.id];
    forall sh: Shard | Bumped(p', sh) && !Bumped(p, sh)
      ensures s'.nodes(p.node).gens[sh] > s.nodes(p.node).gens[sh]
    {
      assert p.sweep == Bumping(sh);
    }
  }

  lemma SweepProcs(cfg: Config, s: System, a: Action)
    requires EnabledSweep(cfg, s, a) && Bookkeeping(cfg, s)
    requires HistoryGrows(s, NextSweep(cfg, s, a))
    ensures ProcsMove(cfg, s, NextSweep(cfg, s, a))
  {
    var s' := NextSweep(cfg, s, a);
    forall i | i in s.procs ensures i in s'.procs && Moves(cfg, s, s', s.procs[i], s'.procs[i]) {
      if i == a.id { SweepMoves(cfg, s, a); } else { Untouched(cfg, s, s', s.procs[i]); }
    }
  }

  lemma DeliveryNodes(cfg: Config, s: System, a: Action)
    requires EnabledDelivery(s, a)
    ensures HistoryGrows(s, NextDelivery(cfg, s, a)) && NodesMove(cfg, s, NextDelivery(cfg, s, a))
  {
    assert NextDelivery(cfg, s, a).nodes == s.nodes;
  }

  lemma DeliveryBusiness(cfg: Config, s: System, a: Action)
    requires EnabledDelivery(s, a)
    ensures BusinessMoves(cfg, s, NextDelivery(cfg, s, a))
  {
    var s' := NextDelivery(cfg, s, a);
    forall m, n, k | m in s.mail && Unread(cfg, s.mail[m], n, k)
      ensures (m in s'.mail && Unread(cfg, s'.mail[m], n, k))
           || (SomePending(cfg, s', n, k) && SomePendingForReads(cfg, s', n, k))
    {
      if m == a.m && n == a.n {
        assert Pending(cfg, s'.procs[a.id], n, k) && PendingForReads(cfg, s'.procs[a.id], n, k);
      }
    }
  }

  lemma DeliveryProcs(cfg: Config, s: System, a: Action)
    requires EnabledDelivery(s, a) && Bookkeeping(cfg, s)
    requires HistoryGrows(s, NextDelivery(cfg, s, a))
    ensures ProcsMove(cfg, s, NextDelivery(cfg, s, a))
  {
    var s' := NextDelivery(cfg, s, a);
    forall i | i in s.procs ensures i in s'.procs && Moves(cfg, s, s', s.procs[i], s'.procs[i]) {
      Untouched(cfg, s, s', s.procs[i]);
    }
  }

  lemma EvictTransition(cfg: Config, s: System, n: NodeId, k: Key)
    requires Bookkeeping(cfg, s)
    ensures Transition(cfg, s, PutNode(s, n, Drop(s.nodes(n), k)))
  {
  }

  lemma StepIsTransition(cfg: Config, s: System, a: Action)
    requires Enabled(cfg, s, a) && Bookkeeping(cfg, s)
    ensures Transition(cfg, s, Next(cfg, s, a))
  {
    if EnabledGet(cfg, s, a) {
      GetNodes(cfg, s, a);
      GetBusiness(cfg, s, a);
      GetProcs(cfg, s, a);
    } else if EnabledFlight(s, a) {
      FlightRest(cfg, s, a);
      FlightProcs(cfg, s, a);
    } else if EnabledMutation(cfg, s, a) {
      MutationNodes(cfg, s, a);
      MutationBusiness(cfg, s, a);
      MutationProcs(cfg, s, a);
    } else if EnabledSweep(cfg, s, a) {
      SweepNodes(cfg, s, a);
      SweepBusiness(cfg, s, a);
      SweepProcs(cfg, s, a);
    } else if EnabledDelivery(s, a) {
      DeliveryNodes(cfg, s, a);
      DeliveryBusiness(cfg, s, a);
      DeliveryProcs(cfg, s, a);
    } else {
      EvictTransition(cfg, s, a.n, a.k);
    }
  }

  // ---------------------------------------------------------------- invariants, from the shape of a step

  lemma GenuineKept(s: System, s': System, k: Key, e: Entry)
    requires HistoryGrows(s, s') && Genuine(s, k, e)
    ensures Genuine(s', k, e)
  {
  }

  lemma ProvenanceKept(cfg: Config, s: System, s': System)
    requires Transition(cfg, s, s') && Provenance(s) && Bookkeeping(cfg, s)
    ensures Provenance(s')
  {
    forall n, k | k in s'.nodes(n).l1 ensures Genuine(s', k, s'.nodes(n).l1[k]) {
      GenuineKept(s, s', k, s'.nodes(n).l1[k]);
    }
    forall f | IsFlight(s', f) ensures GenuineStage(s', s'.procs[f].key, s'.procs[f].stage) {
      FlightGenuineKept(cfg, s, s', f);
    }
    forall g | IsGetter(s', g) && s'.procs[g].getStage.Returned?
      ensures GenuineAnswer(s', s'.procs[g].key, s'.procs[g].getStage.answer)
    {
      GetterGenuineKept(cfg, s, s', g);
    }
  }

  lemma FlightGenuineKept(cfg: Config, s: System, s': System, f: ProcId)
    requires Transition(cfg, s, s') && Provenance(s) && IsFlight(s', f)
    ensures GenuineStage(s', s'.procs[f].key, s'.procs[f].stage)
  {
    if f in s.procs {
      var p, p' := s.procs[f], s'.procs[f];
      assert Moves(cfg, s, s', p, p');
    }
  }

  lemma GetterGenuineKept(cfg: Config, s: System, s': System, g: ProcId)
    requires Transition(cfg, s, s') && Provenance(s) && Bookkeeping(cfg, s) && IsGetter(s', g)
        && s'.procs[g].getStage.Returned?
    ensures GenuineAnswer(s', s'.procs[g].key, s'.procs[g].getStage.answer)
  {
    var p, p' := s.procs[g], s'.procs[g];
    assert Moves(cfg, s, s', p, p');
  }

  lemma HeldGenerationKept(cfg: Config, s: System, s': System, f: ProcId)
    requires Transition(cfg, s, s') && Bookkeeping(cfg, s) && IsFlight(s', f) && HoldsGeneration(s'.procs[f].stage)
    ensures HeldGeneration(s'.procs[f].stage) <= s'.nodes(s'.procs[f].node).gens[cfg.shardOf(s'.procs[f].key)]
  {
    assert f in s.procs ==> Moves(cfg, s, s', s.procs[f], s'.procs[f]);
  }

  lemma RegisteredKept(cfg: Config, s: System, s': System, n: NodeId, k: Key)
    requires Transition(cfg, s, s') && Bookkeeping(cfg, s) && k in s'.nodes(n).flights
    ensures var f := s'.nodes(n).flights[k];
            IsFlight(s', f) && s'.procs[f].node == n && s'.procs[f].key == k
  {
    var f := s'.nodes(n).flights[k];
    assert f in s.procs ==> Moves(cfg, s, s', s.procs[f], s'.procs[f]);
  }

  lemma WaitedForKept(cfg: Config, s: System, s': System, g: ProcId)
    requires Transition(cfg, s, s') && Bookkeeping(cfg, s) && IsGetter(s', g) && s'.procs[g].getStage.Waiting?
    ensures var f := s'.procs[g].getStage.flight;
            IsFlight(s', f) && s'.procs[f].node == s'.procs[g].node && s'.procs[f].key == s'.procs[g].key
  {
    var f := s'.procs[g].getStage.flight;
    assert Moves(cfg, s, s', s.procs[g], s'.procs[g]);
    if s.procs[g].getStage == s'.procs[g].getStage {
      assert Moves(cfg, s, s', s.procs[f], s'.procs[f]);
    } else {
      RegisteredKept(cfg, s, s', s.procs[g].node, s.procs[g].key);
    }
  }

  lemma BookkeepingKept(cfg: Config, s: System, s': System)
    requires Transition(cfg, s, s') && Bookkeeping(cfg, s)
    ensures Bookkeeping(cfg, s')
  {
    forall f | IsFlight(s', f) && HoldsGeneration(s'.procs[f].stage)
      ensures HeldGeneration(s'.procs[f].stage) <= s'.nodes(s'.procs[f].node).gens[cfg.shardOf(s'.procs[f].key)]
    {
      HeldGenerationKept(cfg, s, s', f);
    }
    forall n, k | k in s'.nodes(n).flights
      ensures && IsFlight(s', s'.nodes(n).flights[k])
              && s'.procs[s'.nodes(n).flights[k]].node == n && s'.procs[s'.nodes(n).flights[k]].key == k
    {
      RegisteredKept(cfg, s, s', n, k);
    }
    forall g | IsGetter(s', g) && s'.procs[g].getStage.Waiting?
      ensures && IsFlight(s', s'.procs[g].getStage.flight)
              && s'.procs[s'.procs[g].getStage.flight].node == s'.procs[g].node
              && s'.procs[s'.procs[g].getStage.flight].key == s'.procs[g].key
    {
      WaitedForKept(cfg, s, s', g);
    }
    forall m | IsMutator(s', m) ensures Ordered(s', s'.procs[m]) {
      assert m in s.procs ==> Moves(cfg, s, s', s.procs[m], s'.procs[m]);
    }
    forall w | IsSweeper(s', w) ensures OrderedSweep(cfg, s', s'.procs[w]) {
      assert w in s.procs ==> Moves(cfg, s, s', s.procs[w], s'.procs[w]);
    }
  }

  /** A sweep stays, keeps its pattern, and affects what it has affected. */
  lemma CoveredBefore(cfg: Config, s: System, s': System, n: NodeId, k: Key)
    requires Transition(cfg, s, s') && Covered(cfg, s', n, k)
    ensures Covered(cfg, s, n, k)
  {
    forall w | IsSweeper(s, w) && s.procs[w].node == n && Affects(cfg, s.procs[w], k)
      ensures cfg.localMatch(n, s.procs[w].pattern, k)
    {
      assert Moves(cfg, s, s', s.procs[w], s'.procs[w]);
    }
  }

  lemma PendingKept(cfg: Config, s: System, s': System, n: NodeId, k: Key, i: ProcId)
    requires Transition(cfg, s, s') && Bookkeeping(cfg, s) && n in cfg.nodes && Covered(cfg, s, n, k)
    requires i in s.procs && Pending(cfg, s.procs[i], n, k)
    ensures SomePending(cfg, s', n, k) || SomeUnread(cfg, s', n, k) || k !in s'.nodes(n).l1
  {
  }

  lemma PendingForReadsKept(cfg: Config, s: System, s': System, n: NodeId, k: Key, i: ProcId)
    requires Transition(cfg, s, s') && Bookkeeping(cfg, s) && n in cfg.nodes
    requires i in s.procs && PendingForReads(cfg, s.procs[i], n, k)
    ensures
      || SomePendingForReads(cfg, s', n, k) || SomeUnread(cfg, s', n, k)
      || s'.nodes(n).gens[cfg.shardOf(k)] > s.nodes(n).gens[cfg.shardOf(k)]
  {
  }

  lemma CoherentL1Kept(cfg: Config, s: System, s': System, n: NodeId, k: Key)
    requires Transition(cfg, s, s') && Bookkeeping(cfg, s) && Coherent(cfg, s)
    requires n in cfg.nodes && Covered(cfg, s', n, k)
    ensures CoherentL1(cfg, s', n, k)
  {
    CoveredBefore(cfg, s, s', n, k);
    if k in s'.nodes(n).l1 && !SomePending(cfg, s', n, k) && !SomeUnread(cfg, s', n, k) {
      var e := s'.nodes(n).l1[k];
      if SomePending(cfg, s, n, k) {
        var i :| i in s.procs && Pending(cfg, s.procs[i], n, k);
        PendingKept(cfg, s, s', n, k, i);
      }
      if WrittenBy(cfg, s, n, k, e) {
        var f :| Writable(cfg, s, f) && s.procs[f].node == n && s.procs[f].key == k && s.procs[f].stage.entry == e;
        assert CoherentFetch(cfg, s, f);
        ReadersWaitLess(cfg, s, n, k);
      } else {
        assert CoherentL1(cfg, s, n, k);
      }
    }
  }

  lemma ReadersWaitLess(cfg: Config, s: System, n: NodeId, k: Key)
    ensures SomePendingForReads(cfg, s, n, k) ==> SomePending(cfg, s, n, k)
  {
    if i :| i in s.procs && PendingForReads(cfg, s.procs[i], n, k) {
      assert Pending(cfg, s.procs[i], n, k);
    }
  }

  /** Whatever made up for the difference between a fetch and Redis, something still does. */
  lemma CoveredStays(cfg: Config, s: System, s': System, n: NodeId, k: Key, e: Entry)
    requires Transition(cfg, s, s') && n in cfg.nodes
    requires Agrees(s, k, e) || SomeUnread(cfg, s, n, k)
    ensures Agrees(s', k, e) || SomePendingForReads(cfg, s', n, k) || SomeUnread(cfg, s', n, k)
  {
    if !Agrees(s, k, e) {
      var m :| m in s.mail && Unread(cfg, s.mail[m], n, k);
    }
  }

  lemma CoherentFetchKept(cfg: Config, s: System, s': System, f: ProcId)
    requires Transition(cfg, s, s') && Bookkeeping(cfg, s) && Coherent(cfg, s)
    requires Writable(cfg, s', f) && s'.procs[f].node in cfg.nodes
    ensures CoherentFetch(cfg, s', f)
  {
    var p' := s'.procs[f];
    var n, k := p'.node, p'.key;
    assert f in s.procs && FlightMoves(cfg, s, s', s.procs[f], p');
    if s.procs[f].stage == p'.stage {
      assert Writable(cfg, s, f) && CoherentFetch(cfg, s, f);
      if SomePendingForReads(cfg, s, n, k) {
        var i :| i in s.procs && PendingForReads(cfg, s.procs[i], n, k);
        PendingForReadsKept(cfg, s, s', n, k, i);
      } else {
        CoveredStays(cfg, s, s', n, k, p'.stage.entry);
      }
    }
  }

  /** A fetch that can still be written was already that, or has just been made. */
  lemma WritableKept(cfg: Config, s: System, s': System, f: ProcId)
    requires Transition(cfg, s, s') && Bookkeeping(cfg, s) && Writable(cfg, s', f)
    ensures f in s.procs && FlightMoves(cfg, s, s', s.procs[f], s'.procs[f])
    ensures
      var p := s'.procs[f];
      || p.stage.entry.at == Now(s')
      || (&& Writable(cfg, s, f) && s.procs[f].stage == p.stage
          && s'.nodes(p.node).gens[cfg.shardOf(p.key)] == s.nodes(p.node).gens[cfg.shardOf(p.key)])
  {
    assert f in s.procs && Moves(cfg, s, s', s.procs[f], s'.procs[f]);
  }

  lemma L1FloorKept(cfg: Config, s: System, s': System, m: ProcId)
    requires Transition(cfg, s, s') && Bookkeeping(cfg, s) && Floors(cfg, s) && IsMutator(s', m)
    ensures var p := s'.procs[m];
            p.committed.Some? && p.key in s'.nodes(p.node).l1 ==> s'.nodes(p.node).l1[p.key].at >= p.committed.value
  {
    var p' := s'.procs[m];
    if p'.committed.Some? && p'.key in s'.nodes(p'.node).l1 {
      assert m in s.procs && Moves(cfg, s, s', s.procs[m], p');
      assert MutatorFloor(cfg, s, m);
    }
  }

  lemma FetchFloorKept(cfg: Config, s: System, s': System, m: ProcId, f: ProcId)
    requires Transition(cfg, s, s') && Bookkeeping(cfg, s) && Floors(cfg, s) && IsMutator(s', m)
    requires s'.procs[m].committed.Some? && Writable(cfg, s', f)
    requires s'.procs[f].node == s'.procs[m].node && s'.procs[f].key == s'.procs[m].key
    ensures s'.procs[f].stage.entry.at >= s'.procs[m].committed.value
  {
    assert m in s.procs && Moves(cfg, s, s', s.procs[m], s'.procs[m]);
    WritableKept(cfg, s, s', f);
    assert MutatorFloor(cfg, s, m);
  }

  /** A flight that carries nothing older than m goes on to carry nothing older. */
  lemma StageAboveKept(cfg: Config, s: System, s': System, m: Proc, m': Proc, p: Proc, p': Proc)
    requires m.Mutator? && p.Flight? && m.forgot && Ordered(s, m) && MutatorMoves(cfg, s, s', m, m')
        && FlightMoves(cfg, s, s', p, p')
    requires p.node == m.node && p.key == m.key && Now(s) <= Now(s')
    requires m.committed.Some? && m.key in s.nodes(m.node).l1 ==> s.nodes(m.node).l1[m.key].at >= m.committed.value
    requires StageAbove(m, p.stage)
    ensures StageAbove(m', p'.stage)
  {
  }

  lemma FlightFloorKept(cfg: Config, s: System, s': System, m: ProcId)
    requires Transition(cfg, s, s') && Bookkeeping(cfg, s) && Floors(cfg, s) && IsMutator(s', m)
    requires var p := s'.procs[m];
             p.forgot && p.key in s'.nodes(p.node).flights && IsFlight(s', s'.nodes(p.node).flights[p.key])
    ensures var p := s'.procs[m]; StageAbove(p, s'.procs[s'.nodes(p.node).flights[p.key]].stage)
  {
    var p' := s'.procs[m];
    var f := s'.nodes(p'.node).flights[p'.key];
    assert m in s.procs && Moves(cfg, s, s', s.procs[m], p');
    if f in s.procs {
      assert Moves(cfg, s, s', s.procs[f], s'.procs[f]);
      assert MutatorFloor(cfg, s, m);
      StageAboveKept(cfg, s, s', s.procs[m], p', s.procs[f], s'.procs[f]);
    }
  }

  lemma MutatorFloorKept(cfg: Config, s: System, s': System, m: ProcId)
    requires Transition(cfg, s, s') && Bookkeeping(cfg, s) && Floors(cfg, s) && IsMutator(s', m)
    ensures MutatorFloor(cfg, s', m)
  {
    var p := s'.procs[m];
    L1FloorKept(cfg, s, s', m);
    forall f | p.committed.Some? && Writable(cfg, s', f) && s'.procs[f].node == p.node && s'.procs[f].key == p.key
      ensures s'.procs[f].stage.entry.at >= p.committed.value
    {
      FetchFloorKept(cfg, s, s', m, f);
    }
    if p.forgot && p.key in s'.nodes(p.node).flights && IsFlight(s', s'.nodes(p.node).flights[p.key]) {
      FlightFloorKept(cfg, s, s', m);
    }
  }

  lemma SweptFetchFloorKept(cfg: Config, s: System, s': System, w: ProcId, f: ProcId, k: Key)
    requires Transition(cfg, s, s') && Bookkeeping(cfg, s) && Floors(cfg, s) && IsSweeper(s', w)
    requires k in s'.procs[w].removed && Bumped(s'.procs[w], cfg.shardOf(k)) && Writable(cfg, s', f)
    requires s'.procs[f].node == s'.procs[w].node && s'.procs[f].key == k
    ensures s'.procs[f].stage.entry.at >= s'.procs[w].removed[k]
  {
    assert w in s.procs && SweeperMoves(cfg, s, s', s.procs[w], s'.procs[w]);
    WritableKept(cfg, s, s', f);
    assert SweepFloor(cfg, s, w);
  }

  lemma SweptL1FloorKept(cfg: Config, s: System, s': System, w: ProcId, k: Key)
    requires Transition(cfg, s, s') && Bookkeeping(cfg, s) && Floors(cfg, s) && IsSweeper(s', w)
    requires var p := s'.procs[w];
             && k in p.removed && Cleared(p, k) && cfg.localMatch(p.node, p.pattern, k) && k in s'.nodes(p.node).l1
    ensures s'.nodes(s'.procs[w].node).l1[k].at >= s'.procs[w].removed[k]
  {
    assert w in s.procs && SweeperMoves(cfg, s, s', s.procs[w], s'.procs[w]);
    assert SweepFloor(cfg, s, w);
    assert Bumped(s.procs[w], cfg.shardOf(k));
  }

  lemma SweepFloorKept(cfg: Config, s: System, s': System, w: ProcId)
    requires Transition(cfg, s, s') && Bookkeeping(cfg, s) && Floors(cfg, s) && IsSweeper(s', w)
    ensures SweepFloor(cfg, s', w)
  {
    var p := s'.procs[w];
    forall k, f | k in p.removed && Bumped(p, cfg.shardOf(k)) && Writable(cfg, s', f) && s'.procs[f].node == p.node
        && s'.procs[f].key == k
      ensures s'.procs[f].stage.entry.at >= p.removed[k]
    {
      SweptFetchFloorKept(cfg, s, s', w, f, k);
    }
    forall k | k in p.removed && Cleared(p, k) && cfg.localMatch(p.node, p.pattern, k) && k in s'.nodes(p.node).l1
      ensures s'.nodes(p.node).l1[k].at >= p.removed[k]
    {
      SweptL1FloorKept(cfg, s, s', w, k);
    }
  }

  lemma InvKept(cfg: Config, s: System, a: Action)
    requires Enabled(cfg, s, a) && Inv(cfg, s)
    ensures Inv(cfg, Next(cfg, s, a))
  {
    var s' := Next(cfg, s, a);
    StepIsTransition(cfg, s, a);
    ProvenanceKept(cfg, s, s');
    BookkeepingKept(cfg, s, s');
    forall n, k | n in cfg.nodes && Covered(cfg, s', n, k) ensures CoherentL1(cfg, s', n, k) {
      CoherentL1Kept(cfg, s, s', n, k);
    }
    forall f | Writable(cfg, s', f) && s'.procs[f].node in cfg.nodes ensures CoherentFetch(cfg, s', f) {
      CoherentFetchKept(cfg, s, s', f);
    }
    forall m | IsMutator(s', m) ensures MutatorFloor(cfg, s', m) {
      MutatorFloorKept(cfg, s, s', m);
    }
    forall w | IsSweeper(s', w) ensures SweepFloor(cfg, s', w) {
      SweepFloorKept(cfg, s, s', w);
    }
  }

  // ---------------------------------------------------------------- whole runs

  lemma {:induction false} RunInv(cfg: Config, states: seq<System>, actions: seq<Action>, i: nat)
    requires Run(cfg, states, actions) && i < |states|
    ensures Inv(cfg, states[i])
  {
    if i == 0 {
      InitInv(cfg, states[0]);
    } else {
      RunInv(cfg, states, actions, i - 1);
      InvKept(cfg, states[i - 1], actions[i - 1]);
    }
  }

  /** In every reachable state, under every interleaving and every hash: an entry of L1 that differs from Redis is
    * covered by a mutation that has changed Redis and has not deleted it yet, or by an invalidation message that this
    * instance has not been sent or has not handled yet. */
  lemma L1DiffersOnlyWhilePending(cfg: Config, states: seq<System>, actions: seq<Action>, i: nat, n: NodeId, k: Key)
    requires Run(cfg, states, actions) && i < |states|
    requires n in cfg.nodes && Covered(cfg, states[i], n, k)
    requires k in states[i].nodes(n).l1 && !Agrees(states[i], k, states[i].nodes(n).l1[k])
    ensures SomePending(cfg, states[i], n, k) || SomeUnread(cfg, states[i], n, k)
  {
    RunInv(cfg, states, actions, i);
    assert CoherentL1(cfg, states[i], n, k);
  }

  /** Every mutation has run to its end. */
  ghost predicate Drained(s: System) {
    && (forall m :: IsMutator(s, m) ==> Done(s.procs[m]))
    && (forall w :: IsSweeper(s, w) ==> s.procs[w].sweep.SweepDone?)
    && (forall m :: m in s.mail ==> s.mail[m].pending == {})
  }

  lemma NothingLeft(cfg: Config, s: System, n: NodeId, k: Key)
    requires Drained(s) && Bookkeeping(cfg, s)
    ensures !SomePending(cfg, s, n, k) && !SomeUnread(cfg, s, n, k)
  {
    forall j | j in s.procs ensures !Pending(cfg, s.procs[j], n, k) {
      assert IsMutator(s, j) ==> Done(s.procs[j]);
    }
  }

  /** When all mutations have finished and all messages are handled, every entry of every L1 equals Redis. */
  lemma DrainedIsConsistent(cfg: Config, states: seq<System>, actions: seq<Action>, i: nat, n: NodeId, k: Key)
    requires Run(cfg, states, actions) && i < |states|
    requires Drained(states[i])
    requires n in cfg.nodes && Covered(cfg, states[i], n, k) && k in states[i].nodes(n).l1
    ensures k in states[i].redis && states[i].nodes(n).l1[k].value == states[i].redis[k]
  {
    var s := states[i];
    RunInv(cfg, states, actions, i);
    assert CoherentL1(cfg, s, n, k);
    NothingLeft(cfg, s, n, k);
  }

  /** Everything belongs to the one instance n, and no message is ever handled. */
  ghost predicate Alone(s: System, n: NodeId) {
    && (forall i :: i in s.procs ==>
          && s.procs[i].node == n
          && (s.procs[i].Mutator? ==> !s.procs[i].kind.ReceiveOf?)
          && (s.procs[i].Sweeper? ==> s.procs[i].local))
    && (forall m :: m in s.mail ==> s.mail[m].origin == n && s.mail[m].pending <= {n})
  }

  lemma AloneProc(cfg: Config, s: System, a: Action, n: NodeId, i: ProcId)
    requires Enabled(cfg, s, a) && cfg.nodes == {n} && Alone(s, n)
    requires i in Next(cfg, s, a).procs && i !in s.procs
    ensures var p := Next(cfg, s, a).procs[i];
            AloneIs(p, n)
  {
    if EnabledDelivery(s, a) {
      AloneDelivery(cfg, s, a, n);
    } else if EnabledGet(cfg, s, a) {
      AloneGet(cfg, s, a, n, i);
    }
  }

  ghost predicate AloneIs(p: Proc, n: NodeId) {
    p.node == n && (p.Mutator? ==> !p.kind.ReceiveOf?) && (p.Sweeper? ==> p.local)
  }

  lemma AloneGet(cfg: Config, s: System, a: Action, n: NodeId, i: ProcId)
    requires EnabledGet(cfg, s, a) && cfg.nodes == {n} && Alone(s, n)
    requires i in NextGet(cfg, s, a).procs && i !in s.procs
    ensures AloneIs(NextGet(cfg, s, a).procs[i], n)
  {
  }

  /** A message of the only instance is its own: it starts nothing. */
  lemma AloneDelivery(cfg: Config, s: System, a: Action, n: NodeId)
    requires EnabledDelivery(s, a) && Alone(s, n)
    ensures NextDelivery(cfg, s, a).procs == s.procs
  {
    assert a.n in s.mail[a.m].pending;
  }

  lemma AloneMail(cfg: Config, s: System, a: Action, n: NodeId, m: nat)
    requires Enabled(cfg, s, a) && cfg.nodes == {n} && Alone(s, n) && m in Next(cfg, s, a).mail
    ensures Next(cfg, s, a).mail[m].origin == n && Next(cfg, s, a).mail[m].pending <= {n}
  {
    if EnabledSweep(cfg, s, a) {
      AloneSweepMail(cfg, s, a, n, m);
    } else if EnabledMutation(cfg, s, a) {
      AloneMutationMail(cfg, s, a, n, m);
    } else if !EnabledDelivery(s, a) {
      OtherMail(cfg, s, a);
    }
  }

  lemma AloneSweepMail(cfg: Config, s: System, a: Action, n: NodeId, m: nat)
    requires EnabledSweep(cfg, s, a) && cfg.nodes == {n} && Alone(s, n) && m in NextSweep(cfg, s, a).mail
    ensures NextSweep(cfg, s, a).mail[m].origin == n && NextSweep(cfg, s, a).mail[m].pending <= {n}
  {
  }

  lemma AloneMutationMail(cfg: Config, s: System, a: Action, n: NodeId, m: nat)
    requires EnabledMutation(cfg, s, a) && cfg.nodes == {n} && Alone(s, n) && m in NextMutation(cfg, s, a).mail
    ensures NextMutation(cfg, s, a).mail[m].origin == n && NextMutation(cfg, s, a).mail[m].pending <= {n}
  {
  }

  lemma OtherMail(cfg: Config, s: System, a: Action)
    requires Enabled(cfg, s, a) && !EnabledSweep(cfg, s, a) && !EnabledMutation(cfg, s, a) && !EnabledDelivery(s, a)
    ensures Next(cfg, s, a).mail == s.mail
  {
  }

  lemma AloneKept(cfg: Config, s: System, a: Action, n: NodeId)
    requires Enabled(cfg, s, a) && cfg.nodes == {n} && Alone(s, n) && Bookkeeping(cfg, s)
    ensures Alone(Next(cfg, s, a), n)
  {
    var s' := Next(cfg, s, a);
    StepIsTransition(cfg, s, a);
    forall m | m in s'.mail ensures s'.mail[m].origin == n && s'.mail[m].pending <= {n} {
      AloneMail(cfg, s, a, n, m);
    }
    forall i | i in s'.procs
      ensures s'.procs[i].node == n && (s'.procs[i].Mutator? ==> !s'.procs[i].kind.ReceiveOf?)
          && (s'.procs[i].Sweeper? ==> s'.procs[i].local)
    {
      if i in s.procs {
        assert Moves(cfg, s, s', s.procs[i], s'.procs[i]);
      } else {
        AloneProc(cfg, s, a, n, i);
      }
    }
  }

  /** A property that every step of a run keeps. */
  lemma {:induction false} KeptFrom(states: seq<System>, holds: System -> bool, i: nat, j: nat)
    requires i <= j < |states| && holds(states[i])
    requires forall k :: i <= k < j && holds(states[k]) ==> holds(states[k + 1])
    ensures holds(states[j])
    decreases j - i
  {
    if i < j {
      KeptFrom(states, holds, i, j - 1);
    }
  }

  lemma AloneInRun(cfg: Config, states: seq<System>, actions: seq<Action>, i: nat, n: NodeId)
    requires Run(cfg, states, actions) && i + 1 < |states| && cfg.nodes == {n} && Alone(states[i], n)
    ensures Alone(states[i + 1], n)
  {
    RunInv(cfg, states, actions, i);
    assert Enabled(cfg, states[i], actions[i]) && states[i + 1] == Next(cfg, states[i], actions[i]);
    AloneKept(cfg, states[i], actions[i], n);
  }

  lemma RunAlone(cfg: Config, states: seq<System>, actions: seq<Action>, i: nat, n: NodeId)
    requires Run(cfg, states, actions) && i < |states| && cfg.nodes == {n}
    ensures Alone(states[i], n)
  {
    var holds := (s: System) => Alone(s, n);
    forall k | 0 <= k < i && holds(states[k]) ensures holds(states[k + 1]) {
      AloneInRun(cfg, states, actions, k, n);
    }
    KeptFrom(states, holds, 0, i);
  }

  /** With one instance no message helps or hurts: an entry differs from Redis only between the remote step and the
    * local deletion of a mutation of that same key. */
  lemma SingleInstance(cfg: Config, states: seq<System>, actions: seq<Action>, i: nat, n: NodeId, k: Key)
    requires Run(cfg, states, actions) && i < |states|
    requires cfg.nodes == {n} && Covered(cfg, states[i], n, k)
    requires k in states[i].nodes(n).l1 && !Agrees(states[i], k, states[i].nodes(n).l1[k])
    ensures exists j :: j in states[i].procs && Unfinished(states[i].procs[j], k)
  {
    RunAlone(cfg, states, actions, i, n);
    L1DiffersOnlyWhilePending(cfg, states, actions, i, n, k);
    assert !SomeUnread(cfg, states[i], n, k);
    var j :| j in states[i].procs && Pending(cfg, states[i].procs[j], n, k);
    assert Unfinished(states[i].procs[j], k);
  }

  /** p has changed k in Redis and has not deleted it from L1 yet. */
  ghost predicate Unfinished(p: Proc, k: Key) {
    || (p.Mutator? && p.key == k && p.wrote.Some? && p.committed.None?)
    || (p.Sweeper? && k in p.removed && !Cleared(p, k))
  }

  /** What a pattern deletion leaves behind: once it is past key k, L1 holds no value of k that was fetched before the
    * deletion removed k from Redis. The shards are bumped one at a time, and only that of k matters. */
  lemma PatternLeavesNothingOld(cfg: Config, states: seq<System>, actions: seq<Action>, i: nat, w: ProcId, k: Key)
    requires Run(cfg, states, actions) && i < |states|
    requires IsSweeper(states[i], w) && k in states[i].procs[w].removed
    requires states[i].procs[w].sweep.Swept? || states[i].procs[w].sweep.SweepDone?
    requires cfg.localMatch(states[i].procs[w].node, states[i].procs[w].pattern, k)
    requires k in states[i].nodes(states[i].procs[w].node).l1
    ensures
      var e, r := states[i].nodes(states[i].procs[w].node).l1[k], states[i].procs[w].removed[k];
      r <= e.at && Genuine(states[i], k, e)
  {
    RunInv(cfg, states, actions, i);
    assert SweepFloor(cfg, states[i], w);
  }
}
