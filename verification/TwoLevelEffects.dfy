/** What mutations do to Redis, and what a Get may therefore answer after them when nothing else touches the key. */
module TwoLevelEffects {
  import opened Wrappers
  import opened TwoLevelProtocol
  import opened TwoLevelCoherence
  import opened TwoLevelReads
  import opened TwoLevelLaterReads
  import opened TwoLevelReadAfterSet
  import opened TwoLevelReadAfterPattern

  // ---------------------------------------------------------------- what every write has done

  ghost predicate SameElsewhere(a: map<Key, Value>, b: map<Key, Value>, k: Key) {
    forall q :: q != k ==> (q in a <==> q in b) && (q in a ==> a[q] == b[q])
  }

  ghost predicate SameAt(a: map<Key, Value>, b: map<Key, Value>, k: Key) {
    (k in a <==> k in b) && (k in a ==> a[k] == b[k])
  }

  /** A write of k at time t left every other key alone. */
  ghost predicate OnlyTouched(s: System, k: Key, t: nat) {
    0 < t <= Now(s) && SameElsewhere(RedisAt(s, t - 1), RedisAt(s, t), k)
  }

  /** A Set has put its value under its key, a Delete has taken the key away, nothing else has written. */
  ghost predicate MutatorDid(s: System, p: Proc)
    requires p.Mutator?
  {
    p.wrote.Some? ==>
      && OnlyTouched(s, p.key, p.wrote.value)
      && match p.kind
         case SetOf(v) => p.key in RedisAt(s, p.wrote.value) && RedisAt(s, p.wrote.value)[p.key] == v
         case DeleteOf => p.key !in RedisAt(s, p.wrote.value)
         case _ => false
  }

  /** A pattern deletion has taken away keys that were there and that its pattern matches. */
  ghost predicate SweeperDid(cfg: Config, s: System, p: Proc)
    requires p.Sweeper?
  {
    forall k :: k in p.removed ==>
                  && OnlyTouched(s, k, p.removed[k]) && cfg.remoteMatch(p.pattern, k)
                  && k in RedisAt(s, p.removed[k] - 1) && k !in RedisAt(s, p.removed[k])
  }

  /** Process i wrote k at time t or, if it may have done so repeatedly, last at t or later. */
  ghost predicate WroteBy(s: System, i: ProcId, k: Key, t: nat) {
    && i in s.procs
    && ((s.procs[i].Mutator? && s.procs[i].key == k && s.procs[i].wrote == Some(t))
        || (s.procs[i].Sweeper? && k in s.procs[i].removed && s.procs[i].removed[k] >= t))
  }

  /** Whatever has changed in Redis, some mutation of that key has done it. */
  ghost predicate ChangeHasWriter(s: System, k: Key, t: nat)
    requires 0 < t <= Now(s)
  {
    SameAt(RedisAt(s, t - 1), RedisAt(s, t), k) || exists i :: WroteBy(s, i, k, t)
  }

  ghost predicate Effects(cfg: Config, s: System) {
    && (forall m :: IsMutator(s, m) ==> MutatorDid(s, s.procs[m]))
    && (forall w :: IsSweeper(s, w) ==> SweeperDid(cfg, s, s.procs[w]))
    && (forall k, t :: 0 < t <= Now(s) ==> ChangeHasWriter(s, k, t))
  }

  // ---------------------------------------------------------------- every step keeps it

  /** A step that sends nothing to Redis, or nothing that takes effect there. */
  ghost predicate Quiet(a: Action) {
    !a.SweepRemove? && (a.MutSend? ==> !a.ok)
  }

  ghost predicate SameWrites(p: Proc, p': Proc) {
    match p
    case Mutator(_, k, kind, _, wrote, _, _, _) => p'.Mutator? && p'.key == k && p'.kind == kind && p'.wrote == wrote
    case Sweeper(_, pattern, _, removed, _) => p'.Sweeper? && p'.pattern == pattern && p'.removed == removed
    case _ => !p'.Mutator? && !p'.Sweeper?
  }

  ghost predicate NoWrites(p: Proc) {
    (p.Mutator? ==> p.wrote.None?) && (p.Sweeper? ==> p.removed == map[])
  }

  ghost predicate QuietStep(s: System, s': System) {
    && s'.past == s.past && s'.redis == s.redis
    && (forall i :: i in s.procs ==> i in s'.procs && SameWrites(s.procs[i], s'.procs[i]))
    && (forall i :: i in s'.procs && i !in s.procs ==> NoWrites(s'.procs[i]))
  }

  /** One write of k by process i. */
  ghost predicate WriteStep(s: System, s': System, i: ProcId, k: Key) {
    && s'.past == s.past + [s.redis] && SameElsewhere(s.redis, s'.redis, k)
    && s'.procs.Keys == s.procs.Keys && i in s.procs
    && (forall j :: j in s.procs && j != i ==> s'.procs[j] == s.procs[j])
  }

  lemma QuietActions(cfg: Config, s: System, a: Action)
    requires Enabled(cfg, s, a) && Quiet(a)
    ensures QuietStep(s, Next(cfg, s, a))
  {
    if EnabledGet(cfg, s, a) {
      QuietGet(cfg, s, a);
    } else if EnabledFlight(s, a) {
      QuietFlight(cfg, s, a);
    } else if EnabledMutation(cfg, s, a) {
      QuietMutation(cfg, s, a);
    } else if EnabledSweep(cfg, s, a) {
      QuietSweep(cfg, s, a);
    } else if EnabledDelivery(s, a) {
      QuietDelivery(cfg, s, a);
    }
  }

  lemma QuietGet(cfg: Config, s: System, a: Action)
    requires EnabledGet(cfg, s, a)
    ensures QuietStep(s, NextGet(cfg, s, a))
  {
  }

  lemma QuietFlight(cfg: Config, s: System, a: Action)
    requires EnabledFlight(s, a)
    ensures QuietStep(s, NextFlight(cfg, s, a))
  {
  }

  lemma QuietMutation(cfg: Config, s: System, a: Action)
    requires EnabledMutation(cfg, s, a) && Quiet(a)
    ensures QuietStep(s, NextMutation(cfg, s, a))
  {
  }

  lemma QuietSweep(cfg: Config, s: System, a: Action)
    requires EnabledSweep(cfg, s, a) && Quiet(a)
    ensures QuietStep(s, NextSweep(cfg, s, a))
  {
  }

  lemma QuietDelivery(cfg: Config, s: System, a: Action)
    requires EnabledDelivery(s, a)
    ensures QuietStep(s, NextDelivery(cfg, s, a))
  {
  }

  lemma QuietKeeps(cfg: Config, s: System, s': System)
    requires Effects(cfg, s) && QuietStep(s, s')
    ensures Effects(cfg, s')
  {
    forall m | IsMutator(s', m) ensures MutatorDid(s', s'.procs[m]) {
      if m in s.procs {
        assert SameWrites(s.procs[m], s'.procs[m]) && MutatorDid(s, s.procs[m]);
      }
    }
    forall w | IsSweeper(s', w) ensures SweeperDid(cfg, s', s'.procs[w]) {
      if w in s.procs {
        assert SameWrites(s.procs[w], s'.procs[w]) && SweeperDid(cfg, s, s.procs[w]);
      }
    }
    forall k, t | 0 < t <= Now(s') ensures ChangeHasWriter(s', k, t) {
      assert ChangeHasWriter(s, k, t);
      if i :| WroteBy(s, i, k, t) {
        assert SameWrites(s.procs[i], s'.procs[i]);
        assert WroteBy(s', i, k, t);
      }
    }
  }

  /** A Set or a Delete takes effect. */
  lemma SendWrites(cfg: Config, s: System, a: Action)
    requires EnabledMutation(cfg, s, a) && a.MutSend? && a.ok
    ensures var s', p := NextMutation(cfg, s, a), s.procs[a.id];
            && WriteStep(s, s', a.id, p.key) && SameKind(p, s'.procs[a.id])
            && s'.procs[a.id].wrote == Some(Now(s'))
            && (match p.kind
                case SetOf(v) => p.key in s'.redis && s'.redis[p.key] == v
                case DeleteOf => p.key !in s'.redis
                case _ => false)
  {
  }

  ghost predicate SameKind(p: Proc, p': Proc) {
    p.Mutator? && p'.Mutator? && p'.key == p.key && p'.kind == p.kind
  }

  lemma RemoveWrites(cfg: Config, s: System, a: Action)
    requires EnabledSweep(cfg, s, a) && a.SweepRemove?
    ensures var s', p := NextSweep(cfg, s, a), s.procs[a.id];
            && WriteStep(s, s', a.id, a.k) && a.k in s.redis && a.k !in s'.redis
            && p.Sweeper? && s'.procs[a.id].Sweeper? && s'.procs[a.id].pattern == p.pattern
            && s'.procs[a.id].removed == p.removed[a.k := Now(s')] && cfg.remoteMatch(p.pattern, a.k)
  {
  }

  /** Earlier times are as they were, and the last is new. */
  lemma HistoryOf(s: System, s': System, i: ProcId, k: Key)
    requires WriteStep(s, s', i, k)
    ensures Now(s') == Now(s) + 1 && RedisAt(s', Now(s')) == s'.redis
    ensures forall t :: 0 <= t <= Now(s) ==> RedisAt(s', t) == RedisAt(s, t)
    ensures OnlyTouched(s', k, Now(s'))
  {
  }

  lemma OldWritesStay(cfg: Config, s: System, s': System, i: ProcId, k: Key)
    requires Effects(cfg, s) && WriteStep(s, s', i, k)
    ensures forall m :: IsMutator(s, m) ==> MutatorDid(s', s.procs[m])
    ensures forall w :: IsSweeper(s, w) ==> SweeperDid(cfg, s', s.procs[w])
  {
    HistoryOf(s, s', i, k);
    forall m | IsMutator(s, m) ensures MutatorDid(s', s.procs[m]) {
      assert MutatorDid(s, s.procs[m]);
    }
    forall w | IsSweeper(s, w) ensures SweeperDid(cfg, s', s.procs[w]) {
      assert SweeperDid(cfg, s, s.procs[w]);
    }
  }

  lemma WritersStay(cfg: Config, s: System, s': System, i: ProcId, k: Key)
    requires Effects(cfg, s) && WriteStep(s, s', i, k) && WroteBy(s', i, k, Now(s'))
    requires forall q, t :: WroteBy(s, i, q, t) ==> WroteBy(s', i, q, t)
    ensures forall q, t :: 0 < t <= Now(s') ==> ChangeHasWriter(s', q, t)
  {
    HistoryOf(s, s', i, k);
    forall q, t | 0 < t <= Now(s') ensures ChangeHasWriter(s', q, t) {
      if t <= Now(s) {
        assert ChangeHasWriter(s, q, t);
        if j :| WroteBy(s, j, q, t) {
          assert WroteBy(s', j, q, t);
        }
      }
    }
  }

  lemma SendKeeps(cfg: Config, s: System, a: Action)
    requires Effects(cfg, s) && Bookkeeping(cfg, s) && EnabledMutation(cfg, s, a) && a.MutSend? && a.ok
    ensures Effects(cfg, NextMutation(cfg, s, a))
  {
    var s', p := NextMutation(cfg, s, a), s.procs[a.id];
    SendWrites(cfg, s, a);
    HistoryOf(s, s', a.id, p.key);
    OldWritesStay(cfg, s, s', a.id, p.key);
    assert Ordered(s, p) && p.wrote.None?;
    WritersStay(cfg, s, s', a.id, p.key);
  }

  /** A sweeper that removed one more key at the end of the history. */
  lemma RemovedOneMore(cfg: Config, s': System, p: Proc, p': Proc, k: Key)
    requires p.Sweeper? && p'.Sweeper? && SweeperDid(cfg, s', p) && p'.pattern == p.pattern
    requires p'.removed == p.removed[k := Now(s')] && cfg.remoteMatch(p.pattern, k)
    requires OnlyTouched(s', k, Now(s')) && k in RedisAt(s', Now(s') - 1) && k !in RedisAt(s', Now(s'))
    ensures SweeperDid(cfg, s', p')
  {
  }

  lemma RemoverWrote(cfg: Config, s: System, s': System, i: ProcId, k: Key)
    requires WriteStep(s, s', i, k) && s.procs[i].Sweeper? && s'.procs[i].Sweeper?
    requires s'.procs[i].removed == s.procs[i].removed[k := Now(s')] && OrderedSweep(cfg, s, s.procs[i])
    ensures WroteBy(s', i, k, Now(s')) && forall q, t :: WroteBy(s, i, q, t) ==> WroteBy(s', i, q, t)
  {
  }

  lemma RemoveKeeps(cfg: Config, s: System, a: Action)
    requires Effects(cfg, s) && Bookkeeping(cfg, s) && EnabledSweep(cfg, s, a) && a.SweepRemove?
    ensures Effects(cfg, NextSweep(cfg, s, a))
  {
    var s', p := NextSweep(cfg, s, a), s.procs[a.id];
    RemoveWrites(cfg, s, a);
    HistoryOf(s, s', a.id, a.k);
    OldWritesStay(cfg, s, s', a.id, a.k);
    assert OrderedSweep(cfg, s, p) && SweeperDid(cfg, s', p);
    RemovedOneMore(cfg, s', p, s'.procs[a.id], a.k);
    RemoverWrote(cfg, s, s', a.id, a.k);
    WritersStay(cfg, s, s', a.id, a.k);
    Assembled(cfg, s, s', a.id, a.k);
  }

  lemma Assembled(cfg: Config, s: System, s': System, i: ProcId, k: Key)
    requires WriteStep(s, s', i, k)
    requires forall m :: IsMutator(s, m) ==> MutatorDid(s', s.procs[m])
    requires forall w :: IsSweeper(s, w) ==> SweeperDid(cfg, s', s.procs[w])
    requires IsSweeper(s', i) && SweeperDid(cfg, s', s'.procs[i])
    requires forall q, t :: 0 < t <= Now(s') ==> ChangeHasWriter(s', q, t)
    ensures Effects(cfg, s')
  {
    forall m | IsMutator(s', m) ensures MutatorDid(s', s'.procs[m]) {
      assert IsMutator(s, m);
    }
    forall w | IsSweeper(s', w) ensures SweeperDid(cfg, s', s'.procs[w]) {
      assert w != i ==> IsSweeper(s, w);
    }
  }

  lemma EffectsKept(cfg: Config, s: System, a: Action)
    requires Enabled(cfg, s, a) && Effects(cfg, s) && Bookkeeping(cfg, s)
    ensures Effects(cfg, Next(cfg, s, a))
  {
    if Quiet(a) {
      QuietActions(cfg, s, a);
      QuietKeeps(cfg, s, Next(cfg, s, a));
    } else if a.MutSend? {
      SendKeeps(cfg, s, a);
    } else {
      RemoveKeeps(cfg, s, a);
    }
  }

  lemma EffectsInRun(cfg: Config, states: seq<System>, actions: seq<Action>, i: nat)
    requires Run(cfg, states, actions) && i + 1 < |states| && Effects(cfg, states[i])
    ensures Effects(cfg, states[i + 1])
  {
    RunInv(cfg, states, actions, i);
    assert Enabled(cfg, states[i], actions[i]) && states[i + 1] == Next(cfg, states[i], actions[i]);
    EffectsKept(cfg, states[i], actions[i]);
  }

  /** In every state of every run: at the moment a Set took effect its key had its value, at the moment a Delete or a
    * pattern deletion took effect its key was gone, every other key stayed as it was, and nothing else changes
    * Redis. */
  lemma RunEffects(cfg: Config, states: seq<System>, actions: seq<Action>, i: nat)
    requires Run(cfg, states, actions) && i < |states|
    ensures Effects(cfg, states[i])
  {
    var holds := (s: System) => Effects(cfg, s);
    forall t | 0 <= t < i && holds(states[t]) ensures holds(states[t + 1]) {
      EffectsInRun(cfg, states, actions, t);
    }
    KeptFrom(states, holds, 0, i);
  }

  // ---------------------------------------------------------------- what a caller sees

  /** Process i wrote k at time t, and nobody has written it later. */
  ghost predicate LastWrite(s: System, i: ProcId, k: Key, t: nat) {
    WroteBy(s, i, k, t) && forall j, u :: u > t ==> !WroteBy(s, j, k, u)
  }

  lemma {:induction false} UntouchedSince(cfg: Config, s: System, i: ProcId, k: Key, t: nat, u: nat)
    requires Effects(cfg, s) && LastWrite(s, i, k, t) && t <= u <= Now(s)
    ensures SameAt(RedisAt(s, t), RedisAt(s, u), k)
    decreases u
  {
    if t < u {
      UntouchedSince(cfg, s, i, k, t, u - 1);
      assert ChangeHasWriter(s, k, u);
    }
  }

  /** Delete, then Get: if nothing else has written the key since, a Get that starts after Delete has returned finds
    * nothing. */
  lemma DeleteThenGet(cfg: Config, states: seq<System>, actions: seq<Action>, i: nat, j: nat, m: ProcId, g: ProcId,
                      r: Option<Answer>)
    requires Run(cfg, states, actions) && i <= j < |states|
    requires IsMutator(states[i], m) && Done(states[i].procs[m]) && states[i].procs[m].kind == DeleteOf
    requires states[i].procs[m].wrote.Some?
    requires LaterAnswer(states[i], states[j], states[i].procs[m].node, states[i].procs[m].key, g, r)
    requires LastWrite(states[j], m, states[i].procs[m].key, states[i].procs[m].wrote.value)
    ensures r == None
  {
    var p, s := states[i].procs[m], states[j];
    RunEffects(cfg, states, actions, j);
    RunInv(cfg, states, actions, i);
    LaterGetsInRun(cfg, states, actions, i, j, m);
    assert MutatorDid(s, s.procs[m]);
    if r.Some? {
      ReadAfterDelete(cfg, states, actions, i, j, m, g);
      UntouchedSince(cfg, s, m, p.key, p.wrote.value, r.value.entry.at);
    }
  }

  /** Set, then Get: a Get that starts after Set has returned finds nothing or the value of the Set, apart from the one
    * answer of a flight that answered in the window of the Set. */
  lemma SetThenGet(cfg: Config, states: seq<System>, actions: seq<Action>, i: nat, j: nat, m: ProcId, g: ProcId,
                   r: Option<Answer>)
    requires Run(cfg, states, actions) && i <= j < |states| && SetReturned(states[i], m)
    requires LaterAnswer(states[i], states[j], states[i].procs[m].node, states[i].procs[m].key, g, r)
    requires LastWrite(states[j], m, states[i].procs[m].key, states[i].procs[m].wrote.value)
    ensures r == None || r == OldAnswer(states[i], states[i].procs[m])
            || r.value.entry.value == states[i].procs[m].kind.newValue
  {
    var p, s := states[i].procs[m], states[j];
    RunEffects(cfg, states, actions, j);
    RunInv(cfg, states, actions, i);
    RunFlightsAnswer(cfg, states, actions, i);
    SetLeaves(cfg, states[i], m);
    LaterGetsInRun(cfg, states, actions, i, j, m);
    assert MutatorDid(s, s.procs[m]);
    ReadAfterSet(cfg, states, actions, i, j, m, g, r);
    if r.Some? && r != OldAnswer(states[i], p) {
      UntouchedSince(cfg, s, m, p.key, p.wrote.value, r.value.entry.at);
    }
  }

  /** DeletePattern, then Get: the same, apart from the answer of a flight that it left behind. */
  lemma PatternThenGet(cfg: Config, states: seq<System>, actions: seq<Action>, i: nat, j: nat, w: ProcId, n: NodeId,
                       k: Key, t: nat, g: ProcId, r: Option<Answer>)
    requires Run(cfg, states, actions) && i <= j < |states| && PatternReturned(cfg, states[i], w, n, k, t)
    requires LaterAnswer(states[i], states[j], n, k, g, r) && LastWrite(states[j], w, k, t)
    ensures r == None || r == LeftBehind(states[i], n, k, t)
  {
    var s := states[j];
    RunEffects(cfg, states, actions, j);
    SweptStays(cfg, states, actions, i, j, w, n, k, t);
    assert SweeperDid(cfg, s, s.procs[w]);
    ReadAfterPattern(cfg, states, actions, i, j, w, n, k, t, g, r);
    if r.Some? && r != LeftBehind(states[i], n, k, t) {
      UntouchedSince(cfg, s, w, k, t, r.value.entry.at);
    }
  }
}
