/** When pattern deletions leave the two levels apart: exactly when Redis and the local cache read a pattern
  * differently. */
module TwoLevelPatternGap {
  import opened Wrappers
  import opened Fresh
  import opened TwoLevelProtocol
  import opened TwoLevelCoherence
  import opened TwoLevelLaterReads

  /** All pattern deletions so far used patterns that allowed accepts. */
  ghost predicate OnlyPatterns(s: System, allowed: Pattern -> bool) {
    forall w :: IsSweeper(s, w) ==> allowed(s.procs[w].pattern)
  }

  /** Whenever Redis deletes k for such a pattern, the local cache of n does too. */
  ghost predicate Accepts(cfg: Config, n: NodeId, k: Key, allowed: Pattern -> bool) {
    forall p :: allowed(p) && cfg.remoteMatch(p, k) ==> cfg.localMatch(n, p, k)
  }

  /** k has no entry in the L1 of n, or one that equals Redis. */
  ghost predicate Consistent(s: System, n: NodeId, k: Key) {
    k in s.nodes(n).l1 ==> Agrees(s, k, s.nodes(n).l1[k])
  }

  lemma AcceptedIsCovered(cfg: Config, s: System, n: NodeId, k: Key, allowed: Pattern -> bool)
    requires Bookkeeping(cfg, s) && OnlyPatterns(s, allowed) && Accepts(cfg, n, k, allowed)
    ensures Covered(cfg, s, n, k)
  {
    forall w | IsSweeper(s, w) && s.procs[w].node == n && Affects(cfg, s.procs[w], k)
      ensures cfg.localMatch(n, s.procs[w].pattern, k)
    {
      assert OrderedSweep(cfg, s, s.procs[w]);
    }
  }

  // ---------------------------------------------------------------- a run that leaves an old entry

  /** What a sweep of another key or another instance does not touch. */
  ghost predicate SameBut(s: System, s': System, w: ProcId) {
    && s'.redis == s.redis && s'.past == s.past && w in s.procs && w in s'.procs
    && s'.procs == s.procs[w := s'.procs[w]]
  }

  ghost predicate KeepsEntry(s: System, s': System, n: NodeId, k: Key) {
    k in s.nodes(n).l1 && k in s'.nodes(n).l1 && s'.nodes(n).l1[k] == s.nodes(n).l1[k]
  }

  /** All shards are bumped, one after the other. */
  lemma BumpToEnd(cfg: Config, states: seq<System>, actions: seq<Action>, w: ProcId, n: NodeId, k: Key)
    returns (states': seq<System>, actions': seq<Action>, s': System)
    requires Run(cfg, states, actions)
    requires var s := states[|actions|];
             && IsSweeper(s, w) && s.procs[w].sweep.Bumping? && s.procs[w].sweep.next < SHARDS
             && k in s.nodes(n).l1
    ensures Run(cfg, states', actions') && s' == states'[|actions'|]
    ensures var s := states[|actions|];
            && SameBut(s, s', w) && s'.mail == s.mail && KeepsEntry(s, s', n, k)
            && exists todo :: s'.procs[w] == s.procs[w].(sweep := Sweeping(todo))
    decreases SHARDS - states[|actions|].procs[w].sweep.next
  {
    states', actions', s' := Extend(cfg, states, actions, SweepBump(w));
    if s'.procs[w].sweep.Bumping? {
      states', actions', s' := BumpToEnd(cfg, states', actions', w, n, k);
    }
  }

  /** All keys that were there are visited; k stays if the sweep is elsewhere or its pattern does not accept k. */
  lemma SweepToEnd(cfg: Config, states: seq<System>, actions: seq<Action>, w: ProcId, n: NodeId, k: Key)
    returns (states': seq<System>, actions': seq<Action>, s': System)
    requires Run(cfg, states, actions)
    requires var s := states[|actions|];
             && IsSweeper(s, w) && s.procs[w].sweep.Sweeping? && k in s.nodes(n).l1
             && (s.procs[w].node == n ==> !cfg.localMatch(n, s.procs[w].pattern, k))
    ensures Run(cfg, states', actions') && s' == states'[|actions'|]
    ensures var s := states[|actions|];
            && SameBut(s, s', w) && s'.mail == s.mail && KeepsEntry(s, s', n, k)
            && s'.procs[w] == s.procs[w].(sweep := SweepStage.Swept)
    decreases |states[|actions|].procs[w].sweep.todo|
  {
    var todo := states[|actions|].procs[w].sweep.todo;
    if todo == {} {
      states', actions', s' := Extend(cfg, states, actions, SweepEnd(w));
    } else {
      var q :| q in todo;
      states', actions', s' := Extend(cfg, states, actions, SweepKey(w, q));
      assert s'.procs[w].sweep.todo == todo - {q};
      states', actions', s' := SweepToEnd(cfg, states', actions', w, n, k);
    }
  }

  lemma Sweep(cfg: Config, states: seq<System>, actions: seq<Action>, w: ProcId, n: NodeId, k: Key)
    returns (states': seq<System>, actions': seq<Action>, s': System)
    requires Run(cfg, states, actions)
    requires var s := states[|actions|];
             && IsSweeper(s, w) && s.procs[w].sweep == Bumping(0) && k in s.nodes(n).l1
             && (s.procs[w].node == n ==> !cfg.localMatch(n, s.procs[w].pattern, k))
    ensures Run(cfg, states', actions') && s' == states'[|actions'|]
    ensures var s := states[|actions|];
            && SameBut(s, s', w) && s'.mail == s.mail && KeepsEntry(s, s', n, k)
            && s'.procs[w] == s.procs[w].(sweep := SweepStage.Swept)
  {
    states', actions', s' := BumpToEnd(cfg, states, actions, w, n, k);
    states', actions', s' := SweepToEnd(cfg, states', actions', w, n, k);
  }

  /** Only sweeps that have ended, all with pattern p, and one message left to handle; k is in L1 of n and not in
    * Redis. */
  ghost predicate Leftover(s: System, n: NodeId, k: Key, p: Pattern, pending: set<NodeId>) {
    && k in s.nodes(n).l1 && k !in s.redis
    && (forall i :: i in s.procs ==> !s.procs[i].Mutator?)
    && (forall w :: IsSweeper(s, w) ==> s.procs[w].sweep.SweepDone? && s.procs[w].pattern == p)
    && s.mail == map[0 := Message(n, PatternOf(p), pending)]
  }

  /** Another instance handles the message. */
  lemma HandledElsewhere(cfg: Config, states: seq<System>, actions: seq<Action>, n: NodeId, k: Key, p: Pattern,
                         pending: set<NodeId>, x: NodeId)
    returns (states': seq<System>, actions': seq<Action>, s': System)
    requires Run(cfg, states, actions) && Leftover(states[|actions|], n, k, p, pending) && x in pending && x != n
    ensures Run(cfg, states', actions') && s' == states'[|actions'|] && Leftover(s', n, k, p, pending - {x})
  {
    var s := states[|actions|];
    var w := Above(s.procs.Keys);
    states', actions', s' := Extend(cfg, states, actions, Deliver(w, 0, x));
    assert s'.procs == s.procs[w := Sweeper(x, p, false, map[], Bumping(0))];
    states', actions', s' := Sweep(cfg, states', actions', w, n, k);
    states', actions', s' := Extend(cfg, states', actions', SweepPublish(w, 1, false));
  }

  lemma HandledAtHome(cfg: Config, states: seq<System>, actions: seq<Action>, n: NodeId, k: Key, p: Pattern,
                      pending: set<NodeId>)
    returns (states': seq<System>, actions': seq<Action>, s': System)
    requires Run(cfg, states, actions) && Leftover(states[|actions|], n, k, p, pending) && n in pending
    ensures Run(cfg, states', actions') && s' == states'[|actions'|] && Leftover(s', n, k, p, pending - {n})
  {
    var w := Above(states[|actions|].procs.Keys);
    states', actions', s' := Extend(cfg, states, actions, Deliver(w, 0, n));
  }

  lemma HandledEverywhere(cfg: Config, states: seq<System>, actions: seq<Action>, n: NodeId, k: Key, p: Pattern,
                          pending: set<NodeId>)
    returns (states': seq<System>, actions': seq<Action>, s': System)
    requires Run(cfg, states, actions) && Leftover(states[|actions|], n, k, p, pending)
    ensures Run(cfg, states', actions') && s' == states'[|actions'|] && Leftover(s', n, k, p, {})
    decreases |pending|
  {
    states', actions', s' := states, actions, states[|actions|];
    if pending != {} {
      var x :| x in pending;
      if x == n {
        states', actions', s' := HandledAtHome(cfg, states', actions', n, k, p, pending);
      } else {
        states', actions', s' := HandledElsewhere(cfg, states', actions', n, k, p, pending, x);
      }
      states', actions', s' := HandledEverywhere(cfg, states', actions', n, k, p, pending - {x});
    }
  }

  /** A read leads a flight for k. */
  lemma Led(cfg: Config, n: NodeId, k: Key) returns (states: seq<System>, actions: seq<Action>, s: System)
    requires n in cfg.nodes
    ensures Run(cfg, states, actions) && s == states[|actions|]
    ensures s.redis == map[k := ""] && s.past == [] && s.mail == map[] && s.nodes(n).l1 == map[]
    ensures s.nodes(n).gens == FRESH_NODE.gens
    ensures s.procs == map[0 := Getter(n, k, Waiting(1)), 1 := Flight(n, k, Started, false)]
  {
    s := System([], map[k := ""], (m: NodeId) => FRESH_NODE, map[], map[]);
    states, actions := [s], [];
    states, actions, s := Extend(cfg, states, actions, GetCall(0, n, k));
    states, actions, s := Extend(cfg, states, actions, GetLookup(0));
    states, actions, s := Extend(cfg, states, actions, GetJoin(0, 1));
  }

  /** The flight brings it into the L1 of n. */
  lemma Filled(cfg: Config, n: NodeId, k: Key) returns (states: seq<System>, actions: seq<Action>, s: System)
    requires n in cfg.nodes
    ensures Run(cfg, states, actions) && s == states[|actions|]
    ensures s.redis == map[k := ""] && s.mail == map[] && k in s.nodes(n).l1
    ensures s.procs.Keys == {0, 1} && s.procs[0].Getter? && s.procs[1].Flight?
  {
    states, actions, s := Led(cfg, n, k);
    states, actions, s := Extend(cfg, states, actions, FlightLookup(1));
    states, actions, s := Extend(cfg, states, actions, FlightBegin(1));
    states, actions, s := Extend(cfg, states, actions, FlightFetch(1, true));
    states, actions, s := Extend(cfg, states, actions, FlightCommit(1, true));
  }

  /** A pattern deletion removes it from Redis. */
  lemma Removed(cfg: Config, n: NodeId, k: Key, p: Pattern)
    returns (states: seq<System>, actions: seq<Action>, s: System)
    requires n in cfg.nodes && cfg.remoteMatch(p, k)
    ensures Run(cfg, states, actions) && s == states[|actions|]
    ensures k !in s.redis && s.mail == map[] && k in s.nodes(n).l1
    ensures s.procs.Keys == {0, 1, 2} && s.procs[0].Getter? && s.procs[1].Flight?
    ensures s.procs[2].Sweeper? && s.procs[2].node == n && s.procs[2].pattern == p && s.procs[2].local
            && s.procs[2].sweep == Bumping(0)
  {
    states, actions, s := Filled(cfg, n, k);
    states, actions, s := Extend(cfg, states, actions, SweepCall(2, n, p, true));
    states, actions, s := Extend(cfg, states, actions, SweepRemove(2, k));
    states, actions, s := Extend(cfg, states, actions, SweepBump(2));
  }

  /** Redis loses k to a pattern that the local cache does not accept k for; everything runs to its end. */
  lemma GapLeavesOld(cfg: Config, n: NodeId, k: Key, p: Pattern)
    returns (states: seq<System>, actions: seq<Action>, s: System)
    requires n in cfg.nodes && cfg.remoteMatch(p, k) && !cfg.localMatch(n, p, k)
    ensures Run(cfg, states, actions) && s == states[|actions|] && Drained(s)
    ensures k in s.nodes(n).l1 && k !in s.redis && OnlyPatterns(s, (q: Pattern) => q == p)
  {
    states, actions, s := Removed(cfg, n, k, p);
    states, actions, s := Sweep(cfg, states, actions, 2, n, k);
    states, actions, s := Extend(cfg, states, actions, SweepPublish(2, 0, true));
    states, actions, s := HandledEverywhere(cfg, states, actions, n, k, p, cfg.nodes);
  }

  // ---------------------------------------------------------------- exactly

  /** Over all runs whose pattern deletions use allowed patterns: once everything has run to its end, the L1 of n agrees
    * with Redis about k if and only if the local matcher of n accepts k for every allowed pattern that Redis deletes it
    * for. */
  lemma DrainedExactly(cfg: Config, n: NodeId, k: Key, allowed: Pattern -> bool)
    requires n in cfg.nodes
    ensures (forall states: seq<System>, actions: seq<Action> ::
               Run(cfg, states, actions) && Drained(states[|actions|]) && OnlyPatterns(states[|actions|], allowed) ==>
                 Consistent(states[|actions|], n, k))
            <==> Accepts(cfg, n, k, allowed)
  {
    if Accepts(cfg, n, k, allowed) {
      forall states: seq<System>, actions: seq<Action>
        | Run(cfg, states, actions) && Drained(states[|actions|]) && OnlyPatterns(states[|actions|], allowed)
        ensures Consistent(states[|actions|], n, k)
      {
        RunInv(cfg, states, actions, |actions|);
        AcceptedIsCovered(cfg, states[|actions|], n, k, allowed);
        if k in states[|actions|].nodes(n).l1 {
          DrainedIsConsistent(cfg, states, actions, |actions|, n, k);
        }
      }
    } else {
      var p :| allowed(p) && cfg.remoteMatch(p, k) && !cfg.localMatch(n, p, k);
      var states, actions, s := GapLeavesOld(cfg, n, k, p);
      assert OnlyPatterns(s, allowed);
      assert !Consistent(states[|actions|], n, k);
    }
  }

  /** The same in every state: an entry that differs from Redis is covered by unfinished business if and only if. */
  lemma CoherentExactly(cfg: Config, n: NodeId, k: Key, allowed: Pattern -> bool)
    requires n in cfg.nodes
    ensures (forall states: seq<System>, actions: seq<Action> ::
               Run(cfg, states, actions) && OnlyPatterns(states[|actions|], allowed) ==>
                 CoherentL1(cfg, states[|actions|], n, k))
            <==> Accepts(cfg, n, k, allowed)
  {
    if Accepts(cfg, n, k, allowed) {
      forall states: seq<System>, actions: seq<Action>
        | Run(cfg, states, actions) && OnlyPatterns(states[|actions|], allowed)
        ensures CoherentL1(cfg, states[|actions|], n, k)
      {
        RunInv(cfg, states, actions, |actions|);
        AcceptedIsCovered(cfg, states[|actions|], n, k, allowed);
      }
    } else {
      var p :| allowed(p) && cfg.remoteMatch(p, k) && !cfg.localMatch(n, p, k);
      var states, actions, s := GapLeavesOld(cfg, n, k, p);
      assert OnlyPatterns(s, allowed);
      RunInv(cfg, states, actions, |actions|);
      NothingLeft(cfg, s, n, k);
      assert !CoherentL1(cfg, states[|actions|], n, k);
    }
  }
}
