/** Read after Set does not hold without exception: SetWithContext releases the key before it deletes the local entry,
  * and in between a new flight can answer from L1 with the replaced value. A Get that starts after Set has returned can
  * still join that flight. */
module TwoLevelSetWindow {
  import opened Wrappers
  import opened TwoLevelProtocol
  import opened TwoLevelLaterReads
  import opened TwoLevelReadAfterSet

  const K: Key := "k"

  function OneNode(): Config {
    Config({0}, k => 0, (p, k) => false, (n, p, k) => false)
  }

  ghost predicate Reaches(states: seq<System>, actions: seq<Action>, s: System) {
    Run(OneNode(), states, actions) && states[|actions|] == s
  }

  /** What matters of a state here. */
  ghost predicate Looks(s: System, past: seq<map<Key, Value>>, redis: map<Key, Value>, nd: Node,
                        procs: map<ProcId, Proc>) {
    s.past == past && s.redis == redis && s.nodes(0) == nd && s.procs == procs
  }

  const GENS: Generations := seq(SHARDS, _ => 0)
  const OLD: Entry := Entry("old", 0)
  const STALE: Answer := Answer(OLD, FlightLocal)

  /** A reader leads a flight. */
  lemma FirstReader() returns (states: seq<System>, actions: seq<Action>, s: System)
    ensures Reaches(states, actions, s)
    ensures Looks(s, [], map[K := "old"], Node(map[], GENS, map[K := 2]),
          map[1 := Getter(0, K, Waiting(2)), 2 := Flight(0, K, Started, false)])
    ensures s.mail == map[]
  {
    s := System([], map[K := "old"], n => FRESH_NODE, map[], map[]);
    states, actions := [s], [];
    states, actions, s := Extend(OneNode(), states, actions, GetCall(1, 0, K));
    states, actions, s := Extend(OneNode(), states, actions, GetLookup(1));
    states, actions, s := Extend(OneNode(), states, actions, GetJoin(1, 2));
  }

  /** Its flight fetches the old value. */
  lemma FirstFetch() returns (states: seq<System>, actions: seq<Action>, s: System)
    ensures Reaches(states, actions, s)
    ensures Looks(s, [], map[K := "old"], Node(map[], GENS, map[K := 2]),
          map[1 := Getter(0, K, Waiting(2)), 2 := Flight(0, K, Fetched(0, OLD), false)])
    ensures s.mail == map[]
  {
    states, actions, s := FirstReader();
    states, actions, s := Extend(OneNode(), states, actions, FlightLookup(2));
    states, actions, s := Extend(OneNode(), states, actions, FlightBegin(2));
    states, actions, s := Extend(OneNode(), states, actions, FlightFetch(2, true));
  }

  /** A second reader misses L1, and a Set begins. */
  lemma SecondReader() returns (states: seq<System>, actions: seq<Action>, s: System)
    ensures Reaches(states, actions, s)
    ensures Looks(s, [], map[K := "old"], Node(map[], GENS, map[K := 2]),
          map[1 := Getter(0, K, Waiting(2)), 2 := Flight(0, K, Fetched(0, OLD), false), 3 := Getter(0, K, Missed),
            4 := Mutator(0, K, SetOf("new"), false, None, None, false, false)])
    ensures s.mail == map[]
  {
    states, actions, s := FirstFetch();
    states, actions, s := Extend(OneNode(), states, actions, GetCall(3, 0, K));
    states, actions, s := Extend(OneNode(), states, actions, GetLookup(3));
    states, actions, s := Extend(OneNode(), states, actions, MutCall(4, 0, K, SetOf("new")));
  }

  /** The Set writes Redis. */
  lemma SetWritesRedis() returns (states: seq<System>, actions: seq<Action>, s: System)
    ensures Reaches(states, actions, s)
    ensures Looks(s, [map[K := "old"]], map[K := "new"], Node(map[], GENS, map[K := 2]),
          map[1 := Getter(0, K, Waiting(2)), 2 := Flight(0, K, Fetched(0, OLD), false), 3 := Getter(0, K, Missed),
            4 := Mutator(0, K, SetOf("new"), true, Some(1), None, false, false)])
    ensures s.mail == map[]
  {
    states, actions, s := SecondReader();
    states, actions, s := Extend(OneNode(), states, actions, MutSend(4, true));
  }

  /** The old value still enters L1, and the Set releases the key. */
  lemma SetReleases() returns (states: seq<System>, actions: seq<Action>, s: System)
    ensures Reaches(states, actions, s)
    ensures Looks(s, [map[K := "old"]], map[K := "new"], Node(map[K := OLD], GENS, map[]),
          map[1 := Getter(0, K, Waiting(2)), 2 := Flight(0, K, Resolved(Some(Answer(OLD, FlightRemote))), false),
            3 := Getter(0, K, Missed),
            4 := Mutator(0, K, SetOf("new"), true, Some(1), None, true, false)])
    ensures s.mail == map[]
  {
    states, actions, s := SetWritesRedis();
    states, actions, s := Extend(OneNode(), states, actions, FlightCommit(2, true));
    states, actions, s := Extend(OneNode(), states, actions, MutForget(4));
  }

  /** The second reader leads a new flight, which answers from L1. */
  lemma SecondFlight() returns (states: seq<System>, actions: seq<Action>, s: System)
    ensures Reaches(states, actions, s)
    ensures Looks(s, [map[K := "old"]], map[K := "new"], Node(map[K := OLD], GENS, map[K := 5]),
          map[1 := Getter(0, K, Waiting(2)), 2 := Flight(0, K, Resolved(Some(Answer(OLD, FlightRemote))), false),
            3 := Getter(0, K, Waiting(5)),
            4 := Mutator(0, K, SetOf("new"), true, Some(1), None, true, false),
            5 := Flight(0, K, Resolved(Some(STALE)), false)])
    ensures s.mail == map[]
  {
    states, actions, s := SetReleases();
    states, actions, s := Extend(OneNode(), states, actions, GetJoin(3, 5));
    states, actions, s := Extend(OneNode(), states, actions, FlightLookup(5));
  }

  /** The Set announces, commits and returns; L1 no longer holds the key. */
  lemma SetReturns() returns (states: seq<System>, actions: seq<Action>, s: System)
    ensures Reaches(states, actions, s)
    ensures Looks(s, [map[K := "old"]], map[K := "new"], Node(map[], GENS[0 := 1], map[K := 5]),
          map[1 := Getter(0, K, Waiting(2)), 2 := Flight(0, K, Resolved(Some(Answer(OLD, FlightRemote))), false),
            3 := Getter(0, K, Waiting(5)),
            4 := Mutator(0, K, SetOf("new"), true, Some(1), Some(1), true, true),
            5 := Flight(0, K, Resolved(Some(STALE)), false)])
  {
    states, actions, s := SecondFlight();
    states, actions, s := Extend(OneNode(), states, actions, MutPublish(4, 0));
    states, actions, s := Extend(OneNode(), states, actions, MutCommit(4));
  }

  /** An instance of ReadAfterSetExactly. After the Set has returned (state i) its window has left an old flight; Get 6
    * starts, misses L1, joins the flight, and returns the replaced value (state j), although Redis has held the new one
    * ever since the Set wrote it. */
  lemma ReadAfterSetCanBeOld() returns (states: seq<System>, actions: seq<Action>, i: nat, j: nat)
    ensures Run(OneNode(), states, actions) && i <= j < |states|
    ensures IsMutator(states[i], 4) && Done(states[i].procs[4])
    ensures states[i].procs[4].kind == SetOf("new") && states[i].procs[4].wrote == Some(1)
    ensures LeavesOldFlight(states[i], states[i].procs[4])
    ensures 6 !in states[i].procs && 6 in states[j].procs && states[j].procs[6] == Getter(0, K, Returned(Some(STALE)))
    ensures STALE.entry.at < 1 && states[j].redis == map[K := "new"]
  {
    var before, done, s := SetReturns();
    i := |done|;
    assert LeavesOldFlight(s, s.procs[4]);
    var r;
    states, actions, r := OldFlightIsJoined(OneNode(), before, done, 4, 6, 9);
    j := |actions|;
  }
}
