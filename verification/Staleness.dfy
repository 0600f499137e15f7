/** How old a value from the first level can be, and how long it can outlive the second: one key, any number of reads,
  * and a Redis that instances this one does not hear of change as they like (persist/twolevel.go, lines 270 to 399,
  * over persist/memory.go). */
module Staleness {
  import opened Wrappers
  import opened Int64
  import opened MemoryStore

  type Id = nat

  /** What Redis holds; deadlines and the clock are in nanoseconds. */
  datatype Cell = Cell(value: Value, deadline: Option<int>)

  datatype Change = Change(at: int, cell: Option<Cell>)

  /** When the value of an item was read, when its remaining time was asked and which deadline Redis had then, and when
    * its own lifetime began. */
  datatype Origin = Origin(getAt: int, pttlAt: int, remoteDeadline: Option<int>, stampAt: int)

  datatype Entry = Entry(item: Item, origin: Origin)

  datatype Proc =
    | Got(value: Value, getAt: int)
    | Asked(value: Value, getAt: int, pttlAt: int, remaining: int, remoteDeadline: Option<int>)
    | Stamped(entry: Entry)
    | Stored(entry: Entry)
    | Loaded(entry: Entry)           // a local read or the janitor, between load and check
    | Hit(entry: Entry, at: int)
    | Gone

  datatype System = System(localTTL: int, clock: int, redis: Option<Cell>, history: seq<Change>, l1: Option<Entry>,
                             procs: map<Id, Proc>)

  datatype Action =
    | Tick(now: int)
    | Remote(cell: Option<Cell>)     // any write, deletion or expiry
    | GetRemote(id: Id)
    | Pttl(id: Id, remaining: int)
    | StampItem(id: Id)
    | StoreItem(id: Id)
    | DropLocal                      // a mutation, an invalidation or a pattern deletion
    | Load(id: Id)
    | Check(id: Id)

  const NO_EXPIRY: int := -1
  const KEY_MISSING: int := -2

  function LocalBackfillTTL(localTTL: int, remaining: int): Option<int> {
    if remaining == NO_EXPIRY then Some(localTTL)
    else if remaining <= 0 then None
    else Some(if localTTL <= remaining then localTTL else remaining)
  }

  /** A backfill lifetime is the longest that exceeds neither localTTL nor what Redis has left, if it has a deadline
    * there; none is given when the key has gone, or has no time left. */
  lemma BackfillMeaning(localTTL: int, remaining: int)
    requires localTTL > 0 && remaining >= KEY_MISSING
    ensures LocalBackfillTTL(localTTL, remaining).None? <==> remaining == KEY_MISSING || remaining == 0
    ensures LocalBackfillTTL(localTTL, remaining).Some? ==>
              0 < LocalBackfillTTL(localTTL, remaining).value <= localTTL
              && (remaining != NO_EXPIRY ==> LocalBackfillTTL(localTTL, remaining).value <= remaining)
    ensures LocalBackfillTTL(localTTL, remaining).Some? ==>
              LocalBackfillTTL(localTTL, remaining).value == localTTL
              || (remaining != NO_EXPIRY && LocalBackfillTTL(localTTL, remaining).value == remaining)
  {
  }

  predicate Visible(cell: Option<Cell>, now: int) {
    cell.Some? && (cell.value.deadline.Some? ==> now <= cell.value.deadline.value)
  }

  /** The three kinds of answer to PTTL; a remaining time may be rounded down. */
  predicate PttlReply(cell: Option<Cell>, now: int, remaining: int) {
    if !Visible(cell, now) then remaining == KEY_MISSING
    else if cell.value.deadline.None? then remaining == NO_EXPIRY
    else 0 <= remaining <= cell.value.deadline.value - now
  }

  /** Deadlines stay within 64 bits: the clock stops localTTL before they would not. */
  ghost predicate Enabled(s: System, a: Action) {
    match a
    case Tick(now) => s.clock <= now <= MAX - s.localTTL
    case Remote(_) => true
    case GetRemote(id) => id !in s.procs && Visible(s.redis, s.clock)
    case Pttl(id, remaining) => id in s.procs && s.procs[id].Got? && PttlReply(s.redis, s.clock, remaining)
    case StampItem(id) => id in s.procs && s.procs[id].Asked?
    case StoreItem(id) => id in s.procs && s.procs[id].Stamped?
    case DropLocal => true
    case Load(id) => id !in s.procs && s.l1.Some?
    case Check(id) => id in s.procs && s.procs[id].Loaded?
  }

  function Put(s: System, id: Id, p: Proc): System {
    s.(procs := s.procs[id := p])
  }

  function SeenDeadline(s: System): Option<int> {
    if Visible(s.redis, s.clock) then s.redis.value.deadline else None
  }

  function StampedProc(s: System, id: Id, p: Proc): Proc {
    match p
    case Asked(v, getAt, pttlAt, remaining, deadline) =>
      var ttl := LocalBackfillTTL(s.localTTL, remaining);
      if ttl.None? then Gone
      else Stamped(Entry(Item(id, v, Expiration(s.clock, ttl.value)), Origin(getAt, pttlAt, deadline, s.clock)))
    case _ => p
  }

  function Next(s: System, a: Action): System {
    match a
    case Tick(now) => s.(clock := now)
    case Remote(cell) => s.(redis := cell, history := s.history + [Change(s.clock, cell)])
    case GetRemote(id) => if s.redis.Some? then Put(s, id, Got(s.redis.value.value, s.clock)) else s
    case Pttl(id, remaining) =>
      if id in s.procs && s.procs[id].Got?
      then Put(s, id, Asked(s.procs[id].value, s.procs[id].getAt, s.clock, remaining, SeenDeadline(s)))
      else s
    case StampItem(id) => if id in s.procs then Put(s, id, StampedProc(s, id, s.procs[id])) else s
    case StoreItem(id) =>
      if id in s.procs && s.procs[id].Stamped? then
        Put(s, id, Stored(s.procs[id].entry)).(l1 := Some(s.procs[id].entry))
      else s
    case DropLocal => s.(l1 := None)
    case Load(id) => if s.l1.Some? then Put(s, id, Loaded(s.l1.value)) else s
    case Check(id) =>
      if id in s.procs && s.procs[id].Loaded? then
        var e := s.procs[id].entry;
        if !Expired(e.item, s.clock) then Put(s, id, Hit(e, s.clock))
        else Put(s, id, Gone).(l1 := if s.l1.Some? && s.l1.value.item.id == e.item.id then None else s.l1)
      else s
  }

  function Initial(localTTL: int, now: int): System {
    System(localTTL, now, None, [Change(now, None)], None, map[])
  }

  ghost predicate Run(states: seq<System>, actions: seq<Action>, localTTL: int, start: int) {
    && localTTL > 0 && 0 <= start <= MAX - localTTL
    && |states| == |actions| + 1
    && states[0] == Initial(localTTL, start)
    && forall i :: 0 <= i < |actions| ==> Enabled(states[i], actions[i]) && states[i + 1] == Next(states[i], actions[i])
  }

  // ---------------------------------------------------------------- what every state keeps

  ghost predicate HeldFrom(h: seq<Change>, i: nat, t: int, v: Value) {
    && i < |h| && h[i].at <= t && (i + 1 < |h| ==> t <= h[i + 1].at)
    && h[i].cell.Some? && h[i].cell.value.value == v
  }

  /** Redis held v at time t. */
  ghost predicate HeldAt(h: seq<Change>, t: int, v: Value) {
    exists i :: HeldFrom(h, i, t, v)
  }

  ghost predicate GoodEntry(s: System, e: Entry) {
    && HeldAt(s.history, e.origin.getAt, e.item.value)
    && e.origin.getAt <= e.origin.pttlAt <= e.origin.stampAt <= s.clock
    && e.origin.stampAt < e.item.expiration <= e.origin.stampAt + s.localTTL && e.item.expiration > 0
    && (e.origin.remoteDeadline.Some? ==>
          e.item.expiration <= e.origin.remoteDeadline.value + (e.origin.stampAt - e.origin.pttlAt))
  }

  ghost predicate KnownEntry(s: System, e: Entry) {
    GoodEntry(s, e) && e.item.id in s.procs && s.procs[e.item.id] == Stored(e)
  }

  ghost predicate GoodProc(s: System, id: Id, p: Proc) {
    match p
    case Got(v, getAt) => HeldAt(s.history, getAt, v) && getAt <= s.clock
    case Asked(v, getAt, pttlAt, remaining, deadline) =>
      && HeldAt(s.history, getAt, v) && getAt <= pttlAt <= s.clock
      && remaining >= KEY_MISSING
      && (deadline.Some? ==> 0 <= remaining <= deadline.value - pttlAt)
    case Stamped(e) => GoodEntry(s, e) && e.item.id == id
    case Stored(e) => GoodEntry(s, e) && e.item.id == id
    case Loaded(e) => KnownEntry(s, e)
    case Hit(e, at) => KnownEntry(s, e) && at <= s.clock && at <= e.item.expiration
    case Gone => true
  }

  ghost predicate GoodHistory(s: System) {
    && s.history != [] && s.history[|s.history| - 1].cell == s.redis && s.history[|s.history| - 1].at <= s.clock
  }

  ghost predicate Inv(s: System) {
    && s.localTTL > 0 && 0 <= s.clock <= MAX - s.localTTL
    && GoodHistory(s)
    && (s.l1.Some? ==> KnownEntry(s, s.l1.value))
    && forall id :: id in s.procs ==> GoodProc(s, id, s.procs[id])
  }

  /** The rest of the system moves on: time passes, history grows, and an item that has been stored stays known. */
  ghost predicate Grows(s: System, t: System) {
    && s.localTTL == t.localTTL && s.clock <= t.clock
    && (t.history == s.history || exists c: Change :: c.at == s.clock && t.history == s.history + [c])
    && (forall id :: id in s.procs && s.procs[id].Stored? ==> id in t.procs && t.procs[id] == s.procs[id])
  }

  lemma StepGrows(s: System, a: Action)
    requires Enabled(s, a)
    ensures Grows(s, Next(s, a))
  {
    if a.Remote? {
      var c := Change(s.clock, a.cell);
      assert Next(s, a).history == s.history + [c];
    }
  }

  lemma HeldStays(s: System, t: System, at: int, v: Value)
    requires Grows(s, t) && HeldAt(s.history, at, v) && at <= s.clock
    ensures HeldAt(t.history, at, v)
  {
    var i :| HeldFrom(s.history, i, at, v);
    assert HeldFrom(t.history, i, at, v);
  }

  lemma EntryStays(s: System, t: System, e: Entry)
    requires Grows(s, t) && GoodEntry(s, e)
    ensures GoodEntry(t, e)
    ensures KnownEntry(s, e) ==> KnownEntry(t, e)
  {
    HeldStays(s, t, e.origin.getAt, e.item.value);
  }

  lemma ProcStays(s: System, t: System, id: Id, p: Proc)
    requires Grows(s, t) && GoodProc(s, id, p)
    ensures GoodProc(t, id, p)
  {
    match p {
      case Got(v, getAt) => HeldStays(s, t, getAt, v);
      case Asked(v, getAt, _, _, _) => HeldStays(s, t, getAt, v);
      case Stamped(e) => EntryStays(s, t, e);
      case Stored(e) => EntryStays(s, t, e);
      case Loaded(e) => EntryStays(s, t, e);
      case Hit(e, _) => EntryStays(s, t, e);
      case Gone =>
    }
  }

  /** The lifetime that a backfill gives. */
  lemma StampIsGood(s: System, id: Id, p: Proc)
    requires Inv(s) && p.Asked? && GoodProc(s, id, p)
    ensures GoodProc(s, id, StampedProc(s, id, p))
  {
    BackfillMeaning(s.localTTL, p.remaining);
  }

  lemma OwnStep(s: System, a: Action, id: Id)
    requires Inv(s) && Enabled(s, a) && id in Next(s, a).procs
        && (id !in s.procs || Next(s, a).procs[id] != s.procs[id])
    ensures GoodProc(Next(s, a), id, Next(s, a).procs[id])
  {
    var t := Next(s, a);
    StepGrows(s, a);
    match a {
      case GetRemote(_) =>
        assert HeldFrom(s.history, |s.history| - 1, s.clock, s.redis.value.value);
      case Pttl(_, _) =>
        ProcStays(s, t, id, s.procs[id]);
      case StampItem(_) =>
        StampIsGood(s, id, s.procs[id]);
        ProcStays(s, t, id, StampedProc(s, id, s.procs[id]));
      case StoreItem(_) =>
        EntryStays(s, t, s.procs[id].entry);
      case Load(_) =>
        EntryStays(s, t, s.l1.value);
      case Check(_) =>
        EntryStays(s, t, s.procs[id].entry);
      case _ =>
    }
  }

  lemma LocalStep(s: System, a: Action)
    requires Inv(s) && Enabled(s, a) && Next(s, a).l1.Some?
    ensures KnownEntry(Next(s, a), Next(s, a).l1.value)
  {
    StepGrows(s, a);
    if a.StoreItem? {
      assert GoodProc(s, a.id, s.procs[a.id]);
    }
    EntryStays(s, Next(s, a), Next(s, a).l1.value);
  }

  lemma InvKept(s: System, a: Action)
    requires Inv(s) && Enabled(s, a)
    ensures Inv(Next(s, a))
  {
    var t := Next(s, a);
    StepGrows(s, a);
    if t.l1.Some? {
      LocalStep(s, a);
    }
    forall id | id in t.procs ensures GoodProc(t, id, t.procs[id]) {
      if id in s.procs && t.procs[id] == s.procs[id] {
        ProcStays(s, t, id, s.procs[id]);
      } else {
        OwnStep(s, a, id);
      }
    }
  }

  lemma {:induction false} RunInv(states: seq<System>, actions: seq<Action>, localTTL: int, start: int, i: nat)
    requires Run(states, actions, localTTL, start) && i < |states|
    ensures Inv(states[i]) && states[i].localTTL == localTTL
  {
    if i > 0 {
      RunInv(states, actions, localTTL, start, i - 1);
      assert Enabled(states[i - 1], actions[i - 1]) && states[i] == Next(states[i - 1], actions[i - 1]);
      InvKept(states[i - 1], actions[i - 1]);
    }
  }

  // ---------------------------------------------------------------- the guarantees

  /** A hit at time t returns what Redis held when the item was read, which is no longer ago than localTTL and the delay
    * between that read and the start of the item's lifetime. */
  lemma HitIsRecent(states: seq<System>, actions: seq<Action>, localTTL: int, start: int, i: nat, id: Id)
    requires Run(states, actions, localTTL, start) && i < |states|
    requires id in states[i].procs && states[i].procs[id].Hit?
    ensures var e, t := states[i].procs[id].entry, states[i].procs[id].at;
            && HeldAt(states[i].history, e.origin.getAt, e.item.value)
            && e.origin.getAt <= e.origin.stampAt
            && t - e.origin.getAt <= localTTL + (e.origin.stampAt - e.origin.getAt)
  {
    RunInv(states, actions, localTTL, start, i);
  }

  /** An item outlives the deadline that Redis had when PTTL was answered by no more than the delay since then. */
  lemma HitNearDeadline(states: seq<System>, actions: seq<Action>, localTTL: int, start: int, i: nat, id: Id)
    requires Run(states, actions, localTTL, start) && i < |states|
    requires id in states[i].procs && states[i].procs[id].Hit? && states[i].procs[id].entry.origin.remoteDeadline.Some?
    ensures var e, t := states[i].procs[id].entry, states[i].procs[id].at;
            && e.origin.pttlAt <= e.origin.stampAt
            && t <= e.origin.remoteDeadline.value + (e.origin.stampAt - e.origin.pttlAt)
  {
    RunInv(states, actions, localTTL, start, i);
  }

  /** Reads and the janitor remove nothing but expired items: what was stored after their load stays. */
  lemma OnlyExpiredRemoved(states: seq<System>, actions: seq<Action>, localTTL: int, start: int, i: nat)
    requires Run(states, actions, localTTL, start) && i < |actions| && actions[i].Check?
    requires states[i].l1.Some? && states[i + 1].l1 != states[i].l1
    ensures states[i + 1].l1.None? && Expired(states[i].l1.value.item, states[i].clock)
  {
    RunInv(states, actions, localTTL, start, i);
    var s, a := states[i], actions[i];
    assert Enabled(s, a) && states[i + 1] == Next(s, a);
    assert GoodProc(s, a.id, s.procs[a.id]);
  }

  /** An item is never served later than localTTL after its read, as the documentation promises, if and only if the
    * delay of the read and the lifetime it was given stay within localTTL together. */
  lemma DocumentedBound(s: System, id: Id, p: Proc)
    requires Inv(s) && p.Asked? && GoodProc(s, id, p) && LocalBackfillTTL(s.localTTL, p.remaining).Some?
    ensures
      var ttl := LocalBackfillTTL(s.localTTL, p.remaining).value;
      StampedProc(s, id, p).Stamped?
      && ((forall t :: t >= s.clock && !Expired(StampedProc(s, id, p).entry.item, t) ==> t - p.getAt <= s.localTTL)
          <==> (s.clock - p.getAt) + ttl <= s.localTTL)
  {
    BackfillMeaning(s.localTTL, p.remaining);
    var ttl := LocalBackfillTTL(s.localTTL, p.remaining).value;
    var item := StampedProc(s, id, p).entry.item;
    assert item.expiration == s.clock + ttl;
    assert !Expired(item, s.clock + ttl);
  }

  lemma Extend(states: seq<System>, actions: seq<Action>, localTTL: int, a: Action)
    returns (states': seq<System>, actions': seq<Action>, s: System)
    requires Run(states, actions, localTTL, 0) && Enabled(states[|actions|], a)
    ensures Run(states', actions', localTTL, 0) && s == states'[|actions'|] == Next(states[|actions|], a)
  {
    s := Next(states[|actions|], a);
    states', actions' := states + [s], actions + [a];
  }

  const SEVEN := Cell(7, None)

  function SlowHistory(): seq<Change> {
    [Change(0, None), Change(0, Some(SEVEN)), Change(0, None)]
  }

  function SlowEntry(localTTL: int, delay: int): Entry {
    Entry(Item(0, 7, delay + localTTL), Origin(0, 0, None, delay))
  }

  /** A read finds a value without a deadline, which Redis loses at once. */
  lemma SlowRead(localTTL: int) returns (states: seq<System>, actions: seq<Action>, s: System)
    requires 0 < localTTL <= MAX
    ensures Run(states, actions, localTTL, 0) && s == states[|actions|]
    ensures s == System(localTTL, 0, None, SlowHistory(), None, map[0 := Asked(7, 0, 0, NO_EXPIRY, None)])
  {
    states, actions := [Initial(localTTL, 0)], [];
    states, actions, s := Extend(states, actions, localTTL, Remote(Some(SEVEN)));
    states, actions, s := Extend(states, actions, localTTL, GetRemote(0));
    states, actions, s := Extend(states, actions, localTTL, Pttl(0, NO_EXPIRY));
    states, actions, s := Extend(states, actions, localTTL, Remote(None));
  }

  lemma SlowStore(localTTL: int, delay: int) returns (states: seq<System>, actions: seq<Action>, s: System)
    requires localTTL > 0 && delay > 0 && delay + localTTL <= MAX
    ensures Run(states, actions, localTTL, 0) && s == states[|actions|]
    ensures var e := SlowEntry(localTTL, delay);
            s == System(localTTL, delay, None, SlowHistory(), Some(e), map[0 := Stored(e)])
  {
    states, actions, s := SlowRead(localTTL);
    states, actions, s := Extend(states, actions, localTTL, Tick(delay));
    states, actions, s := Extend(states, actions, localTTL, StampItem(0));
    states, actions, s := Extend(states, actions, localTTL, StoreItem(0));
  }

  /** The delay cannot be left out: after a read that took long, a hit returns a value that Redis has not held for the
    * whole of localTTL and the delay. */
  lemma DelayCounts(localTTL: int, delay: int) returns (states: seq<System>, actions: seq<Action>, s: System)
    requires localTTL > 0 && delay > 0 && 2 * localTTL + delay <= MAX
    ensures Run(states, actions, localTTL, 0) && s == states[|actions|]
    ensures 1 in s.procs && s.procs[1] == Hit(SlowEntry(localTTL, delay), localTTL + delay)
    ensures s.history == SlowHistory()
  {
    states, actions, s := SlowStore(localTTL, delay);
    states, actions, s := Extend(states, actions, localTTL, Tick(delay + localTTL));
    states, actions, s := Extend(states, actions, localTTL, Load(1));
    states, actions, s := Extend(states, actions, localTTL, Check(1));
  }
}
