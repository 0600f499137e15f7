/** The namespaced views over one native engine: persist/internal/localadapter/store.go and owner.go, updated in place.
  * Gate proves that operations never overlap inside the engine, so each method here is one operation from start to end.
  * What the engine does on its own (dropped slots, native failures) and what a context reports are parameters. */
module Adapter {
  import opened Wrappers
  import opened Int64
  import Gate
  import Record
  import opened Physical
  import opened EngineSlots

  type Bytes = seq<Record.Byte>

  datatype Error = ErrInvalidArgument | ErrClosed | ErrCorruptEntry | ErrCacheMiss | ErrCancelled | ErrNative

  /** Whether the context reports a cancellation at each point where the code asks: at the beginning of setBytes, at the
    * beginning of acquire, in its select, when it has the token, and when setBytes returns. */
  datatype Context = Context(onCall: bool, onEntry: bool, whileWaiting: bool, onToken: bool, onReturn: bool)

  /** What a Close of the owner does while another operation waits for the token: it may begin, and it may also finish,
    * with what the native Close returns if there is one. */
  datatype OwnerMove = Stays | Begins | Finishes(native: Option<Error>)

  /** What other operations do while this one waits for the token. */
  datatype Meanwhile = Meanwhile(owner: OwnerMove, viewCloses: bool)

  /** How far the closing of an owner has come, and what it returns. */
  datatype Phase = Phase(state: nat, closeErr: Option<Error>)

  const BACKGROUND := Context(false, false, false, false, false)

  // ---------------------------------------------------------------- time

  const SECOND: int := 1_000_000_000

  /** Clock readings, in nanoseconds since 1970, to which any duration can be added. */
  ghost predicate ClockReading(t: int) {
    -MAX * (SECOND / 2) <= t <= MAX * (SECOND / 2)
  }

  function ToInstant(t: int): Record.Instant {
    Record.Instant(t / SECOND, t % SECOND)
  }

  function Nanos(t: Record.Instant): int {
    t.seconds * SECOND + t.nanos
  }

  lemma InstantExact(t: int, d: Duration)
    requires ClockReading(t)
    ensures Record.IsInstant(ToInstant(t + d)) && Nanos(ToInstant(t + d)) == t + d
  {
  }

  predicate Expired(e: Record.Entry, now: int) {
    e.deadline.Some? && Nanos(e.deadline.value) <= now
  }

  // ---------------------------------------------------------------- the owner

  predicate Bindable(namespace: Bytes, utf8: bool) {
    0 < |namespace| <= 128 && utf8 && 0 !in namespace
  }

  predicate Waits(ctx: Context, closing: bool, state: nat) {
    !ctx.onEntry && (closing || state == 0)
  }

  function Closing(phase: Phase): Phase {
    if phase.state == 0 then phase.(state := 1) else phase
  }

  function Closed(phase: Phase, owned: bool, native: Option<Error>): Phase {
    if phase.state == 2 then phase else Phase(2, if owned then native else None)
  }

  function Moved(phase: Phase, owned: bool, move: OwnerMove): Phase {
    match move
    case Stays => phase
    case Begins => Closing(phase)
    case Finishes(native) => Closed(phase, owned, native)
  }

  function PhaseAfterWait(ctx: Context, closing: bool, phase: Phase, owned: bool, m: Meanwhile): Phase {
    if Waits(ctx, closing, phase.state) then Moved(phase, owned, m.owner) else phase
  }

  /** What acquire returns. */
  function Admission(ctx: Context, closing: bool, state: nat, m: Meanwhile): Option<Error> {
    if ctx.onEntry then Some(ErrCancelled)
    else if !closing && state != 0 then Some(ErrClosed)
    else if ctx.whileWaiting || ctx.onToken then Some(ErrCancelled)
    else if !closing && m.owner != Stays then Some(ErrClosed)
    else None
  }

  /** What Store.acquire returns. */
  function ViewAdmission(closed: bool, ctx: Context, state: nat, m: Meanwhile): Option<Error> {
    if closed then Some(ErrClosed)
    else
      var err := Admission(ctx, false, state, m);
      if err.None? && m.viewCloses then Some(ErrClosed) else err
  }

  /** The way of one operation through the machine of Gate: before is what it finds on entry, after what it finds when
    * it has received the token. */
  function Way(before: Gate.System, after: Gate.System, id: Gate.Id, kind: Gate.Kind, givesUp: bool): Gate.Pc {
    var entered := Gate.NextPc(before, id, Gate.Op(kind, Gate.CheckContext));
    var waiting := if entered.CheckState? then Gate.NextPc(before, id, Gate.Op(kind, entered)) else entered;
    if !waiting.Waiting? then waiting
    else if givesUp then Gate.Next(before.(ops := map[id := Gate.Op(kind, waiting)]), Gate.GiveUp(id)).ops[id].pc
    else
      var held := Gate.NextPc(after, id, Gate.Op(kind, Gate.GotToken));
      if held.RecheckState? then Gate.NextPc(after, id, Gate.Op(kind, held)) else held
  }

  /** Admission is what the gate's machine does, whatever happens between its steps: the two forms of acquire agree. */
  lemma AdmissionIsTheGate(before: Gate.System, after: Gate.System, id: Gate.Id, view: Gate.View, closing: bool,
                           ctx: Context, m: Meanwhile)
    requires (id in before.cancelled <==> ctx.onEntry) && (id in after.cancelled <==> ctx.onToken)
    requires before.state <= 2 && after.state == Moved(Phase(before.state, None), before.owned, m.owner).state
    ensures
      var pc := Way(before, after, id, if closing then Gate.CloseOwner else Gate.Use(view), ctx.whileWaiting);
      match Admission(ctx, closing, before.state, m)
      case None => pc.RecheckView? || pc.Decide?
      case Some(ErrCancelled) => pc == Gate.Done(Gate.ErrCancelled) || pc == Gate.Release(Gate.ErrCancelled)
      case Some(e) => e == ErrClosed && (pc == Gate.Done(Gate.ErrClosed) || pc == Gate.Release(Gate.ErrClosed))
  {
  }

  /** What waiting in Store.acquire lets happen to the view and to the owner. */
  function ClosedAfterWait(closed: bool, ctx: Context, state: nat, m: Meanwhile): bool {
    closed || (m.viewCloses && Waits(ctx, false, state))
  }

  function PhaseAfterViewWait(closed: bool, ctx: Context, phase: Phase, owned: bool, m: Meanwhile): Phase {
    if closed then phase else PhaseAfterWait(ctx, false, phase, owned, m)
  }

  datatype EngineReply = Found(data: Bytes) | Missing | Failed

  /** What the engine does with a record: it stores it, or it leaves or empties the slot; a failure may come after. */
  datatype SetFate = Stored(fails: bool) | NotStored(keeps: bool, fails: bool)

  class Owner {
    var gate: bool
    var state: nat
    var engineOpen: bool
    var slots: Slots
    var names: set<Bytes>
    var sequence: nat
    var closeErr: Option<Error>
    var nativeCloses: nat
    ghost var last: map<Key, Record.Entry>
    const owned: bool
    const hash: Key -> int

    ghost predicate Valid()
      reads this
    {
      && state <= 2 && (engineOpen <==> state != 2)
      && nativeCloses == (if state == 2 && owned then 1 else 0)
      && (state != 2 || !owned ==> closeErr == None)
      && sequence <= Record.MAX_UINT64
      && Sound(slots, hash, last, sequence)
    }

    ghost function Stage(): Phase
      reads this
    {
      Phase(state, closeErr)
    }

    /** Ready for the next operation: the token is in the channel. */
    ghost predicate Idle()
      reads this
    {
      Valid() && gate
    }

    ghost function View(p: Key): Option<Record.Entry>
      reads this
    {
      Held(slots, hash, p)
    }

    constructor (hash: Key -> int, owned: bool)
      ensures Idle() && state == 0 && slots == map[] && last == map[] && names == {} && sequence == 0
      ensures this.owned == owned && this.hash == hash
    {
      this.hash, this.owned := hash, owned;
      gate, state, engineOpen, slots, names := true, 0, true, map[], {};
      sequence, closeErr, nativeCloses, last := 0, None, 0, map[];
    }

    method Acquire(ctx: Context, closing: bool, m: Meanwhile) returns (err: Option<Error>)
      requires Idle()
      modifies this`gate, this`state, this`engineOpen, this`closeErr, this`nativeCloses
      ensures Valid() && gate == err.Some?
      ensures err == Admission(ctx, closing, old(state), m)
      ensures Stage() == PhaseAfterWait(ctx, closing, old(Stage()), owned, m)
    {
      if ctx.onEntry {
        return Some(ErrCancelled);
      }
      if !closing && state != 0 {
        return Some(ErrClosed);
      }
      Elsewhere(m.owner);
      if ctx.whileWaiting {
        return Some(ErrCancelled);
      }
      gate := false;
      if ctx.onToken {
        Release();
        return Some(ErrCancelled);
      }
      if !closing && state != 0 {
        Release();
        return Some(ErrClosed);
      }
      return None;
    }

    /** Another operation's Close, or the beginning of one. */
    method Elsewhere(move: OwnerMove)
      requires Valid()
      modifies this`state, this`engineOpen, this`closeErr, this`nativeCloses
      ensures Valid() && Stage() == Moved(old(Stage()), owned, move)
    {
      if move.Begins? && state == 0 {
        state := 1;
      } else if move.Finishes? && state != 2 {
        CloseEngine(move.native);
      }
    }

    /** The last steps of a Close that got through. */
    method CloseEngine(native: Option<Error>)
      requires Valid() && state != 2
      modifies this`state, this`engineOpen, this`closeErr, this`nativeCloses
      ensures Valid() && Stage() == Phase(2, if owned then native else None)
    {
      if owned {
        closeErr, nativeCloses := native, nativeCloses + 1;
      }
      engineOpen := false;
      state := 2;
    }

    method Release()
      requires !gate
      modifies this`gate
      ensures gate
    {
      gate := true;
    }

    /** Owner.Close. */
    method Close(ctx: Context, native: Option<Error>, m: Meanwhile) returns (err: Option<Error>)
      requires Idle()
      modifies this`gate, this`state, this`engineOpen, this`closeErr, this`nativeCloses
      ensures Idle()
      ensures var waited := PhaseAfterWait(ctx, true, Closing(old(Stage())), owned, m);
              if Admission(ctx, true, 1, m).Some? then err == Some(ErrCancelled) && Stage() == waited
              else Stage() == Closed(waited, owned, native) && err == closeErr
    {
      if state == 0 {
        state := 1;
      }
      var refused := Acquire(ctx, true, m);
      if refused.Some? {
        return refused;
      }
      if state == 2 {
        Release();
        return closeErr;
      }
      CloseEngine(native);
      Release();
      return closeErr;
    }

    method NewStore(namespace: Bytes, utf8: bool, ttl: Duration, m: Meanwhile) returns (r: Result<Store, Error>)
      requires Idle()
      modifies this`gate, this`state, this`engineOpen, this`closeErr, this`nativeCloses, this`names
      ensures Idle()
      ensures Stage() == if !Bindable(namespace, utf8) || ttl < 0 then old(Stage())
                         else PhaseAfterWait(BACKGROUND, false, old(Stage()), owned, m)
      ensures r.Ok? <==> 1 <= |namespace| <= 128 && utf8 && (forall i :: 0 <= i < |namespace| ==> namespace[i] != 0)
                         && ttl >= 0 && state == 0 && namespace !in old(names)
      ensures r.Ok? ==> fresh(r.value) && r.value.owner == this && r.value.namespace == namespace && r.value.ttl == ttl
                        && r.value.Valid() && !r.value.closed && names == old(names) + {namespace}
      ensures r.Err? ==> names == old(names)
                         && r.error == (if Bindable(namespace, utf8) && ttl >= 0 && state != 0 then ErrClosed
                                        else ErrInvalidArgument)
    {
      if !Bindable(namespace, utf8) || ttl < 0 {
        return Err(ErrInvalidArgument);
      }
      var refused := Acquire(BACKGROUND, false, m);
      if refused.Some? {
        return Err(refused.value);
      }
      if namespace in names {
        Release();
        return Err(ErrInvalidArgument);
      }
      var s := new Store(this, namespace, ttl);
      names := names + {namespace};
      Release();
      return Ok(s);
    }

    /** The engine's Get, after it has dropped some slots on its own. */
    method EngineGet(p: Key, dropped: set<int>, fails: bool) returns (reply: EngineReply)
      requires Valid() && engineOpen
      modifies this`slots
      ensures Valid() && slots == old(slots) - dropped
      ensures reply == if fails then Failed else if hash(p) in slots then Found(slots[hash(p)]) else Missing
    {
      LoseKeeps(slots, hash, last, sequence, dropped, p);
      slots := slots - dropped;
      if fails {
        return Failed;
      }
      if hash(p) in slots {
        return Found(slots[hash(p)]);
      }
      return Missing;
    }

    /** The engine loses a record without emptying its slot. */
    method Spoil(p: Key, data: Bytes)
      requires Valid() && Record.DecodeRecord(data).Err?
      modifies this`slots
      ensures Valid() && Damaged(slots, hash, p) && OthersSurvive(old(slots), slots, hash, p)
    {
      slots := slots[hash(p) := data];
    }

    /** The engine's Set, with the record of the sequence number just taken. */
    method EngineSet(p: Key, data: Bytes, fate: SetFate, ghost e: Record.Entry) returns (stored: bool, fails: bool)
      requires engineOpen && state <= 2 && sequence > 0 && Sound(slots, hash, last, sequence - 1)
      requires Record.Storable(e) && data == Record.Bytes(e) && e.key == p && e.sequence == sequence
      modifies this`slots, this`last
      ensures Sound(slots, hash, last, sequence)
      ensures OthersSurvive(old(slots), slots, hash, p)
      ensures fate.Stored? ==> last == old(last)[p := e] && View(p) == Some(e)
      ensures fate.NotStored? ==> last == old(last) && View(p) == if fate.keeps then old(View(p)) else None
      ensures stored == (fate == Stored(false)) && fails == fate.fails
    {
      match fate {
        case Stored(_) =>
          WriteKeeps(slots, hash, last, sequence - 1, e);
          slots, last := slots[hash(p) := data], last[p := e];
        case NotStored(keeps, _) =>
          if !keeps {
            LoseKeeps(slots, hash, last, sequence - 1, {hash(p)}, p);
            slots := slots - {hash(p)};
          }
      }
      return fate == Stored(false), fate.fails;
    }

    /** The engine's Delete; a failure leaves the slot. */
    method EngineDelete(p: Key, fails: bool)
      requires Valid() && engineOpen && View(p).Some?
      modifies this`slots, this`last
      ensures Valid() && OthersKept(old(slots), slots, hash, p, {})
      ensures fails ==> slots == old(slots) && last == old(last)
      ensures !fails ==> hash(p) !in slots && View(p) == None && last == old(last) - {p}
    {
      if !fails {
        DeleteKeeps(slots, hash, last, sequence, p);
        slots, last := slots - {hash(p)}, last - {p};
      }
    }
  }

  // ---------------------------------------------------------------- a view

  /** What setBytes refuses before it asks for the token. */
  function Early(p: Key, value: Bytes, ttl: int, ctx: Context): Option<Error> {
    if ttl < 0 then Some(ErrInvalidArgument)
    else if ctx.onCall then Some(ErrCancelled)
    else if Record.TooLarge(p, value) then Some(ErrInvalidArgument)
    else None
  }

  /** What setBytes decides before it reaches the engine. */
  datatype Verdict = Refused(err: Error) | TooLate | Submit(entry: Record.Entry, nativeTtl: int)

  function Deadline(started: int, ttl: int): Option<Record.Instant> {
    if ttl > 0 then Some(ToInstant(started + ttl)) else None
  }

  /** The record expires exactly d after it was started, or never if d is zero. */
  ghost predicate Lives(e: Record.Entry, started: int, d: int) {
    if d == 0 then forall t: int :: !Expired(e, t) else forall t: int :: Expired(e, t) <==> started + d <= t
  }

  /** What the engine is told: what is left of d at the time of the call, as far as it can be expressed, or zero. */
  ghost predicate NativeLifetime(native: int, left: int, d: int) {
    if d == 0 then native == 0 else 0 < native <= left && (left <= MAX ==> native == left)
  }

  class Store {
    const owner: Owner
    const namespace: Bytes
    const prefix: Bytes
    const ttl: int
    var closed: bool

    ghost predicate Valid() {
      prefix == Prefix(namespace) && 0 <= ttl <= MAX
    }

    constructor (owner: Owner, namespace: Bytes, ttl: int)
      requires 0 <= ttl <= MAX
      ensures Valid() && this.owner == owner && this.namespace == namespace && this.ttl == ttl && !closed
    {
      this.owner, this.namespace, this.prefix, this.ttl, closed := owner, namespace, Prefix(namespace), ttl, false;
    }

    ghost function Physical(key: Bytes): Key {
      PhysicalKey(namespace, key)
    }

    /** Store.acquire. */
    method Acquire(ctx: Context, m: Meanwhile) returns (err: Option<Error>)
      requires owner.Idle()
      modifies this`closed, owner`gate, owner`state, owner`engineOpen, owner`closeErr, owner`nativeCloses
      ensures owner.Valid() && owner.gate == err.Some?
      ensures err == ViewAdmission(old(closed), ctx, old(owner.state), m)
      ensures closed == ClosedAfterWait(old(closed), ctx, old(owner.state), m)
      ensures owner.Stage() == PhaseAfterViewWait(old(closed), ctx, old(owner.Stage()), owner.owned, m)
      ensures err.None? ==> owner.state == 0 && !closed
      ensures ctx == BACKGROUND ==> (err == Some(ErrClosed) <==> closed || owner.state != 0)
      ensures ctx == BACKGROUND && err.Some? ==> err == Some(ErrClosed)
    {
      if closed {
        return Some(ErrClosed);
      }
      var waits := Waits(ctx, false, owner.state);
      err := owner.Acquire(ctx, false, m);
      if m.viewCloses && waits {
        closed := true;
      }
      if err.None? && closed {
        owner.Release();
        return Some(ErrClosed);
      }
    }

    method GetBytes(key: Bytes, now: int, dropped: set<int>, fails: bool, m: Meanwhile)
      returns (r: Result<Bytes, Error>)
      requires Valid() && owner.Idle()
      modifies this`closed, owner`gate, owner`state, owner`engineOpen, owner`closeErr, owner`nativeCloses, owner`slots
      ensures owner.Idle()
      // the last value stored for exactly this pair, and only before its deadline
      ensures r.Ok? ==> Physical(key) in owner.last && r.value == owner.last[Physical(key)].payload
                        && !Expired(owner.last[Physical(key)], now)
      // and nothing less: only these keep it from being found
      ensures r.Err? <==>
              || closed || owner.state != 0 || fails
              || owner.View(Physical(key)).None? || Expired(owner.View(Physical(key)).value, now)
      ensures r.Err? ==> r.error == if closed || owner.state != 0 then ErrClosed else if fails then ErrNative
                                    else if Damaged(owner.slots, owner.hash, Physical(key)) then ErrCorruptEntry
                                    else ErrCacheMiss
      ensures owner.slots == if closed || owner.state != 0 then old(owner.slots) else old(owner.slots) - dropped
      ensures closed == ClosedAfterWait(old(closed), BACKGROUND, old(owner.state), m)
      ensures owner.Stage() == PhaseAfterViewWait(old(closed), BACKGROUND, old(owner.Stage()), owner.owned, m)
    {
      var refused := Acquire(BACKGROUND, m);
      if refused.Some? {
        return Err(refused.value);
      }
      var physical := prefix + key;
      var reply := owner.EngineGet(physical, dropped, fails);
      HeldIsLast(owner.slots, owner.hash, owner.last, owner.sequence, physical);
      owner.Release();
      if !reply.Found? {
        return Err(if reply.Missing? then ErrCacheMiss else ErrNative);
      }
      var decoded := Record.DecodeRecord(reply.data);
      if decoded.Err? {
        return Err(ErrCorruptEntry);
      }
      if decoded.value.key != physical || Expired(decoded.value, now) {
        return Err(ErrCacheMiss);
      }
      return Ok(decoded.value.payload);
    }

    /** What setBytes decides once it has the token. */
    ghost function SetVerdict(key: Bytes, value: Bytes, ttl: int, started: int, now: int, sequence: nat): Verdict {
      if ttl > 0 && Clamp(started + ttl - now) <= 0 then TooLate
      else if sequence == Record.MAX_UINT64 then Refused(ErrInvalidArgument)
      else Submit(Record.Entry(Physical(key), value, Deadline(started, ttl), sequence + 1),
                  if ttl > 0 then Clamp(started + ttl - now) else 0)
    }

    ghost predicate Settled(p: Key, verdict: Verdict, fate: SetFate, slots: Slots,
                            last: map<Key, Record.Entry>, sequence: nat)
      reads owner
    {
      match verdict
      case Submit(e, _) =>
        && owner.sequence == e.sequence
        && OthersSurvive(slots, owner.slots, owner.hash, p)
        && owner.last == (if fate.Stored? then last[p := e] else last)
        && owner.View(p) == (if fate.Stored? then Some(e) else if fate.keeps then Held(slots, owner.hash, p) else None)
      case _ => Untouched(slots, last, sequence)
    }

    /** What the caller of setBytes is told: a cancellation seen after the write does not undo it. */
    ghost predicate Told(verdict: Verdict, fate: SetFate, cancelled: bool, stored: bool, err: Option<Error>) {
      match verdict
      case Refused(e) => !stored && err == Some(e)
      case TooLate => !stored && err == None
      case Submit(_, _) =>
        && stored == (fate == Stored(false))
        && err == if fate.fails then Some(ErrNative) else if cancelled then Some(ErrCancelled) else None
    }

    /** The last record of p has the value and lives for d from started on, and the engine was told so. */
    ghost predicate StoredFor(p: Key, value: Bytes, started: int, now: int, d: int, nativeTtl: int)
      reads owner
    {
      && p in owner.last && owner.last[p].payload == value && Lives(owner.last[p], started, d)
      && NativeLifetime(nativeTtl, started + d - now, d)
    }

    /** The rest of setBytes, from where it holds the token to where it gives it back. */
    method SetHeld(physical: Key, data: array<Record.Byte>, ttl: int, started: int, now: int, fate: SetFate,
                   cancelled: bool, ghost key: Bytes, ghost value: Bytes)
      returns (stored: bool, err: Option<Error>, nativeTtl: int)
      requires Valid() && owner.Valid() && !owner.gate && owner.state == 0 && physical == Physical(key)
      requires var e := Record.Entry(physical, value, Deadline(started, ttl), 0);
               Record.Storable(e) && data[..] == Record.Bytes(e)
      requires 0 <= ttl <= MAX && ClockReading(started)
      modifies data, owner`gate, owner`slots, owner`last, owner`sequence
      ensures owner.Idle()
      ensures fate.Stored? && owner.sequence != old(owner.sequence) ==>
                StoredFor(physical, value, started, now, ttl, nativeTtl)
      ensures var verdict := SetVerdict(key, value, ttl, started, now, old(owner.sequence));
              && Told(verdict, fate, cancelled, stored, err) && (verdict.Submit? ==> nativeTtl == verdict.nativeTtl)
              && Settled(physical, verdict, fate, old(owner.slots), old(owner.last), old(owner.sequence))
    {
      SubmissionLives(this, key, value, ttl, started, now, owner.sequence);
      stored, err, nativeTtl := false, None, 0;
      if ttl > 0 {
        nativeTtl := Clamp(started + ttl - now);
        if nativeTtl <= 0 {
          owner.Release();
          return;
        }
      }
      if owner.sequence == Record.MAX_UINT64 {
        owner.Release();
        return false, Some(ErrInvalidArgument), nativeTtl;
      }
      owner.sequence := owner.sequence + 1;
      ghost var e := Record.Entry(physical, value, Deadline(started, ttl), 0);
      Record.Stamp(data, e, owner.sequence);
      var fails;
      stored, fails := owner.EngineSet(physical, data[..], fate, e.(sequence := owner.sequence));
      owner.Release();
      err := if fails then Some(ErrNative) else if cancelled then Some(ErrCancelled) else None;
    }

    /** setBytes from where the record is encoded; its sequence number is still zero. */
    method SetEncoded(ctx: Context, physical: Key, data: array<Record.Byte>, ttl: Duration, started: int, now: int,
                      fate: SetFate, m: Meanwhile, ghost key: Bytes, ghost value: Bytes)
      returns (stored: bool, err: Option<Error>, nativeTtl: int)
      requires Valid() && owner.Idle() && physical == Physical(key) && ttl >= 0 && ClockReading(started)
      requires var e := Record.Entry(physical, value, Deadline(started, ttl), 0);
               Record.Storable(e) && data[..] == Record.Bytes(e)
      modifies data, this`closed, owner`gate, owner`state, owner`engineOpen, owner`closeErr, owner`nativeCloses,
          owner`slots, owner`last, owner`sequence
      ensures owner.Idle()
      ensures var refusal := ViewAdmission(old(closed), ctx, old(owner.state), m);
              var verdict := if refusal.Some? then Refused(refusal.value)
                             else SetVerdict(key, value, ttl, started, now, old(owner.sequence));
              && Told(verdict, fate, ctx.onReturn, stored, err) && (verdict.Submit? ==> nativeTtl == verdict.nativeTtl)
              && Settled(physical, verdict, fate, old(owner.slots), old(owner.last), old(owner.sequence))
      ensures closed == ClosedAfterWait(old(closed), ctx, old(owner.state), m)
      ensures owner.Stage() == PhaseAfterViewWait(old(closed), ctx, old(owner.Stage()), owner.owned, m)
      ensures fate.Stored? && owner.sequence != old(owner.sequence) ==>
                StoredFor(physical, value, started, now, ttl, nativeTtl)
    {
      stored, nativeTtl := false, 0;
      err := Acquire(ctx, m);
      if err.Some? {
        return;
      }
      stored, err, nativeTtl := SetHeld(physical, data, ttl, started, now, fate, ctx.onReturn, key, value);
    }

    method SetBytes(ctx: Context, key: Bytes, value: Bytes, ttl: Duration, started: int, now: int, fate: SetFate,
                    m: Meanwhile)
      returns (stored: bool, err: Option<Error>, nativeTtl: int)
      requires Valid() && owner.Idle() && ClockReading(started) && ClockReading(now)
      modifies this`closed, owner`gate, owner`state, owner`engineOpen, owner`closeErr, owner`nativeCloses,
          owner`slots, owner`last, owner`sequence
      ensures owner.Idle()
      ensures var p := Physical(key);
              var early := Early(p, value, ttl, ctx);
              var entry := ViewAdmission(old(closed), ctx, old(owner.state), m);
              var refusal := if early.Some? then early else entry;
              var verdict := if refusal.Some? then Refused(refusal.value)
                             else SetVerdict(key, value, if ttl == 0 then this.ttl else ttl, started, now,
                                             old(owner.sequence));
              && Told(verdict, fate, ctx.onReturn, stored, err)
              && closed == (if early.Some? then old(closed) else ClosedAfterWait(old(closed), ctx, old(owner.state), m))
              && owner.Stage() == (if early.Some? then old(owner.Stage())
                                   else PhaseAfterViewWait(old(closed), ctx, old(owner.Stage()), owner.owned, m))
              && (verdict.Submit? ==> nativeTtl == verdict.nativeTtl)
              && Settled(p, verdict, fate, old(owner.slots), old(owner.last), old(owner.sequence))
      // a stored record lives for the given lifetime, or for the view's default if that is zero, or for ever
      ensures fate.Stored? && owner.sequence != old(owner.sequence) ==>
                StoredFor(Physical(key), value, started, now, if ttl > 0 then ttl else this.ttl, nativeTtl)
    {
      nativeTtl := 0;
      if ttl < 0 {
        return false, Some(ErrInvalidArgument), nativeTtl;
      }
      if ctx.onCall {
        return false, Some(ErrCancelled), nativeTtl;
      }
      var effective := if ttl == 0 then this.ttl else ttl;
      var physical := prefix + key;
      InstantExact(started, effective);
      var encoded := Record.EncodeRecord(physical, value, ToInstant(started + effective), effective > 0);
      if encoded.Err? {
        return false, Some(ErrInvalidArgument), nativeTtl;
      }
      stored, err, nativeTtl := SetEncoded(ctx, physical, encoded.value, effective, started, now, fate, m, key, value);
    }

    ghost predicate Untouched(slots: Slots, last: map<Key, Record.Entry>, sequence: nat)
      reads owner
    {
      owner.slots == slots && owner.last == last && owner.sequence == sequence
    }

    method Delete(key: Bytes, dropped: set<int>, getFails: bool, deleteFails: bool, m: Meanwhile)
      returns (err: Option<Error>)
      requires Valid() && owner.Idle()
      modifies this`closed, owner`gate, owner`state, owner`engineOpen, owner`closeErr, owner`nativeCloses,
          owner`slots, owner`last
      ensures owner.Idle()
      ensures OthersKept(old(owner.slots), owner.slots, owner.hash, Physical(key), dropped)
      ensures err.None? ==> owner.View(Physical(key)).None? && Physical(key) !in owner.last
      ensures forall q :: q in old(owner.last) && q != Physical(key) ==>
          q in owner.last && owner.last[q] == old(owner.last)[q]
      ensures err.Some? ==> owner.last == old(owner.last)
                            && owner.slots == if closed || owner.state != 0 then old(owner.slots)
                                              else old(owner.slots) - dropped
      ensures closed == ClosedAfterWait(old(closed), BACKGROUND, old(owner.state), m)
      ensures owner.Stage() == PhaseAfterViewWait(old(closed), BACKGROUND, old(owner.Stage()), owner.owned, m)
      ensures err.Some? <==> closed || owner.state != 0 || getFails || (deleteFails && owner.View(Physical(key)).Some?)
                             || Damaged(owner.slots, owner.hash, Physical(key))
      ensures err.Some? ==> err.value == if closed || owner.state != 0 then ErrClosed
                                         else if getFails then ErrNative
                                         else if Damaged(owner.slots, owner.hash, Physical(key)) then ErrCorruptEntry
                                         else ErrNative
    {
      err := Acquire(BACKGROUND, m);
      if err.Some? {
        return;
      }
      var physical := prefix + key;
      ghost var before := owner.slots;
      LoseKeeps(before, owner.hash, owner.last, owner.sequence, dropped, physical);
      var reply := owner.EngineGet(physical, dropped, getFails);
      HeldIsLast(owner.slots, owner.hash, owner.last, owner.sequence, physical);
      if reply.Failed? {
        err := Some(ErrNative);
      } else if reply.Found? {
        err := DeleteFound(physical, reply.data, deleteFails);
      } else {
        AbsentKeeps(owner.slots, owner.hash, owner.last, owner.sequence, physical);
        owner.last := owner.last - {physical};
      }
      owner.Release();
    }

    /** The full-key check, and the deletion if the record is the pair's own. */
    method DeleteFound(physical: Key, data: Bytes, fails: bool) returns (err: Option<Error>)
      requires owner.Valid() && owner.engineOpen && owner.hash(physical) in owner.slots
      requires data == owner.slots[owner.hash(physical)]
      modifies owner`slots, owner`last
      ensures owner.Valid() && OthersKept(old(owner.slots), owner.slots, owner.hash, physical, {})
      ensures err == if Damaged(old(owner.slots), owner.hash, physical) then Some(ErrCorruptEntry)
                     else if fails && old(owner.View(physical)).Some? then Some(ErrNative) else None
      ensures err.Some? ==> owner.last == old(owner.last) && owner.slots == old(owner.slots)
      ensures err.None? ==> owner.last == old(owner.last) - {physical} && owner.View(physical).None?
                            && !Damaged(owner.slots, owner.hash, physical)
    {
      var decoded := Record.DecodeRecord(data);
      if decoded.Err? {
        return Some(ErrCorruptEntry);
      }
      if decoded.value.key == physical {
        owner.EngineDelete(physical, fails);
        return if fails then Some(ErrNative) else None;
      }
      AbsentKeeps(owner.slots, owner.hash, owner.last, owner.sequence, physical);
      owner.last := owner.last - {physical};
      return None;
    }

    /** Store.Close shuts this view alone; it waits for the token even when the owner is closed. */
    method Close(m: Meanwhile) returns (err: Option<Error>)
      requires Valid() && owner.Idle()
      modifies this`closed, owner`gate, owner`state, owner`engineOpen, owner`closeErr, owner`nativeCloses
      ensures owner.Idle() && closed && err == None
      ensures owner.Stage() == PhaseAfterWait(BACKGROUND, true, old(owner.Stage()), owner.owned, m)
    {
      err := owner.Acquire(BACKGROUND, true, m);
      closed := true;
      owner.Release();
    }
  }

  /** Two views of one owner never name the same entry, so what one does to its own pair leaves the other's kept or
    * lost. */
  lemma Isolation(a: Store, b: Store, key: Bytes, other: Bytes, before: Slots, after: Slots)
    requires a.Valid() && b.Valid() && a.owner == b.owner && (a.namespace != b.namespace || key != other)
    requires OthersSurvive(before, after, a.owner.hash, a.Physical(key))
    ensures Held(after, b.owner.hash, b.Physical(other)) == Held(before, b.owner.hash, b.Physical(other))
            || Held(after, b.owner.hash, b.Physical(other)) == None
  {
    if a.Physical(key) == b.Physical(other) {
      PhysicalInjective(a.namespace, key, b.namespace, other);
    }
  }

  /** A record that setBytes submits lives as long as it was given. */
  lemma SubmissionLives(s: Store, key: Bytes, value: Bytes, ttl: Duration, started: int, now: int, sequence: nat)
    requires ttl >= 0 && ClockReading(started)
    ensures match s.SetVerdict(key, value, ttl, started, now, sequence)
            case Submit(e, native) =>
              e.payload == value && Lives(e, started, ttl) && NativeLifetime(native, started + ttl - now, ttl)
            case _ => true
  {
    InstantExact(started, ttl);
  }

  /** A record that setBytes submits is alive when it is submitted, never outlives started + ttl, and the engine is
    * given a positive native lifetime that reaches no further than that. */
  lemma SubmittedLifetime(s: Store, key: Bytes, value: Bytes, ttl: Duration, started: int, now: int,
                          sequence: nat, t: int)
    requires ttl > 0 && ClockReading(started) && ClockReading(now)
    requires s.SetVerdict(key, value, ttl, started, now, sequence).Submit?
    ensures var v := s.SetVerdict(key, value, ttl, started, now, sequence);
            && (Expired(v.entry, t) <==> started + ttl <= t)
            && !Expired(v.entry, now)
            && 0 < v.nativeTtl && now + v.nativeTtl <= started + ttl
  {
    InstantExact(started, ttl);
  }
}
