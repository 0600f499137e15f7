/** The flights of the response cache (cache.go) as a state machine: requests, leaders, waiters, the timers that release
  * leaders, and the store writes made under the lock of a shard. */
module Flights {
  import opened Wrappers
  import opened FlightKeys

  type Time = nat
  type RequestId = nat
  /** Flights are numbered in the order in which they start. */
  type FlightId = nat
  type Shard = nat

  /** The store a request uses. A store implemented by a value has no identity the cache could compare. */
  datatype StoreRef = DefaultStore | PointerStore(address: nat) | ValueStore(number: nat)

  datatype Slot = Slot(store: StoreRef, key: string)

  /** A response, with the slot it was produced for and what the wrapper saw of it. */
  datatype Response = Response(slot: Slot, body: string, written: bool, tooLarge: bool)

  /** writer is the flight that stored it, if one of ours did. */
  datatype Stored = Stored(response: Response, writer: Option<FlightId>)

  /** The hash that picks a lock and the test for replaying are arbitrary; keyOf is the flight key of a request, given
    * the serial number it would get if its store has no identity. */
  datatype Config = Config(
    keyOf: (Slot, nat) -> string,
    shardOf: string -> Shard,
    replayable: (Response, Time) -> bool)

  datatype Stage =
    | Looking
    | Running
      /** The handler has run: share says whether waiters may have the response, keep whether it is to be stored. */
    | Ran(response: Response, share: bool, keep: bool)
    | Locked(response: Response, share: bool)
      /** Found not released, under the lock. */
    | Checked(response: Response, share: bool)
      /** The write is over, or was skipped. */
    | Leaving(response: Response, share: bool)
    | Resolved(result: Option<Response>)
    | Finished(outcome: Option<Response>)

  datatype Flight = Flight(fkey: string, serial: nat, slot: Slot, leader: RequestId, noStore: bool,
                           stage: Stage, executed: bool, superseded: bool)

  datatype Reply = Own | Replay(response: Response, at: Time)

  datatype Step = Arrived | Missed | Leading(flight: FlightId) | Waiting(joined: FlightId) | Answered

  datatype Request = Request(slot: Slot, noStore: bool, range: bool, step: Step, runs: nat, replies: seq<Reply>)

  datatype State = State(
    now: Time,
    serial: nat,
    next: FlightId,
    stores: map<Slot, Stored>,
    registered: map<string, FlightId>,
    locks: map<Shard, FlightId>,
    flights: map<FlightId, Flight>,
    requests: map<RequestId, Request>,
    log: seq<FlightId>)

  ghost predicate Init(s: State) {
    && s.registered == map[] && s.locks == map[] && s.flights == map[] && s.requests == map[] && s.log == []
    && forall slot :: slot in s.stores ==> s.stores[slot].response.slot == slot && s.stores[slot].writer.None?
  }

  /** flightKey: a store without identity gets a serial number of its own for this request. */
  function IdentityOf(store: StoreRef, serial: nat): Identity {
    match store
    case DefaultStore => Default
    case PointerStore(a) => Address(a)
    case ValueStore(_) => Private(serial)
  }

  ghost predicate UsesFlightKey(cfg: Config) {
    forall slot, serial :: cfg.keyOf(slot, serial) == FlightKey(IdentityOf(slot.store, serial), slot.key)
  }

  /** unshareable */
  predicate Shareable(noStore: bool, r: Response) {
    !noStore && r.written && !r.tooLarge
  }

  // ---------------------------------------------------------------- actions

  datatype Action =
    | Arrive(id: RequestId, slot: Slot, noStore: bool, range: bool)
    | Bypass(id: RequestId)
    | Lookup(id: RequestId)
    | Do(id: RequestId)
    | Take(id: RequestId)
    | Recheck(f: FlightId)
    | RunHandler(f: FlightId, body: string, written: bool, tooLarge: bool, admitted: bool)
    | Skip(f: FlightId)
    | Lock(f: FlightId)
    | Check(f: FlightId)
    | Store(f: FlightId, ok: bool)
    | Unlock(f: FlightId)
    | Finish(f: FlightId)
    | Mark(f: FlightId)
    | Forget(f: FlightId)
    | External(slot: Slot, content: Option<Response>)
    | Tick

  ghost predicate EnabledRequest(s: State, a: Action) {
    match a
    case Arrive(id, _, _, _) => id !in s.requests
    case Bypass(id) => id in s.requests && s.requests[id].step.Arrived? && s.requests[id].range
    case Lookup(id) => id in s.requests && s.requests[id].step.Arrived? && !s.requests[id].range
    case Do(id) => id in s.requests && s.requests[id].step.Missed? && s.next !in s.flights
    case Take(id) =>
      && id in s.requests
      && (match s.requests[id].step
          case Leading(f) => f in s.flights && s.flights[f].stage.Finished?
          case Waiting(f) => f in s.flights && s.flights[f].stage.Finished?
          case _ => false)
    case _ => false
  }

  ghost predicate EnabledFlight(cfg: Config, s: State, a: Action) {
    match a
    case Recheck(f) => f in s.flights && s.flights[f].stage.Looking?
    case RunHandler(f, _, _, _, _) =>
      f in s.flights && s.flights[f].stage.Running? && s.flights[f].leader in s.requests
    case Skip(f) => f in s.flights && s.flights[f].stage.Ran? && !s.flights[f].stage.keep
    case Lock(f) =>
      f in s.flights && s.flights[f].stage.Ran? && s.flights[f].stage.keep && cfg.shardOf(s.flights[f].fkey) !in s.locks
    case Check(f) => f in s.flights && s.flights[f].stage.Locked?
    case Store(f, _) => f in s.flights && s.flights[f].stage.Checked?
    case Unlock(f) => f in s.flights && s.flights[f].stage.Leaving?
    case Finish(f) => f in s.flights && s.flights[f].stage.Resolved?
    case Mark(f) => f in s.flights
    case Forget(f) => f in s.flights && s.flights[f].superseded
    case _ => false
  }

  ghost predicate EnabledOther(s: State, a: Action) {
    a.Tick? || (a.External? && (a.content.Some? ==> a.content.value.slot == a.slot))
  }

  ghost predicate Enabled(cfg: Config, s: State, a: Action) {
    EnabledRequest(s, a) || EnabledFlight(cfg, s, a) || EnabledOther(s, a)
  }

  function PutRequest(s: State, id: RequestId, r: Request): State {
    s.(requests := s.requests[id := r])
  }

  function PutFlight(s: State, f: FlightId, fl: Flight): State {
    s.(flights := s.flights[f := fl])
  }

  /** The request's own handler chain runs and answers it. */
  function AnsweredByHandler(r: Request): Request {
    r.(step := Answered, runs := r.runs + 1, replies := r.replies + [Own])
  }

  function AnsweredByReplay(r: Request, resp: Response, at: Time): Request {
    r.(step := Answered, replies := r.replies + [Replay(resp, at)])
  }

  /** What a request does with the outcome of a flight: nothing more if its handler ran in it, else a replay if the
    * response passes replayable now, else its own handler. */
  function AfterFlight(cfg: Config, s: State, r: Request, leader: bool, fl: Flight): Request
    requires fl.stage.Finished?
  {
    if leader && fl.executed then r.(step := Answered)
    else if fl.stage.outcome.Some? && cfg.replayable(fl.stage.outcome.value, s.now)
    then AnsweredByReplay(r, fl.stage.outcome.value, s.now)
    else AnsweredByHandler(r)
  }

  /** handleWithParams and the outer part of executeWithSingleFlightSafe. */
  ghost function NextRequest(cfg: Config, s: State, a: Action): State
    requires EnabledRequest(s, a)
  {
    match a
    case Arrive(id, slot, noStore, range) => PutRequest(s, id, Request(slot, noStore, range, Arrived, 0, []))
    case Bypass(id) => PutRequest(s, id, AnsweredByHandler(s.requests[id]))
    case Lookup(id) =>
      var r := s.requests[id];
      if r.slot in s.stores && cfg.replayable(s.stores[r.slot].response, s.now)
      then PutRequest(s, id, AnsweredByReplay(r, s.stores[r.slot].response, s.now))
      else PutRequest(s, id, r.(step := Missed))
    case Do(id) =>
      var r := s.requests[id];
      var fkey := cfg.keyOf(r.slot, s.serial);
      var s' := if r.slot.store.ValueStore? then s.(serial := s.serial + 1) else s;
      if fkey in s.registered then PutRequest(s', id, r.(step := Waiting(s.registered[fkey])))
      else
        var fl := Flight(fkey, s.serial, r.slot, id, r.noStore, Looking, false, false);
        PutRequest(PutFlight(s'.(next := s.next + 1, registered := s.registered[fkey := s.next]), s.next, fl),
                   id, r.(step := Leading(s.next)))
    case Take(id) =>
      var r := s.requests[id];
      PutRequest(s, id, if r.step.Leading? then AfterFlight(cfg, s, r, true, s.flights[r.step.flight])
                        else AfterFlight(cfg, s, r, false, s.flights[r.step.joined]))
  }

  /** The callback of a flight, cacheResponseFenced, and scheduleForget. */
  ghost function NextFlight(cfg: Config, s: State, a: Action): State
    requires EnabledFlight(cfg, s, a)
  {
    var fl := s.flights[a.f];
    var shard := cfg.shardOf(fl.fkey);
    match a
    case Recheck(f) =>
      if fl.slot in s.stores && cfg.replayable(s.stores[fl.slot].response, s.now)
      then PutFlight(s, f, fl.(stage := Resolved(Some(s.stores[fl.slot].response))))
      else PutFlight(s, f, fl.(stage := Running))
    case RunHandler(f, body, written, tooLarge, admitted) =>
      var r := Response(fl.slot, body, written, tooLarge);
      var share := Shareable(fl.noStore, r);
      var q := s.requests[fl.leader];
      PutRequest(PutFlight(s, f, fl.(stage := Ran(r, share, share && admitted), executed := true)),
                 fl.leader, q.(runs := q.runs + 1, replies := q.replies + [Own]))
    case Skip(f) => PutFlight(s, f, fl.(stage := Resolved(if fl.stage.share then Some(fl.stage.response) else None)))
    case Lock(f) =>
      PutFlight(s.(locks := s.locks[shard := f]), f, fl.(stage := Locked(fl.stage.response, fl.stage.share)))
    case Check(f) =>
      PutFlight(s, f, fl.(stage := if fl.superseded then Leaving(fl.stage.response, fl.stage.share)
                                   else Checked(fl.stage.response, fl.stage.share)))
    case Store(f, ok) =>
      var s' :=
        if ok then s.(stores := s.stores[fl.slot := Stored(fl.stage.response, Some(f))], log := s.log + [f]) else s;
      PutFlight(s', f, fl.(stage := Leaving(fl.stage.response, fl.stage.share)))
    case Unlock(f) =>
      PutFlight(s.(locks := s.locks - {shard}), f,
                fl.(stage := Resolved(if fl.stage.share then Some(fl.stage.response) else None)))
    case Finish(f) =>
      PutFlight(if fl.fkey in s.registered && s.registered[fl.fkey] == f
                then s.(registered := s.registered - {fl.fkey}) else s,
                f, fl.(stage := Finished(fl.stage.result)))
    case Mark(f) => PutFlight(s, f, fl.(superseded := true))
    case Forget(f) => s.(registered := s.registered - {fl.fkey})
  }

  ghost function Next(cfg: Config, s: State, a: Action): State
    requires Enabled(cfg, s, a)
  {
    if EnabledRequest(s, a) then NextRequest(cfg, s, a)
    else if EnabledFlight(cfg, s, a) then NextFlight(cfg, s, a)
    else if a.Tick? then s.(now := s.now + 1)
    else
      s.(stores :=
           if a.content.Some? then s.stores[a.slot := Stored(a.content.value, None)] else s.stores - {a.slot})
  }

  ghost predicate Run(cfg: Config, states: seq<State>, actions: seq<Action>) {
    && UsesFlightKey(cfg)
    && |states| == |actions| + 1
    && Init(states[0])
    && forall i :: 0 <= i < |actions| ==>
        Enabled(cfg, states[i], actions[i]) && states[i + 1] == Next(cfg, states[i], actions[i])
  }
}
