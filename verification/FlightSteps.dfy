/** What one step of a flight or of a request does to stages, locks, stores and the log of writes. */
module FlightSteps {
  import opened Wrappers
  import opened Flights

  ghost predicate HoldsLock(st: Stage) {
    st.Locked? || st.Checked? || st.Leaving?
  }

  /** The flight may still store its response. */
  ghost predicate MayStore(fl: Flight) {
    match fl.stage
    case Looking => !fl.noStore
    case Running => !fl.noStore
    case Ran(_, _, keep) => keep
    case Locked(_, _) => true
    case Checked(_, _) => true
    case _ => false
  }

  /** What a step of flight f may do to its own stage. */
  ghost predicate StageStep(fl: Flight, fl': Flight) {
    && (fl.stage.Finished? ==> fl'.stage.Finished?)
    && (fl.superseded ==> fl'.superseded)
    && fl'.noStore == fl.noStore
    && (MayStore(fl') ==> MayStore(fl))
    && (HoldsLock(fl'.stage) && !HoldsLock(fl.stage) ==> MayStore(fl) && fl'.superseded == fl.superseded)
    && (HoldsLock(fl.stage) && !HoldsLock(fl'.stage) ==> !MayStore(fl'))
    && (fl'.stage.Checked? && !fl.stage.Checked? ==> fl.stage.Locked? && !fl.superseded)
  }

  /** What it may do to the locks, the log and the stores. */
  ghost predicate WriteStep(cfg: Config, s: State, s': State, f: FlightId)
    requires f in s.flights && f in s'.flights
  {
    var fl, fl', shard := s.flights[f], s'.flights[f], cfg.shardOf(s.flights[f].fkey);
    && StageStep(fl, fl')
    && ((s'.locks == s.locks && HoldsLock(fl'.stage) == HoldsLock(fl.stage))
        || (shard !in s.locks && s'.locks == s.locks[shard := f] && !HoldsLock(fl.stage) && fl'.stage.Locked?)
        || (HoldsLock(fl.stage) && !HoldsLock(fl'.stage) && s'.locks == s.locks - {shard}))
    && ((s'.log == s.log && s'.stores == s.stores)
        || (&& fl.stage.Checked? && fl'.stage.Leaving? && s'.log == s.log + [f]
            && s'.stores == s.stores[fl.slot := Stored(fl.stage.response, Some(f))]))
  }

  lemma FlightStepStages(cfg: Config, s: State, a: Action)
    requires EnabledFlight(cfg, s, a)
    ensures a.f in NextFlight(cfg, s, a).flights && StageStep(s.flights[a.f], NextFlight(cfg, s, a).flights[a.f])
  {
    if a.RunHandler? {
      HandlerStage(cfg, s, a);
    } else if a.Recheck? || a.Skip? || a.Lock? {
      EarlyStages(cfg, s, a);
    } else {
      LateStages(cfg, s, a);
    }
  }

  lemma HandlerStage(cfg: Config, s: State, a: Action)
    requires EnabledFlight(cfg, s, a) && a.RunHandler?
    ensures a.f in NextFlight(cfg, s, a).flights && StageStep(s.flights[a.f], NextFlight(cfg, s, a).flights[a.f])
  {
  }

  lemma EarlyStages(cfg: Config, s: State, a: Action)
    requires EnabledFlight(cfg, s, a) && (a.Recheck? || a.Skip? || a.Lock?)
    ensures a.f in NextFlight(cfg, s, a).flights && StageStep(s.flights[a.f], NextFlight(cfg, s, a).flights[a.f])
  {
    if a.Lock? {
      LockStage(cfg, s, a);
    }
  }

  lemma LockStage(cfg: Config, s: State, a: Action)
    requires EnabledFlight(cfg, s, a) && a.Lock?
    ensures a.f in NextFlight(cfg, s, a).flights && StageStep(s.flights[a.f], NextFlight(cfg, s, a).flights[a.f])
  {
  }

  lemma LateStages(cfg: Config, s: State, a: Action)
    requires EnabledFlight(cfg, s, a) && !(a.Recheck? || a.RunHandler? || a.Skip? || a.Lock?)
    ensures a.f in NextFlight(cfg, s, a).flights && StageStep(s.flights[a.f], NextFlight(cfg, s, a).flights[a.f])
  {
  }

  lemma FlightStepWrites(cfg: Config, s: State, a: Action)
    requires EnabledFlight(cfg, s, a)
    ensures a.f in NextFlight(cfg, s, a).flights && WriteStep(cfg, s, NextFlight(cfg, s, a), a.f)
  {
    FlightStepStages(cfg, s, a);
    if a.Store? {
      StoreStep(cfg, s, a);
    } else {
      QuietStep(cfg, s, a);
      if a.Lock? || a.Unlock? {
        LockStep(cfg, s, a);
      } else {
        NoLockStep(cfg, s, a);
      }
    }
  }

  lemma StoreStep(cfg: Config, s: State, a: Action)
    requires EnabledFlight(cfg, s, a) && a.Store?
    requires StageStep(s.flights[a.f], NextFlight(cfg, s, a).flights[a.f])
    ensures WriteStep(cfg, s, NextFlight(cfg, s, a), a.f)
  {
  }

  lemma QuietStep(cfg: Config, s: State, a: Action)
    requires EnabledFlight(cfg, s, a) && !a.Store?
    ensures NextFlight(cfg, s, a).log == s.log && NextFlight(cfg, s, a).stores == s.stores
  {
  }

  lemma LockStep(cfg: Config, s: State, a: Action)
    requires EnabledFlight(cfg, s, a) && (a.Lock? || a.Unlock?)
    requires StageStep(s.flights[a.f], NextFlight(cfg, s, a).flights[a.f])
    ensures WriteStep(cfg, s, NextFlight(cfg, s, a), a.f)
  {
  }

  lemma NoLockStep(cfg: Config, s: State, a: Action)
    requires EnabledFlight(cfg, s, a) && !a.Lock? && !a.Unlock? && !a.Store?
    ensures NextFlight(cfg, s, a).locks == s.locks
    ensures a.f in NextFlight(cfg, s, a).flights
            && HoldsLock(NextFlight(cfg, s, a).flights[a.f].stage) == HoldsLock(s.flights[a.f].stage)
  {
  }

  /** A request step starts at most one flight, of a key under which none is registered, and writes nothing. */
  ghost predicate StartStep(cfg: Config, s: State, s': State) {
    && s'.log == s.log && s'.stores == s.stores && s'.locks == s.locks
    && ((s'.flights == s.flights && s'.registered == s.registered && s'.next == s.next)
        || (&& s'.next == s.next + 1 && s.next !in s.flights && s.next in s'.flights
            && var fl := s'.flights[s.next];
               && s'.flights == s.flights[s.next := fl] && fl.stage.Looking? && !fl.superseded
               && fl.fkey !in s.registered && s'.registered == s.registered[fl.fkey := s.next]))
  }

  lemma RequestStepStarts(cfg: Config, s: State, a: Action)
    requires EnabledRequest(s, a)
    ensures StartStep(cfg, s, NextRequest(cfg, s, a))
  {
  }
}
