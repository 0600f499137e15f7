# Verification of the response cache

A Dafny model of `gincache`: the two-level store, the HTTP middleware, the namespaced adapter over a local engine, and the
glob code. What these parts share is agreement between a fast copy and the truth while many operations interleave, so most
of the model is state machines whose steps are the atomic steps of the code (one critical section, one Redis command, one
channel operation), and most of the theorems are about every reachable state of every run. Whatever the code takes from a
hash, a clock, a network or a caller is an arbitrary function, a parameter or a free choice of the step.

`dafny verify dfyconfig.toml` checks everything.

## The parts

**Two-level store** (`TwoLevelProtocol`, `TwoLevelCoherence`, `TwoLevelPatternGap`, `TwoLevelGlobs`, `TwoLevelReads`,
`TwoLevelLaterReads`, `TwoLevelReadAfterSet`, `TwoLevelSetWindow`, `TwoLevelReadAfterPattern`, `TwoLevelEffects`,
`TwoLevelReadThrough`, `TwoLevelInstance`). Any number of instances, readers, mutations, pattern deletions, timers and messages, over an arbitrary key-to-shard function.
`TwoLevelCoherence.Inv` is kept by every step; the results below it say when the first level can differ from Redis.

Pattern deletions need both levels to read a pattern alike. `DrainedExactly` shows that this is exactly what is needed:
wherever Redis deletes a key that the local matcher does not accept, the entry can stay for good. With the matchers of the
repository this happens for an unclosed bracket, which Redis takes for a class, and for a wildcard that meets a newline;
`BracketFreeIsConsistent` is the condition a caller can check.

Read-after-write holds for Delete and InvalidateLocal on every path. For Set it does not: Set releases the key before it
deletes the local entry, and in between a new flight can answer from L1. `ReadAfterSetExactly` says that this is the only way,
in terms of the state that Set leaves behind, and `TwoLevelSetWindow` is a complete run that takes it. DeletePattern releases
no flight at all, and `ReadAfterPatternExactly` says what that leaves. The comment at `persist/twolevel.go:42-44` warns that
after a pattern deletion a read in flight may still store an old value because the shards are bumped one by one;
`PatternLeavesNothingOld` shows that the code is better than that, since only the shard of the key itself matters and it is
bumped after the removal and before the local deletion.

`TwoLevelEffects` says what each mutation does to Redis, and from that what a caller gets who writes and then reads:
after Delete nothing, after Set a miss or the value that was set, apart from the window. `TwoLevelReadThrough` says that a
Get is served: from the first level if it has the key, and otherwise from Redis, with the value kept.

`TwoLevelInstance` is one instance as a class whose methods are the critical sections of the code, each proved equal to the
step the machine takes.

**Age in the first level** (`MemoryStore`, `Staleness`). The in-memory store as a class, and a timed machine of one key
whose remote value changes as unseen instances like. The documentation promises values at most `localTTL` old; the bound the
code meets has the delay between the remote read and the local write added, `DocumentedBound` says exactly when the
documented bound holds for an item, and `DelayCounts` is a run that reaches the larger one.

**Flights** (`FlightKeys`, `Flights`, `FlightReplies`, `FlightSteps`, `FlightLocks`, `FlightOutcomes`, `FlightStoring`,
`FlightWrites`, `FlightStrayTimer`). Requests, leaders, waiters, released leaders and writes under the lock of a shard.
Answers are proved without any assumption: who is answered with which response, when a handler may run, and which
responses reach the store. The comment at `cache.go:1188-1203` promises the order of writes; a timer callback that was already running
when its timer was stopped can break it. `StrayExactly` says which callbacks do: those that release another flight that is
unmarked, may still store, and does not yet hold its lock.

**Freshness** (`Text`, `Int64`, `CacheControl`, `CacheControlReading`, `HeaderMaps`, `Freshness`, `Replay`). Sections 1.2.2, 4.2.1 and 4.2.3 of RFC
9111 on saturating 64-bit nanoseconds, compared with the numbers that are written in the fields, unbounded. The result is
exact if and only if the declared lifetime fits into 64 bits or has passed, and never too large, with one exception: the code
compares repeated declarations after clamping, so different ones that are all over the limit pass for equal (`CommonExact`).
`CacheControlReading` reads the parser against a printer of fields as the RFC writes them, and every field is such a print.
The lifetime of a stored entry is counted from the write but chosen before the wait for the lock (`StoredWithinLifetime`).

**Entity-tags** (`EntityTags`) and **header cleanup** (`Headers`, `HeaderCleanup`, `HeaderSpelling`). The parser of section 13.1.2 of RFC 9110
read against a printer of well-formed lists; the removal of connection fields of section 7.6.1 of RFC 9110 for every order in
which a map may be iterated. `LeftExactly` says which keys are left in terms of the header as it is spelled alone.

**Adapter** (`Gate`, `GateSafety`, `GateService`, `Record`, `Physical`, `EngineSlots`, `Adapter`). The gate as a machine in which contexts
are cancelled at any moment; the record as a bijection; the views as classes over an engine that has one slot per hash value
and may empty any slot at any time.

**Globs** (`Glob`, `GlobRegexp`, `GlobEscape`, `RedisGlob`). The translation to a regular expression is read back by a small
parser of that syntax and compared with the meaning of the glob. `.` does not match a newline in Go, so patterns with a
wildcard miss some keys with a newline: `ExactOnEveryKey` says exactly which patterns are exact on every key. Escaping is
proved for the globs of Redis, with classes, ranges and negation.

## Model

| member | source | states |
|---|---|---|
| TwoLevelCoherence.StepIsTransition | persist/twolevel.go:112-152 | every step of any action changes the system only in the ways a transition allows: generations never fall, an L1 write needs an unmoved generation and an unreleased flight |
| TwoLevelCoherence.InvKept | persist/twolevel.go:94-110 | the full invariant (provenance of every value, bookkeeping, coherence, freshness floors) is kept by every enabled step |
| TwoLevelCoherence.RunInv | persist/twolevel.go:94-110 | the invariant holds in every state of every run |
| TwoLevelCoherence.L1DiffersOnlyWhilePending | persist/twolevel.go:685-723 | with any number of instances, an L1 entry that differs from Redis is covered by a mutation between its remote step and its local deletion, or by a message not yet sent to or handled by that instance, provided the pattern deletions that have removed this key used patterns for which the local matcher accepts it (always, if there were none) |
| TwoLevelCoherence.DrainedIsConsistent | persist/twolevel.go:685-742 | under the same condition on the deletions so far: when every mutation is over and every message handled, every L1 entry equals Redis |
| TwoLevelCoherence.SingleInstance | persist/twolevel.go:426-479 | under the same condition, with one instance, an L1 entry differs from Redis only while a mutation of that key has done its remote step and not its local deletion |
| TwoLevelPatternGap.GapLeavesOld | persist/twolevel.go:483-513 | whenever Redis deletes a key for a pattern and the local matcher does not accept it, some run ends with the key in L1, gone from Redis, and nothing left to do |
| TwoLevelPatternGap.CoherentExactly | persist/twolevel.go:483-532 | over all runs whose pattern deletions use allowed patterns: every differing entry is covered by unfinished business if and only if the local matcher accepts the key for every allowed pattern that Redis deletes it for |
| TwoLevelPatternGap.DrainedExactly | persist/twolevel.go:483-532 | over the same runs: L1 agrees with Redis in the end if and only if the same condition holds |
| TwoLevelGlobs.SameGlobs | persist/internal/pattern/pattern.go:16-22 | the globs of Redis and of the local level are the same for patterns without an unescaped bracket |
| TwoLevelGlobs.LevelsAgree | persist/twolevel.go:483-513 | with Redis's scan behind the escaped prefix and the translated pattern locally: for a pattern without brackets the local level accepts no key that Redis does not, and the same keys unless a wildcard meets a newline |
| TwoLevelGlobs.SafeForEveryKey | persist/twolevel.go:503-513 | such a pattern is safe for every key if and only if it has no wildcard |
| TwoLevelGlobs.BracketFreeIsConsistent | persist/twolevel.go:483-532 | what a caller can check: no unescaped bracket in any pattern and no newline in the key; then the levels come apart only while something is unfinished |
| TwoLevelGlobs.UnclosedBracketLeavesOld | persist/internal/pattern/pattern.go:50-55 | an input: deleting the pattern a[b removes the key ab from Redis and leaves it in L1, with nothing left to do |
| TwoLevelGlobs.NewlineLeavesOld | persist/internal/pattern/pattern.go:46-47 | another: the star leaves a key that is a newline |
| TwoLevelCoherence.PatternLeavesNothingOld | persist/twolevel.go:483-513 | after a pattern deletion, L1 holds no value of a removed key that was fetched before the removal |
| TwoLevelReads.ReadAfterDelete | persist/twolevel.go:458-479 | a Get that starts after Delete or InvalidateLocal returned answers with a miss or a value Redis held after the mutation, whether from L1, by joining a flight or by leading one (TwoLevelEffects.DeleteThenGet says which values those are) |
| TwoLevelLaterReads.LaterReads | persist/twolevel.go:317-368 | as long as L1 holds nothing older than some moment, a Get that starts later answers with a miss, with a value Redis held at that moment or later, or with the one answer of the flight that was registered |
| TwoLevelReadAfterSet.ReadAfterSet | persist/twolevel.go:426-454 | a Get that starts after Set returned answers with a miss, with a value Redis held after the Set wrote, or with the one old answer that the flight registered at that moment already had |
| TwoLevelReadAfterSet.ReadAfterSetExactly | persist/twolevel.go:440-449 | over all continuations of any run, every later Get of that node and key answers with a miss or a value Redis held after the Set wrote, if and only if the flight registered when Set returned has not already answered from L1 with an older one |
| TwoLevelSetWindow.ReadAfterSetCanBeOld | persist/twolevel.go:440-449 | an instance: a complete run whose Set leaves such a flight, and a later Get that is answered with the replaced value |
| TwoLevelReadAfterPattern.ReadAfterPattern | persist/twolevel.go:483-513 | a Get that starts after DeletePattern returned answers with a miss, with a value Redis held after the removal, or with the one older answer of the flight registered at that moment |
| TwoLevelReadAfterPattern.ReadAfterPatternExactly | persist/twolevel.go:483-513 | over all continuations, every later Get answers with a miss or a value Redis held after the removal, if and only if the flight registered when DeletePattern returned has not fetched or found an older one |
| TwoLevelEffects.RunEffects | persist/twolevel.go:426-513 | in every run: when a Set took effect its key had its value, when a Delete or a pattern deletion took effect its keys were gone, every other key was as before, and Redis changes by nothing else |
| TwoLevelEffects.DeleteThenGet | persist/twolevel.go:458-479 | if nothing else writes the key after a Delete, every Get that starts after the Delete returned is a miss |
| TwoLevelEffects.SetThenGet | persist/twolevel.go:426-454 | likewise, every Get after a Set is a miss or has the value of the Set, apart from the one answer of the window that ReadAfterSetExactly names |
| TwoLevelEffects.PatternThenGet | persist/twolevel.go:483-513 | likewise, every Get of a key that DeletePattern removed is a miss, apart from the one answer of a flight that it left behind |
| TwoLevelReadThrough.HitIsServed | persist/twolevel.go:317-321 | in every reachable state in which L1 holds the key, a new Get is answered with that entry, and nothing else changes |
| TwoLevelReadThrough.MissIsReadThrough | persist/twolevel.go:323-368 | in every reachable state without an entry or a flight of the key, a new Get can be answered with exactly what Redis holds, which L1 then holds too |
| TwoLevelReadThrough.ReleasedNeverWrites | persist/twolevel.go:599-615 | a flight whose timer has fired never writes L1, whatever the generations say |
| TwoLevelReadThrough.ReleaseServes | persist/twolevel.go:599-615 | a stuck flight holds nobody up: once its timer has released the key, a new Get leads a flight of its own and can be answered with what Redis holds |
| TwoLevelInstance.Instance.CommitRead | persist/twolevel.go:117-140 | writes L1 if and only if the generation is still the one that begin returned and the flight is unreleased; otherwise nothing changes |
| TwoLevelInstance.Instance.CommitMutation | persist/twolevel.go:143-152 | one critical section: that shard's generation moves and the entry goes |
| TwoLevelInstance.Instance.BumpAllGuards | persist/twolevel.go:81-85 | the loop over the shards is the sequence of single bumps, each of which moves only that shard's generation |
| TwoLevelInstance.BumpFromMeaning | persist/twolevel.go:81-85 | that sequence moves every generation by exactly one and touches neither L1 nor flights |
| TwoLevelInstance.Instance.Join | persist/twolevel.go:317-322 | joins the registered flight of the key or registers a new one |
| TwoLevelInstance.Instance.InvalidateLocal | persist/twolevel.go:516-521 | afterwards the entry is gone, the shard's generation has moved and the key is released; that the commit comes before the release is part of the machine (TwoLevelProtocol.NextMove), since the two commute on this state |
| MemoryStore.LifetimeExact | persist/memory.go:118-121 | a stored item lives exactly as long as it was given, for ever if it was given no lifetime, if and only if its end fits into 64 bits; beyond, it would never expire |
| MemoryStore.Store.Set | persist/memory.go:113-132 | the item lives for the given lifetime, for the default of the store if that is zero, and for ever if that is not positive |
| MemoryStore.Store.Get | persist/memory.go:83-104 | hits if and only if present and not expired; never deletes what a concurrent Set has put in place |
| MemoryStore.Store.DeletePattern | persist/memory.go:144-165 | removes exactly the matching keys and counts them |
| MemoryStore.Store.DeleteExpired | persist/memory.go:244-254 | removes exactly the expired items |
| Staleness.BackfillMeaning | persist/twolevel.go:386-399 | a backfill lifetime is exactly the smaller of localTTL and the remaining time, and localTTL for a key without a deadline; none for a missing key or no remaining time |
| Staleness.HitIsRecent | persist/twolevel.go:317-357 | a hit at t returns a value Redis held no earlier than t minus localTTL minus the delay between the remote read and the start of the item's lifetime |
| Staleness.HitNearDeadline | persist/twolevel.go:380-399 | no hit later than the remote deadline plus the delay since PTTL was answered |
| Staleness.OnlyExpiredRemoved | persist/memory.go:92-99 | reads and the cleanup remove only items that are expired at that moment, whatever is stored in between |
| Staleness.DocumentedBound | persist/twolevel.go:386-399 | a backfilled item is never served more than localTTL after its read if and only if the read's delay plus its lifetime fit into localTTL |
| Staleness.DelayCounts | persist/twolevel.go:330-357 | a run whose hit is localTTL plus the delay old: the delay cannot be dropped from the bound |
| FlightKeys.FlightKeyInjective | cache.go:888-900 | two requests share a flight key only if they have the same store identity and the same cache key, NUL bytes included |
| FlightReplies.InvKept | cache.go:929-1005 | what flights carry and what requests have run and answered is kept by every step |
| FlightReplies.AnsweredOnce | cache.go:810-856 | every request runs its handler chain at most once and has at most one answer, exactly one when it is over: its own handler's, or one replay of its own store and key that passed replayable then; a range request only ever gets its own handler's. Which of these it gets is said by the FlightOutcomes rows |
| FlightReplies.OnlyShareableIsShared | cache.go:1013-1023 | what waiters get of a handler was seen in full and not requested with no-store |
| FlightLocks.SoundKept | cache.go:1204-1226 | a shard lock is held exactly by the flight in its critical section, and flights of stores without identity share no key, in every step |
| FlightLocks.CanBeAnswered | cache.go:929-1005 | no request is ever lost: from every reachable state, without any timer, a continuation gives it its answer |
| FlightOutcomes.MissJoins | cache.go:929-950 | a request that has missed joins the flight registered under its key, which is under way and serves the same slot, and leads a new one only if there is none |
| FlightOutcomes.FoundIsTheAnswer | cache.go:820-833 | in every run, a request that finds a replayable entry is answered with it and nothing else, and its handler has not run |
| FlightOutcomes.TakenIsTheAnswer | cache.go:975-1004 | in every run, a request whose handler did not run in the flight is answered with the outcome of the flight if that is replayable then, without its handler, and otherwise by its handler |
| FlightOutcomes.WaitersGetTheResponse | cache.go:959-1004 | in every run, when the handler of a flight has run, a waiter is answered with exactly that response if it may be shared and is replayable then, and otherwise runs its own handler |
| FlightOutcomes.HandlerRunsOnlyIf | cache.go:929-1005 | in every run, a handler runs only for a range request, for a leader that found nothing replayable, or for a request that had nothing replayable to take |
| FlightStoring.WritesTheResponse | cache.go:1204-1239 | a write of a flight stores exactly what its handler wrote, in the slot of the request, and only if that may be shared and is admitted; no other step of the cache changes a store |
| FlightStoring.NothingUnwritten | cache.go:957-972 | a flight that has ended has tried to write such a response, unless it was released |
| FlightWrites.FencedKept | cache.go:1204-1226 | registration and the order of writes are kept by every step that is not a stray timer callback |
| FlightWrites.WritesInOrder | cache.go:1188-1226 | without stray callbacks, store writes of one flight key happen in the order in which flights started, and the surviving entry is that of the newest flight that wrote |
| FlightStrayTimer.StrayBreaksOrder | cache.go:1035-1048 | a callback that releases another flight which is unmarked, may still store and does not hold its lock can always be continued to a run in which that flight's older response is stored last |
| FlightStrayTimer.StrayExactly | cache.go:1035-1048 | after a run without stray callbacks, a callback leaves the order of writes safe in every continuation without further stray ones if and only if it is not stray itself |
| FlightStrayTimer.OldResponseStoredLast | cache.go:1035-1048 | an instance: a complete run in which the older response is stored last |
| CacheControl.DeltaSecondsClamped | cache.go:362-381 | a string of digits is parsed to the number that is written, in nanoseconds, clamped once; anything else is refused |
| CacheControl.MergeIsCommon | cache.go:478-490 | merging one more occurrence yields the common parsed duration if all are valid and parsed alike, else 0 |
| CacheControl.CommonExact | cache.go:478-490 | that is the common number that is written, clamped, if and only if the occurrences are not different numbers that are all over the limit; if they are, the longest duration is taken where they mean stale |
| CacheControl.ConflictTakenForLongest | cache.go:478-490 | such an input: ten nines and eleven nines |
| CacheControl.FoldScanned | cache.go:433-474 | the scan's variables mean what the directives say, for any number of directives |
| CacheControl.ParseCacheControl | cache.go:433-474 | the two nested loops compute the view of the directives of all values; what that view is of a field as it is written is said by the CacheControlReading rows |
| CacheControl.ViewOfSet | cache.go:433-490 | the view depends only on which values there are, not on their order |
| CacheControlReading.ReadsWhatIsWritten | cache.go:433-461 | for any list of directives (names in any case, white space on all sides, optional parameters) printed with commas over any number of values, exactly the lower-case names are read with their parameters, in order |
| CacheControlReading.WrittenLines | cache.go:433-444 | every field whatsoever is such a print, so the reading theorems leave no input out |
| CacheControlReading.SecondsExactly | cache.go:362-400 | a parameter declares n seconds if and only if it is digits for n, bare or in a pair of quotes, with white space around |
| CacheControlReading.WrittenMeaning | cache.go:433-490 | of the printed list: it blocks if and only if a name is no-store, private or no-cache in any case; the freshness is what all s-maxage members say, or all max-age members if there is no s-maxage; stale if one is no number or if they differ, unless all are too long |
| Numerals.ReadNumeral | cache.go:365-381 | the number read from a numeral is the number it was written for |
| Freshness.SaturatingAddIsClamped | cache.go:1456-1461 | detecting the wrap-around equals clamping the sum of unbounded integers |
| Freshness.FreshnessFields | cache.go:275-294 | one pass over the map collects every value of the four fields, up to case |
| Freshness.CollectedExactly | cache.go:275-294 | the values of a field are those of every key spelled with its letters, in any case, and no others |
| Freshness.LargestAge | cache.go:318-333 | the largest of the ages that parse, or none |
| Freshness.LifetimeOfFields | cache.go:219-246 | the declared lifetime, in the numbers that are written, clamped; the longest duration for conflicting overlong declarations |
| Freshness.AgeIsClamped | cache.go:253-267 | the age is that of the numbers that are written, clamped |
| Freshness.DateCounts | cache.go:238-306 | one readable Date: Expires counts from it, and the age is the larger of the time since it and Age plus delay; a Date that is missing, repeated or unreadable contributes nothing, and Expires counts from the arrival |
| Freshness.FreshnessExact | cache.go:194-213 | compared with the numbers that are written, unbounded: the result is max(0, lifetime - age) if and only if the lifetime fits into 64 bits or has passed, never more, and positive exactly when the response is fresh and its age below the longest duration; for conflicting overlong declarations it is right only from the longest duration on |
| Freshness.FreshnessOfValues | cache.go:194-289 | two headers whose fields have the same values, each as often, have the same freshness, however their keys are written and iterated |
| Freshness.FreshnessIgnoresOrder | cache.go:194-289 | so the result is the same for any two orders of iterating the header map, in either pass |
| Replay.ReplayExact | cache.go:1323-1351 | an entry is replayed if and only if it is admitted and its current age is below the lifetime that is written (below the longest duration for conflicting overlong declarations) |
| Replay.ReplayOfMade | cache.go:1137-1187 | the same with the initial age in the numbers that are written, for an entry as executeHandler makes it |
| Replay.CurrentAgeExact | cache.go:1413-1429 | the current age of such an entry is the least that is neither below the time since its first Date nor below residence plus initial age, a negative one counting as zero |
| Replay.OldEntryExact | cache.go:1430-1442 | an entry without a response time but with a readable Date is replayed if and only if it is admitted and the larger of the time since that Date and its stated age is below the lifetime that is written |
| Replay.ReplayedWhileFresh | cache.go:1413-1442 | any replay satisfies residence time + initial age < declared lifetime in unbounded integers, whatever TTL the store applied, conflicting overlong declarations apart |
| Replay.StaleForGood | cache.go:1323-1351 | under a clock that does not go back, an entry once stale is never replayed again |
| Replay.UnknownAgeNotReplayed | cache.go:1413-1422 | an entry without a response time and without a readable Date is never replayed |
| Replay.StoredWithinLifetime | cache.go:1204-1300 | the TTL counts from the write, the decision is made before the wait for the lock: when an explicit TTL ends, the age is at most the lifetime plus that wait, and the entry is never stored beyond its lifetime if and only if the wait fits into what the TTL left of it; a TTL of 0 stays 0 |
| Replay.StoredExactly | cache.go:1252-1306 | stored if and only if something was written, it is admitted and not too large, its body is within the limit if there is one, and its written age is below its written lifetime if it declares one; the TTL is 0 for 0 and otherwise the smaller of the configured one and what is left of the lifetime |
| EntityTags.NextEntityTag | cache.go:1548-1567 | cuts off the first element at the first comma outside quotes |
| EntityTags.RestIsShorter | cache.go:1548-1567 | the rest is strictly shorter, so the loop over it ends |
| EntityTags.LineMatches | cache.go:1525-1541 | a line matches if and only if one of its elements is the star or weakly equals a nonempty stored tag |
| EntityTags.EtagMatches | cache.go:1522-1545 | the header matches if and only if one of its lines does |
| EntityTags.ReadsWhatIsWritten | cache.go:1548-1567 | repeated cutting of a printed list (blanks, empty elements, commas in quotes) gives back exactly its tags, in order |
| EntityTags.WeakComparison | cache.go:1535-1538 | the weak comparison compares the opaque parts and nothing else |
| EntityTags.HitsExactly | cache.go:1522-1545 | on a well-formed list, a hit means an element that is the star or has the stored tag's opaque part, and the star alone if no tag is stored |
| Headers.CanonicalTwice | cache.go:1605 | canonicalizing a key is idempotent |
| Headers.CanonicalizeHeaderKeys | cache.go:1603-1614 | for every order of iteration only canonical keys are left, each with its own values followed by those moved to it |
| HeaderSpelling.CanonicalMeaning | cache.go:1605 | the canonical key of a token has the same letters, capitals exactly at the beginning and after dashes; what is no token is left alone |
| HeaderSpelling.SameFieldExactly | cache.go:1605 | two keys are one field if and only if they are equal, or tokens with the same letters |
| HeaderCleanup.DeleteHopByHopHeaders | cache.go:1687-1714 | removes exactly the fixed fields, the runtime trailers and every field named by Connection or Trailer as they were before |
| HeaderCleanup.NeedsHeaderCleanup | cache.go:1667-1682 | true if and only if some key is not canonical, a runtime trailer or on the fixed list |
| HeaderCleanup.CloneCachedHeaders | cache.go:1584-1595 | the write side performs the whole cleanup, and drops X-Cache |
| HeaderCleanup.CachedHeaderView | cache.go:1619-1645 | the read side returns a cleaned header, by the shortcut or the slow path; an old single-value entry gives every field once under its canonical key, without exactly those that have to go |
| HeaderCleanup.ShortcutIsExact | cache.go:1619-1630 | for a header that needs no cleanup the slow path yields that header and no other |
| HeaderCleanup.CleanedIsClean | cache.go:1584-1595 | a cleaned header needs no cleanup, for every order of iteration |
| HeaderCleanup.NamedFieldsGone | cache.go:1688-1700 | no field named by Connection or Trailer is left, however those keys were written |
| HeaderCleanup.CanonicalizedConserves | cache.go:1603-1614 | no value of any field is lost or invented |
| HeaderCleanup.CleanedExactly | cache.go:1584-1714 | exactly the fields that have to go are gone, told from the original header; the others keep all their values |
| HeaderCleanup.CleanedIgnoresOrder | cache.go:1603-1614 | two orders of iteration give the same fields with the same values, up to their order |
| HeaderSpelling.FixedExactly | cache.go:1652-1663 | the fixed list has the connection fields of the RFC and no others, in any spelling |
| HeaderSpelling.NamesExactly | cache.go:1692-1699 | a value names a field if and only if a member of the list, blanks around it apart, is that field in any spelling; every value is a list |
| HeaderSpelling.LeftExactly | cache.go:1584-1714 | exactly which keys are left, told from the keys and values as they are spelled |
| GateSafety.InvKept | persist/internal/localadapter/owner.go:48-99 | token, program counters, engine, state and log are kept consistent by every step |
| GateSafety.Exclusive | persist/internal/localadapter/owner.go:48-74 | at most one operation is in the engine, the native Close included, and returning the token never blocks |
| GateSafety.NothingFollowsTheClose | persist/internal/localadapter/owner.go:78-99 | the native Close runs at most once, only if owned, and no engine call follows it |
| GateSafety.ClosedViewIsSilent | persist/internal/localadapter/store.go:255-265 | after a view's Close returned, none of its operations is in the engine |
| GateSafety.ClosesAgree | persist/internal/localadapter/owner.go:90-98 | all Closes that get through return the same result |
| GateSafety.CancelledCloseLeavesTheEngine | persist/internal/localadapter/owner.go:86-89 | as long as no Close has got through, the engine is open and untouched |
| GateSafety.ClosingAdmitsNobody | persist/internal/localadapter/owner.go:55-72 | the state only grows, and once a Close has begun nobody gets past acquire any more |
| GateSafety.NeverStuck | persist/internal/localadapter/owner.go:58-74 | no deadlock: whoever cannot move waits for a token whose holder can |
| GateSafety.LaterCloseFinishes | persist/internal/localadapter/owner.go:76-99 | in every reachable state, after any number of cancelled Closes and whoever has the token, a new Close can close the Owner; it returns the result of the native Close, the earlier one or its own |
| GateService.RefusedForCause | persist/internal/localadapter/owner.go:48-72 | over all runs: an operation is refused as closed only if its Owner is closing or its view is closed, and as cancelled only if it was cancelled |
| GateService.OpenViewIsServed | persist/internal/localadapter/store.go:104-130 | with the token free, the Owner active and the view open, a new operation that is not cancelled can reach the engine, call it, return successfully and give the token back |
| Record.EncodeRecord | persist/internal/localadapter/record.go:30-46 | refuses exactly what is too large; otherwise fills the buffer with the record, sequence zero |
| Record.Stamp | persist/internal/localadapter/store.go:174 | stamping changes the sequence number of the record and nothing else |
| Record.DecodeOfEncode | persist/internal/localadapter/record.go:48-66 | decoding a stamped record gives back key, payload, signed seconds, nanoseconds, flag and sequence |
| Record.EncodeOfDecode | persist/internal/localadapter/record.go:48-66 | whatever is accepted is the encoding of what was decoded |
| Record.UnstampedIsCorrupt | persist/internal/localadapter/record.go:56-59 | a record without a sequence number is refused |
| Physical.PhysicalInjective | persist/internal/localadapter/store.go:81 | two (namespace, key) pairs never share a physical key |
| Physical.PrefixTest | persist/internal/localadapter/store.go:286 | the prefix test accepts exactly the keys of the view's own namespace |
| EngineSlots.HeldIsLast | persist/internal/localadapter/store.go:122-130 | what a lookup finds after the full-key check is the last record written for that key |
| EngineSlots.WriteKeeps | persist/internal/localadapter/store.go:172-176 | a stored record becomes the last of its key; other pairs are kept or lost, never replaced |
| EngineSlots.DeleteKeeps | persist/internal/localadapter/store.go:230-252 | deleting after the full-key check takes the pair's own record and no other |
| EngineSlots.RecordIsNew | persist/ristrettoadapter/owner.go:59-70 | the record about to be written equals none in the engine, so finding it afterwards means it was taken |
| Adapter.AdmissionIsTheGate | persist/internal/localadapter/owner.go:48-72 | acquire as a single operation and acquire as steps of the gate machine admit and refuse alike, whatever happens in between |
| Adapter.Owner.Acquire | persist/internal/localadapter/owner.go:48-72 | the exact result for every cancellation and for every Close that begins, or also finishes, meanwhile; the token is taken if and only if there is no error |
| Adapter.Owner.Close | persist/internal/localadapter/owner.go:78-99 | a cancelled Close leaves the engine to others; otherwise closed, with the native result of the first Close that got through |
| Adapter.Owner.NewStore | persist/internal/localadapter/store.go:62-84 | binds a namespace if and only if it is valid, the default lifetime is not negative, the Owner is active and the name was never used |
| Adapter.Store.GetBytes | persist/internal/localadapter/store.go:104-130 | returns the last value stored for exactly that pair, strictly before its deadline, and fails only for the reasons listed |
| Adapter.Store.SetBytes | persist/internal/localadapter/store.go:133-186 | the exact outcome for every refusal, and for a submitted record what is stored, lost, numbered and reported; a stored record expires exactly at started plus the given lifetime, or the default of the view if that is zero, or never if both are, and the native lifetime is what is left of it |
| Adapter.Store.Delete | persist/internal/localadapter/store.go:224-252 | after success the pair has no entry; no other pair loses one except by the engine's own doing |
| Adapter.Isolation | persist/internal/localadapter/store.go:62-83 | what one view does to its pair leaves every pair of other views, and its own other pairs, kept or lost |
| Adapter.SubmittedLifetime | persist/internal/localadapter/store.go:147-171 | a submitted record is alive, expires exactly at started + ttl, and gets a positive native lifetime that ends no later |
| Glob.TranslateCharClass | persist/internal/pattern/pattern.go:69-105 | reports a class if and only if it is closed, where it ends, and its text: the negation, a first bracket as a member, escaped members quoted anew, all else unchanged |
| Glob.GlobToRegexp | persist/internal/pattern/pattern.go:33-67 | the loop prints the atoms of a class-free glob between anchors |
| GlobRegexp.ReadOfPrint | persist/internal/pattern/pattern.go:33-67 | read by the syntax of Go's regular expressions, the printed atoms are the intended items, no quoting lost and no repetition gained |
| GlobRegexp.TranslationMeaning | persist/internal/pattern/pattern.go:29-67 | the matcher never accepts more than the glob and accepts the same on every key without a newline |
| GlobRegexp.ExactOnEveryKey | persist/internal/pattern/pattern.go:46-49 | matcher and glob agree on all keys if and only if the pattern has no wildcard |
| GlobRegexp.StarMissesNewline | persist/internal/pattern/pattern.go:46-47 | the star misses the key that is one newline |
| GlobEscape.EscapeGlobMeta | persist/redis.go:88-105 | the loop and its early return both give the escaped string |
| GlobEscape.PrefixIsLiteral | persist/redis.go:75-105 | for any matcher that honours literals, escaped prefix + pattern matches exactly prefix + match |
| RedisGlob.MatchesClass | persist/redis.go:87-89 | in Redis's globs a class stands for one character: a member of it, escaped, plain or in a range of either direction, or none of them if it is negated, whether it is closed or not |
| RedisGlob.EveryClass | persist/redis.go:87-89 | whatever follows an opening bracket can be read in this way, plain dashes included |
| RedisGlob.RedisHonoursLiterals | persist/redis.go:87-105 | Redis's globs, classes included, honour literals |
| RedisGlob.ScanPattern | persist/redis.go:75-85 | a scan finds exactly the keys that are the prefix followed by a match of the caller's pattern, whatever metacharacters either has |
| RedisGlob.UnescapedReachesOthers | persist/redis.go:77-79 | without escaping, a prefix with a star reaches another namespace |
| RedisGlob.EscapedKeyMatchesItself | persist/redis.go:87 | an escaped string matches only itself, in Redis's globs and in those of the local level |

## Left out

- RedisGlob.ScanPattern: Redis's matcher is not part of the repository; its globs are modelled as documented, with classes read as its matcher reads them. Its early end on an empty key and its limit on nested stars are not modelled.
- GlobRegexp.TranslationMeaning: patterns with a bracket class, and bytes outside ASCII, depend on the class syntax and the byte-to-rune conversion of Go's regexp package; the text emitted for a class is specified, its meaning there is not.
- Headers.CanonicalizeHeaderKeys: maps are values, so slices that share memory (the reason for slices.Clip) are not modelled.
- TwoLevelCoherence.DrainedIsConsistent: assumes that local deletes succeed, that a failed Redis command changed nothing, that messages are published and delivered, and that origins differ; values in Redis do not expire in this machine.
- TwoLevelGlobs.LevelsAgree: patterns with a closed class are left open, since their local reading is that of Go's regexp package; it differs at least for a class that begins with an exclamation mark, which the translation negates and Redis does not. GapLeavesOld and DrainedExactly hold for any two matchers.
- Staleness.HitIsRecent: one key; the shard guard may refuse any backfill, and a run that simply never stores stands for that. Deadlines are assumed to fit into 64 bits, LifetimeExact says what happens if not.
- Adapter.Store.SetBytes: JSON, counters and nil receivers are not modelled, and clock readings are those to which a duration can be added without leaving time.Time.
- FlightReplies.AnsweredOnce: handler panics, hijacked connections and client disconnects are runtime effects outside the steps.
- FlightLocks.CanBeAnswered: shows that an answer stays possible; that a scheduler ever gets there is an assumption about the runtime.
- Generations in the two-level store are unbounded; a 64-bit wrap within one Redis round trip is not modelled.
- A custom store that is a pointer to the default store has another flight key than the default store; the two then write under different locks, and the model counts them as different stores.
- Text is ASCII: strings.EqualFold and TrimSpace also treat some other characters, and the model does not.
- The path with singleflight disabled (executeAndCache) is unfenced by design.
- Redis client, pipelines, SCAN routing, Pub/Sub transport, JSON, gin writers, the native engines, Stats and logging are I/O or library code.
- The older tracked-key store in persist/ristrettoadapter/adapter.go would only repeat the easy part of the adapter.
