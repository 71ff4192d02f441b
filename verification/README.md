# Zyrnix logging library: a Dafny model

The model covers the small state machines inside the logging library and proves what they promise.
`dafny verify dfyconfig.toml` checks the whole project. Each file is one module.

| Part | Modules | Form |
|---|---|---|
| Substring redaction and the pattern lists that feed it | `Redaction`, `RedactionMinimality`, `RedactionExactness`, `ConfigStrings` | methods with the source's loops, proved against recursive functions |
| Redaction and routing inside a log call | `Routing` | a class for the logger; the regular-expression engine is a parameter |
| Token bucket, sampler, combined limiter | `RateLimiting`, `Sampling` | classes over real tokens and a clock in nanoseconds |
| Signal-safe ring buffer, one thread | `SignalSafeRing` | a class over an array that refines a byte queue |
| The same ring, many writers and flushes one at a time | `RingProtocol`, `RingWrites` | an interleaved step system, one step per load, exchange and byte copy; what becomes of each chunk |
| The ring's positions under overlapping flushes | `OverlappingFlushes` | an interleaved step system |
| Reference-counting guard | `SinkGuards` | classes with construction, move, assignment and release |
| Hot removal of sinks under the reader-writer lock | `SinkRemoval`, `SinkCalls` | an interleaved step system; whole calls as runs of it |
| Dynamic and temporary levels, lazy expiry, history | `LevelControl` | a class plus a reference machine that reverts on time |
| The same by many threads | `LevelRaces` | an interleaved step system with load, change and record apart |
| Rotating file sink | `Rotation` | a class over a directory that maps names to line sequences |
| Asynchronous queue with graceful shutdown | `AsyncQueue` | a class of atomic sections and an interleaved step system tied to it |
| Batching cloud sinks with retries | `CloudBatching`, `CloudRounds` | a class and an interleaved step system tied to it; turns of the worker as runs of it |
| Lock-free maxima | `MaxRegister` | compare-exchange loops, and an interleaved step system |
| Regular-expression filter cache | `FilterCache` | a class over a map |
| Structured JSON lines | `JsonLine`, `JsonReader`, `JsonRoundTrip` | the printer, a reader after RFC 8259, and the round trip between them |

`LogLevels` and `Modular` hold the level type with its order and arithmetic of quotients and remainders. In a step
system an action that is not enabled leaves the state unchanged, so statements over action sequences
hold for every interleaving.

## Where the code and its description differ

The model follows the code in each case.

- A cloud sink is documented to retry a limited number of times. The retry counter stops at
  `max_retries` but the loop condition stays true, so sending goes on until an attempt succeeds and
  `messages_failed` stays 0 (`src/sinks/cloud_sinks.cpp:105-125`; `NothingIsEverFailed`,
  `SendEndsIffSomeSuccess`).
- Destroying a cloud sink can lose accepted messages that wait in the queue, because the worker's loop
  ends as soon as it sees the stop (`src/sinks/cloud_sinks.cpp:27-33,67`; `StopLosesNothingIff` says
  exactly when).
- `max_files` bounds the highest slot number, so `max_files + 1` rotated files are kept
  (`src/sinks/rotating_file_sink.cpp:36-56`).
- A sampler with a rate of at most one counts nothing, and the drops an active sampler reports are
  one too many unless the rate divides the number of calls (`src/rate_limiter.cpp:63-82`;
  `ReportAddsUpIff`, `TotalCountsCallsIff`).
- Redaction promises to remove every pattern. For one pattern this holds on all messages exactly when
  the pattern neither begins nor ends with `*` (`OnePatternExact`). With later patterns of given lengths
  it holds exactly when the pattern moreover holds no run of stars as long as one of them
  (`CompleteIffGuarded`; `LaterReplacementCanRebuild` is an instance). Patterns without `*` always
  qualify.
- A later pattern that holds stars can match stars written before it and so change text that was in no
  original occurrence. `MinimalIffSteady` and `PairMinimalIff` say exactly when this cannot happen.
- A byte above 127 prints as an escape of eight digits where `char` is signed, so such text does not
  read back (`src/sinks/structured_json_sink.cpp:34-37`; `RoundTripIffAscii`).
- The filter cache's key joins pattern and field with `|`. It identifies a filter exactly when no
  field name ends with `|` followed by another field name (`KeyDeterminesIffUnambiguous`).
- A second timed-out shutdown overwrites the drop count of the first (`src/async/async_queue.cpp:76-81`;
  `DropCountAccountsIff`).
- A plain `set_level` neither looks for an expired temporary level nor is recorded. Level decisions
  stay those of a machine that reverts on time, and the history stays unbroken, exactly under the
  conditions of `StepAgreesIffHarmless` and `TrailKeptIff`.
- `set_level_dynamic` exchanges the level before it takes the mutex, so two calls can record in the
  opposite order, and the history breaks (`src/logger.cpp:189-193`; `NextRecordKeepsWhateverIff`,
  `OppositeOrderBreaks`). Cancelling and expiry load the level and store another one in two steps; an
  exchange in between is overwritten unseen (`src/logger.cpp:300-303`; `RevertStaleIff`).
- A flush from `log` or `flush` can overlap another one. A flush that finishes late then moves the read
  position back, and more than the capacity can be outstanding (`src/sinks/signal_safe_sink.cpp:122-153`;
  `NeverFallsIffSettled`, `MayStartIff`, `OverlapRetreats`), after which reservations of any length
  succeed, since the space left is computed in size_t (`OverfullReserves`). Also, a flush that starts while bytes are reserved but
  not copied emits what the cells held before (`FlushRightWhateverIff`).
- The ring's flush has a second clamp on the segment length that never applies
  (`src/sinks/signal_safe_sink.cpp:144-146`), and the flush flag guards only the flush inside a write.
- The guard's second test of the removal mark never fails while the lock is shared
  (`src/logger.cpp:471-472`; `DrainWaitsAreIdle`).

## Model

| member | source | states |
|---|---|---|
| `Redaction.Redact` | src/formatter.cpp:21-31 | the nested replace loops compute the redaction that the lemmas below describe |
| `Redaction.ReplaceAll` | src/formatter.cpp:24-28 | the inner loop ends for every non-empty pattern, having handled the whole text |
| `Redaction.ReplaceNext` | src/formatter.cpp:25-27 | for every pattern one turn moves past the match and leaves the rest of the work unchanged, or ends the loop; an empty pattern leaves text and position as they are |
| `Redaction.TerminatesIffNonEmpty` | src/formatter.cpp:24-28 | the inner loop leaves after finitely many turns if and only if the pattern is not empty |
| `Redaction.RedactionIsComplete` | src/formatter.cpp:21-31 | no guarded pattern occurs in the result, wherever it stands in the list and however matches overlap |
| `Redaction.StarFreeIsGuarded` | src/formatter.cpp:26 | a pattern without `*` cannot be rebuilt by any replacement |
| `RedactionExactness.OnePatternExact` | src/formatter.cpp:21-31 | for a single pattern, nothing leaks on any message if and only if the pattern neither begins nor ends with `*` |
| `RedactionExactness.LaterReplacementCanRebuild` | src/formatter.cpp:23-29 | a concrete message in which the second pattern's replacement recreates the first pattern |
| `RedactionExactness.CompleteIffGuarded` | src/formatter.cpp:23-29 | for given lengths of the later patterns, no choice of them makes a pattern survive on any message if and only if it has no star at its ends and no run of stars as long as one of them |
| `RedactionExactness.OneCharacterLaterIff` | src/formatter.cpp:23-29 | ahead of a pattern of one character, nothing leaks if and only if the pattern has no star at its ends and either no star or every character |
| `RedactionMinimality.RedactionIsMinimal` | src/formatter.cpp:21-31 | a character changes only into `*` and only inside an occurrence in the original message, for every list in which no replacement can supply stars to a later pattern |
| `RedactionMinimality.StarFreeIsSteady` | src/formatter.cpp:26 | lists whose later patterns hold no `*` are such lists |
| `RedactionExactness.MinimalIffSteady` | src/formatter.cpp:23-29 | for given lengths of the earlier patterns, the pass for a pattern stays inside original occurrences whatever they are if and only if the pattern consists of stars or is immune to each length |
| `RedactionExactness.PairMinimalIff` | src/formatter.cpp:23-29 | behind any first pattern only original occurrences change if and only if the second pattern is free of `*` or consists of nothing else |
| `Redaction.CleanTextUnchanged` | src/formatter.cpp:21-31 | a message holding none of the patterns is returned as it is |
| `Redaction.RedactionIsIdempotent` | src/formatter.cpp:21-31 | redacting twice equals redacting once |
| `ConfigStrings.SplitAndTrim` | src/config.cpp:17-43 | the character loop returns the trimmed non-blank pieces between commas, in order |
| `ConfigStrings.AppendTrimmed` | src/config.cpp:22-29 | the guarded trim-and-push appends the piece's token exactly if it has one |
| `ConfigStrings.SplitIsExact` | src/config.cpp:20-34 | joining the pieces with commas gives the text back, and no piece holds a comma |
| `ConfigStrings.TrimIsExact` | src/config.cpp:24-28 | a piece is blanks, its token, blanks; the token starts and ends with a non-blank; without a token it is all blank |
| `ConfigStrings.LastEntryAdds` | src/config.cpp:17-43 | one more entry of a list adds exactly its token at the end, whatever blanks surround it; an entry of blanks adds nothing |
| `ConfigStrings.OnlyEntry` | src/config.cpp:17-43 | a list of one entry holds exactly its token, if it has one |
| `ConfigStrings.ConfiguredPatternsAreNonEmpty` | src/config.cpp:17-43 | every pattern read from any text is non-empty and comma-free, so redaction with it ends |
| `ConfigStrings.ConfiguredRedactionIsComplete` | src/config.cpp:17-43 | redacting with the patterns of any configured text without `*` leaves none of them |
| `Routing.Logger.Log` | src/logger.cpp:389-479 | an expired temporary level is reverted; each sink receives nothing, the original or the redacted message, as level, filters, removal mark, override and cloud-only setting say; sinks that must see redacted text never see a star-free pattern |
| `Routing.Logger.ShouldLog` | src/logger.cpp:371-387 | a record passes exactly if its level is not below the minimum and the filter function and every filter accept it |
| `Routing.ApplyRedactions` | src/logger.cpp:413-457 | substrings first, then every compiled expression and preset in order |
| `Routing.Compile` | src/logger.cpp:422-450 | the compiled expressions, then those of the presets, which the two lemmas below describe entry by entry |
| `Routing.SubstringsOnly` | src/logger.cpp:413-421 | without expressions and presets the message is redacted by the substrings alone |
| `Routing.LastExpressionActs` | src/logger.cpp:422-454 | one more expression at the end of the list replaces its matches by `***` in the text the others leave if it compiles, and changes nothing otherwise |
| `Routing.LastPresetActs` | src/logger.cpp:432-454 | one more preset at the end, spelled in any case, acts as the expression of its lower-case name on the text that everything before leaves; an unknown one changes nothing |
| `Routing.PresetInCapitals` | src/logger.cpp:434-445 | the preset "EMAIL" acts as the expression named "email" |
| `Routing.ReplaceEach` | src/logger.cpp:452-454 | the expressions are applied one after the other to the text so far |
| `Routing.OccurrenceIsOld` | src/logger.cpp:452-454 | an immune pattern occurring after a replacement by `***` occurred before it |
| `Routing.SurvivesExactlyIfImmune` | src/logger.cpp:452-454 | no expression whatsoever can make a pattern appear if and only if it has no star at its ends and no three stars in a row |
| `Routing.RedactedSinksNeverSeePatterns` | src/logger.cpp:413-478 | after both passes no guarded and immune pattern occurs, for every engine that only cuts its input |
| `Routing.StarFreePatternsNeverSeen` | src/logger.cpp:413-478 | the same for every configured pattern without `*`, with no further condition |
| `RateLimiting.RateLimiter.constructor` | src/rate_limiter.cpp:6-13 | burst capacity, or the rate if it is zero, and a full bucket |
| `RateLimiting.RateLimiter.TryLog` | src/rate_limiter.cpp:15-31 | the answer and the new state, for disabled, admitting and denying limiters |
| `RateLimiting.RateLimiter.RefillTokens` | src/rate_limiter.cpp:33-44 | whole milliseconds are credited up to the maximum; the clock mark moves only then |
| `RateLimiting.RateLimiter.Reset` | src/rate_limiter.cpp:46-51 | a full bucket, no drops, the mark at the present |
| `RateLimiting.RefillBounds` | src/rate_limiter.cpp:33-44 | tokens stay within range, never fall, and grow by at most what the accounted time earns; less than a millisecond stays unaccounted |
| `RateLimiting.RefillIsExact` | src/rate_limiter.cpp:33-44 | a refill credits rate/1000 for each whole millisecond since the mark, up to the maximum, and moves the mark to the present |
| `RateLimiting.ZeroIsUnlimited` | src/rate_limiter.cpp:6-19 | a limiter is disabled exactly if made with neither rate nor burst, and then admits every call |
| `RateLimiting.BurstAtOnce` | src/rate_limiter.cpp:6-31 | a new limiter admits at one instant exactly its burst, or its rate without one |
| `RateLimiting.DropsAreDenials` | src/rate_limiter.cpp:15-31 | over every run the drop count grows by the number of calls denied |
| `RateLimiting.RefillCreditsOverHalf` | src/rate_limiter.cpp:35-42 | a refill that moves the mark without filling the bucket credits more than half of the time it covers |
| `RateLimiting.Spending` | src/rate_limiter.cpp:15-44 | over any run with a nondecreasing clock, admitted calls and remaining tokens never exceed the initial tokens and the earned ones |
| `RateLimiting.WindowBound` | src/rate_limiter.cpp:15-44 | the calls admitted in a window are at most the maximum plus the rate times the window and one millisecond |
| `RateLimiting.WindowBoundInRun` | src/rate_limiter.cpp:6-44 | the same for every window of every run of a new limiter |
| `RateLimiting.DeniedRunAccumulates` | src/rate_limiter.cpp:15-44 | over denied calls more than half of the elapsed accounted time becomes tokens |
| `RateLimiting.NoStarvation` | src/rate_limiter.cpp:15-44 | consecutive denied calls span less than 2000/rate + 1 milliseconds |
| `Sampling.SamplingLimiter.constructor` | src/rate_limiter.cpp:57-61 | a rate of zero counts as one |
| `Sampling.SamplingLimiter.ShouldLog` | src/rate_limiter.cpp:63-70 | every rate-th call passes and calls are counted; an inactive sampler passes all and counts none |
| `Sampling.CombinedLimiter.constructor` | src/rate_limiter.cpp:84-93 | both limiters new, nothing logged |
| `Sampling.CombinedLimiter.ShouldLog` | src/rate_limiter.cpp:95-106 | sampling first, then the bucket; exactly the calls passing both are counted as logged |
| `Sampling.CombinedLimiter.GetStats` | src/rate_limiter.cpp:108-115 | the four reported numbers of the current state |
| `Sampling.SamplingAccounts` | src/rate_limiter.cpp:63-115 | over every run the number passing the sampler is the number of calls over the rate, rounded up, and logged plus rate-limited calls are exactly those |
| `Sampling.LoggedAreAnswered` | src/rate_limiter.cpp:95-106 | over every run the logged count grows by the number of calls answered true |
| `Sampling.EveryRateThPasses` | src/rate_limiter.cpp:63-70 | the sampler passes the next call if and only if it is off or the rate divides the number of calls so far |
| `Sampling.ReportedDropsExcess` | src/rate_limiter.cpp:76-82 | reported sampling drops exceed the actual ones by 0 if the rate divides the number of calls, else by 1 |
| `Sampling.ReportAddsUpIff` | src/rate_limiter.cpp:108-115 | logged, rate-limited and sampled-out add up to the total if and only if sampling is on and the rate divides the calls, or there were none |
| `Sampling.TotalCountsCallsIff` | src/rate_limiter.cpp:63-115 | the reported total is the number of calls if and only if sampling is on, or there were none |
| `SignalSafeRing.SignalSafeSink.constructor` | src/sinks/signal_safe_sink.cpp:11-14 | an empty buffer with the capacity clamped |
| `SignalSafeRing.SignalSafeSink.Log` | src/sinks/signal_safe_sink.cpp:37-61 | refines the byte queue: three chunks, then a flush if more than half is pending |
| `SignalSafeRing.SignalSafeSink.Flush` | src/sinks/signal_safe_sink.cpp:63-69 | everything pending is handed over, in at most two segments |
| `SignalSafeRing.SignalSafeSink.WriteToBuffer` | src/sinks/signal_safe_sink.cpp:71-114 | refines the queue's put: append, or drain and append, or drain and drop with a count |
| `SignalSafeRing.SignalSafeSink.Reserve` | src/sinks/signal_safe_sink.cpp:74-107 | the reservation succeeds exactly if the bytes fit after the flush that a full buffer triggers |
| `SignalSafeRing.SignalSafeSink.CopyIn` | src/sinks/signal_safe_sink.cpp:110-113 | the modular copy fills the reserved range and leaves all other pending bytes alone |
| `SignalSafeRing.SignalSafeSink.FlushBuffer` | src/sinks/signal_safe_sink.cpp:116-154 | the wrapped range is emitted in order, in at most two segments |
| `SignalSafeRing.RingIsQueue` | src/sinks/signal_safe_sink.cpp:37-154 | over every run, emitted bytes then pending bytes are the accepted chunks in order; a chunk is dropped and counted exactly if it exceeds the capacity; at most half the capacity is pending after each call |
| `SignalSafeRing.LogBuffersOrFlushes` | src/sinks/signal_safe_sink.cpp:37-61 | a message that fits beside the pending bytes is only buffered, unless more than half the capacity is pending then: in that case all of it is handed over; each level is spelled out |
| `SignalSafeRing.ClosedSinkDoesNothing` | src/sinks/signal_safe_sink.cpp:37-40 | without an open file nothing is buffered, written or counted |
| `SignalSafeRing.SafeWrite` | src/sinks/signal_safe_sink.cpp:156-175 | the loop writes exactly the prefix that the answers of the write calls allow |
| `SignalSafeRing.ShortWritesComplete` | src/sinks/signal_safe_sink.cpp:156-175 | interruptions and short writes lose nothing |
| `SignalSafeRing.FailureStops` | src/sinks/signal_safe_sink.cpp:159-174 | a failure, or an answer of zero, ends the write with what was taken before it |
| `SignalSafeRing.CompleteWritesFillFile` | src/sinks/signal_safe_sink.cpp:148-175 | if each write gets through, the file is the concatenation of the segments |
| `RingProtocol.PositionsNeverRetreat` | src/sinks/signal_safe_sink.cpp:71-154 | neither position ever decreases, in any interleaving of writers with flushes that do not overlap one another |
| `RingProtocol.ReservationsTile` | src/sinks/signal_safe_sink.cpp:74-107 | in any interleaving of writers with flushes that do not overlap one another, reserved intervals are disjoint and cover exactly the positions below write_pos, and at most the capacity is outstanding although each writer tests a stale read position |
| `RingProtocol.CleanFlushesEmitSuppliedBytes` | src/sinks/signal_safe_sink.cpp:71-154 | if flushes do not overlap and every one so far took its snapshot over finished copies, each emitted byte is the one its reserver supplied |
| `RingProtocol.EarlySnapshotEmitsStaleByte` | src/sinks/signal_safe_sink.cpp:106-124 | a concrete interleaving in which a snapshot before the copy emits an old byte |
| `RingProtocol.FlushRightIff` | src/sinks/signal_safe_sink.cpp:116-154 | a whole flush emits exactly the supplied bytes if and only if each outstanding cell holds its byte |
| `RingProtocol.FlushRightWhateverIff` | src/sinks/signal_safe_sink.cpp:106-154 | in a reachable clean state a flush is right whatever the writers still have to copy if and only if no copy is in progress |
| `RingProtocol.StepInv` | src/sinks/signal_safe_sink.cpp:71-154 | every step of every writer and of the one flush under way keeps the invariant and moves positions only forward; that writes succeed is said by the rows of `RingWrites` |
| `RingWrites.WriteCallSucceedsIff` | src/sinks/signal_safe_sink.cpp:71-114 | from every reachable state without a flush under way, a write nobody disturbs, with the flush a crowded first look triggers, makes the next reservation, puts its bytes there and drops nothing if and only if the chunk is at most the capacity; otherwise it counts one drop and reserves nothing |
| `RingWrites.FailedExchangeIsRepeated` | src/sinks/signal_safe_sink.cpp:74-107 | a writer whose exchange fails, spuriously or because others reserved, starts over and, undisturbed, ends as a new write would |
| `RingWrites.EveryChunkHasAFate` | src/sinks/signal_safe_sink.cpp:71-114 | in every interleaving a chunk begun is reserved, dropped, or on its way; it is dropped only at its second look and only if longer than the capacity less what it finds outstanding there |
| `RingWrites.EveryChunkCounted` | src/sinks/signal_safe_sink.cpp:71-114 | in every interleaving the chunks begun are as many as those reserved, dropped and on their way |
| `OverlappingFlushes.NeverFallsIffSettled` | src/sinks/signal_safe_sink.cpp:122-153 | from any state, whatever writers and flushes do while no other flush starts, the read position never falls if and only if all flushes under way that will store anything have one goal, not below it |
| `OverlappingFlushes.MayStartIff` | src/sinks/signal_safe_sink.cpp:122-127 | in a reachable such state another flush may start safely if and only if each live one will store the present write position |
| `OverlappingFlushes.WithinCapacity` | src/sinks/signal_safe_sink.cpp:74-153 | over a run in which the read position never falls at most the capacity is outstanding, although writers test with positions that may be out of date |
| `OverlappingFlushes.OverfullReserves` | src/sinks/signal_safe_sink.cpp:78-107 | with more than the capacity outstanding the space computed wraps around and a reservation of almost any length succeeds |
| `OverlappingFlushes.OverlapRetreats` | src/sinks/signal_safe_sink.cpp:122-153 | a concrete run of two flushes after which the read position has fallen, more than the capacity is outstanding, and a thousand bytes are reserved in a ring of two |
| `SinkGuards.SinkGuard.constructor` | include/Zyrnix/logger.hpp:56-60 | takes one reference; counts stay the numbers of guards |
| `SinkGuards.SinkGuard.Moved` | include/Zyrnix/logger.hpp:71-73 | moving takes the reference along and changes no count |
| `SinkGuards.SinkGuard.Assign` | include/Zyrnix/logger.hpp:75-84 | gives back its own reference and takes over the other one; assigning to itself changes nothing |
| `SinkGuards.SinkGuard.Release` | include/Zyrnix/logger.hpp:62-66 | gives back one reference; counts stay the numbers of guards |
| `SinkGuards.CountPositiveIffHeld` | include/Zyrnix/logger.hpp:39-92 | an entry's count is positive exactly while some guard holds it, and never negative |
| `SinkRemoval.CountsAreLiveGuards` | src/logger.cpp:459-478 | in every interleaving ref_count is the number of live guards, each owned by a thread with the shared lock |
| `SinkRemoval.MarkedIsUnused` | src/logger.cpp:61-172 | a marked entry has no guards and count zero |
| `SinkRemoval.DrainWaitsAreIdle` | src/logger.cpp:151-161 | every drain wait finds count zero at once, and a guard's second test of the mark never fails |
| `SinkRemoval.NoWriteAfterMark` | src/logger.cpp:61-172 | once marked, an entry stays marked and unused, and no write to its sink ever starts again |
| `SinkRemoval.RemovalsAreSafe` | src/logger.cpp:102-111 | whatever leaves the vector is marked and unused, also for the erase by name that ignores the count and without waiting |
| `SinkRemoval.EraseIsComplete` | src/logger.cpp:102-111 | an erase leaves exactly the entries that are not marked or, by name, not of that name |
| `SinkRemoval.StepInv` | src/logger.cpp:56-172 | every step keeps lock ownership, entry use and counts consistent; that calls succeed is said by the rows of `SinkCalls` |
| `SinkCalls.RemoveByNameSucceeds` | src/logger.cpp:79-113 | from every reachable state with the lock free, a removal by name takes out the first unmarked entry of that name and the marked ones of it and nothing else; it leaves as not found, with nothing changed, if and only if no unmarked entry has the name |
| `SinkCalls.RemoveByIndexSucceeds` | src/logger.cpp:115-141 | the same by index: the entry there leaves with all marked ones; an index beyond the vector changes nothing |
| `SinkCalls.ClearSucceeds` | src/logger.cpp:61-77 | a clear empties the vector and marks exactly what was in it |
| `SinkCalls.LogCallWritesAll` | src/logger.cpp:459-478 | a log call writes once, in order, to every unmarked entry of the vector that holds a sink and is not kept quiet by a level override, and leaves all else as it was |
| `SinkCalls.LiveDistinct` | src/logger.cpp:56-172 | in every reachable state no entry stands twice in the vector |
| `LevelControl.LevelControl.SetLevel` | src/logger.cpp:174-176 | changes the level and nothing else |
| `LevelControl.LevelControl.SetLevelDynamic` | src/logger.cpp:186-199 | expiry first, then a recorded change if the level differs |
| `LevelControl.LevelControl.SetLevelTemporary` | src/logger.cpp:272-294 | opens or extends the window, keeping the level of the first opening |
| `LevelControl.LevelControl.CancelTemporaryLevel` | src/logger.cpp:296-312 | closes an open window and records it |
| `LevelControl.LevelControl.CheckTemporaryLevelExpiry` | src/logger.cpp:334-353 | reverts once the time has come and records it |
| `LevelControl.LevelControl.ShouldLog` | src/logger.cpp:371-374 | the level test, with expiry looked for first as a log call does |
| `LevelControl.LevelControl.RecordLevelChange` | src/logger.cpp:230-243 | the history becomes the last entries of the old one with the change at its end, as many as the bound allows |
| `LevelControl.LevelControl.GetLevelHistory` | src/logger.cpp:245-256 | the last entries, as many as asked for and stored |
| `LevelControl.LevelControl.SetMaxHistoryEntries` | src/logger.cpp:263-270 | the last entries stay, as many as the new bound allows, in order |
| `LevelControl.LevelControl.ClearLevelHistory` | src/logger.cpp:258-261 | empties the history, keeps level and window |
| `LevelControl.StepAgreesIffHarmless` | src/logger.cpp:174-199 | a call keeps level tests equal to those of the on-time machine if and only if it is not a plain change during an undiscovered expiry to another level than the restored one |
| `LevelControl.LazyRefinesEager` | src/logger.cpp:186-199 | over every run with a nondecreasing clock each log call is decided as by a machine that reverts exactly on time |
| `LevelControl.LazyRefinesEagerFromStart` | src/logger.cpp:389-406 | the same from a new logger |
| `LevelControl.ClosingRestores` | src/logger.cpp:272-353 | closing a window restores the level in force when it was opened, through any nesting and extension |
| `LevelControl.TrailKeptIff` | src/logger.cpp:174-353 | a call keeps the notifications an unbroken chain ending at the current level if and only if it is not a plain change to another level |
| `LevelControl.RunFaithful` | src/logger.cpp:230-270 | the stored history stays a suffix of all notifications within its bound, through resizing and clearing |
| `LevelControl.HistoryIsFull` | src/logger.cpp:230-243 | over every run without clearing or resizing the history is as long as the bound allows: the smaller of the number of notifications and the bound |
| `LevelControl.NewLoggerHistory` | src/logger.cpp:230-243 | for a new logger it is the last 100 notifications, or all if fewer |
| `LevelControl.NotifyStores` | src/logger.cpp:230-243 | a notification stands last in the history, which grows by one unless it is at its bound |
| `LevelControl.SetMaxKeeps` | src/logger.cpp:263-270 | a new bound leaves exactly the last entries of the old history, as many as it allows |
| `LevelControl.WhatIsRecorded` | src/logger.cpp:186-353 | each call notifies first of the revert it finds due and then of its own change, with levels, time and reason |
| `LevelRaces.NextRecordKeepsWhateverIff` | src/logger.cpp:186-199 | after records in order, the next record of a call keeps the history unbroken whatever the levels were if and only if the call believes to have replaced the level the records end with; for any call but a revert, if and only if its change is the oldest one not recorded |
| `LevelRaces.OrderlyRecordsChain` | src/logger.cpp:186-199 | if the records follow the changes in order the history is unbroken, and with no call under way it ends at the level in force |
| `LevelRaces.NextRecordKeepsIff` | src/logger.cpp:189-193 | for the levels at hand, one more record keeps the history exactly if it starts at the level recorded last: always for the oldest change, never for the one after a pending one |
| `LevelRaces.OppositeOrderBreaks` | src/logger.cpp:189-193 | two overlapping dynamic changes that record in the opposite order break the history, whatever the levels |
| `LevelRaces.RevertStaleIff` | src/logger.cpp:296-346 | a revert records the level it really replaced if and only if no dynamic change exchanged it between the load and the store; otherwise as many changes as did are overwritten unseen |
| `LevelRaces.CallsAlone` | src/logger.cpp:186-353 | from every reachable state with the mutex free, each undisturbed call sets its level and records the change from the level before; a dynamic one does if it gives another level |
| `LevelRaces.CaughtExchangeBreaksUnless` | src/logger.cpp:300-306 | such a caught change breaks the history unless the revert restores the level it loaded |
| `LevelControl.HistoryIsAuditTrail` | src/logger.cpp:230-312 | the history is the tail of all notifications, of the length `HistoryIsFull` states, and unless a plain change altered the level its entries chain and the last one names the current level |
| `Rotation.RotatingFileSink.constructor` | src/sinks/rotating_file_sink.cpp:9-12 | opens for append and takes over the size found |
| `Rotation.RotatingFileSink.OpenFile` | src/sinks/rotating_file_sink.cpp:14-30 | creates a missing file and reads its size |
| `Rotation.RotatingFileSink.Rotate` | src/sinks/rotating_file_sink.cpp:32-69 | the rename loop, the rename of the current file, and a new one |
| `Rotation.RotatingFileSink.Log` | src/sinks/rotating_file_sink.cpp:71-78 | level test, append, and rotation at the limit; current_size stays the file's size |
| `Rotation.ChainEffect` | src/sinks/rotating_file_sink.cpp:36-53 | the descending renames amount to one simultaneous shift of all slots by one |
| `Rotation.RotationSlots` | src/sinks/rotating_file_sink.cpp:32-69 | after a rotation slot 0 holds the current file and each other slot its lower neighbour |
| `Rotation.RotationKeeps` | src/sinks/rotating_file_sink.cpp:32-69 | a rotation loses nothing but the oldest file of a full set |
| `Rotation.TrackKeeps` | src/sinks/rotating_file_sink.cpp:71-78 | one log call keeps the directory tidy and every line not given up earlier |
| `Rotation.RunKept` | src/sinks/rotating_file_sink.cpp:71-78 | over every run, given-up lines then stored lines are the whole history |
| `Rotation.HistorySuffix` | src/sinks/rotating_file_sink.cpp:14-78 | the stored lines are a suffix of history; slots are contiguous and at most max_files + 1; rotated files reach the limit with their last line; lines are given up only when all slots are in use and hold (max_files + 1) * max_size bytes |
| `Rotation.OpeningKeeps` | src/sinks/rotating_file_sink.cpp:14-30 | opening keeps every file that exists and makes an empty current one only if there is none |
| `Rotation.RestartKeepsHistory` | src/sinks/rotating_file_sink.cpp:9-78 | a sink opened again on what an earlier one left keeps a whole-line suffix of what both logged |
| `Rotation.SizeIsLength` | src/sinks/rotating_file_sink.cpp:24-29 | the size is the number of characters of the file's text |
| `Rotation.EmptyDirectoryIsTidy` | src/sinks/rotating_file_sink.cpp:9-12 | a sink on an empty directory starts in a state the results apply to |
| `Rotation.PathsDistinct` | src/sinks/rotating_file_sink.cpp:37-56 | different slots have different file names |
| `AsyncQueue.Queue.MayPush` | src/async/async_queue.cpp:17-19 | the answer decides, as in the step system, whether the producer joins those who will enqueue its record |
| `AsyncQueue.Queue.Enqueue` | src/async/async_queue.cpp:21-24 | appends the record, as the step of the system does |
| `AsyncQueue.Queue.Pop` | src/async/async_queue.cpp:29-49 | takes the oldest record, or fails on an empty queue, as the step of the system does |
| `AsyncQueue.Queue.RaiseFlag` | src/async/async_queue.cpp:62-63 | raises the flag and leaves the queue alone |
| `AsyncQueue.Queue.FinishShutdown` | src/async/async_queue.cpp:69-83 | reports whether it drained; a timeout stores the size as the drop count and clears the queue |
| `AsyncQueue.FifoConservation` | src/async/async_queue.cpp:16-84 | in every interleaving the removed records followed by the queue are the enqueued ones in order |
| `AsyncQueue.PushEnqueues` | src/async/async_queue.cpp:16-27 | a push that finds the flag down puts its record at the end of the queue whatever happens between its two sections; one that finds it up changes nothing |
| `AsyncQueue.DropCountAccountsIff` | src/async/async_queue.cpp:76-81 | popped, dropped and queued records add up to the enqueued ones if and only if at most one shutdown timed out |
| `AsyncQueue.SecondTimeoutLosesCount` | src/async/async_queue.cpp:76-81 | a concrete run in which the second timeout loses the first count |
| `AsyncQueue.PopFailsOnlyAtTheEnd` | src/async/async_queue.cpp:29-49 | pop fails exactly on an empty queue after shutdown began, and otherwise returns the oldest unremoved record |
| `AsyncQueue.LateEnqueuesBounded` | src/async/async_queue.cpp:16-27 | enqueues after the flag number exactly the producers past the test then, less those still on their way |
| `AsyncQueue.ShutdownIsFinal` | src/async/async_queue.cpp:61-63 | the flag never falls and the bound on late enqueues is settled when it rises |
| `AsyncQueue.ShutdownRuns` | src/async/async_queue.cpp:61-83 | a waiting shutdown that runs out of time removes everything queued and counts it as dropped |
| `CloudBatching.CloudWatchSink.Log` | src/sinks/cloud_sinks.cpp:35-51 | appends below the queue limit, otherwise counts a drop |
| `CloudBatching.CloudWatchSink.Collect` | src/sinks/cloud_sinks.cpp:78-81 | tops the batch up from the front of the queue to its limit, as the step of the system does |
| `CloudBatching.CloudWatchSink.SendBatch` | src/sinks/cloud_sinks.cpp:100-126 | counters and sleeping time of a send whose attempts meet the given answers |
| `CloudBatching.AttemptsDeliver` | src/sinks/cloud_sinks.cpp:100-126 | the attempt steps of the system deliver the batch with the same counters and sleeping time |
| `CloudBatching.OrderAndConservation` | src/sinks/cloud_sinks.cpp:35-126 | in every reachable state finished batches, worker batch and queue are the accepted messages in order; accepted and dropped are all calls; the queue is bounded; sent and failed are the finished sizes |
| `CloudBatching.BatchesAndBackoffBounded` | src/sinks/cloud_sinks.cpp:78-116 | every finished batch is non-empty and within the limit, with at most max_retries retries and retry_delay * (2^retries - 1) slept |
| `CloudBatching.NothingIsEverFailed` | src/sinks/cloud_sinks.cpp:105-125 | no message is ever counted as failed |
| `CloudBatching.SendEndsIffSomeSuccess` | src/sinks/cloud_sinks.cpp:105-116 | a send ends if and only if some attempt succeeds |
| `CloudBatching.StopLosesNothingIff` | src/sinks/cloud_sinks.cpp:27-98 | a stop in any reachable running state can lose none of the waiting messages if and only if none waits or the worker is about to take them all |
| `CloudBatching.UndeliveredAtEnd` | src/sinks/cloud_sinks.cpp:63-98 | when the worker has ended the undelivered messages are exactly those left in the queue |
| `CloudBatching.StoppingMayLeaveMessages` | src/sinks/cloud_sinks.cpp:27-67 | the shortest such loss, one message and a worker that finds the stop first |
| `CloudBatching.StepInv` | src/sinks/cloud_sinks.cpp:35-126 | every step keeps order, bounds, counters and the state of the send in hand; that the worker makes progress is said by the rows of `CloudRounds` |
| `CloudRounds.RoundDeliversIff` | src/sinks/cloud_sinks.cpp:63-98 | from every reachable running state with the worker at the top of its loop, one turn adds a delivery of the batch topped up from the front of the queue if and only if that fills it or the wait timed out, and otherwise keeps the batch |
| `CloudRounds.EverythingIsDelivered` | src/sinks/cloud_sinks.cpp:63-98 | from every such state enough turns deliver every message accepted so far, in order |
| `CloudRounds.DroppedIffBehind` | src/sinks/cloud_sinks.cpp:35-51 | in every reachable state a message is dropped if and only if as many accepted ones as the queue may hold are neither delivered nor in the batch |
| `CloudRounds.StoppedWorkerEnds` | src/sinks/cloud_sinks.cpp:63-98 | a stopped worker at the top of its loop delivers its batch and ends, leaving the queue as it is |
| `MaxRegister.RaiseTo` | src/log_metrics.cpp:37-42 | for any number of spurious failures the cell ends at the larger of the two values |
| `MaxRegister.LogMetrics.RecordLogDuration` | src/log_metrics.cpp:34-43 | total and maximum after the call |
| `MaxRegister.LogMetrics.RecordFlushDuration` | src/log_metrics.cpp:45-54 | total and maximum after the call |
| `MaxRegister.LogMetrics.UpdateQueueDepth` | src/log_metrics.cpp:56-65 | current depth stored, maximum raised, current at most the maximum |
| `MaxRegister.GreatestRecorded` | src/log_metrics.cpp:34-65 | after any sequence of calls the stored value is the greatest one recorded |
| `MaxRegister.CallAloneFinishes` | src/log_metrics.cpp:56-65 | from every reachable state an undisturbed call ends after one load and one exchange with the greater value stored |
| `MaxRegister.TwoTurnsFinish` | src/log_metrics.cpp:37-42 | a call whose exchange fails takes the present value and finishes with its next undisturbed turn |
| `MaxRegister.MaxNeverDecreases` | src/log_metrics.cpp:56-65 | the stored maximum never decreases in any interleaving |
| `MaxRegister.MaxRegister` | src/log_metrics.cpp:56-65 | the maximum was offered, covers all completed calls, and with no call in progress is the maximum of everything offered and at least the current depth |
| `MaxRegister.CurrentLeadsOnlyInside` | src/log_metrics.cpp:56-65 | in every interleaving the current depth exceeds the maximum only while the call that stored it is still in progress |
| `MaxRegister.EnteringLeadsIff` | src/log_metrics.cpp:57-59 | in every reachable state an entering call puts the current depth above the maximum if and only if its value exceeds it |
| `MaxRegister.CurrentMayLeadMax` | src/log_metrics.cpp:57-59 | while a call is in progress the current depth can exceed the maximum |
| `FilterCache.RegexFilterCache.GetOrCreate` | src/log_filter.cpp:151-177 | hit, miss and failed construction with their counters |
| `FilterCache.RegexFilterCache.Clear` | src/log_filter.cpp:194-197 | empties the cache and keeps the counters |
| `FilterCache.KeySplits` | src/log_filter.cpp:137-143 | equal keys have equal flags and equal joined pattern and field |
| `FilterCache.KeyDeterminesIffUnambiguous` | src/log_filter.cpp:137-143 | over a set of field names the key determines the filter if and only if the names are unambiguous |
| `FilterCache.BarFreeIsUnambiguous` | src/log_filter.cpp:137-143 | names without a bar are unambiguous |
| `FilterCache.CacheAgreesWithDirect` | src/log_filter.cpp:145-197 | after any run a lookup returns a filter exactly if construction would succeed, with the pattern, field, case and invert settings asked for, and hits and misses count the lookups |
| `FilterCache.MissesAreUnfound` | src/log_filter.cpp:145-177 | over every run the misses are the lookups whose key was not in the cache |
| `FilterCache.RepeatedLookupHits` | src/log_filter.cpp:151-177 | until the next clear a request that compiled counts a hit and gets the same filter again |
| `FilterCache.ClearedLookupMisses` | src/log_filter.cpp:151-197 | after a clear the next lookup is a miss that constructs its own filter |
| `FilterCache.AmbiguousFieldsMixFilters` | src/log_filter.cpp:137-177 | any ambiguous set of names has two requests of which the second receives the filter of the first, for every engine that accepts the pattern "a" |
| `FilterCache.AlwaysLikeDirectIff` | src/log_filter.cpp:137-197 | over a set of requests every lookup in every run gives exactly what direct construction gives, statistics option included, if and only if no request that compiles shares its key with another |
| `FilterCache.FirstRequestDecidesTracking` | src/log_filter.cpp:137-164 | the statistics option is not part of the key |
| `JsonLine.EscapeJsonString` | src/sinks/structured_json_sink.cpp:22-44 | the loop appends each byte's escape, in order |
| `JsonLine.StructuredJsonSink.BuildJson` | src/sinks/structured_json_sink.cpp:57-91 | the line of four fixed members, sink context, thread context and fields, in that order |
| `JsonLine.StructuredJsonSink.LogWithFields` | src/sinks/structured_json_sink.cpp:98-107 | one record and its line are added if the file is open, nothing otherwise; the file stays the lines of the records |
| `JsonLine.StructuredJsonSink.SetContext` | src/sinks/structured_json_sink.cpp:109-112 | one key changes, the others stay |
| `JsonLine.StructuredJsonSink.ClearContext` | src/sinks/structured_json_sink.cpp:114-117 | the context is empty afterwards |
| `JsonRoundTrip.LineReadsBack` | src/sinks/structured_json_sink.cpp:57-91 | every line, over all bytes, is a JSON object by sections 4 and 7 of RFC 8259 and reads back as the expansion of its pairs, in order |
| `JsonRoundTrip.FixedMembersReadBack` | src/sinks/structured_json_sink.cpp:63-73 | every line reads back with timestamp, level, logger and message first, by name and in order, and as many members as were given |
| `JsonRoundTrip.LevelReadsBack` | include/Zyrnix/log_level.hpp:15-25 | each level reads back as its printed name |
| `JsonRoundTrip.RoundTripIffAscii` | src/sinks/structured_json_sink.cpp:22-44 | the line reads back as exactly the printed pairs if and only if all of them are ASCII |
| `JsonRoundTrip.LinePrintable` | src/sinks/structured_json_sink.cpp:22-44 | a line holds no control character and nothing beyond ASCII |
| `JsonRoundTrip.RecordsAreLines` | src/sinks/structured_json_sink.cpp:101-106 | the lines of the sink's file are the records logged so far, one each, and each reads back |
| `JsonRoundTrip.DecodingPrecedence` | src/sinks/structured_json_sink.cpp:76-87 | over all bytes, with the last of repeated keys winning, fields override thread context, which overrides sink context, which overrides the fixed keys, each read back as its expansion |

## Left out

- `CloudBatching.CloudWatchSink.SendBatch`: assumes that some attempt succeeds, because otherwise the source's loop does not end; `SendEndsIffSomeSuccess` states both cases on the step system.
- `Redaction.Redact`: requires non-empty patterns, because with an empty one the source's loop does not end; `TerminatesIffNonEmpty` states this.
- `RedactionExactness.CompleteIffGuarded`, like `MinimalIffSteady` and `PairMinimalIff`: speaks of patterns that miss at least one character other than `*`. For a pattern that holds every character the equivalence is false, as `OneCharacterLaterIff` shows for later patterns of one character.
- `SignalSafeRing.SafeWrite`: the answers of the write calls are a parameter, and an endless series of interruptions is cut off where the answers end; after a failed write the source moves on and the bytes are lost, which the model shows but no result excludes.
- `SignalSafeRing.RingIsQueue`: speaks of the bytes handed to `safe_write`; `CompleteWritesFillFile` carries this to the file when the writes get through.
- `RingProtocol.CleanFlushesEmitSuppliedBytes`: flushes do not overlap one another; the flag in the source excludes only overlap between flushes from inside writes, and overlapping flushes can emit bytes twice.
- `RingProtocol.PositionsNeverRetreat`: flushes do not overlap one another; `NeverFallsIffSettled` treats overlap.
- `RingProtocol.ReservationsTile`: flushes do not overlap one another; `WithinCapacity` and `OverlapRetreats` treat the capacity under overlap.
- `RingProtocol.StepInv`: one flush at a time.
- `OverlappingFlushes.NeverFallsIffSettled`: the bytes copied and emitted are not followed; `RingProtocol` follows them for flushes that do not overlap.
- `RateLimiting.RateLimiter.TryLog`: tokens are exact reals; rounding of double values is not modelled.
- `Rotation.RotatingFileSink.Rotate`: renames and opening always succeed; the source ignores their errors.
- `LevelControl.LevelControl.SetLevelDynamic`: level calls are atomic, and callbacks are represented by the trail of notifications; `LevelRaces` takes exchange and record apart.
- `LevelRaces.NextRecordKeepsWhateverIff`: the steps say when levels change, not why; whether a temporary window is open or has expired, and the bound of the history, are `LevelControl`'s.
- `SinkRemoval.DrainWaitsAreIdle`: sleeping and the limit of 5000 ms are not modelled, because the waits never have anything to wait for.
- C++ memory orders (steps are sequentially consistent), wrap-around of size_t and 64-bit counters, and clock wrap-around.
- File descriptors, `fsync`, HTTP and curl, timestamps and their formatting, standard output, syslog and UDP sinks: input and output.
- The regular-expression engine: any function that cuts a text into kept parts and matches; its language is not modelled.
- Filters see a record with name and level only, as the source fills in nothing else before asking them; its time stamp is not modelled.
- The expressions of the four built-in presets: a table from preset name to expression is a parameter.
- Name-based sink level overrides, which the source stores but never reads, and index-based ones after a removal, which may then concern another sink.
- The Azure sink, which is the same machine as the CloudWatch one, and `flush` of the cloud sinks, which only polls.
- Wake-up of a waiting `pop` at shutdown, lock order between the logger's mutexes, and other liveness under a real scheduler.
- The hand-written configuration parser, compressed file rotation, metric exports, health reports, composite filters, scoped context: plumbing and plain folds.
- Resets of the limiters inside a run: the results over runs speak of stretches without one.
- `get_level`, `has_temporary_level` and `remaining_temporary_duration`, which read the fields as they are without looking for expiry.
