# Zechinus: what its reactive and cryptographic core promises

Zechinus keeps end-to-end encrypted rows per user, derives aggregates from them in the background, reacts to
writes, rotates the data key under its readers, and lets several clients change one row under a content hash.
This project models that core and proves what it keeps over whole runs. Timers, settlements, storage answers
and other clients are nondeterministic atomic steps; a ciphertext is symbolic and opens only under the key,
nonce and AAD bytes it was sealed with (AES-GCM, section 7 of NIST SP 800-38D); gzip is an inverse pair.

`dafny verify dfyconfig.toml` checks everything.

| file | what it holds |
|---|---|
| `Aggregation.dfy` | one `defineAggregation` instance as a state machine: closure functions, sixteen events, runs |
| `AggregationFreshness.dfy` | no source change is lost, and the runs that lose one when a hypothesis fails |
| `AggregationValues.dfy` | fresh means correct; skipped writes and versions; forced refetches |
| `AggregationHalting.dfy` | the instance comes to rest, and the one way it does not |
| `AggregationEngine.dfy` | the closure as a class with the two shared counters; N instances; the activity signal |
| `AggregationGraph.dfy` | aggregations reading aggregations: no cold start deadlocks |
| `AggregationDeadlock.dfy` | exactly when one does, with and without a `get()` before any `refresh()` |
| `AggregationRest.dfy` | the graph comes to rest |
| `SourceWrite.dfy`, `SourceWriteReaction.dfy` | the write-reaction scheduler: runs, and the class with its closure variables |
| `Text.dfy`, `Aad.dfy`, `Crypto.dfy` | code units and UTF-8, the three AAD serializations, field and JSON envelopes |
| `Versioning.dfy`, `BlobCodec.dfy`, `LegacyFallback.dfy`, `RowStore.dfy` | one row: versions, codec, legacy AADs, lazy convergence |
| `RotationPass.dfy`, `RotationMigration.dfy`, `RotationRuns.dfy` | a rotation pass, one row's decision, and rotations as they really run |
| `RotationBatch.dfy`, `RotationRetirement.dfy` | the compare-and-swap batch engine; verification and retirement of the old key |
| `OptimisticLock.dfy` | `mutate` among N clients over one- and two-statement conditional writes |
| `RevalidatedCache.dfy` | the hash-revalidated cache in front of a store |
| `FieldOperators.dfy`, `FieldCompiler.dfy` | the declarative `compute`: field equations, retry loop, stall diagnosis, three phases |

Source fingerprints are numbered so that "never seen before" is "greater"; the code only compares them for
equality. An envelope without data is taken never to be fresh: its version defaults to 0 (core/aggregation.ts:531), and
definitions are taken to count their versions from 1.

## Where the code and its description part

The model follows the code. Each point below has a lemma with a concrete run, or an if-and-only-if with the
condition under which the description holds.

- A debounce that fires while a compute is in flight looks only at the last envelope, so a source that returns
  to an earlier fingerprint is missed (`DebounceSkipLosesIff`, `ReturningFingerprintIsLost`).
  Notifications in the wrong order do the same (`LateNotificationIsLost`), and a cache slot filled late by a load
  that began before a live write hides that write (`LateFillIsInvisible`).
- The answer of a cold verification is stored unconditionally, also over a newer live fingerprint
  (`OverwriteLosesIff`, `OvertakenVerificationIsLost`); and the newest answer is lost when an older compute is
  about to settle (`VerificationLosesIff`, `NewestAnswerIsLost`).
- `refresh()` does not subscribe; a first `get()` behind it can lose a change, and in a graph leave a reader
  without data (`LateSubscriptionLosesIff`, `LateSubscriptionIsLost`, `RefreshDeadlocksIff`,
  `RefreshBeforeGetDeadlocks`).
- A debounce that finds the envelope up to date is silent, which strands a cold reader of a stored aggregation
  that has a missing row upstream (`ColdDeadlockIff`, `LostUpstreamDeadlocks`).
- A skipped write keeps an old envelope version (`SkippedWriteKeepsVersion`, `NeverFreshWhileSkipping`).
- A forced refetch that only queues a rerun can be suppressed (`RefetchHonouredIff`).
- Retries are bounded only if every source row has a content hash (`HaltsIff`, `Storm`).
- `retryAttempt` is not reset by a success, so the budget drains over separate incidents (`FullBudgetIff`,
  `BudgetDrains`).
- The text decoder drops a leading byte order mark, and the encoder replaces unpaired surrogates: such fields
  do not round-trip (`FieldRoundTripIff`).
- The comment at core/legacyFallback.ts:71-75 says only a tag mismatch can throw there; a prefixed blob that
  does not parse throws there too. And a read that fails because its data cannot be migrated may still have
  moved the row (`FallbackIsFirstThatOpens` covers both).
- A fallback read under the previous handle first moves the row within the old key, which can land after the
  row was rotated (`MovesBackIff`, `StaleMoveGoesBack`).
- A row converged by a read is not tagged with the epoch and is never tagged later
  (`ConvergedRowStaysUntagged`); a batch loop that lists untagged rows then never ends (`RotationLoopEndsIff`,
  `ConvergedRowBlocksLoop`).
- A row under a legacy AAD is readable, yet a pass reports it failed (`PassMissesReadableIff`).
- `rotateEpoch` writes unconditionally (`EditSurvivesIff`); the batch engine does not lose edits
  (`BatchIsInvisible`), except of rows without a hash (`UnhashedEditSurvivesIff`).
- Lazy re-saves are unconditional and can undo an optimistic commit (`LinearizableIff`, `LazySaveUndoes`), and
  make a lone single-attempt `mutate` conflict with its own load (`GivesUpAloneIff`), which a hashed row under
  the previous key always does (`ConflictsWithItself`).
- `mutate` caches the transform's result, not the validated value (`RawNextServedIff`), so on a `perKey` store
  the next transform may see a value that was never stored (`LinearizableIff`, `RawValueIsTransformed`).
- A field blocked on a `custom` field through another field is reported as circular (`CircularLabelWrongIff`).

## Model

| member | source | states |
|---|---|---|
| `AggregationFreshness.NoLostChange` | core/aggregation.ts:627-707 | No lost source change: over every orderly run from a fresh session, an instance with nothing in flight, nothing armed, no error and no `get()` on its way agrees with every fingerprint it has observed, and its envelope is no older than any cache slot and no newer than any source |
| `AggregationFreshness.StepKeepsInv` | core/aggregation.ts:627-1215 | Every one of the sixteen events, repeated and newer verification answers included, keeps the invariant behind it: bounded fingerprints, a subscription no older than the cache slots, and a timer, rerun, error or pending `get()` behind every stale envelope |
| `AggregationFreshness.RunKeepsInv` | core/aggregation.ts:627-1215 | The same over every orderly run |
| `AggregationFreshness.DebounceSkipLosesIff` | core/aggregation.ts:644-662 | The debounce callback loses a change exactly when the last envelope looks fresh although the compute in flight has read a fingerprint other than the observed one |
| `AggregationFreshness.ReturningFingerprintIsLost` | core/aggregation.ts:657-659 | A concrete run from a fresh session: a source goes from A to B and back while a compute of B is in flight, and the aggregate stays at B with nothing scheduled |
| `AggregationFreshness.LateNotificationIsLost` | core/aggregation.ts:657-706 | A concrete run from a fresh session: two notifications of one source in the wrong order do the same |
| `AggregationFreshness.LateFillIsInvisible` | core/store.ts:1619-1632 | A concrete run from a fresh session: a full load that fills its cache slot after a live write leaves slot, observed fingerprint and envelope agreeing on the old content, at rest, with the source moved on |
| `AggregationFreshness.OvertakenVerificationIsLost` | core/aggregation.ts:816-844 | A concrete run from a fresh session: the answer of a cold verification arrives after a live write, overwrites the newer fingerprint, and the instance reports fresh on the old data |
| `AggregationFreshness.OverwriteLosesIff` | core/aggregation.ts:803-844 | With nothing in flight, a verification answer loses the change a live write has announced exactly when it puts an older fingerprint over it and the last envelope then looks fresh |
| `AggregationFreshness.VerificationLosesIff` | core/aggregation.ts:803-813 | An answer that meets a settling compute loses a change exactly when it differs from what that compute has read, older or newer, with no rerun or timer behind it |
| `AggregationFreshness.NewestAnswerIsLost` | core/aggregation.ts:1281-1290 | A concrete run from a fresh session where the newest answer is the one lost: the `get()` that asked starts nothing, because an older compute is in flight |
| `AggregationFreshness.LateSubscriptionIsLost` | core/aggregation.ts:678-709 | A concrete run from a fresh session: a first `get()` that arrives while a `refresh()` is in flight subscribes too late, and the change that compute missed is lost |
| `AggregationFreshness.LateSubscriptionLosesIff` | core/aggregation.ts:678-709 | A first `get()` during a compute that has read everything loses a change exactly when some cache slot holds another fingerprint than that compute has read |
| `AggregationValues.StepKeepsHonest` | core/aggregation.ts:1009-1123 | Every event keeps every envelope of the current version equal to the parsed `compute` of the sources at its fingerprints, across save, skipped write, load and settlement |
| `AggregationValues.FreshMeansCorrect` | core/aggregation.ts:721-850 | Freshness soundness over every run: data answered as not stale, with every source observed at a content hash, is the schema-parsed `compute` of the sources at their observed fingerprints |
| `AggregationValues.SaveStoresTheResult` | core/aggregation.ts:1033-1113 | Skipped or not, a save leaves the envelope of this very compute stored: its result, the fingerprints it has read and its fetch time; it changes nothing exactly when all three were stored already; and the success that follows installs it |
| `AggregationValues.ExpectedIs` | core/aggregation.ts:1025-1031 | That result is the schema's reading of what `compute` gives for every source at its fingerprint |
| `AggregationValues.RecomputeCatchesUp` | core/aggregation.ts:931-1123 | From every state a new compute can run to its end with the result of the sources as they are stored and installed, no error and no failures counted, whatever was stored and observed before |
| `AggregationValues.FetchReusesIff` | core/aggregation.ts:1005-1022 | An external is reused exactly within its TTL; otherwise a newer one is fetched and kept |
| `AggregationValues.GetRecomputesIff` | core/aggregation.ts:721-738 | With nothing in flight a `get()` starts a compute exactly when the version differs, some observed source has another fingerprint, or the external was never fetched or too long ago |
| `AggregationValues.DebounceRecomputesIff` | core/aggregation.ts:644-662 | A debounce starts one exactly under the same conditions, or when nothing is installed |
| `AggregationValues.SettlementMeans` | core/aggregation.ts:1138-1216 | A settlement, field by field: envelope, error, failure count, the rerun it starts and the retry it arms |
| `AggregationValues.SkippedWriteKeepsVersion` | core/aggregation.ts:1057-1065 | A compute leaves an envelope of the current version exactly when the stored one has it or the write is not skipped; otherwise it installs the stored one as it is, which is then its own result in all but the version (`SaveStoresTheResult`) |
| `AggregationValues.NeverFreshWhileSkipping` | core/aggregation.ts:721-738 | After a version bump the instance is not fresh at any point of any run in which every save is skipped, however often it recomputes |
| `AggregationValues.RefetchHonouredIff` | core/aggregation.ts:1178-1183 | A `refresh({bypassExternalsTtl})` or `invalidateChannel` at any point of a compute leads to a refetch exactly when nothing is in flight, or that compute had yet to fetch the external and did, or the last envelope is not fresh when it settles, by success or failure |
| `AggregationHalting.NoRetryStorm` | core/aggregation.ts:97-109 | No retry storm: with every source hashed and no outside trigger, any mix of successes, failures, timers and reruns, with externals expiring whenever they like, has at most `Bound` events of the instance's own |
| `AggregationHalting.StepSpends` | core/aggregation.ts:1147-1216 | Every event of the instance's own lowers one measure of armed timers, queued rerun, compute in flight, failure budget and sources out of step with their cache slot |
| `AggregationHalting.StoppedIffQuiet` | core/aggregation.ts:1130-1216 | A run can be continued exactly as long as something is in flight or armed: no compute is ever stuck |
| `AggregationHalting.FirstComputeReached` | core/aggregation.ts:1263-1278 | From a fresh session an ordinary first `get()` installs the empty envelope, and three failures later its compute is in flight with the budget spent: the state the next two rows start from |
| `AggregationHalting.Storm` | core/store.ts:1620-1632 | A source row without a hash makes every read rewrite its cache slot, so a failing first compute restarts itself any number of times with its retry budget long spent |
| `AggregationHalting.HaltsIff` | core/aggregation.ts:699-706 | A first compute with a spent budget comes to rest, whatever happens inside it and whichever externals expire, exactly when every source has a content hash |
| `AggregationEngine.Instance.IsFreshNow` | core/aggregation.ts:721-738 | The loop over the sources decides exactly the freshness test: version, every observed fingerprint, and the external's age |
| `AggregationEngine.Instance.ScheduleDebouncedRecompute` | core/aggregation.ts:627-643 | Arms the debounce, counts it once however often it is re-armed, and leaves the other instances' share of both counters alone |
| `AggregationEngine.Instance.OnDebounceTimer` | core/aggregation.ts:639-663 | The timer callback: disarmed, uncounted, skipped on a fresh last envelope, otherwise a trigger |
| `AggregationEngine.Instance.TriggerRecompute` | core/aggregation.ts:1130-1136 | Single flight: starts and counts a compute, or queues one rerun behind the one in flight |
| `AggregationEngine.Instance.OnSettled` | core/aggregation.ts:1138-1216 | The whole settlement: error and failure count, counters, the suppressed or started rerun, and the bounded retry with `ColdAggregationSourceError` excluded |
| `AggregationEngine.Instance.OnRetryTimer` | core/aggregation.ts:1205-1214 | A retry callback gives its count back and triggers |
| `AggregationEngine.Instance.OnSourceNotified` | core/aggregation.ts:699-706 | A cache notification records the new fingerprint and arms the debounce |
| `AggregationEngine.Instance.Subscribe` | core/aggregation.ts:678-709 | The first subscription records the hash in every source's slot and leaves a source without a slot unobserved |
| `AggregationEngine.Instance.OnEnvelopeRead` | core/aggregation.ts:1263-1278 | A `get()` installs the envelope it read and starts the first compute when there is no data |
| `AggregationEngine.Instance.AnswerGet` | core/aggregation.ts:1281-1299 | A verified `get()` answers stale exactly when the envelope is not fresh, and then a compute is running |
| `AggregationEngine.Instance.OnRefresh` | core/aggregation.ts:1302-1330 | `refresh()` drops an armed debounce with its count, clears the externals when asked, and triggers |
| `AggregationEngine.Instance.OnInvalidated` | core/aggregation.ts:1234-1242 | A channel invalidation clears the external and triggers |
| `AggregationEngine.StepIsCalls` | core/aggregation.ts:627-1333 | Every event of the state machine moves the instance as a sequence of these calls does, so what is proved of runs is proved of the methods |
| `AggregationEngine.CallInto` | core/aggregation.ts:136-166 | One call into one of N instances changes that instance only and keeps the counters equal to the sums over all instances |
| `AggregationEngine.DefineAggregations` | core/aggregation.ts:136-151 | N new instances sharing two zero counters satisfy the counter invariant |
| `AggregationEngine.Interleave` | core/aggregation.ts:164-166 | After any interleaving of calls into N instances, each computes at most once at a time and `isAnyAggregationComputing()` is true exactly when some instance computes or has a timer armed |
| `AggregationEngine.TotalsSignal` | core/aggregation.ts:136-166 | The two sums are positive exactly when some instance is computing or has a debounce or retry armed |
| `AggregationGraph.NoColdDeadlock` | core/aggregation.ts:931-979 | Cold-start deadlock freedom over every orderly run from a fresh session of an acyclic graph in which no missing aggregation reads a stored one over a missing row: once all is quiet and no instance reports a real failure, every aggregation that was asked, and everything upstream of it, has data |
| `AggregationGraph.StepKeepsInv` | core/aggregation.ts:1116-1188 | Every event keeps, for every set of aggregations that read only each other: stored data is over stored data, and whoever was asked and has nothing has a compute, a timer, a real error or an upstream in the same position |
| `AggregationGraph.StepKeepsTidy` | core/aggregation.ts:787-797 | Every event, orderly or not, keeps: a compute has asked what it has read and awaits only computes in flight, and whoever was asked and has data has asked its upstreams or is about to |
| `AggregationGraph.SettleKeepsInv` | core/aggregation.ts:1147-1216 | A settlement, which resumes those awaiting it, keeps the invariant: a cold failure leaves a timer, a rerun or a missing upstream behind |
| `AggregationGraph.LookKeepsInv` | core/aggregation.ts:931-979 | Reading an upstream, which starts it when cold or stale and then fails, awaits or goes on, keeps that invariant |
| `AggregationGraph.SomeComputeCanMove` | core/aggregation.ts:949-965 | No circular await: among the computes in flight the least one awaits nobody and has a step of its own to take |
| `AggregationGraph.AwaitersHear` | core/aggregation.ts:957-965 | Whoever awaits a settling compute awaits it no more: a success lets it go on, a failure is its own unless it has met another before |
| `AggregationGraph.FirstErrorStays` | core/aggregation.ts:931-979 | A compute that has met an error keeps it, saves nothing, and can only fail with it |
| `AggregationGraph.NodeFollowsInstance` | core/aggregation.ts:627-664 | A node of the graph moves its timers and flags as the single instance does |
| `AggregationGraph.SettlementFollowsInstance` | core/aggregation.ts:1138-1216 | The same for a settlement |
| `AggregationDeadlock.LostUpstreamDeadlocks` | core/aggregation.ts:657-659 | For every missing aggregation that reads a stored one over a missing row, an orderly run: the stored recomputes it awaits fail, the row arrives, they are up to date again as they are and publish nothing, and the reader waits for ever |
| `AggregationDeadlock.ColdDeadlockIff` | core/aggregation.ts:931-979 | From a fresh session of an acyclic graph some orderly run ends deadlocked exactly when some missing aggregation reads a stored one that has a missing row somewhere upstream |
| `AggregationDeadlock.NoColdDeadlockIff` | core/aggregation.ts:1116-1188 | Under exactly the opposite condition every orderly run that ends quiet with only cold failures leaves data everywhere that was asked, and upstream of it |
| `AggregationDeadlock.RefreshBeforeGetDeadlocks` | core/aggregation.ts:678-709 | For every missing aggregation that reads a missing one a run: `refresh()` before the first `get()`, with the upstream's compute already in flight, leaves it without data for ever |
| `AggregationDeadlock.RefreshDeadlocksIff` | core/aggregation.ts:1302-1330 | With unrestricted refreshes some run from a fresh session deadlocks exactly when a missing aggregation reads a missing one, or a stored one that has a missing row somewhere upstream |
| `AggregationRest.StepSpends` | core/aggregation.ts:1130-1216 | Every event without outside cause, and without a look that finds an upstream stale, brings in a missing row or lowers one measure of the whole graph: computes, awaited reads, publications, timers and failure budgets |
| `AggregationRest.NoRunForEver` | core/aggregation.ts:97-109 | No graph computes for ever on its own: every infinite run has outside events, or looks that find an upstream stale, for ever |
| `AggregationRest.StopsIffQuiet` | core/aggregation.ts:1130-1216 | A run of a graph can be continued without outside events exactly until everything is quiet: no compute, timer or `get()` is ever stuck |
| `AggregationRest.AlwaysCanRest` | core/aggregation.ts:1130-1216 | From every state of every orderly run some continuation comes to rest, where everybody asked is served or some failure is real |
| `SourceWrite.KeyConservation` | core/onSourceWrite.ts:204-411 | Key conservation over every run: every key written since the last successful call that started after the write and contained it is pending, in flight, queued for the rerun or failed |
| `SourceWrite.OwedKeysProgress` | core/onSourceWrite.ts:223-258 | Every owed key has a live continuation or is reported as exhausted, until the reaction is torn down |
| `SourceWrite.LedgerMeaning` | core/onSourceWrite.ts:302-367 | The step-by-step ledger used in the proof says the same as the definition of an owed key over the whole log |
| `SourceWrite.StepKeepsInv` | core/onSourceWrite.ts:204-521 | Every event keeps isolation, the bookkeeping between failed keys, error, attempt and timer, and a continuation behind everything that waits |
| `SourceWrite.RunKeepsInv` | core/onSourceWrite.ts:204-521 | The same over every run |
| `SourceWrite.IdentityIsolation` | core/onSourceWrite.ts:443-521 | Identity isolation over every run, including A to B to A: everything held belongs to the subscribed identity, nothing is held without one, and no call ever starts with another identity's keys |
| `SourceWrite.SuccessClearsItsOwnError` | core/onSourceWrite.ts:324-328 | A settlement clears the error only when it succeeded and its batch contained every key the error reports |
| `SourceWrite.FoldKeepsEveryKey` | core/onSourceWrite.ts:204-213 | Folding sends on exactly the given keys and every failed one, leaves nothing failed and no retry armed, starts the count anew exactly when failed keys were taken over, and changes nothing else |
| `SourceWrite.FailLeavesAContinuation` | core/onSourceWrite.ts:223-258 | A recorded failure leaves its batch held, with an error that names every failed key and this attempt, and a retry armed, no sooner than the one before and within the cap, exactly unless the budget is spent |
| `SourceWrite.FailureStreak` | core/onSourceWrite.ts:223-249 | Without new writes, flushes or switches at most as many calls fail in a row as the budget has left, the fresh budget of an armed debounce included, and while any is left something is running or armed |
| `SourceWrite.FailureSpendsBudget` | core/onSourceWrite.ts:223-258 | Every failure takes one from the budget, and nothing else does unless a debounce merges with what is running |
| `SourceWrite.StreakAttained` | core/onSourceWrite.ts:223-249 | That bound is exact: from every state some streak has that many failures |
| `SourceWrite.FullBudgetIff` | core/onSourceWrite.ts:209-212 | A call has the whole budget exactly when no earlier failure is still counted: success does not reset the count |
| `SourceWrite.BudgetDrains` | core/onSourceWrite.ts:328-358 | A concrete family of runs: failures that are each followed by a successful retry drain the budget for good |
| `SourceWrite.StreakDelays` | core/onSourceWrite.ts:248-248 | Backoff delays are nondecreasing along a streak of failing retries and never above the cap |
| `SourceWrite.FlushHandsOver` | core/onSourceWrite.ts:402-411 | After a `flush()` or a debounce nothing is pending or failed, no timer is armed, everything that was held is in the running call or its rerun, and with nothing running before a call with exactly the waiting keys starts, if there are any |
| `SourceWrite.WriteIsTaken` | core/onSourceWrite.ts:511-520 | A write for the subscribed identity is pending behind an armed debounce, or handed over at once without one |
| `SourceWrite.WriteIsIgnored` | core/onSourceWrite.ts:511-520 | A write without a subscription, or after teardown, changes nothing |
| `SourceWrite.RetryDrainsTheFailed` | core/onSourceWrite.ts:249-257 | A retry hands over exactly the failed keys, its attempt still counted, and leaves what is pending to the debounce |
| `SourceWrite.SettlementMeans` | core/onSourceWrite.ts:308-366 | A settlement by identity, outcome and rerun: what is recorded, what is discarded, and the call that starts next |
| `SourceWrite.SwitchMeans` | core/onSourceWrite.ts:443-521 | A switch leaves nothing of the old identity and never touches the call in flight; subscribing again changes nothing |
| `SourceWrite.TornDownStaysQuiet` | core/onSourceWrite.ts:536-545 | After teardown nothing is armed, and over every continuation no call starts but the rerun that was already queued |
| `SourceWrite.BackoffDoubles` | core/onSourceWrite.ts:248-248 | Each delay is twice the one before until the cap, and the cap from then on |
| `SourceWriteReaction.Reaction.StartOrQueue` | core/onSourceWrite.ts:302-312 | Single flight: starts the call under the subscribed identity, or merges the keys into the rerun |
| `SourceWriteReaction.Reaction.Dispatch` | core/onSourceWrite.ts:369-375 | Takes what is pending and what failed, and starts or queues it |
| `SourceWriteReaction.Reaction.OnWrite` | core/onSourceWrite.ts:511-520 | A write adds its keys and arms the debounce or dispatches at once |
| `SourceWriteReaction.Reaction.OnDebounceTimer` | core/onSourceWrite.ts:377-387 | The debounce dispatches |
| `SourceWriteReaction.Reaction.OnRetryTimer` | core/onSourceWrite.ts:249-257 | A retry drains exactly the failed keys |
| `SourceWriteReaction.Reaction.OnSettled` | core/onSourceWrite.ts:308-366 | A settlement is recorded only for the identity it was dispatched under, and then the queued rerun starts with what failed |
| `SourceWriteReaction.Reaction.FlushNow` | core/onSourceWrite.ts:402-411 | Cancels the debounce and dispatches: nothing waits afterwards, and what waited is running or queued to run next |
| `SourceWriteReaction.Reaction.EnsureSubscribed` | core/onSourceWrite.ts:443-521 | A switch drops exactly the old identity's pending, rerun and failed keys, error, count and timers |
| `SourceWriteReaction.Reaction.Unsubscribe` | core/onSourceWrite.ts:536-545 | Teardown cancels both timers and stops further writes |
| `SourceWriteReaction.Interleave` | core/onSourceWrite.ts:302-545 | Any sequence of notifications, timers, settlements, flushes, identity changes and teardown on one object: every owed key is held, and everything held and every call started belongs to the identity subscribed at the time |
| `Text.TwinLooksTheSame` | core/crypto.ts:34-35 | A string with an unpaired surrogate or U+FFFD has a twin with the same UTF-8 bytes |
| `Aad.QuoteReadsBack` | core/crypto.ts:57-57 | Every JSON-quoted string reads back as itself, whatever follows it |
| `Aad.PlainIsKept` | core/crypto.ts:57-57 | Text without controls, quotes, backslashes and surrogates is quoted as it is |
| `Aad.V2Injective` | core/crypto.ts:55-59 | AAD-v2 bytes are equal exactly for the same user, table, field and row, for arbitrary strings |
| `Aad.V3Injective` | core/crypto.ts:62-66 | AAD-v3 bytes are equal exactly for the same slot and epoch |
| `Aad.V2NeverV3` | core/crypto.ts:55-66 | No AAD-v2 is ever an AAD-v3 |
| `Aad.TupleReadsBack` | core/crypto.ts:55-66 | A JSON reader finds user, table, field and row in a tuple, in this order |
| `Aad.SerializationsAreTuples` | core/crypto.ts:55-66 | AAD-v2 is that tuple, and AAD-v3 adds the epoch, which reads back as a number |
| `Aad.V1DeterminesIff` | core/crypto.ts:49-52 | AAD-v1 bytes identify a slot exactly when no component contains the separator and the join has no unpaired surrogate and no U+FFFD |
| `Aad.JoinReadsBack` | core/crypto.ts:49-52 | Cutting a separator-free AAD-v1 at its pipes gives user, table, field and row, in this order |
| `Aad.MovedBoundary` | core/crypto.ts:49-52 | For every slot with a separator inside a component, another slot with the same join |
| `Crypto.OpensOnlyInPlace` | core/crypto.ts:93-146 | However an envelope is relabelled as v3 to v6, it opens exactly for the key, nonce, slot, version and epoch it was sealed for, and then gives what was sealed |
| `Crypto.LegacyLabelOpensIff` | core/crypto.ts:73-86 | Relabelled as v1 or v2, an envelope opens in some slot exactly for its own key and nonce, under the label that packs as it does, if its own slot names carry at least three separators |
| `Crypto.FieldRoundTripIff` | core/crypto.ts:93-146 | A text field decrypts to the original exactly when that has no unpaired surrogate and no leading byte order mark |
| `Crypto.JsonRoundTrip` | core/crypto.ts:152-188 | A JSON value decrypts in its slot to itself, with or without an epoch |
| `Crypto.CompressedIff` | core/crypto.ts:93-146 | A text field is compressed exactly when it takes more than 64 bytes; JSON always is |
| `Versioning.RunMigrations` | core/versioning.ts:46-73 | The loop gives the chain of migrators from the given version to the current one, or the first error on the way; which migrator runs when is the next three rows |
| `Versioning.EachMigratorInTurn` | core/versioning.ts:61-70 | From version v to v + 1 exactly `migrators[v - 1]` runs, once |
| `Versioning.ShapesAreReached` | core/versioning.ts:46-73 | For any family of shapes that each migrator takes to the next, data of any old shape comes out in the current shape, without error |
| `Versioning.WhereNoMigratorRuns` | core/versioning.ts:46-70 | Current data is left alone, newer data is refused, and so is a version without a migrator |
| `Versioning.ChainsCompose` | core/versioning.ts:61-70 | Migrating v to w and later w to u is migrating v to u, errors included |
| `Versioning.AuthenticatedVersionWins` | core/versioning.ts:31-40 | The version inside the payload counts, whatever the database column says |
| `Versioning.UnversionedIsTakenAsIs` | core/versioning.ts:31-40 | A payload without an envelope is taken as it is, at the version of the database column |
| `BlobCodec.EncodedDecodes` | core/blobCodec.ts:30-94 | What was encoded at any version decodes in its slot to the same data, migrated, and asks for a re-save exactly when a migrator ran |
| `BlobCodec.EncodedRecordIs` | core/blobCodec.ts:30-58 | An encoded row carries its version, opens in its own slot to data and version, and has the digest of that envelope exactly when a hash was asked for |
| `BlobCodec.UnversionedRow` | core/blobCodec.ts:64-94 | A row from before envelopes is migrated from the version in its column |
| `BlobCodec.MalformedIff` | core/blobCodec.ts:64-94 | A decode is malformed exactly for a string that is not an envelope or one of version zero |
| `BlobCodec.EncodedStaysInPlace` | core/blobCodec.ts:64-67 | Under another key or in another slot nothing decodes |
| `BlobCodec.MigrationKeepsPlaintext` | core/legacyMigration.ts:31-72 | Moving a row to the canonical AAD changes nothing a reader sees, hash included, except that its serialization no longer needs rewriting |
| `LegacyFallback.DecodeWithLegacyFallback` | core/legacyFallback.ts:41-99 | The loop returns and writes what the fallback specification says, and writes at most once |
| `LegacyFallback.FallbackIsFirstThatOpens` | core/legacyFallback.ts:53-98 | When the canonical AAD fails, the answer is what the first legacy AAD that opens the row gives and the row is moved; if none does, the canonical error and no write |
| `LegacyFallback.TryCandidates` | core/legacyFallback.ts:137-156 | The loop over the candidates stops at the first success, remembers the first error and leaves the row as the reads on the way do |
| `LegacyFallback.Converge` | core/legacyFallback.ts:157-168 | A row read by another candidate is re-encrypted for the current handle, hashed exactly if it was (`ReadKeepsHash`) |
| `LegacyFallback.DecodeWithCandidates` | core/legacyFallback.ts:124-172 | The whole read equals its specification, and a row that decodes for the first candidate is not written |
| `LegacyFallback.ReadIsFirstThatReads` | core/legacyFallback.ts:124-172 | The first candidate that reads the row decides the data; when none does the error is the first candidate's |
| `LegacyFallback.ReadRowOpens` | core/legacyFallback.ts:157-169 | After any successful read the row decodes for the current handle under its canonical AAD to the data that was read |
| `LegacyFallback.ReadKeepsHash` | core/legacyFallback.ts:157-168 | A successful read leaves a hashed row with the digest of the envelope then inside it, under the handle it is then encrypted for, and an unhashed row unhashed |
| `LegacyFallback.DecodableIsReadAsIs` | core/legacyFallback.ts:44-52 | A row that decodes for the first candidate is returned and left as it is |
| `RowStore.LoadRow` | core/rowStore.ts:75-111 | A load returns the read, the hash the row had when fetched, and whether it wants a re-save |
| `RowStore.SaveRow` | core/rowStore.ts:113-130 | A save writes exactly the encoded record |
| `RowStore.LoadAndConverge` | core/rowStore.ts:96-110 | Lazy convergence: a successful load and its re-save leave a row that decodes to the loaded data with nothing left to write back, whatever AAD, envelope version or schema version it had |
| `RowStore.LoadManyTimes` | core/rowStore.ts:75-111 | Any number of later loads return the same data, ask for nothing and write nothing |
| `RotationMigration.ReencryptedHolds` | core/rotationMigration.ts:39-109 | A row is left alone exactly when it decodes under the new handle, fails exactly when under neither, and otherwise becomes a row at the new key, up to date and tagged with the epoch, that holds what it held |
| `RotationPass.RotateEpoch` | core/store.ts:953-994 | One pass over the listed rows changes each row by the decision about it and counts it once |
| `RotationPass.TalliesMean` | core/store.ts:953-994 | The counters are the number of rows decided each way, and the failed keys those of exactly the rows whose decision fails |
| `RotationMigration.CompletePass` | core/store.ts:953-994 | A pass keeps what every row holds, reports no failure exactly when it leaves every row at the new key, and then a further pass migrates nothing |
| `RotationPass.VerifyRotatedRows` | core/store.ts:996-1044 | The counts are the number of rows that decode under the new handle, and of those that decode only under the old; the first is that of the listing exactly when every row is at the new key; the failed keys are exactly those that decode under neither |
| `RotationRuns.RotationKeepsData` | core/legacyFallback.ts:124-172 | Rotation preserves data over whole runs, row by row: any passes cut anywhere, fallback reads, moves and re-saves, each deciding from any record the row has ever been, leave a row that can be read reading as its original data, whatever the other rows are |
| `RotationRuns.WriteKeepsData` | core/legacyFallback.ts:137-169 | Each kind of write keeps what a reader gets, and only the move to the old handle's own slot leaves the row under the old key |
| `RotationRuns.WritesIff` | core/store.ts:953-994 | A pass writes exactly a row that decodes with the old handle and not with the new one, and a load can re-save exactly what it can read |
| `RotationRuns.ReadsWriteThese` | core/legacyFallback.ts:124-172 | A read with the new and the previous handle leaves exactly the row one of these kinds of write names, or the row it found |
| `RotationRuns.MovesBackIff` | core/legacyFallback.ts:84-84 | A write takes a row from the new key back to the old one exactly when it is that move |
| `RotationRuns.RotatedRowsStay` | core/store.ts:953-994 | Without `legacyAAD` a row that some pass has rotated is under the new key at the end, whatever else runs |
| `RotationRuns.StaleMoveGoesBack` | core/legacyFallback.ts:84-84 | With `legacyAAD`, a reader that fetched a row before it converged can put it back under the old key afterwards |
| `RotationRuns.EditSurvivesIff` | core/store.ts:982-987 | The unconditional write of a pass keeps a concurrent edit exactly when it had nothing to write or the edit changed nothing |
| `RotationRuns.ConvergedRowStaysUntagged` | core/legacyFallback.ts:157-168 | A row converged by a read carries no epoch, and every pass then takes it for migrated |
| `RotationRuns.PassMissesReadableIff` | core/store.ts:966-978 | A pass fails on a row a reader can still read exactly when the row decodes in neither handle's canonical slot, but in the first legacy one that opens it for one of them |
| `RotationBatch.MigrateRotationBatch` | core/rotationMigration.ts:156-195 | The batch loop, with others writing before each save, leaves the table and counters its specification says |
| `RotationBatch.EveryListedRowIsCounted` | core/rotationMigration.ts:188-194 | Migrated, already migrated, conflicted and failed rows add up to the rows processed |
| `RotationBatch.CountersMean` | core/rotationMigration.ts:156-195 | Each of the four counts its own kind of row |
| `RotationBatch.FateMeans` | core/rotationMigration.ts:165-187 | A row is decided from the listed record, and saved exactly when it still has the hash it was listed with |
| `RotationBatch.SavesLoseNoEdit` | core/rotationMigration.ts:117-133 | With content-hashed rows a save that goes through replaces a row by one that holds the same, and a row that conflicts, fails or needs nothing is left exactly as found |
| `RotationBatch.BatchIsInvisible` | core/rotationMigration.ts:156-195 | A whole batch under any concurrent edits leaves every content-hashed row holding exactly what those edits alone would have left, whatever the other rows are |
| `RotationBatch.UnhashedEditSurvivesIff` | core/rotationMigration.ts:180-185 | Without a hash the guard compares nothing: a concurrent edit survives exactly when it made no difference |
| `RotationBatch.MigrateUntilDone` | core/rotationMigration.ts:146-155 | Looping until nothing is processed ends when every due row can be migrated, with nothing due and every row as one pass would leave it |
| `RotationBatch.LoopEndsIff` | core/rotationMigration.ts:146-155 | Undisturbed, the loop ends exactly when no due row fails or is taken for migrated |
| `RotationBatch.RotationLoopEndsIff` | core/rotationMigration.ts:146-155 | The loop of a rotation, undisturbed, ends exactly when every untagged row can be read and still needs the old handle |
| `RotationBatch.ConvergedRowBlocksLoop` | core/legacyFallback.ts:157-168 | One row converged by a read keeps that loop going for ever |
| `RotationRetirement.VerifyRowsDecryptAtEpoch` | core/rotationRetirement.ts:67-103 | One page: verified and failing rows of exactly the rows after the given key, and the key to go on from |
| `RotationRetirement.PageIs` | core/rotationRetirement.ts:67-103 | A page is as long as the limit unless the listing ends, and goes on where the last one stopped |
| `RotationRetirement.FailingKeys` | core/rotationRetirement.ts:67-103 | The reported failures are the keys of exactly the rows that do not decode |
| `RotationRetirement.VerifyAll` | core/rotationRetirement.ts:33-49 | For every positive page size the loop over pages ends having visited every row exactly once |
| `RotationRetirement.RetirementIsSound` | core/rotationRetirement.ts:133-144 | For any tests of claiming and decoding: counting what is left and verifying the rest says eligible exactly when every row of the table claims the new epoch and decodes, and gives unmigrated rows as the reason exactly when some row does not claim it |
| `RotationRetirement.OldKeyMayGo` | core/rotationRetirement.ts:133-144 | The gate of a rotation says eligible exactly when every row is tagged and decodes under the new handle, and then every row reads the same with the old handle replaced by any other: dropping the old key loses nothing |
| `RotationRetirement.VerifyAndCheck` | core/rotationRetirement.ts:33-49 | Counting, paging through everything else and asking the gate, for every page size: eligible exactly when every row is tagged and decodes under the new handle, and then every row reads the same under any previous handle |
| `OptimisticLock.Table.PutIfMatchStatements` | adapters/storage/supabaseStorageAdapter.ts:168-229 | Insert, then guarded update: the two statements answer and write what one atomic conditional write does at the last of them, and a row deleted between them is a conflict that stays deleted |
| `OptimisticLock.Mutate` | core/store.ts:797-843 | One `mutate` under interference, through a cache: a success applies the transform and the schema to exactly what the others left, a failure leaves the row to them, and attempts stay within `retryOnConflict` |
| `OptimisticLock.MutateIsLinearizable` | core/store.ts:797-843 | Any number of interleaved clients on any number of caches: on an up-to-date row, when the store is `perUser` or the schema changes no value it accepts, the stored value is the fold of exactly the successful transforms in commit order |
| `OptimisticLock.OnlyCommitsWrite` | core/rowStore.ts:143-160 | A step that does not commit leaves an up-to-date row alone, and a commit ends its call, so a failed `mutate` has changed nothing |
| `OptimisticLock.AttemptsWithinBudget` | core/store.ts:1471-1508 | No call reads, and so tries to write, more often than `retryOnConflict` allows |
| `OptimisticLock.AttemptsAreAsAsked` | core/store.ts:805-805 | One attempt unless more are asked for, and then exactly as many |
| `OptimisticLock.LinearizableIff` | core/rowStore.ts:102-109 | `mutate` is linearizable exactly when the row needs no lazy upgrade and the cache is as good as the row (`perUser`, or a schema that changes no value it accepts); apart from that only on rows the schema rejects, or under a schema of one value |
| `OptimisticLock.LazySaveUndoes` | core/rowStore.ts:102-109 | From every row that needs a lazy upgrade, a run in which the unconditional re-save puts the old value over a commit |
| `OptimisticLock.ResavedOnce` | core/rowStore.ts:102-109 | Each such re-save runs once, whatever the row has become: as read on a `perUser` store, validated on a `perKey` store, not at all where the schema rejects it |
| `OptimisticLock.RawValueIsTransformed` | core/store.ts:816-825 | On a `perKey` store whose schema changes some value, a run in which a transform is applied to a raw cached value that was never stored |
| `OptimisticLock.ConflictsWithItself` | core/store.ts:797-825 | During a rotation the load rewrites a hashed old-key row and then hands over its old hash, so a lone `mutate` with one attempt always conflicts with itself |
| `OptimisticLock.GivesUpAloneIff` | core/rowStore.ts:96-110 | With nobody else around, a single-attempt `mutate` whose transform the schema accepts can give up with a conflict exactly when the row needs a lazy upgrade |
| `RevalidatedCache.CacheIsTransparent` | core/store.ts:1611-1633 | Over every run of set, mutate, createMany, loads and foreign writes, a load answers what the full load would, given transforms whose results the schema leaves unchanged |
| `RevalidatedCache.FullAnswerIs` | core/store.ts:1611-1633 | The full load it is compared with: the schema's reading of the stored value at the current version, or of the empty value |
| `RevalidatedCache.SetIsLoaded` | core/store.ts:781-796 | After `set` the row, the cache and the next load have the validated value, other keys nothing new; a rejected value changes nothing |
| `RevalidatedCache.MutateStores` | core/store.ts:826-840 | After a `mutate` the row has the validated result of the transform on what was loaded, written exactly unless it was stored so already |
| `RevalidatedCache.MutateLockedStores` | core/store.ts:797-825 | The same for one with an optimistic lock, which always writes |
| `RevalidatedCache.CreateManyIsLoaded` | core/store.ts:844-888 | A batch of valid values for distinct absent keys is stored, cached and loaded entry by entry; any other batch changes nothing |
| `RevalidatedCache.LoadFillsTheSlot` | core/store.ts:1619-1632 | After a load of a hashed row the next is served from the cache |
| `RevalidatedCache.ForeignWritesAreSeen` | core/store.ts:1611-1633 | What another device writes or deletes is what the next load answers |
| `RevalidatedCache.StepKeepsSound` | core/store.ts:781-888 | Every operation keeps every slot answering as any row with its hash would |
| `RevalidatedCache.RawNextServedIff` | core/store.ts:816-837 | After a `mutate` the cached value is the full load's answer exactly when the schema leaves it unchanged or the store is `perUser` |
| `RevalidatedCache.SkippedWriteChangesNothing` | core/store.ts:831-835 | A hash-equal write is skipped only when it would store exactly what is stored |
| `RevalidatedCache.CachedStore.LoadInternal` | core/store.ts:1619-1632 | A slot is served only on a matching server hash; otherwise the full load refreshes it |
| `RevalidatedCache.CachedStore.SetValue` | core/store.ts:781-796 | Validates, saves, caches the validated value and bumps the range counter |
| `RevalidatedCache.CachedStore.MutateValue` | core/store.ts:826-840 | Loads, transforms, validates, skips a hash-equal write, and otherwise saves the validated value and caches the raw one |
| `RevalidatedCache.CachedStore.CreateManyValues` | core/store.ts:844-888 | Creates all entries or none, one slot each, one bump for the batch |
| `FieldOperators.EvalMonotone` | aggregate/compile.ts:163-172 | An attempt that ended ends the same way when more fields are computed |
| `FieldOperators.EvalIsARun` | aggregate/compile.ts:163-189 | An attempt is the run of the expression on the fields that are there: it returns, raises, or stops at a field still to come |
| `FieldOperators.Pass` | aggregate/compile.ts:173-189 | One pass computes what resolves, in place, and otherwise records what blocks each field on the fields there were |
| `FieldOperators.ResolveExprs` | aggregate/compile.ts:160-220 | The retry loop ends, succeeds exactly when the fields can be computed in some order, and otherwise reports the error or what blocks every pending field |
| `FieldOperators.DeclarationOrderDoesNotMatter` | aggregate/compile.ts:160-220 | Every resolved field equals its expression in the final record, the record does not depend on the order, and it is the unique solution of the field equations |
| `FieldOperators.StallMeansCycle` | aggregate/compile.ts:190-217 | Without `custom` fields a stall is a real dependency cycle below every pending field |
| `FieldOperators.WaitsOnOneOfTwo` | aggregate/compile.ts:190-203 | A stalled field waits on a cycle or on a `custom` field, never on both |
| `FieldOperators.CircularLabelWrongIff` | aggregate/compile.ts:198-200 | The circular label is wrong exactly for the fields that wait on a `custom` field through other fields |
| `FieldOperators.TransitiveCustomCalledCircular` | aggregate/compile.ts:87-92 | A concrete record where a field without any cycle is called circular |
| `FieldCompiler.SumRows` | aggregate/compile.ts:114-138 | The loop gives the total over the matching rows, which exists exactly when every matching row gives a finite number; what the total is, the next four rows fix |
| `FieldCompiler.TotalOfOne` | aggregate/compile.ts:114-138 | No rows come to zero, a matching row to its own term, another row to zero |
| `FieldCompiler.TotalSplits` | aggregate/compile.ts:114-138 | The sum over rows in two parts is the sum of the sums |
| `FieldCompiler.OneMoreRow` | aggregate/compile.ts:112-138 | Of the operators: one more row adds its own member, or what the function makes of it, to what the rows before come to |
| `FieldCompiler.EachConditionCounts` | aggregate/compile.ts:42-45 | An empty `where` lets every row through, and each further condition only the rows with that member |
| `FieldCompiler.TotalOfPermutation` | aggregate/compile.ts:114-127 | The order of the rows does not matter to a sum |
| `FieldCompiler.LastRowDecides` | aggregate/compile.ts:139-149 | A delta is the member of the last row, whatever comes before it, and throws without a row |
| `FieldCompiler.ComputeAllDirect` | aggregate/compile.ts:112-158 | Phase 1 gives every direct field its value from the sources, or throws exactly when one of them has none |
| `FieldCompiler.ComputeCustoms` | aggregate/compile.ts:222-226 | Phase 3 runs the custom fields in order, each on everything before it |
| `FieldCompiler.CustomSeesWhatIsBefore` | aggregate/compile.ts:222-226 | Each custom field is what its function makes of exactly the fields before it, earlier customs included |
| `FieldCompiler.CustomsThrowOnlyWhere` | aggregate/compile.ts:222-226 | They fail only where one of the functions throws on exactly those fields |
| `FieldCompiler.KindKeepsOrder` | aggregate/compile.ts:104-111 | Within each phase the fields keep their declaration order |
| `FieldCompiler.Compute` | aggregate/compile.ts:104-229 | The compiled function gives a record exactly when the three phases have one to give, and every operator's meaning holds in that record |

## Left out

- Real cryptography, key derivation, base64, randomness (nonces are parameters), gzip and JSON beyond string tuples and naturals.
- The delegate variants of core/crypto.ts: they are the same functions over an injected seal and open.
- Zod: a schema is a partial function on values, idempotent where that matters; definition-time guardrails are not modelled.
- Wall-clock time: an external's age is a flag that may change at any moment; delays appear only in the backoff bounds.
- Microtask gaps inside one settlement, and notifications to React or to activity listeners.
- Storage that fails on a lazy write-back or on saving an envelope; a failing load or save inside a compute is an ordinary failure.
- Identity switches inside an aggregation (its two fail-open checks and re-subscription); switching is modelled for the write reaction.
- Other devices writing an aggregation's own envelope row, and adapters without hash reads.
- Reads of one envelope row shared by overlapping `get()` calls: in the graph an upstream read is one atomic step.
- In the graph, a cold verification that fails: a first `get()` on stored data asks every upstream, in any order and at any later moment; asking one that has been heard of already is a call anybody could make.
- The moment between a full load and the cache write behind it: a read is one atomic step, and a slot that is filled late appears as a late notification.
- Several externals per aggregation: the model has at most one.
- The wait inside `flush()` for the calls in flight, and what the handler does.
- Concurrent calls around a plain (not optimistically locked) `mutate`, which overwrites whatever is there.
- `many` stores with plaintext columns; their rotation and fallback are the same engine over other rows.
- JavaScript details of an `expr`: catching the not-ready signal, prototype properties, symbols; a well-behaved expression reads finitely often.
- Floating-point rounding in sums: they are over the reals.
- React bindings, key providers, native modules, the worker proxy, the rest of the Supabase adapter, SQL building, configuration, labels, errors and examples: thin wrappers or platform calls that would add only easy members.
- AggregationFreshness.NoLostChange: holds for orderly environments only (fingerprints that do not return, notifications in order, no verification answer older than what is observed nor newer with nothing looking again, no first `get()` during a compute), because the code loses changes otherwise, as the runs show and the if-and-only-ifs beside them make exact, at the settlement or timer that decides it.
- AggregationHalting.NoRetryStorm: asks for hashed sources, because without one the code does not halt (`Storm`).
- AggregationGraph.NoColdDeadlock: asks for a `get()` before any `refresh()`, and that no missing aggregation reads a stored one over a missing row, because each is needed: `ColdDeadlockIff` and `RefreshDeadlocksIff` are exact.
- AggregationRest.NoRunForEver: counts a look that finds an upstream stale as an outside event, because values are forgotten in the graph, and with them what makes an envelope stale.
- OptimisticLock.Mutate: is stated for an up-to-date row and a sound cache, with others that write rows as they are written now; old rows and late re-saves are in the state machine. No operation of these stores deletes a row, so only `PutIfMatchStatements` covers a deletion.
- OptimisticLock.MutateIsLinearizable: asks for an up-to-date row and a store that is `perUser` or whose schema changes no value it accepts, because the code loses or misapplies a transform otherwise (`LinearizableIff`); a `mutate` that skips its write is on stores without the conditional write, in `RevalidatedCache`.
- RevalidatedCache.CacheIsTransparent: asks transforms on `perKey` stores for values the schema leaves unchanged, because the code serves the raw value otherwise (`RawNextServedIff`).
- AggregationValues.FreshMeansCorrect: starts from a stored envelope that is what `compute` made of its fingerprints, because a session cannot know how a row came to be, and asks for hashed sources, because a missing hash says nothing about content.
