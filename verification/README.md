# Verified models of the data agent's protocols and pipelines

A Dafny model of the parts of the repository whose behaviour is hardest to see by reading
them, with proofs. `dafny verify dfyconfig.toml` checks everything.

## What is modelled

Each file is one component, named after what it does.

* **StreamHandoff**, **StreamHandoffLaws**, **StreamEndings**, **StreamProgress** – the
  hand-off in `ResourceBoundedAgentGraph.astream`: a producer Task that owns the deadline, the
  lease and the inner stream, a queue of capacity one, and the async generator the caller iterates.
  One step is the code between two awaits; the waiter futures of the queue are modelled, so that
  lost wakeups and deadlocks can be stated. How a run ends is told from its events alone.
* **AgentLeases**, **AgentLeaseLaws** – the two Lua scripts over the global and the per-user
  sorted sets, with lazy purging, whole-key expiry and the polling loop of `acquire`. `LeaseStore`
  is the mutable store; its methods are proved against functions, about which the laws over all
  runs are proved.
* **RedisRecovery**, **AsyncRecovery** – single-flight reconnecting with jittered backoff: the
  object with its locked sections, and any number of threads that interleave them. The asyncio
  variant separately.
* **RunBudgets**, **FieldJoins**, **CacheKeys**, **HexTexts**, **AnswerCache**, **AnswerOrigins**,
  **AnswerProgress** – the ledger that the branches of a run share, texts joined by separators, the
  cache keys made of them, and the admission of answers to the cache on the ledgers' evidence
  alone, compared with a diary of what the graph returned.
* **Digits**, **Decimals**, **NumberText**, **Numerals**, **LongDivision**, **FileStatistics**,
  **NumeralColumns**, **StatisticsLaws**, **StatisticsTables**, **StatisticsResults** – exact decimal
  addition at precision 80, the grammar of numerals and their values, canonical printing and its
  language, the independent printer by long division, the one-pass fold over a table with the
  browser's validator, and the way of a result from the service to the browser.
* **UploadBatches**, **ManagedFiles**, **ManagedFileLaws**, **ManagedFileRetention**,
  **ManagedFileProgress** – validating a batch of uploads; metadata rows and stored bytes across
  uploads, deletions, expiry, failures of every single step and crashes, in any number of concurrent
  sessions; what holds in every run, how long a file is kept, and how sessions end.
* **Archives** – the online check of a recovery archive, and extraction.
* **RateLimits**, **RateLimitLaws**, **RateLimitRequests** – the fixed-window limiter, with reading
  the clock, incrementing and setting the time to live as separate steps.
* **Collapsing**, **ChatMessages**, **MessageViews**, **ViewKeys**, **ToolResponses** – folding a
  thread of messages into views, their keys, and making up responses for open tool calls.
* **Playback**, **PlaybackEndings** – the audio callback that re-slices queued chunks, and whole
  playbacks.
* **Downloads**, **ColumnLetters**, **PilotCosts** – the download controller of the browser,
  spreadsheet column letters, and the cost ceiling of the model pilot.

Objects whose methods update them are classes (`LeaseStore`, `RedisRecoveryState`, `RunBudget`,
`Redis`, `Player`, `StatisticsDownloadController`); loops are methods with invariants. Protocols
between concurrent parties are transition systems: a state, `Enabled`, `Apply`, and statements
about every run.

## What came out differently than one might expect

These are facts about the code as it is. Each is shown by a run or an input, and beside it stands
the condition under which exactly the intended property holds.

* An inner stream that absorbs the consumer's cancellation and yields again leaves `astream`
  deadlocked until the deadline of the run: the producer waits on a full queue while the consumer
  waits for the producer (`StreamHandoffLaws.SwallowedCancelDeadlocks`,
  `StreamHandoffLaws.DeadlockLastsUntilDeadline`). From a reachable state a deadlock is possible
  without a further swallow if and only if the consumer's cancel has been lost
  (`StreamHandoffLaws.DeadlockAheadIff`), and it is lost only by a swallow while the inner stream
  is pulled (`StreamHandoffLaws.CancelIsLostIff`); a swallowed expiry of the deadline does no
  harm.
* A probe that ends with an error outside `_RECOVERABLE_ERRORS` leaves the claim flag of
  `RedisRecoveryState` set for good (`RedisRecovery.CrashLocksOut`): reconnecting is possible if
  and only if that has not happened (`RedisRecovery.ReconnectIffNoCrash`). The asyncio variant has
  no such flag, but any two event loops can discard each other's good client
  (`AsyncRecovery.TwoLoopsDiscard`); it is safe if and only if one loop at most uses it
  (`AsyncRecovery.SingleFlightIffOneLoop`).
* Settings with line breaks can collide in the cache key (`CacheKeys.LineBreaksConfuseSettings`).
  They do if and only if the name of a field, at the start of a line, occurs in a setting next to
  that field (`CacheKeys.SharesKeyIff`); a query with the line `query:` shares its key with
  another query under another policy (`CacheKeys.SharesKeyWithAnyIff`). Under one configuration
  tenants and queries never share a key (`CacheKeys.KeySeparatesTenantsAndQueries`).
* If the removal of a written file fails while an upload is undone, that file and all the later
  ones stay (`ManagedFileLaws.FailedUploadMayLeaveAll`); no file stays if and only if no removal
  failed (`ManagedFileLaws.LeftIffARemovalFailed`).
* The limit holds for the increments carried out before the end of their window. A request that
  increments later may find the counter expired and create it again
  (`RateLimitLaws.StragglersEscape`), and any number of such requests can be allowed at one
  instant (`RateLimitLaws.LateOnesPileUp`). A window exceeds its limit if and only if more than
  the limit were carried out and its counter was created more than once
  (`RateLimitLaws.OverLimitIffCreatedAgain`).
* The end of a playback may be announced while the last chunk is still queued, because the queue
  is looked at before `stopped` (`Playback.LastChunkIsMissed`). It is if and only if samples
  arrive between the two looks and the generator has stopped by the second
  (`Playback.EarlyIffSamplesBetweenLooks`, `Playback.EndMayComeEarlyIff`).
* Two views of a thread can get the same key, one from the id of its message and one made up for a
  message without an id (`ViewKeys.KeysMayClash`). Two do if and only if, in the thread, an id is the
  key made up for another message or two keys made up in different ways are the same text
  (`ViewKeys.KeysDifferIff`).
* What the archive check refuses as incompatible depends on the order of extraction or cannot be
  extracted at all, apart from members that merely repeat each other
  (`Archives.OrderFreeIffAllFit`, `Archives.OrderFreeIffCompatible`).
* The loop of `index_to_col_letter` ends if and only if the number is not negative
  (`ColumnLetters.LoopEndsIffNotNegative`).
* A lease that was granted while its answer was lost stays taken until its time is over
  (`AgentLeaseLaws.AcquireWithin`).

## Assumptions

* Lua scripts, Redis commands, code under a lock, database transactions and code between two
  awaits are atomic. Clocks do not go back; the limiter and its Redis share one clock, and the
  waiting caller of a lease measures time as Redis does.
* Limits, quotas and retention do not change during a run. Lease ids and file ids are fresh, and
  a lease is released under the subject that acquired it.
* SHA-256, of cache keys, file contents and identities, is injective, for identities also when cut
  to 32 hexadecimal characters.
* Under the row lock on the user the quota query of an upload sees every committed row; a commit
  that reports an error has stored nothing; `db.refresh` after a successful commit does not fail.
* Tables are already parsed (rows of scalars), paths already split into parts, reals are exact.
* Writing audio frames is one step: a chunk that arrives while they are written has the same
  effect as one that arrives just before or just after.

## Model

| member | source | states |
|---|---|---|
| StreamHandoffLaws.DeliveryIsPrefix | data_agent/services/agent_service.py:306-356 | In every interleaving, delivered chunks, the queued chunk and the one in the producer's hand are together exactly what the inner stream produced, in order; a chunk is lost only once the producer is leaving |
| StreamHandoffLaws.SentinelMarksCompletion | data_agent/services/agent_service.py:340-355 | The sentinel is enqueued at most once and only as the producer completes; the consumer that takes it never has to wait |
| StreamHandoffLaws.WaitersAreJustified | data_agent/services/agent_service.py:330-352 | No wakeup is lost on either side: nobody waits on an empty queue once the producer is done, nor on a full one that has been drained |
| StreamHandoffLaws.NormalReturnIsComplete | data_agent/services/agent_service.py:346-372 | A normal return has delivered every chunk of the exhausted stream once and in order; an error reaches the caller only after everything enqueued before it |
| StreamHandoffLaws.FailureIsNeverSwallowed | data_agent/services/agent_service.py:357-372 | A producer that failed is never reported as a normal or quiet end |
| StreamHandoffLaws.LeftOnlyAfterCleanup | data_agent/services/agent_service.py:357-372 | However often the caller closes or cancels, the generator is left only after the producer is done, with one release attempt per acquired lease and the budget finished; a nested run releases nothing |
| StreamHandoffLaws.NoDeadlock | data_agent/services/agent_service.py:340-368 | As long as the inner stream honours cancellation, producer and consumer never wait for each other |
| StreamHandoffLaws.CancelIsLostIff | data_agent/services/agent_service.py:325-332 | The consumer's cancel is lost by exactly one event: the inner stream swallows it while it is pulled |
| StreamHandoffLaws.DeadlockAheadIff | data_agent/services/agent_service.py:325-368 | From a reachable state a deadlock can be reached without a further swallowed cancellation if and only if the consumer's cancel has been lost |
| StreamHandoffLaws.DeadlockLastsUntilDeadline | data_agent/services/agent_service.py:303-368 | In a deadlock only the deadline of the run, if it is still to come, can help: the one other possible event, another cancellation by the caller, leaves the deadlock as it is |
| StreamHandoffLaws.SwallowedCancelDeadlocks | data_agent/services/agent_service.py:325-332 | A run in which a swallowed cancellation leads to a deadlock |
| StreamHandoffLaws.CleanupIsBounded | data_agent/services/agent_service.py:357-368 | After the consumer's cancel the producer takes at most two more steps and can always take the next one until it is done |
| StreamHandoff.RunKeepsInv | data_agent/services/agent_service.py:303-372 | Every run keeps the invariant: chunks accounted for, sentinel last, no lost wakeup, resources balanced, exits justified |
| StreamEndings.ResultIsTold | data_agent/services/agent_service.py:303-372 | How the generator is left, told from the events alone: with the error of the producer; without one, with the cancellation or the quiet end the caller asked for, or else with a normal return. Only a cancellation by the caller can come before an error |
| StreamEndings.OutcomeIsTold | data_agent/services/agent_service.py:303-345 | How the producer ends, told from the events alone, first match first: an error of closing the inner stream, a refused lease, a spent budget, exhaustion or the error of the inner stream, the expiry unless the consumer cancelled, a cancellation |
| StreamEndings.SmoothRunReturns | data_agent/services/agent_service.py:303-356 | A run without expiry, close, cancellation, refusal or error that is left returns normally with every chunk of the inner stream delivered |
| StreamEndings.RaisedErrorComesOut | data_agent/services/agent_service.py:320-356 | An error of the inner stream is the very error the caller gets, unless the deadline, the budget, a failing close or the caller itself comes in between |
| StreamEndings.CloseOverBudget | data_agent/services/agent_service.py:303-345 | A run found over its budget never returns: it raises the refusal, or ends by the expiry or the cancellation that came first |
| StreamEndings.ExpiryTimesOut | data_agent/services/agent_service.py:303-356 | If the deadline expires, the inner stream honours cancellation and the caller stays, the caller gets the timeout |
| StreamProgress.NextIsAnswered | data_agent/services/agent_service.py:346-356 | A caller that asks for the next chunk gets the oldest undelivered one; without one the loop ends if the producer is done, and otherwise the consumer waits |
| StreamProgress.WaitingIsAnswered | data_agent/services/agent_service.py:346-356 | A waiting consumer resumes exactly if there is something in the queue or the producer is done, and then delivers or leaves its loop |
| StreamProgress.SomebodyCanMove | data_agent/services/agent_service.py:303-372 | While the inner stream honours cancellation some party inside can always move, unless the caller is to decide or the generator is left |
| StreamProgress.LeavingIsBounded | data_agent/services/agent_service.py:357-372 | Once the consumer leaves its loop, at most four steps of producer and consumer lead out of the generator, and until then one of them is possible |
| StreamProgress.CallerMayAlwaysCancel | data_agent/services/agent_service.py:346-368 | Until the generator is left the caller may cancel, and then the consumer is on its way out |
| StreamProgress.DeadlineRunsFromTheStart | data_agent/services/agent_service.py:311-316 | The Task starts once, and exactly from then until it is done the deadline may fire, once |
| StreamProgress.CancelsArriveOnce | data_agent/services/agent_service.py:303-372 | The producer is cancelled at most once for the deadline and once for the consumer |
| AgentLeases.LeaseStore.AcquireScript | data_agent/services/agent_lease.py:30-64 | The script, command by command, has the effect and the reply of the specification function |
| AgentLeases.LeaseStore.ReleaseScript | data_agent/services/agent_lease.py:65-76 | Both members are removed, empty keys deleted, and the reply counts the removals |
| AgentLeaseLaws.LimitsHoldOnEveryRun | data_agent/services/agent_lease.py:41-63 | Over all runs live leases respect both limits, the live global set is the disjoint union of the live user sets with equal scores, and an expiring key holds no live member |
| AgentLeaseLaws.GrantedIffBothBelowLimit | data_agent/services/agent_lease.py:52-63 | Granted if and only if both live counts are below their limits, user limit named first; what a grant adds, and that a refusal changes no live set |
| AgentLeaseLaws.ReleaseUndoesAcquire | data_agent/services/agent_lease.py:59-75 | Releasing what was just acquired restores every live set |
| AgentLeaseLaws.WaitingSuffices | data_agent/services/agent_lease.py:44-57 | For either refusal, if nobody else acquires, an acquire after the returned wait succeeds |
| AgentLeaseLaws.WaitingLessIsRefused | data_agent/services/agent_lease.py:44-57 | The wait is exact: if only time passes, any earlier attempt is refused |
| AgentLeaseLaws.RoundingKeepsTheWait | data_agent/services/agent_lease.py:275-276 | Rounding up to whole seconds, at least one, keeps the wait and overshoots by less than a second |
| AgentLeaseLaws.ObeyingSuffices | data_agent/services/agent_lease.py:231-335 | Whoever was told to retry after some seconds and waits that long is granted a lease, if nobody else acquires one |
| AgentLeaseLaws.WaitingIsEnough | data_agent/services/agent_lease.py:231-335 | For it nothing is needed but that the time passes |
| AgentLeaseLaws.ExpiredKeyIsDropped | data_agent/services/agent_lease.py:59-62 | A key at its deadline is dropped as a whole, and no live set loses anything |
| AgentLeaseLaws.ASecondLessIsRefused | data_agent/services/agent_lease.py:231-335 | An attempt a second earlier or more is refused if only time passes |
| AgentLeases.ExpiredKeyHasNoLiveMember | data_agent/services/agent_lease.py:59-62 | A key whose deadline has passed holds no live member |
| AgentLeaseLaws.AcquireWithin | data_agent/services/agent_lease.py:231-335 | Attempts follow each other at the polling interval, the last at the end of the window, apart from what a sleep is late; the loop ends with a lease live for the whole ttl; or busy, refused at or after the end of the window, with the wait of the script at that moment rounded up to whole seconds; or unavailable at the first attempt that ends with an error, holding no lease unless the answer of a granting script was lost |
| RedisRecovery.RedisRecoveryState.ClaimProbe | data_agent/services/redis_recovery.py:154-162 | Hands out the client in use, or the one claim, or nothing, which leaves the object as it was; after a claim every further call at any time is told to wait until the claim is settled |
| RedisRecovery.RedisRecoveryState.SettleFailure | data_agent/services/redis_recovery.py:167-172 | One failure more is counted; after the k-th failure in a row no probe is handed out before min(initial * 2^(k-1), max) less the jitter is over, and one to whoever asks after that much plus the jitter, capped at the maximum |
| RedisRecovery.RedisRecoveryState.MarkUnavailable | data_agent/services/redis_recovery.py:183-189 | A report about another client leaves the object as it was; one about the client in use is the first failure of an outage, retried between the initial backoff and that plus the jitter |
| RedisRecovery.RedisRecoveryState.constructor | data_agent/services/redis_recovery.py:75-123 | For an admissible configuration the invariant holds: a client exactly if available, and then no failure and no claim; without an initial client the backoff bounds hold from the start |
| RedisRecovery.RefusedIffInvalid | data_agent/services/redis_recovery.py:55-64 | Which of the three errors the constructor raises, and that it raises none exactly for an admissible configuration |
| RedisRecovery.DelayIsBounded | data_agent/services/redis_recovery.py:88-99 | Every delay lies between the initial and the maximal backoff, for any random sample |
| RedisRecovery.DelayIsNearExpected | data_agent/services/redis_recovery.py:86-99 | For every sample the delay differs from min(initial * 2^(k-1), max) by at most the jitter, within the bounds |
| RedisRecovery.DelayFollowsTheSample | data_agent/services/redis_recovery.py:86-99 | With the sample 1/2 it is exactly that, and a greater sample never shortens it |
| RedisRecovery.ExpectedDoubles | data_agent/services/redis_recovery.py:88-93 | The first delay before jitter is the initial one, and each further failure doubles it up to the maximum |
| RedisRecovery.BaseDelayGrows | data_agent/services/redis_recovery.py:89-93 | Before jitter, delays do not shrink as failures accumulate |
| RedisRecovery.BaseDelaySaturates | data_agent/services/redis_recovery.py:55-93 | The maximum is reached by the sixth failure, and the exponent cap never changes the result |
| RedisRecovery.SingleFlight | data_agent/services/redis_recovery.py:154-181 | In every interleaving at most one probe is in flight; available means a client, no failures and no probe; the count is the failures since the last success |
| RedisRecovery.ProbesWaitForTheirTime | data_agent/services/redis_recovery.py:156-162 | A probe starts exactly when none is claimed and its time has come, between one initial and one maximal backoff after the last failure |
| RedisRecovery.BackoffFollowsTheFailures | data_agent/services/redis_recovery.py:86-99 | In every run: after the k-th failure in a row no probe starts before the delay of k failures less the jitter is over, and an unclaimed one can start after that delay plus the jitter |
| RedisRecovery.RetryAfterSuffices | data_agent/services/redis_recovery.py:136-152 | `retry_after` lies between 1 and 30, and whoever waits that long finds the probe due, unless one is claimed |
| RedisRecovery.RetryAfterIsTight | data_agent/services/redis_recovery.py:136-152 | `retry_after` is 0 while a client is in use; if it is above 1, whoever comes back a second earlier is turned away |
| RedisRecovery.StaleFailureIsIgnored | data_agent/services/redis_recovery.py:183-189 | A report changes nothing if and only if it is not about the current client |
| RedisRecovery.OutageCountsOnce | data_agent/services/redis_recovery.py:183-189 | Until a probe succeeds at most one report takes effect |
| RedisRecovery.ReconnectIffNotOrphaned | data_agent/services/redis_recovery.py:160-181 | In every reachable state reconnecting is possible exactly while the claim flag is clear or some thread holds the claim |
| RedisRecovery.ReconnectIffNoCrash | data_agent/services/redis_recovery.py:160-181 | From every start and after every run, a reconnect is still possible if and only if no probe has ended with an error outside `_RECOVERABLE_ERRORS` |
| RedisRecovery.OrphanedIffCrash | data_agent/services/redis_recovery.py:160-181 | The claim is left behind by exactly the runs in which such an error occurred |
| RedisRecovery.CrashLocksOut | data_agent/services/redis_recovery.py:160-181 | Such a run for every configuration and every failed start |
| AsyncRecovery.SingleFlightIffOneLoop | data_agent/services/redis_recovery.py:262-333 | For every start and every set of event loops: the asyncio variant is single-flight, and a failing probe never discards a client in use, if and only if at most one loop uses it |
| AsyncRecovery.TwoLoopsDiscard | data_agent/services/redis_recovery.py:300-333 | From any start any two loops reach a run in which the failing probe of one discards the client the other installed |
| AsyncRecovery.OneLoopIsLikeLocks | data_agent/services/redis_recovery.py:262-333 | Used from one loop and without cancelled probes, the asyncio variant has exactly the runs of the object with locks, with the same client, count and times after each |
| AsyncRecovery.CancelUndoesTheProbe | data_agent/services/redis_recovery.py:300-333 | A cancelled probe is as if it had never been begun |
| AsyncRecovery.StartsUnconnected | data_agent/services/redis_recovery.py:262-333 | The first probe may begin at once, and its failure is the first one counted |
| RunBudgets.RunBudget.Reserve | data_agent/services/agent_budget.py:90-105 | Granted exactly if nothing was refused and the kind is below its limit; only that counter grows, by one; a refusal is the answer to every later request; the kind that caused it stands at its limit |
| RunBudgets.RunBudget.ObserveModelResult | data_agent/services/agent_budget.py:47-59 | A model result is complete exactly if it is a nonempty list of final messages; anything else vetoes the cache |
| RunBudgets.CompleteIffStopped | data_agent/services/agent_budget.py:47-56 | Complete results are nonempty lists of messages that stopped by themselves and ask for no tool |
| RunBudgets.RunBudget.ExitHold | data_agent/services/agent_budget.py:157-178 | The exit of `hold_run_budget` and the completion it records |
| RunBudgets.CountersAreGrants | data_agent/services/agent_budget.py:90-105 | Under any interleaving the counters are the granted reservations and never exceed the limits |
| RunBudgets.FirstRefusalSticks | data_agent/services/agent_budget.py:79-105 | The first refusal fixes the error kind; afterwards every reservation is refused with it and the counters stand still |
| RunBudgets.RefusedIffOverLimit | data_agent/services/agent_budget.py:90-105 | A run is refused exactly if it asked for more of some kind than allowed |
| RunBudgets.HoldNeverHidesARefusal | data_agent/services/agent_budget.py:157-178 | `hold_run_budget` succeeds exactly if the body finished and nothing had been refused, whatever the body swallowed; otherwise the ledger admits no cache entry |
| RunBudgets.CacheAllowedIffCleanRun | data_agent/services/agent_budget.py:69-77 | The ledger's five fields admit an answer exactly for clean runs: success, no tool requested, at least one result, all complete, no veto, no refusal |
| CacheKeys.KeyIsInjective | data_agent/services/agent_service.py:392-409 | Keys are equal only for the same tenant, query and single-line settings |
| CacheKeys.KeySeparatesTenantsAndQueries | data_agent/services/agent_service.py:392-409 | Under one configuration, whatever it is, keys are equal only for the same tenant and query |
| CacheKeys.SharesKeyIff | data_agent/services/agent_service.py:392-409 | For one tenant and query, other settings share the key if and only if the name of a field, at the start of a line, occurs in one of the two settings next to that field |
| CacheKeys.SharesKeyWithAnyIff | data_agent/services/agent_service.py:392-409 | Any other request, of whatever tenant, settings and query, shares the key if and only if that is so, or the name of the query occurs in the policy or in the query |
| CacheKeys.LineBreaksConfuseSettings | data_agent/services/agent_service.py:397-406 | Two different settings, with a line break, that share every key |
| FieldJoins.AmbiguousIffStray | data_agent/services/agent_service.py:397-406 | For any fields and separators: other fields are joined to the same text if and only if a separator occurs in a field next to it |
| AnswerCache.AdmissionIsExact | data_agent/services/agent_service.py:645-655 | Admission goes past a ledger exactly if its run was clean, and stores exactly if there is some ledger, all were asked and the final message was complete |
| AnswerCache.EntriesHaveCleanAuthors | data_agent/services/agent_service.py:607-656 | In every run each entry was stored by an invocation of that very actor and query whose every ledger was found clean and whose answer was complete |
| AnswerCache.HitsReturnOwnAnswers | data_agent/services/agent_service.py:617-625 | A hit returns only an answer such an invocation of the same actor and query produced |
| AnswerOrigins.AnswersAreOwn | data_agent/services/agent_service.py:607-656 | Against a diary of the events: an invocation that is no hit returns exactly what the graph answered to it, whatever the ledgers say |
| AnswerOrigins.EntriesWereEarned | data_agent/services/agent_service.py:607-656 | Against the same diary: what the cache holds for an actor and query is what the graph answered, completely, to an invocation of that actor and query all of whose ledgers have a clean history |
| AnswerOrigins.StoredAnswerIsFound | data_agent/services/agent_service.py:617-656 | What was just stored is found by the next lookup of that actor and query |
| AnswerOrigins.LookupIsExact | data_agent/services/agent_service.py:613-625 | A lookup is a miss exactly if the key is absent, fails exactly on an answer that is too long, and otherwise returns the stored answer |
| AnswerOrigins.BypassIff | data_agent/services/agent_service.py:59-62 | A query bypasses the cache exactly if it mentions the marker of managed files, or a UUID |
| AnswerProgress.CleanAnswersAreStored | data_agent/services/agent_service.py:607-656 | For every clean history of a ledger, every query that does not bypass the cache and every complete answer that is not too long there is a run that ends with that answer stored |
| AnswerProgress.AnsweredComesToAnEnd | data_agent/services/agent_service.py:626-656 | Once the graph has answered, one step for each ledger and two more end the invocation, and until then one of them is possible |
| AnswerProgress.AnswerFailsIffTooLong | data_agent/services/agent_service.py:626-656 | An answer fails exactly if it is longer than allowed |
| AnswerProgress.MayFailUntilDone | data_agent/services/agent_service.py:607-656 | Until it is done an invocation may fail, and then the cache is as it was |
| AnswerProgress.EvictedIsMissed | data_agent/services/agent_service.py:613-625 | After an eviction the next lookup of that key is a miss, and no other entry is touched |
| Decimals.FixIsNearest | data_agent/services/file_statistics.py:166-167 | Rounding at a precision changes nothing that fits and is otherwise within half a unit of the last digit |
| Decimals.TiesGoToEven | data_agent/services/file_statistics.py:166-167 | A number halfway between two is rounded to the even one |
| Decimals.AddIsExact | data_agent/services/file_statistics.py:166-192 | An addition whose exact sum fits the precision is exact |
| Decimals.InRangeBound | data_agent/services/file_statistics.py:40-47 | Accepted numbers are integers of at most 56 digits at scale 18 |
| Decimals.InRangeIff | data_agent/services/file_statistics.py:40-47 | Accepted are exactly the numbers below 10^38 in size with at most 38 digits and 18 decimal places, a zero being judged as if its last digit were a one |
| Decimals.TotalIsExact | data_agent/services/file_statistics.py:163-192 | After every row, up to 50,000, the running total is the exact sum; its coefficient stays below 10^61 and its exponent within [-18, 0], so precision 80 never rounds |
| Decimals.CompareAtAnyScale | data_agent/services/file_statistics.py:194-195 | Comparing Decimals does not depend on the scale |
| NumberText.TextIsExact | data_agent/services/file_statistics.py:50-54 | The printed text denotes exactly the number and is in the validator's language |
| NumberText.SameTextIffSameNumber | data_agent/services/file_statistics.py:50-54 | Two numbers print alike if and only if they are equal |
| NumberText.LanguageIsTheImage | agent_chatui/src/lib/statistics-result.ts:13-16 | The validator's decimal language is exactly the set of printed texts |
| NumberText.LanguageIsCanonical | agent_chatui/src/lib/statistics-result.ts:13-16 | Each number has at most one text in the language |
| NumberText.PrintedIsAcceptedAgain | data_agent/services/file_statistics.py:30-54 | A printed accepted number is accepted again and read back as the same number |
| Numerals.AcceptsNumerals | data_agent/services/file_statistics.py:18-47 | Accepted are exactly the numerals within length and bounds, with optional signs, fraction and exponent; they are read as the number they denote, and every other text is refused as not numeric |
| Numerals.ReadIffNumeral | data_agent/services/file_statistics.py:18-35 | Read are exactly the numerals, each as what it denotes: its digits, with the point moved left by the length of the fraction and moved by the exponent in the direction of its sign |
| Numerals.ExponentMovesThePoint | data_agent/services/file_statistics.py:18-35 | An exponent multiplies the number by that power of ten, or divides it exactly if its sign is negative |
| Numerals.PlusChangesNothing | data_agent/services/file_statistics.py:18-35 | A plus sign, before the number or in the exponent, and the case of the exponent letter change nothing |
| LongDivision.PrintFraction | scripts/verify_controlled_analysis_chat.py:55-67 | Long division prints every fraction with a terminating expansion of at most a hundred digits, and refuses exactly the others |
| LongDivision.SameFractionSameText | scripts/verify_controlled_analysis_chat.py:55-67 | On equal values it prints the same text as `_decimal_text` |
| FileStatistics.KeyIsTypedEquality | data_agent/services/file_statistics.py:185-188 | Row keys are equal exactly for rows that are equal with their types |
| FileStatistics.NoteRow | data_agent/services/file_statistics.py:179-184 | The inner loop counts missing cells and collects kinds per column |
| FileStatistics.ScanRow | data_agent/services/file_statistics.py:168-195 | One row keeps all counters, sets, the total and the bounds what the rows so far demand |
| FileStatistics.ScanRows | data_agent/services/file_statistics.py:168-195 | The loop stops at the first faulty row with its error, or has scanned all rows |
| FileStatistics.Calculate | data_agent/services/file_statistics.py:156-233 | The fold succeeds exactly if no row is at fault and some value exists, and its result is the one the declarative description demands |
| FileStatistics.CalculateStatistics | data_agent/services/file_statistics.py:139-233 | The same with the checks of size, column and names before the loop; which of them, or which row, or the lack of a value an error is about; and every result is accepted by the validator |
| NumeralColumns.ColumnOfNumerals | data_agent/services/file_statistics.py:30-195 | For a column of numerals in any notation the reported value, minimum and maximum are the sum, the least and the greatest of the numbers they denote |
| StatisticsLaws.KindsAreTold | data_agent/services/file_statistics.py:115-128 | A cell is of the kind its JSON type says; a text is a number exactly if it is an admissible numeral |
| StatisticsLaws.RowKeysTell | data_agent/services/file_statistics.py:185-188 | Two rows have one key exactly if they are equal cell by cell with their types |
| StatisticsLaws.KeysCountTheRest | data_agent/services/file_statistics.py:185-206 | The number of distinct keys and the number of rows that repeat an earlier one add up to the number of rows |
| StatisticsLaws.ResultIsTold | data_agent/services/file_statistics.py:196-233 | The duplicates reported are the rows that repeat an earlier one; each warning appears exactly if there is something to warn of; a column lists exactly the kinds that occur in it |
| StatisticsLaws.FormulasAreTold | data_agent/services/file_statistics.py:170-178 | A text is a formula exactly if its first character that is no white space is one of = + - @ |
| StatisticsTables.CalculableIff | data_agent/services/file_statistics.py:72-206 | A table leads to a result if and only if it is small enough in bytes, rows and cells, its names are readable, distinct and no formulas, the column is one of them, every row has the right width and neither nested values nor formulas, the column holds only numerals and missing cells, and at least one numeral |
| StatisticsTables.RowErrorIsTold | data_agent/services/file_statistics.py:168-191 | Which error a row raises: the limits first, then its width, formulas, nested values, and last the cell of the column |
| StatisticsTables.RequestErrorIsTold | data_agent/services/file_statistics.py:72-153 | Which error is raised before the rows, in the order of the checks |
| StatisticsTables.WithoutValuesIsTold | data_agent/services/file_statistics.py:199-202 | A table without rows is invalid; one without a number in the column says so |
| StatisticsTables.SentenceIsTold | data_agent/services/file_statistics.py:228-232 | The summary sentence in the figures of the rows |
| StatisticsTables.AcceptedIsDetermined | agent_chatui/src/lib/statistics-result.ts:69-102 | Of an accepted result the valid and missing counts, the warnings and the summary follow from the other fields |
| StatisticsTables.AcceptedIsWithinLimits | agent_chatui/src/lib/statistics-result.ts:18-102 | An accepted result keeps the limits of the service, its column names differ, and no kind is listed twice |
| FileStatistics.OrderDoesNotMatter | data_agent/services/file_statistics.py:168-233 | A reordering of the rows has the same described result |
| FileStatistics.SameRowsSameResult | data_agent/services/file_statistics.py:139-233 | Two tables with the same rows in any order give equal results |
| FileStatistics.AcceptanceIgnoresOrder | data_agent/services/file_statistics.py:139-206 | Whether a table leads to a result, all checks and the existence of a value included, does not depend on the order of its rows |
| FileStatistics.DescribedIsAccepted | agent_chatui/src/lib/statistics-result.ts:18-102 | Every described result passes the schema of the statistics and all cross-field checks, the summary sentence included |
| StatisticsResults.AttachedIsShown | agent_chatui/src/lib/statistics-result.ts:66-187 | With its source and its hash attached a result passes the whole schema, and is shown under the call that names its file and column and under no other |
| StatisticsResults.StatisticsOfFile | data_agent/services/managed_file_service.py:586-610 | The tool succeeds exactly on the calculable tables, and what it returns is shown under exactly the call that asked for it |
| StatisticsResults.RefusalsAreTold | agent_chatui/src/lib/statistics-result.ts:129-187 | A refusal shows no data; it is invalid exactly without a code or a text, and says that the source is gone exactly for the two codes of missing files |
| StatisticsResults.IdsAreHex | agent_chatui/src/lib/statistics-result.ts:4-6 | File ids are five groups of lower-case hexadecimal digits, digests 64 of them |
| UploadBatches.PrepareBatch | data_agent/services/managed_file_service.py:364-380 | A batch is prepared exactly if count, each file, total size and distinct hashes are fine; otherwise the error is that of the first refused file, or of a duplicate |
| UploadBatches.GoodBatchIff | data_agent/services/managed_file_service.py:364-380 | A good batch has an admissible number of files and bytes, each file an admissible size, and no two files the same bytes |
| UploadBatches.PreparedIff | data_agent/services/managed_file_service.py:160-189 | A file passes exactly if its name, its size and its text do, and the first of these that does not is reported |
| UploadBatches.RefusalIsTold | data_agent/services/managed_file_service.py:367-376 | A file is refused after others for its own error, or for the total size of the batch |
| ManagedFileLaws.RowsHaveTheirBytes | data_agent/services/managed_file_service.py:266-293 | In every state of every run each row has its own path, holding the bytes uploaded under its id for its owner and name; reading the row gives these bytes |
| ManagedFileLaws.QuotasHold | data_agent/services/managed_file_service.py:390-413 | In every state every user is within count and byte quota and has no two files of the same content |
| ManagedFileLaws.CommitsNeverConflict | data_agent/services/managed_file_service.py:383-447 | Under the lock and its checks no commit meets a unique column: the integrity-error branch is not reached |
| ManagedFileLaws.FailedUploadsAddNothing | data_agent/services/managed_file_service.py:443-462 | A failed upload has added no row, and leaves exactly the files it had still to remove when a removal failed |
| ManagedFileLaws.LeftIffARemovalFailed | data_agent/services/managed_file_service.py:443-462 | It leaves no final file if and only if none of its removals failed |
| ManagedFileLaws.FailedUploadMayLeaveAll | data_agent/services/managed_file_service.py:443-462 | For every admitted batch, whatever its size, a run from the empty store in which the upload fails and all its files stay on disk |
| ManagedFileLaws.NothingLeaks | data_agent/services/managed_file_service.py:295-347 | Without crashes and failing removals every file belongs to a row or to a session at work; between sessions the files are exactly the rows' |
| ManagedFileLaws.RemovedForGood | data_agent/services/managed_file_service.py:532-557 | A removed row never comes back, nor another with its id |
| ManagedFileLaws.RowsLeaveByTheirOwner | data_agent/services/managed_file_service.py:324-346 | A row leaves the table only by a committed deletion or cleanup of its own user |
| ManagedFileProgress.AdmittedCanBeStored | data_agent/services/managed_file_service.py:349-470 | Whenever the lock of a user is free, a good batch within the quotas and without duplicates can be uploaded: a run stores exactly its files and ends in success |
| ManagedFileProgress.SessionCanGoOn | data_agent/services/managed_file_service.py:324-557 | In every reachable state a session that has not ended can take a step that goes well, unless another session of its user holds the lock |
| ManagedFileProgress.SessionIsBounded | data_agent/services/managed_file_service.py:324-557 | A session takes at most a bounded number of steps, whatever fails and whatever others do |
| ManagedFileProgress.OutcomeIsTold | data_agent/services/managed_file_service.py:324-557 | A session that has ended was a success exactly if it committed, has failed exactly if a write or its commit did, has removed exactly if it committed a removal, unless its process died |
| ManagedFileProgress.ExpiredCanBeRemoved | data_agent/services/managed_file_service.py:324-346 | Whenever the time of a stored file is over, a cleanup of its owner can remove its row |
| ManagedFileRetention.KeptForTheRetention | data_agent/services/managed_file_service.py:324-557 | A stored file is read by a cleanup of its owner, and refused to a deletion, exactly from the instant its upload took the lock plus the retention |
| ManagedFileRetention.EarlierOnlyOnRequest | data_agent/services/managed_file_service.py:324-557 | Before that instant it leaves the table only by a deletion of that file which its owner asked for |
| ManagedFiles.CleanupReadsTheExpired | data_agent/services/managed_file_service.py:327-334 | A cleanup reads exactly the expired rows of its user |
| ManagedFileLaws.ReadsNeverLie | data_agent/services/managed_file_service.py:559-584 | Whatever happened to the disk, a read gives the bytes the row's hash was made from, or an error |
| ManagedFiles.RunKeepsInv | data_agent/services/managed_file_service.py:324-584 | Every run of interleaved uploads, deletions, expiry, failures and crashes keeps the invariant |
| Archives.ArchiveBytes | scripts/data_recovery.py:74-104 | The online check admits exactly the admissible archives and returns their expanded size |
| Archives.AdmittedIsBounded | scripts/data_recovery.py:74-104 | Every member of an admitted archive extracts below the directory, and the size returned is the sum of all sizes |
| Archives.StaysInsideIff | scripts/data_recovery.py:85-86 | From whatever directory, exactly the paths without `..` lead where they say at every part |
| Archives.ParentsArePrefixes | scripts/data_recovery.py:93-103 | The entries above an entry are its proper prefixes |
| Archives.OneMember | scripts/data_recovery.py:84-101 | Which single members make an admitted archive: every directory of size zero, and every file but the root that is not too large, the empty one included |
| Archives.AdmissionIgnoresOrder | scripts/data_recovery.py:74-104 | Admission does not depend on the order of the members |
| Archives.ExtractionSucceeds | scripts/data_recovery.py:74-75 | Members of which any two are compatible, or one repeats the other, extract without a conflict into the tree they describe |
| Archives.ExtractionIgnoresOrder | scripts/data_recovery.py:74-75 | An admitted archive gives the same tree in every order of extraction |
| Archives.OrderFreeIffAllFit | scripts/data_recovery.py:90-101 | Well-formed members extract to one tree in every order if and only if any two are compatible or one repeats the other |
| Archives.OrderFreeIffCompatible | scripts/data_recovery.py:90-101 | Without repeats, the compatibility the check demands is exactly what makes the order irrelevant: what is refused as incompatible is ambiguous or cannot be extracted |
| RateLimits.Check | data_agent/services/rate_limit_service.py:142-191 | Decision, counter and reconnect report for every branch, including failures of each command |
| RateLimitLaws.LimitPerWindow | data_agent/services/rate_limit_service.py:165-170 | In every run, of the increments carried out in time in a window exactly the first `limit` are allowed; no time to live resets a counter inside its window |
| RateLimitLaws.TwiceTheLimit | data_agent/services/rate_limit_service.py:130-170 | No interval of a window's length allows more than twice the limit to one identity and scope, of the increments carried out in time |
| RateLimitLaws.TwiceIsReached | data_agent/services/rate_limit_service.py:130-170 | A run that reaches twice the limit |
| RateLimitLaws.OverLimitIffCreatedAgain | data_agent/services/rate_limit_service.py:162-170 | Late increments included, a window allows more than its limit if and only if more than the limit were carried out and its counter was created more than once |
| RateLimitLaws.CreatedAgainIsLate | data_agent/services/rate_limit_service.py:162-170 | A counter is created again only by an increment at or after the end of its window |
| RateLimitLaws.StragglersEscape | data_agent/services/rate_limit_service.py:162-168 | A run in which an increment after the end of its window creates the counter again and escapes the limit |
| RateLimitLaws.LateOnesPileUp | data_agent/services/rate_limit_service.py:130-170 | For every number, a run in which that many late requests of one identity are allowed at one instant, whatever the limit |
| RateLimitLaws.SharesCounterIff | data_agent/services/rate_limit_service.py:24-140 | Two requests count against one counter exactly if scope, identity and window are the same |
| RateLimitRequests.EveryRequestOnce | data_agent/services/rate_limit_service.py:142-191 | In every run each request is on its way, counted once, or lost; and each creation of a counter has its time to live still to be set or dealt with once |
| RateLimitLaws.OpenExactlyFor | data_agent/services/rate_limit_service.py:24-140 | Without Redis exactly the scopes auth, session and default stay open; every other scope is refused |
| Collapsing.CollapsedIsLastPerTag | agent_chatui/src/lib/statistics-messages.ts:19-28 | Keeping the last item at the place of the first keeps every tag once, with its last item |
| Collapsing.UntaggedAreKept | agent_chatui/src/lib/statistics-messages.ts:19-28 | Items without a tag are neither lost nor reordered |
| MessageViews.UniqueMessages | agent_chatui/src/lib/statistics-messages.ts:16-28 | The first loop yields, for each id, the last content at the first position |
| MessageViews.IndexCalls | agent_chatui/src/lib/statistics-messages.ts:30-45 | The second loop indexes each call id with its only call, or marks it ambiguous |
| MessageViews.BuildMessageViews | agent_chatui/src/lib/statistics-messages.ts:15-76 | The views are those of the unique messages, with the last statistics of a call at the place of the first |
| MessageViews.StatisticsAreSole | agent_chatui/src/lib/statistics-messages.ts:48-71 | A view shows statistics exactly if its named tool message answers the only call with its id, strictly earlier, that asked for statistics; and it is the last such message |
| MessageViews.OneViewPerCall | agent_chatui/src/lib/statistics-messages.ts:66-71 | No call is shown twice |
| MessageViews.OtherMessagesAreKept | agent_chatui/src/lib/statistics-messages.ts:46-75 | All other messages keep their order; none is lost or repeated |
| MessageViews.AnonymousMessagesAreKept | agent_chatui/src/lib/statistics-messages.ts:18-28 | Visible messages without an id are neither lost nor reordered |
| MessageViews.UniqueMessagesAreLast | agent_chatui/src/lib/statistics-messages.ts:18-28 | Of the messages with an id the last remains, once |
| MessageViews.VisibleIffUnmarked | agent_chatui/src/lib/statistics-messages.ts:15-28 | Visible are exactly the messages whose id does not begin with the mark |
| ViewKeys.KeysDifferIff | agent_chatui/src/lib/statistics-messages.ts:48-76 | All keys of the views are different if and only if no message that is shown under its id has the key made up for another one as its id, and no two keys made up in different ways are the same text |
| ViewKeys.KeysAreDistinct | agent_chatui/src/lib/statistics-messages.ts:48-76 | All keys of the views are different if no id and no kind in the thread is like a key that is made up |
| ViewKeys.SameKeyOtherOrigin | agent_chatui/src/lib/statistics-messages.ts:48-76 | Two views share a key only if the key of one is an id and that of the other made up, or both are made up in different ways |
| ViewKeys.KeysMayClash | agent_chatui/src/lib/statistics-messages.ts:48-76 | A thread of two messages whose views share a key |
| ToolResponses.EnsureToolCallsHaveResponses | agent_chatui/src/lib/ensure-tool-responses.ts:15-45 | Refuses exactly threads with an unusable call id; otherwise one response for each open call id and nothing else |
| ToolResponses.UnusableIffNoId | agent_chatui/src/lib/ensure-tool-responses.ts:20-24 | A message cannot be completed exactly if one of its calls has no id, or one that trimming leaves nothing of |
| ToolResponses.NothingStaysOpen | agent_chatui/src/lib/ensure-tool-responses.ts:15-45 | With the responses no call is open |
| ToolResponses.SecondTimeAddsNothing | agent_chatui/src/lib/ensure-tool-responses.ts:15-45 | A second application adds nothing |
| ToolResponses.NoShorterCompletion | agent_chatui/src/lib/ensure-tool-responses.ts:15-45 | No shorter list of messages leaves no call open |
| Playback.Player.PlayAudioCallback | utils/tts_local.py:160-193 | Exactly the first min(frames, queued) samples, then silence; the remaining samples stay queued in order; when the end is announced |
| Playback.Player.GeneratedAudioCallback | utils/tts_local.py:135-157 | The chunk is queued last; the generator is told to stop once killed |
| Playback.OutputIsPrefix | utils/tts_local.py:160-193 | Over every run the output without silences is a prefix of the generated samples, and the rest is queued |
| Playback.EndAfterEverything | utils/tts_local.py:163-164 | Unless killed, the end is announced only after everything was heard, if no chunk arrives between the callback's two looks |
| Playback.EarlyIffSamplesBetweenLooks | utils/tts_local.py:163-164 | In every run, a callback announces the end too soon if and only if the generator has stopped and samples arrived between its two looks |
| Playback.EndMayComeEarlyIff | utils/tts_local.py:163-164 | A callback that has found the queue empty may come to announce the end too soon, in this turn, if and only if the generator had not stopped yet or samples have arrived since |
| Playback.LastChunkIsMissed | utils/tts_local.py:163-164 | The run: last chunk, stop, and the end is announced |
| Playback.SawEmptyIsReachable | utils/tts_local.py:163-164 | That situation arises |
| PlaybackEndings.CallbackIsWhole | utils/tts_local.py:160-193 | A callback that nothing disturbs sends exactly the frames asked for, first samples and then silence, and announces the end exactly if the player is killed or the generator has stopped and nothing is queued |
| PlaybackEndings.EndComes | utils/tts_local.py:160-193 | Once the generator has stopped, further callbacks of any size alone lead to the announced end, with every sample heard |
| PlaybackEndings.KillIsHeeded | utils/tts_local.py:160-166 | A player may be killed at any time, and the next callback announces the end |
| Downloads.StatisticsDownloadController.Start | agent_chatui/src/lib/statistics-download.ts:67-78 | A new request that is current, or, while one is waiting or after disposal, nothing at all |
| Downloads.StatisticsDownloadController.Settle | agent_chatui/src/lib/statistics-download.ts:79-97 | The data is delivered exactly if it arrived and the request is current; a request that is not leaves no trace; no other request becomes or ceases to be current |
| Downloads.StatisticsDownloadController.Cancel | agent_chatui/src/lib/statistics-download.ts:98-102 | Afterwards no request is current, and a new one can be started; the idle state is reported unless disposed |
| Downloads.StatisticsDownloadController.Dispose | agent_chatui/src/lib/statistics-download.ts:104-107 | Afterwards no request is current, none can be started, and nothing was reported |
| Downloads.DeliversIffUndisturbed | agent_chatui/src/lib/statistics-download.ts:73-82 | A started request is current when its data arrives exactly if no cancel or disposal came in between and the identity is the same |
| Downloads.NoLateDelivery | agent_chatui/src/lib/statistics-download.ts:73-90 | Nothing of a request is delivered once it is over |
| Downloads.RequestDelivers | agent_chatui/src/lib/statistics-download.ts:67-97 | From start to settling: the data is delivered, or its failure reported, exactly if nothing was cancelled or disposed meanwhile and the user is the one who asked; otherwise nothing is |
| Downloads.RunSignals | agent_chatui/src/lib/statistics-download.ts:67-107 | In every run exactly the requests that are not active have had their signal aborted, and each was announced by one loading sign |
| Downloads.StartAndCancel | agent_chatui/src/lib/statistics-download.ts:67-107 | A start leaves a waiting request unless one waits or the controller is disposed; after a cancellation, but not after a disposal, one can be started |
| Downloads.DisposedIsSilent | agent_chatui/src/lib/statistics-download.ts:98-107 | After disposal nothing is reported or delivered |
| ColumnLetters.IndexToColLetter | utils/excel_op.py:8-17 | The loop yields the column whose number it was given |
| ColumnLetters.IndexOfLetters | utils/excel_op.py:8-17 | Reading the letters gives the number back |
| ColumnLetters.LettersOfIndex | utils/excel_op.py:8-17 | Every column has the letters of its number |
| ColumnLetters.LongerIsLater | utils/excel_op.py:8-17 | Longer columns come later |
| ColumnLetters.OrderWithinLength | utils/excel_op.py:8-17 | Columns of one length come in the order of their letters |
| ColumnLetters.LoopEndsIffNotNegative | utils/excel_op.py:11-16 | The loop ends if and only if the number is not negative, and then takes one turn for each letter |
| PilotCosts.CostWithinCeiling | scripts/verify_real_model.py:196-218 | Within its token bounds a request costs no more than its part of the ceiling |
| PilotCosts.TariffIsExact | scripts/verify_real_model.py:196-218 | The cost is additive, and a million tokens of each sort cost the price of that sort, cached input the price of input if it has none of its own |
| PilotCosts.AcceptedIff | scripts/verify_real_model.py:187-193 | A price list is accepted exactly if input and output cost something and caching never makes an answer dearer or pays for it |
| PilotCosts.CeilingIsReached | scripts/verify_real_model.py:196-208 | The ceiling of a case is the cost of the dearest answer within its bounds |
| PilotCosts.CeilingsAddUp | scripts/verify_real_model.py:201-208 | The ceiling of the pilot is the sum over its cases, in whatever groups |
| PilotCosts.Evaluate | scripts/verify_real_model.py:273-356 | Nothing is sent above the limit; otherwise the estimate covers exactly the replies received, and stays within the limit unless the last reply exceeded its bounds |

## Left out

- HTTP routes, middleware, ORM models, migrations, logging and event emission: plumbing around libraries.
- asyncio, Redis, SQLAlchemy, LangGraph, CSV and JSON parsing: abstract steps and already-parsed values.
- The synchronous `stream` and all wall-clock limits (`MAX_SECONDS`, run deadlines as durations): a deadline is an event that may happen at any time.
- The fields of a statistics result with one admissible value (versions, metric, unit, semantics) and its JSON form: the hash over it is some function into the SHA-256 digests.
- StreamHandoffLaws.CleanupIsBounded: counts the closing of the inner stream as one step, although closing it may await any number of times.
- RateLimitLaws.LimitPerWindow: counts the increments carried out before the end of their window; for the late ones see RateLimitLaws.OverLimitIffCreatedAgain and RateLimitLaws.LateOnesPileUp.
- RateLimitLaws.TwiceTheLimit: counts the increments carried out before the end of their window; with late ones no bound holds (RateLimitLaws.LateOnesPileUp).
- `_complete_answer` and the text of the final message: whether an answer is complete is an input of `AnswerCache`.
- `_normalize_filename`, declared types, text decoding and structured-content checks of uploads: their verdict is an input of `PrepareBatch`.
- Exceptions other than OSError and database errors while files of an upload are written; changes of the storage directory from outside.
- The rounding of TTL replies by Redis, and Redis losing data.
- The order in which tool responses are added, and their display texts.
- Prices with more digits than Python's default decimal precision keeps: costs are exact reals.
- Re-entrant calls from the download controller's own callbacks.
- Release-contract scanning, drills and harnesses in `scripts/`, RBAC, request ids, redaction, search sanitising, the worker-slot semaphore: easy members only.
- React components and the robot, ASR, TTS, OSS and SQL wrappers in `utils/`.
