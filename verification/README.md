# COVA verification

A Dafny model of the stateful core of the COVA assistant platform, with proofs of what that core promises.

The centre is the **orchestrator**. One mutex guards the jobs, the idempotency records, the dead letters and the id
counter; one worker goroutine takes tokens from a bounded queue and calls an executor. API calls, expert events, the
worker and restarts interleave at the boundaries of the critical sections. Four smaller components stand beside it:
the gateway's token bucket and its one-minute request ring, the webhook verifier with its replay guard, the webhook
delivery loop, and the registry's indentation parser. The generated path router is the last one.

| module | what it models |
|---|---|
| `Text` | the pieces of Go's `strings` and `strconv` in use: trimming, splitting, joining, integers |
| `Jobs` | the records, and the effect of each critical section as a function on values |
| `JobMachine` | the interleaving: a step per critical section, with tokens, worker, clock and counters; runs |
| `JobInvariants` | what every step keeps |
| `JobTheorems`, `JobIdempotency`, `JobReopen`, `JobDrain`, `JobMetrics` | what every run guarantees |
| `JobHistory` | each field of a job's record from what happened to it, without the functions of `Jobs` |
| `JobServer` | the same server as objects rewritten in place, each method proved against the functions of `Jobs` |
| `JobRefinement` | the server object performs the steps of the machine |
| `Sums` | sums over finite sets |
| `RateLimiter`, `RequestRing` | the gateway's limiter and its metrics |
| `WebhookVerifier`, `Delivery` | incoming and outgoing webhooks |
| `YamlLines`, `ExpertYaml`, `ExpertLayout`, `RegistryYaml` | the configuration parsers, and the texts that read back |
| `ExpertMeaning`, `RegistryMeaning` | what those parsers make of any text at all |
| `Router` | the route table, path matching, the handler's calls, and the requests the client forms |

How the model reads the program:

- A class with mutable fields is a class here, and each of its methods states its whole new state as a function of the
  old one. The theorems are about those functions. The state machine of `JobMachine` applies the same functions, and
  `JobRefinement` proves that the server of `JobServer` performs its steps, follows its runs, and comes back from a
  restart as the machine does.
- Clock readings, the executor's answers, HTTP answers, random numbers and the moment a context ends are parameters.
  No clock is assumed to go forward unless a lemma says so (`Timely`, `Ordered`, `ClockForward`).
- An enqueue can time out at any moment, whether or not the channel has room, and its token is then gone.
- `Save` succeeds, and a snapshot is read back as it was written.

Some statements found false or conditional, each with its exact condition:

- The contract document (docs/api-contract.md, lines 372-375) forbids a succeeded or failed job to become running before
  it is back in `queued`. The worker's critical sections (internal/orchestrator/server.go:928-970) look at `canceled`
  and the deadline only, so the code does not keep this ban, and the model follows the code. Without a replay and with
  a forward clock, such a job reruns exactly when a token or execution of it is in flight, other than a last token
  stuck before a full channel, and its deadline is not past (`JobReopen.RerunsExactly`). Both statuses fail so in
  reachable states (`JobReopen.BanFails`).
- An expired job stays expired under a forward clock. Under a clock that may go back it can leave that status, again
  exactly when a token or execution of it is in flight and not stuck (`JobReopen.UntimelyExactly`).
- The worker never blocks on an enqueue of its own exactly when what it may still have to enqueue fits into the channel
  (`JobDrain.JamsExactly`). Other calls can fill the channel meanwhile; the enqueue then times out and the job loses
  that token (`JobDrain.JammedLoses`), and a synchronous run can get there (`JobDrain.RoomIsNeeded`).
- Evicting idle clients is unobservable exactly when ten minutes refill a whole burst, and under the same condition the
  rate bound and the exact law of admission hold of every history.
- A signed message is accepted at most once exactly when the replay memory is longer than twice the allowed skew. A
  message signed for an instant about 292 years ahead is out of this statement: there the difference of the two times
  saturates, its absolute value stays negative, and the window check passes whatever the skew; it is accepted again
  after each replay memory (`WebhookVerifier.AcceptedTwiceExactly`).
- The replay guard answers as a full history, whatever ids are asked for, exactly when no clock reading falls below an
  expiry that an earlier reading has reached.
- The one-minute ring counts the last minute of the full history exactly when every record is harmless: counted itself
  or too old to matter, and taking its slot only from later seconds that are too old to matter. Second 0 marks an
  empty slot, and a second before 1970 that is no whole minute indexes the array below zero, which panics.
- Two scopes share an idempotency key exactly when the prefix `tenant::project::` of one continues to that of the other,
  and not with a space. Exactly then a reachable state answers a submit of one with a job of the other. Ids that do not
  hide the separator keep scopes apart.
- A YAML list on the same column as its key is legal YAML, and both configuration parsers drop it without an error.
- The implementation gets the very call the client makes exactly when the id has no slash and, where it ends the path,
  is not empty. Some id with a slash in it arrives as another call (`Router.SlashedIdStrays`).
- A succeeded job keeps its result exactly until it succeeds once more (`JobHistory.LastResult`). An executor answer that
  comes after an event has reported success does that, and replaces the result (`JobHistory.ResultReplaced`).
- A tenant's line in the metrics counts the jobs of its tenant and project alone exactly when no other scope with jobs
  joins to the same `tenant::project` (`JobMetrics.ScopeLineExactly`).

## Model

| member | source | states |
|---|---|---|
| `Jobs.JobIdInjective` | internal/orchestrator/server.go:544-545 | different counters give different job ids |
| `Jobs.CloneCallbackIdempotent` | internal/orchestrator/server.go:1321-1335 | cloning a callback a second time changes nothing, so a saved and reloaded callback is the one in memory |
| `JobInvariants.SubmitKeepsOk` | internal/orchestrator/server.go:516-573 | a submit keeps ids, records, entries and letters consistent, never overwrites a job, and never finds an idempotency record without its job |
| `JobInvariants.ApiChangesOk` | internal/orchestrator/server.go:395-447 | expiry, cancel, replay and every expert event keep a job and its dead letter in agreement |
| `JobInvariants.WorkerChangesOk` | internal/orchestrator/server.go:921-1046 | so do the worker's begin and finish, with any outcome and any clock readings |
| `JobInvariants.LoadExact` | internal/orchestrator/server.go:1112-1165 | loading what a correct server saved is the identity, except that running jobs become queued with progress 0 |
| `JobInvariants.TokenFlow` | internal/orchestrator/server.go:1071-1077 | for every step and job, exactly how the number of tokens on their way to the worker changes |
| `JobInvariants.JobAfter` | internal/orchestrator/server.go:406-445 | each step rewrites at most its own job, in the way of its critical section, and loses none |
| `JobInvariants.StepKeepsNoneLost` | internal/orchestrator/server.go:921-1051 | consuming a token never leaves its job queued without another token or a timed-out enqueue |
| `JobInvariants.RestartQueues` | internal/orchestrator/server.go:1141-1171 | a restart gives every queued or running job exactly one pending enqueue, and every other job none |
| `JobInvariants.StepKeepsOk` | internal/orchestrator/server.go:1175-1217 | every step keeps the whole invariant: consistent records, snapshot equal to memory, known tokens, no lost job, bounded queue |
| `JobInvariants.ReachableOk` | internal/orchestrator/server.go:207-251 | the invariant holds in every state any run reaches |
| `JobTheorems.DeadLettersAgree` | internal/orchestrator/server.go:406-445 | in every reachable state a failed job has a dead letter with its scope, attempts, time and error; a succeeded one has none, no error and progress 100; a queued one has progress 0; attempts stay within 1 and the maximum |
| `JobTheorems.JobIdsExact` | internal/orchestrator/server.go:544-565 | the jobs of every reachable state are exactly job_1 to job_nextID, each under its own id |
| `JobTheorems.NoLostJob` | internal/orchestrator/server.go:1071-1077 | a queued job has a token in the channel, about to be enqueued or just dequeued, unless its enqueue timed out |
| `JobTheorems.RestartRefines` | internal/orchestrator/server.go:1112-1217 | a restart brings back every map from the snapshot with interrupted jobs requeued, each exactly once |
| `JobTheorems.RestartTwice` | internal/orchestrator/server.go:1112-1173 | a second restart with nothing in between changes neither maps nor snapshot nor what is to be enqueued |
| `JobTheorems.CreditStep` | internal/orchestrator/server.go:787-801 | executions plus waiting tokens plus attempts left grow only on a replay, by what it gives back, and on a restart, by at most one |
| `JobTheorems.ExecutionBound` | internal/orchestrator/server.go:896-1051 | over every interleaved run the executor is called for a job at most maxAttempts times (1 + its replays) plus the restarts |
| `JobTheorems.CanceledIsSticky` | internal/orchestrator/server.go:746-751 | over any run without a replay of it, a canceled job stays canceled whatever stale tokens, executions, events or restarts occur |
| `JobTheorems.ReachablePastDeadline` | internal/orchestrator/server.go:1345-1358 | a job is expired only after some clock reading past its deadline |
| `JobTheorems.ExpiredIsSticky` | internal/orchestrator/server.go:928-937 | with a clock that never goes back the same holds of an expired job |
| `JobTheorems.QuietIsPermanent` | internal/orchestrator/server.go:921-1051 | a terminal job with no token and no execution in flight keeps its whole record, and is never executed again, until it is replayed |
| `JobHistory.RecordExactly` | internal/orchestrator/server.go:395-1051 | for every step and job of every correct state, each field afterwards from what the step says happened: status, progress, attempt, last error, result, time of change; everything else of the record never changes |
| `JobHistory.LetterExactly` | internal/orchestrator/server.go:406-445 | and its dead letter: written with its reason, attempts, time and error when the job fails, dropped by a success or a replay, otherwise kept |
| `JobHistory.CreatedExactly` | internal/orchestrator/server.go:544-565 | over every run, a job comes from a submit and keeps in every later state the scope, expert, date and callback of the submission, a deadline one TTL after it, and the configured attempts |
| `JobHistory.CreatedStep` | internal/orchestrator/server.go:544-586 | a new job starts queued, on its first attempt, without result, error or dead letter, and is what the submit is answered with |
| `JobHistory.NotExpiredBefore` | internal/orchestrator/server.go:1345-1358 | no step whose readings of the clock are within the TTL of its submit expires a job |
| `JobHistory.LastResult` | internal/orchestrator/server.go:1037-1040 | over every run, a job's result is the one it last succeeded with, the executor's or the event's, through every other step and restart |
| `JobHistory.NoResultYet` | internal/orchestrator/server.go:548-564 | and a job that has not succeeded has none |
| `JobHistory.ResultReplaced` | internal/orchestrator/server.go:1022-1043 | a reachable succeeded job that stays succeeded while its result changes |
| `JobHistory.LastLetter` | internal/orchestrator/server.go:411-432 | over every run, the dead letter tells of the last failure, until the job succeeds or is replayed |
| `JobHistory.AttemptsCount` | internal/orchestrator/server.go:984-995 | without a replay, attempts grow by one for each retry that was queued and by nothing else |
| `JobHistory.CallAnswers` | internal/orchestrator/server.go:738-801 | a cancel or replay is answered done exactly when it happens to the job, not found exactly for no job of that scope, and otherwise refused |
| `JobHistory.EventAnswers` | internal/orchestrator/server.go:394-439 | an event is refused exactly for an unknown job, or for an unknown status of an unfinished job |
| `JobHistory.WorkerAnswers` | internal/orchestrator/server.go:921-995 | the executor is called exactly for a job that starts, and a job is enqueued again exactly when it is to be retried |
| `JobHistory.RestoreExactly` | internal/orchestrator/server.go:1119-1149 | what loading makes of any stored job, also one with no attempts or a blank callback |
| `JobIdempotency.IdempotentSubmission` | internal/orchestrator/server.go:516-573 | after an accepted keyed submit, over any steps and restarts, the same key gets the same job for the same payload and a conflict for another, and creates nothing |
| `JobIdempotency.ScopedKeyExact` | internal/orchestrator/server.go:1337-1343 | for ids that do not hide the separator, equal scoped keys mean equal tenant, project and trimmed key, and conversely |
| `JobIdempotency.ColonFreeIsSeparable` | internal/orchestrator/server.go:1337-1343 | colon-free ids are such ids |
| `JobIdempotency.ScopesShareExactly` | internal/orchestrator/server.go:1337-1343 | two scopes have a non-empty scoped key in common if and only if the key prefix of one continues to that of the other, and not with a space |
| `JobIdempotency.SeparableScopesApart` | internal/orchestrator/server.go:1337-1343 | different scopes whose ids do not hide the separator never do |
| `JobIdempotency.ReplyStaysInScope` | internal/orchestrator/server.go:517-541 | in every reachable state an accepted submit is answered with a job of the caller's scope unless the scope of some job collides with it |
| `JobIdempotency.AnswersAcrossExactly` | internal/orchestrator/server.go:517-541 | for two different scopes, some reachable state answers a submit of one with a job of the other if and only if they collide |
| `JobIdempotency.HiddenSeparatorCollides` | internal/orchestrator/server.go:1337-1343 | for instance, a tenant id with `::` inside it collides with the scope that splits it there |
| `JobReopen.RerunsExactly` | internal/orchestrator/server.go:928-970 | without a replay and with a forward clock, a succeeded or failed job can go straight to running if and only if a token or execution of it is in flight, other than a last token stuck before a full channel, and its deadline is not past |
| `JobReopen.OverdueNeverRuns` | internal/orchestrator/server.go:934-937 | once past its deadline a terminal job stays terminal over any such run |
| `JobReopen.ReopenableExactly` | internal/orchestrator/server.go:928-941 | it can leave its status at all, to running or expired, if and only if such a token or execution is in flight |
| `JobReopen.UntimelyExactly` | internal/orchestrator/server.go:928-970 | under a clock that may go back the same condition decides both for succeeded, failed and expired jobs |
| `JobReopen.BanFails` | docs/api-contract.md:372-375 | for each of the two statuses, a reachable job with it that a run without a replay takes straight to running |
| `JobDrain.HandleOne` | internal/orchestrator/server.go:896-919 | handling one item with a synchronous executor is a run of enabled steps, its retry enqueue finds room, and it lowers the tokens plus attempts left by exactly one |
| `JobDrain.JamsExactly` | internal/orchestrator/server.go:896-1051 | the worker alone, with a synchronous executor and any clock, can come to an enqueue of its own into a full channel if and only if what it may still have to enqueue does not fit: the rest of a boot, the retry it stands at, or the retry of the job in hand unless that is canceled or on its last attempt |
| `JobDrain.SettleReady` | internal/orchestrator/server.go:896-1051 | with that room the worker, wherever it stands in an item or a restart, gets ready by itself and without a timeout |
| `JobDrain.DrainTerminates` | internal/orchestrator/server.go:896-1051 | from any such state of a synchronous run, with no API enqueue pending and nothing dropped, the worker alone empties the queue within that many items and leaves every job terminal |
| `JobDrain.JammedLoses` | internal/orchestrator/queue.go:37-50 | all a worker before a full channel can do is let its enqueue time out, which costs the job that token |
| `JobDrain.RoomIsNeeded` | internal/orchestrator/server.go:988-995 | a synchronous run with nothing pending or dropped can reach that state |
| `JobMetrics.CountsMore` | internal/orchestrator/server.go:287-313 | counting one more job, in any map order, keeps every count exact |
| `JobMetrics.MetricsConserveJobs` | internal/orchestrator/server.go:266-315 | in every reachable state status counts and tenant totals each sum to the jobs, a tenant's six counters to its total, and its retries to the sum of attempt - 1 |
| `JobMetrics.ScopeLineExactly` | internal/orchestrator/server.go:288-292 | a tenant line counts exactly the jobs of its tenant and project if and only if no other scope with jobs joins to the same text |
| `JobMetrics.TokensExactly` | internal/orchestrator/server.go:1383-1390 | tokens are the quarters of the trimmed answer's bytes, rounded up |
| `JobServer.MemoryQueue.constructor` | internal/orchestrator/queue.go:28-35 | an empty open channel, of 256 places when the size is not positive |
| `JobServer.MemoryQueue.Enqueue` | internal/orchestrator/queue.go:37-50 | appends exactly when open, in time and not full |
| `JobServer.MemoryQueue.Dequeue` | internal/orchestrator/queue.go:52-68 | takes the oldest token |
| `JobServer.MemoryQueue.Close` | internal/orchestrator/queue.go:75-82 | closes and keeps the tokens |
| `JobServer.Server.constructor` | internal/orchestrator/server.go:207-251 | a server without jobs and with a fresh empty queue |
| `JobServer.Server.PersistLocked` | internal/orchestrator/server.go:1175-1217 | afterwards the snapshot equals what the mutex guards, for every map order, and memory is unchanged |
| `JobServer.Server.ExpireJobIfNeeded` | internal/orchestrator/server.go:1095-1110 | expires exactly an unfinished job past its deadline, and keeps the snapshot equal to memory |
| `JobServer.Server.SubmitLocked` | internal/orchestrator/server.go:516-586 | the submit's critical section: new state, answer and token to enqueue |
| `JobServer.Server.SubmitBriefJob` | internal/orchestrator/server.go:512-590 | the same followed by the enqueue |
| `JobServer.Server.CancelLocked` | internal/orchestrator/server.go:740-751 | the cancel's critical section |
| `JobServer.Server.CancelJob` | internal/orchestrator/server.go:738-751 | expiry on access, then cancel |
| `JobServer.Server.ReplayLocked` | internal/orchestrator/server.go:781-799 | the replay's critical section, which leaves the deadline as it was |
| `JobServer.Server.ReplayJob` | internal/orchestrator/server.go:779-801 | expiry on access, then replay, then an enqueue when it was done |
| `JobServer.Server.ReceiveEvent` | internal/orchestrator/server.go:394-447 | the event handler's critical section, with its not-found and unsupported-status answers |
| `JobServer.Server.BeginJob` | internal/orchestrator/server.go:921-952 | the worker's first critical section, and whether the executor is called |
| `JobServer.Server.FinishJob` | internal/orchestrator/server.go:957-1046 | the worker's last critical section for each outcome, and whether the job is enqueued again |
| `JobServer.Server.FinishAsync` | internal/orchestrator/server.go:958-970 | the accepted branch, which may overwrite an event that came first |
| `JobServer.Server.FinishError` | internal/orchestrator/server.go:971-1020 | the error branch: canceled, expired, retried or dead-lettered |
| `JobServer.Server.FinishSuccess` | internal/orchestrator/server.go:1022-1046 | the success branch |
| `JobServer.Server.RestoreJobs` | internal/orchestrator/server.go:1119-1151 | restores each stored job into a fresh object and lists the queued ones once each, for every map order |
| `JobServer.Server.LoadState` | internal/orchestrator/server.go:1112-1173 | the loaded state, the snapshot written back when something is pending, and the channel, which loses what does not fit |
| `JobServer.Server.MetricsSnapshot` | internal/orchestrator/server.go:266-315 | every count of the snapshot is the exact count over the jobs, for every map order |
| `JobServer.Server.ProcessBriefJob` | internal/orchestrator/server.go:921-1051 | one item with nobody else acting: both critical sections and the retry enqueue |
| `JobServer.ProcessOne` | internal/orchestrator/server.go:896-1051 | one item leaves every queued job its token and lowers the work by exactly one |
| `JobServer.Server.WorkerLoop` | internal/orchestrator/server.go:896-919 | the loop over the real objects terminates with an empty channel and every job terminal, after no more items than the work there was |
| `JobRefinement.Perform` | internal/orchestrator/server.go:394-1051 | a server object that shows a state of the machine performs any enabled step short of a restart, and then shows the state after it, with the worker where the machine has it |
| `JobRefinement.Follow` | internal/orchestrator/server.go:394-1051 | and so it follows every run without a restart to its last state |
| `JobRefinement.BootedIs` | internal/orchestrator/server.go:1167-1173 | booting enqueues in order what fits, loses the rest, and leaves maps and snapshot alone |
| `JobRefinement.BootedRuns` | internal/orchestrator/server.go:1167-1173 | a boot is a run of the machine |
| `JobRefinement.Restarted` | internal/orchestrator/server.go:207-251 | a new server on the same store shows what the restart step and its boot make of the old state |
| `RateLimiter.IpLimiter.Allow` | internal/api/gateway/middleware.go:372-404 | answer and new buckets of one request |
| `RateLimiter.IpLimiter.CleanupIfNeeded` | internal/api/gateway/middleware.go:406-417 | every hundredth request drops exactly the clients idle for more than ten minutes |
| `RateLimiter.TokensBounded` | internal/api/gateway/middleware.go:388-402 | however the clock moves, every bucket stays between 0 and burst |
| `RateLimiter.EvictionUnobservable` | internal/api/gateway/middleware.go:372-417 | with a forward clock and rate times 600 s at least burst, every multi-client history gets the answers of a limiter that never evicts |
| `RateLimiter.EvictionUnobservableExactly` | internal/api/gateway/middleware.go:406-417 | and that condition is necessary: without it some history is answered differently |
| `RateLimiter.ClientSeesOnlyItself` | internal/api/gateway/middleware.go:372-404 | a client's answers depend only on its own request times |
| `RateLimiter.RateBound` | internal/api/gateway/middleware.go:388-402 | in any window of its requests a client is admitted at most burst + rate times the window, whoever else calls |
| `RateLimiter.RateBoundExactly` | internal/api/gateway/middleware.go:388-417 | that bound holds of every history if and only if ten minutes refill a whole burst |
| `RateLimiter.AloneExactly` | internal/api/gateway/middleware.go:372-404 | without eviction and with any clock, a request is admitted if and only if no window of its client's requests that ends with it has used up a full bucket and what was earned since, where only forward moves of the clock earn |
| `RateLimiter.AdmittedExactly` | internal/api/gateway/middleware.go:372-417 | with eviction, a forward clock and a refill within ten minutes, request k is admitted if and only if for every earlier request i of its client, and for itself, those admitted since plus one stay within burst plus rate times the time between |
| `RateLimiter.AdmittedExactlyWhen` | internal/api/gateway/middleware.go:372-417 | that law holds of every history if and only if ten minutes refill a whole burst |
| `RateLimiter.RemembersExactly` | internal/api/gateway/middleware.go:406-417 | after every hundredth request exactly the clients of the last ten minutes are remembered |
| `RateLimiter.NeverRefused` | internal/api/gateway/middleware.go:372-417 | a client whose requests are at least 1/rate apart is never refused, whoever else calls and whatever is evicted |
| `RequestRing.GatewayMetrics.Record` | internal/api/gateway/middleware.go:507-534 | the counters and the one ring slot a request changes, and when indexing the ring panics |
| `RequestRing.GatewayMetrics.TakeSnapshot` | internal/api/gateway/middleware.go:536-579 | the snapshot's totals, window count and status counts |
| `RequestRing.RingIsExactly` | internal/api/gateway/middleware.go:525-550 | after every record, and at every instant not before the records, the sixty slots count exactly the requests of the last minute of the full history, if and only if every record is harmless |
| `RequestRing.PromptIsHarmless` | internal/api/gateway/middleware.go:525-533 | which holds whenever records come less than a minute behind the latest one |
| `RequestRing.HarmfulLoses` | internal/api/gateway/middleware.go:525-550 | after any harmful record, whatever came before it, the window count is wrong at once |
| `RequestRing.CountersExact` | internal/api/gateway/middleware.go:507-523 | every counter is the count over the history, and the status counts sum to the total |
| `WebhookVerifier.InMemoryReplayGuard.CheckAndMark` | internal/delivery/webhook/verify.go:188-209 | answer and remembered marks, for every order of the cleanup |
| `WebhookVerifier.CleanupUnobservableExactly` | internal/delivery/webhook/verify.go:188-209 | for given clock readings the guard answers as a history that forgets nothing, whatever ids are asked for, if and only if no reading falls below an expiry that an earlier one has reached |
| `WebhookVerifier.CleanupUnobservable` | internal/delivery/webhook/verify.go:188-209 | with a clock that never goes back it does |
| `WebhookVerifier.InstantOfSeconds` | internal/delivery/webhook/verify.go:149-155 | the signed timestamp counts seconds since 1970 in decimal |
| `WebhookVerifier.AcceptedExactly` | internal/delivery/webhook/verify.go:101-147 | over every run with a forward clock, a call is accepted if and only if its header carries `sha256=` in any case and then the digest of timestamp and body, its event has an id, its instant is in the window, and no call with that id was accepted less than a replay memory before |
| `WebhookVerifier.RefusedExactly` | internal/delivery/webhook/verify.go:101-147 | and each of the eight errors is answered exactly when its check is the first to fail |
| `WebhookVerifier.Verifier.Verify` | internal/delivery/webhook/verify.go:101-147 | the answer with its error cases in order, with saturating differences of times, and the guard's new marks |
| `WebhookVerifier.NotAcceptedTwice` | internal/delivery/webhook/verify.go:101-147 | two accepted calls with one signed instant, not about 292 years ahead, carry different event ids |
| `WebhookVerifier.AcceptedTwiceExactly` | internal/delivery/webhook/verify.go:113-146 | for a clock starting at any instant, an authentic message can be accepted twice if and only if what is left of its window holds a whole replay memory, or the window check saturates, with the largest skew there is or for an instant about 292 years ahead |
| `WebhookVerifier.AtMostOnceExactly` | internal/delivery/webhook/verify.go:113-146 | with the saturating instants aside, an authentic message is accepted at most once in every run if and only if the replay memory exceeds twice the skew |
| `Delivery.Dispatcher.Deliver` | internal/delivery/webhook/dispatcher.go:194-260 | the outcome, the records written and the waits slept, for any sequence of attempt results |
| `Delivery.Dispatcher.Attempt` | internal/delivery/webhook/dispatcher.go:208-246 | one attempt writes one record and names its wait |
| `Delivery.Dispatcher.ComputeBackoff` | internal/delivery/webhook/dispatcher.go:306-329 | the doubled, capped and jittered wait before the next attempt |
| `Delivery.BackoffBounds` | internal/delivery/webhook/dispatcher.go:306-329 | a wait is not negative, stays within the jitter fraction of the capped backoff on both sides, and below the longest wait |
| `Delivery.WaitsDouble` | internal/delivery/webhook/dispatcher.go:306-317 | without jitter the first wait is the initial backoff and each further one the smaller of the cap and twice the one before |
| `Delivery.JitterExact` | internal/delivery/webhook/dispatcher.go:318-329 | jitter multiplies that wait by 1 + (2r - 1) times the fraction, not below 0, and rounds down |
| `Delivery.LastBounds` | internal/delivery/webhook/dispatcher.go:207-258 | the loop stops within the maximum, and only where no uninterrupted retry is due |
| `Delivery.TraceShape` | internal/delivery/webhook/dispatcher.go:194-260 | records are numbered 1 to n within the maximum, all but the last are failures naming their retry time, and the result is nil exactly when the last is a success |
| `Delivery.AttemptsExactly` | internal/delivery/webhook/dispatcher.go:207-258 | attempt k is made if and only if every attempt before it failed in a way worth retrying and no wait was interrupted |
| `Delivery.TraceContents` | internal/delivery/webhook/dispatcher.go:208-246 | the record of attempt k carries the event's ids, url and payload, what that attempt answered and when, and the time of the next attempt exactly when one is due |
| `Delivery.OutcomeExactly` | internal/delivery/webhook/dispatcher.go:249-259 | delivered, given up or canceled, exactly by how the last attempt ended |
| `Delivery.TimeBound` | internal/delivery/webhook/dispatcher.go:249-258 | one delivery sleeps at most the doubled backoffs of all its retries, initialBackoff times (2^(maxAttempts-1) - 1), times (1 + jitterFraction); with a cap also at most (maxAttempts - 1) times maxBackoff times (1 + jitterFraction) |
| `YamlLines.StripInlineComment` | internal/registry/loader.go:437-458 | the scanning loop computes the stripped line |
| `YamlLines.StripExact` | internal/registry/loader.go:437-458 | stripping cuts a line at its first hash sign outside quotes and nowhere else |
| `YamlLines.CountLeadingSpaces` | internal/registry/loader.go:460-469 | the scanning loop counts the leading spaces |
| `YamlLines.LeadingSpaces` | internal/registry/loader.go:460-469 | that many spaces, and no space after them |
| `YamlLines.SplitExactly` | internal/registry/loader.go:414-425 | a line splits, at its first colon, into a key that is not blank and the unquoted rest, and otherwise not |
| `YamlLines.ReadKeyValue` | internal/registry/loader.go:414-435 | a written pair splits back into its key and unquoted text |
| `YamlLines.ReadWritten` | internal/registry/loader.go:427-458 | a writable value is read back whole from its text, whatever spaces, colons and hash signs it holds |
| `YamlLines.WritableExactly` | internal/registry/loader.go:427-458 | a value is writable if and only if some text on one line is read as it |
| `ExpertYaml.CloseSections` | internal/registry/loader.go:325-327 | the popping loop computes the sections a line leaves open |
| `ExpertYaml.ParseExpertDefinition` | internal/registry/loader.go:310-412 | the parsing loop computes the definition line by line |
| `ExpertYaml.StackMeaning` | internal/registry/loader.go:313-351 | on every input the stack has strictly increasing indents and holds exactly the sections no later line that says something has dedented to |
| `ExpertYaml.OnlyContentsCount` | internal/registry/loader.go:319-324 | blank lines, comment lines and trailing comments never change the result |
| `ExpertYaml.BoolExactly` | internal/registry/loader.go:385-389 | the texts read as true and as false |
| `ExpertMeaning.FieldsExactly` | internal/registry/loader.go:310-412 | for any text, each text field is the last value a line gives to its dotted path, each number and truth value the last one that parses, each list all its items in order, and nothing else counts |
| `ExpertLayout.SlotFromPath` | internal/registry/loader.go:359-409 | each field's dotted path selects its own case of the switch |
| `ExpertLayout.ParseForest` | internal/registry/loader.go:319-410 | any indented forest is parsed to its declared meaning, whatever deeper sections were left open before it |
| `ExpertLayout.RoundTripExactly` | internal/registry/loader.go:310-412 | a definition laid out in blocks, at any depths and with any comments, reads back if and only if every list that holds something is deeper than its key; otherwise just those lists are lost |
| `ExpertLayout.RenderedReadsBack` | internal/registry/loader.go:310-412 | the plain rendering of a definition parses back to it |
| `RegistryYaml.ParseRegistry` | internal/registry/loader.go:225-307 | the parsing loop computes the registry or the first error with its line |
| `RegistryMeaning.ParsesExactly` | internal/registry/loader.go:225-307 | for any text, parsing fails exactly at its first faulty line with that line's fault, and otherwise gives each field the last value said of it, an entry's between its item and the next |
| `RegistryYaml.RegistryReadsBackExactly` | internal/registry/loader.go:225-307 | a laid-out registry reads back if and only if no list item stands on the margin; otherwise it ends silently before the first such item |
| `RegistryYaml.RenderedRegistryReadsBack` | internal/registry/loader.go:225-307 | the plain rendering of a registry parses back to it |
| `Router.MatchPathLoop` | internal/api/openapi/server_gen.go:410-430 | the matching loop succeeds exactly when every literal part is repeated, with the specified parameters |
| `Router.MatchExact` | internal/api/openapi/server_gen.go:410-430 | a match binds exactly the holes, each name to what stands at its last hole |
| `Router.MatchIsFill` | internal/api/openapi/server_gen.go:410-438 | with distinct holes a path matches if and only if it is a filled-in copy of the pattern |
| `Router.FillMatchExactly` | internal/api/openapi/server_gen.go:410-438 | for every pattern with distinct holes, matching recovers exactly the values filled in if and only if they are slash-free and not empty at an end |
| `Router.ServeHTTP` | internal/api/openapi/server_gen.go:89-389 | the loop dispatches to the first matching route and calls the implementation with the bound id |
| `Router.RequestServedExactly` | internal/api/openapi/server_gen.go:89-438 | every request, whoever formed it, is served as a call if and only if it has that call's method and path parts |
| `Router.TableUnambiguous` | internal/api/openapi/server_gen.go:399-408 | for every method and path at most one route of the table matches |
| `Router.TableOrderIrrelevant` | internal/api/openapi/server_gen.go:89-102 | so every list of the same routes dispatches every request alike |
| `Router.ClientReachesExactly` | sdk/go/cova/client_gen.go:61-231 | for every call of the client, with its own method and path, the implementation gets that very call if and only if the id has no slash and is not empty where it ends the path |
| `Router.JobIdsReach` | sdk/go/cova/client_gen.go:88 | which covers every id the orchestrator hands out |
| `Router.SlashedIdStrays` | sdk/go/cova/client_gen.go:88 | some id with a slash in it arrives as another call |

## Left out

- HTTP handlers, JSON, request and problem bodies, header trimming, validation of a submit request, expert lookup: parsed and accepted requests are parameters.
- SHA-256, HMAC and hexadecimal text: uninterpreted functions, with no cryptographic claim; a delivery record keeps its payload instead of the hash.
- The Redis queue and the Postgres store, whose behaviour lies in external systems; the in-memory queue and a store whose `Save` succeeds stand for them.
- Failed saves, the store that saves nothing, and several orchestrator processes on one snapshot.
- Wrap-around of 64-bit counters and times, and of durations outside the verifier's window check, floating-point rounding, and reads of a job after its lock was released.
- internal/worker/mock, internal/expert/runtime, internal/agent, internal/routing and internal/channel: simpler copies of the job machine, or network plumbing.
- The SDKs beyond path formatting, the generator scripts, the command mains.
- Webhooks started by finished jobs: the delivery loop is modelled by itself, for arbitrary attempt results.
- ValidateRegistry, ValidateExpertDefinition and LoadSnapshot: field-by-field checks and file access after the parsers.
- Uptime and requests-per-second figures of the gateway snapshot, which derive from the counted ones.
- Invalid UTF-8: texts are sequences of characters, and lower-casing is that of ASCII letters, the only ones the compared words have.
- Router.ClientReachesExactly: hands the formatted path to the router as it is; an HTTP client and server parse it as a URL in between, which cuts it at `?` or `#` and decodes percent signs, and the server's multiplexer (cmd/orchestrator/main.go:170-174) redirects paths holding `//`, `.` or `..` as a segment, so ids with these characters, the empty id, and the ids `.` and `..` do not arrive as they were sent.
- JobServer.Server.WorkerLoop: states the loop until the channel is empty, with a synchronous executor and nobody else acting; the interleaved loop is the machine of `JobMachine`.
- Delivery.TimeBound: durations are unbounded; without a cap the source's conversion overflows once a doubled backoff exceeds 63 bits.
