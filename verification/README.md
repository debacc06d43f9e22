# Verified models of five protocols

This project models the stateful protocols of five applications and proves
what they keep over every run:

* **Job queue** (`apps/job-queue`) on Redis streams. `JobStore` holds the
  shared Redis structures (stream, pending list, delayed set, dead-letter log,
  job hashes) and one function for each script and transaction; `JobProtocol`
  is the transition system of producers, workers, reapers and schedulers, each
  with its own clock, any of which may crash between two calls. `JobScripts`
  has the scripts, the worker, the reaper and the scheduler as imperative code
  proved against those functions. `JobNoLoss`, `JobBound`, `JobTight`,
  `JobPlaces`, `JobClaims`, `JobLimit`, `JobTimely`, `JobSplit`, `JobDelayed`,
  `JobRequeue` and `JobEffects` hold the results; `Descent` is the
  well-foundedness argument behind `JobSplit`. `Backoff` and `WorkerLoop` model
  the retry delay and the fetch loop with its semaphore.
* **Workflow builder** (`apps/workflow-builder`). `Document` folds operations
  into documents and `DocHistory` reads documents off their operations, `OpLog`
  interleaves appends, hydrations and snapshot writes, `Engine` runs a document
  under its step budget and `Execution` says which way a run goes.
* **API gateway** (`apps/api-gateway`). `RateLimit` is the sliding-window
  script, `Circuit` the per-upstream breaker with the retry loop that drives
  it and `CircuitWindow` what it counts, `MetricKeys` the text under which
  counters are stored.
* **Feature flags** (`apps/feature-flags`). `BlankLines`, `Frames`, `Edge` and
  `SdkClient` are the event stream from the edge server to the SDK client,
  `Survival` says which announcements survive it. `Conditions`, `Compiler`,
  `Buckets` and `Evaluator` are the path from a flag definition to an
  evaluation, `Operators` what a condition means, `Flags` what the path
  promises.
* **Observability** (`apps/observability`). `ServiceMap` keeps the rolling
  averages, `ServiceFigures` says what they count; `Buffering`, `Sampling` and `Flushing` are the buffer, the sampling
  decision and the flush worker, `Traces` the runs in which ticks overlap.

Code that changes state is a class or a method with loops, proved against a
function of the old state; the laws are lemmas about those functions and about
whole runs. Times, delays, averages and rates are reals. Redis and MongoDB
calls are exact models of the operations used; handlers, node runners, JSON
text and regular expressions are arbitrary parameters. `Wrappers` holds an
option type and the names a plain object inherits.

Where the code and its documentation disagree, the code is modelled:

* The gateway's README says a half-open breaker allows exactly one probe at a
  time. The transition to half open does not set the in-flight flag, so it
  admits two (`Circuit.TwoProbesAdmitted`, `Circuit.AtMostTwoProbes`).
* The feature-flag README says rule evaluation never crashes. A pattern that
  is not a regular expression makes it throw (`Flags.BrokenPatternThrows`,
  `Flags.ThrowsIff`).
* A job's attempt limit is not a bound on its runs once a worker outlives the
  visibility timeout: the attempt count travels inside the stream entry, so a
  stale worker and every reaper can each retry it. The exact worst case with R
  reapers is the sum of (1 + R)^i for i below maxAttempts, 2^maxAttempts - 1
  with one (`JobBound.BoundedWork`, `JobTight.BoundAttained`), so the limit is
  kept exactly when there is no reaper or it is at most one
  (`JobTight.LimitHoldsIff`), or in runs in which no reaper claims an entry
  somebody is working on (`JobLimit.LimitKept`).
* The limiter's "at most max in any window" fails once a request is accepted
  under a member still in the sorted set (two requests of one millisecond with
  the same random suffix): its entry is moved, not added
  (`RateLimit.RepeatOverruns`, `RateLimit.BoundHoldsIff`).
* Object lookups find inherited names: an edge between nodes called
  `constructor` and `toString` is accepted on an empty document
  (`Document.InheritedNamesDangle`), and a flag variant of such a name resolves
  to a built-in (`Flags.MeaningKeptIff`).

## Model

| member | source | states |
|---|---|---|
| Backoff.DelayWithinCapIff | apps/job-queue/src/retry.ts:3-25 | for non-negative options and any jitter draw the delay lies within [0, cap] exactly when the kind is one of the declared three or the raw delay already does |
| Backoff.DelayIs | apps/job-queue/src/retry.ts:3-25 | against any series that starts at the delay and grows by the factor: the n-th exponential delay is the n-th of the series or the cap, jitter the whole milliseconds of a random part of it, a fixed delay the first or the cap |
| JobStore.DueMembers | apps/job-queue/src/lua.ts:8-8 | the members a move takes are distinct, in the delayed set, and due |
| JobStore.PromoteAllRemoves | apps/job-queue/src/lua.ts:10-21 | a move takes exactly its members out of the delayed set, with or without a hash behind them |
| JobScripts.Redis.Add | apps/job-queue/src/queue.ts:76-101 | the transaction writes the hash and puts the job in the delayed set or at the end of the stream, never both |
| JobScripts.Redis.AckAndComplete | apps/job-queue/src/lua.ts:25-36 | the script removes the entry from pending list and stream and marks the hash completed |
| JobScripts.Redis.AckAndRetry | apps/job-queue/src/lua.ts:38-59 | the script removes the entry, writes state and attempts and adds the job to the delayed set at its run time |
| JobScripts.Redis.AckAndDead | apps/job-queue/src/lua.ts:61-81 | the script removes the entry, marks the hash dead and appends the record to the dead-letter log |
| JobScripts.Redis.MoveDelayed | apps/job-queue/src/lua.ts:3-23 | the loop over due members promotes those with a hash, drops the others, and counts the promoted ones |
| JobScripts.Redis.ReadOne | apps/job-queue/src/worker.ts:98-121 | a group read delivers the first live entry past the cursor and makes it pending |
| JobScripts.Redis.Claim | apps/job-queue/src/reaper.ts:105-119 | a claim succeeds only on an entry idle for the given time and resets its idle time; an entry deleted meanwhile leaves the pending list |
| JobScripts.Redis.Requeue | apps/job-queue/src/dlq.ts:53-73 | a requeue puts a fresh entry with attempts zero on the stream when the hash exists, and changes nothing otherwise |
| JobScripts.Worker.ProcessOne | apps/job-queue/src/worker.ts:123-243 | a processed entry ends completed, dead-lettered or delayed, by the handler's result and the attempt count inside the entry |
| JobScripts.ProcessOneIsAStep | apps/job-queue/src/worker.ts:164-233 | undisturbed, that is one step of the transition system |
| JobScripts.Stale | apps/job-queue/src/reaper.ts:85-103 | the listed entries are pending, idle long enough, in order and within the batch, and complete when fewer than the batch |
| JobScripts.Reaper.HandlePending | apps/job-queue/src/reaper.ts:105-180 | one pending entry is claimed and delayed or killed, or left alone when it cannot be claimed |
| JobScripts.Reaper.Tick | apps/job-queue/src/reaper.ts:71-83 | a tick sweeps the listed entries and counts each as reclaimed or killed, the killed being those the dead-letter log gains |
| JobScripts.SweepRemoves | apps/job-queue/src/reaper.ts:71-83 | after a sweep exactly the swept entries are gone from stream and pending list |
| JobScripts.SweepRoutes | apps/job-queue/src/reaper.ts:138-179 | each swept job is in the delayed set or, its attempts used up, in the dead-letter log |
| JobScripts.Scheduler.Tick | apps/job-queue/src/scheduler.ts:46-54 | a tick moves the due members and returns how many had a live hash |
| JobProtocol.ExecKeeps | apps/job-queue/src/lua.ts:3-81 | what every step keeps holds at the end of every run |
| JobNoLoss.SafeStep | apps/job-queue/src/lua.ts:3-81 | every step keeps each unexpired job in the stream, pending, delayed, or ended since it was last added or requeued |
| JobNoLoss.NoJobLost | apps/job-queue/src/worker.ts:164-233 | in every reachable state each added job whose hash has not expired has a stream entry, is delayed, or has been completed or dead-lettered since it was last added or requeued, with crashes anywhere and stale workers |
| JobEffects.Completes | apps/job-queue/src/worker.ts:164-186 | a completed job is off stream and pending list, its hash marked completed and otherwise as it was |
| JobEffects.WorkerSettles | apps/job-queue/src/worker.ts:187-233 | a failed attempt dead-letters the entry's record with one more attempt when that is its last, else delays the job until its backoff is over with that attempt on its record, and nothing else changes |
| JobEffects.ReaperSettles | apps/job-queue/src/reaper.ts:138-180 | a reaper leaves exactly what the worker would have left |
| JobEffects.Claims | apps/job-queue/src/reaper.ts:105-119 | a claim takes over an entry idle for the visibility time and starts its idle time again, and only forgets one already deleted |
| JobEffects.ClaimableIff | apps/job-queue/src/reaper.ts:85-116 | a reaper not at work can claim exactly the pending entries idle for the visibility time |
| JobEffects.Reads | apps/job-queue/src/worker.ts:98-121 | a read delivers the first entry neither delivered nor deleted, and nothing when there is none |
| JobEffects.Expires | apps/job-queue/src/queue.ts:94-94 | an expiry removes the job's hash and nothing else |
| JobEffects.ReapedIsTwoSteps | apps/job-queue/src/reaper.ts:105-180 | undisturbed, a reaper's handling of an entry is its claim and one step more |
| JobEffects.DeadLettersAreSpent | apps/job-queue/src/lua.ts:61-81 | over every interleaving each dead-letter record is that of an entry now gone, with one more attempt, which is the last its job is allowed |
| JobRequeue.StartsAfresh | apps/job-queue/src/dlq.ts:53-73 | a requeue appends one entry with attempts zero, waiting, unscheduled, with the limit and backoff of the hash, which says the same; nothing else changes |
| JobRequeue.RequeueGivesAllRuns | apps/job-queue/src/dlq.ts:53-73 | wherever an undisturbed run has come to, a dead job that is requeued has its handler run max(1, maxAttempts) times more in some undisturbed continuation and more often in none |
| JobBound.TotalIsGeometric | apps/job-queue/src/worker.ts:126-135 | the weight of a new entry with m attempts is the sum of (1 + reapers)^i for i below m |
| JobBound.BoundedStep | apps/job-queue/src/lua.ts:3-81 | no step raises invocations made plus weight of what can still run |
| JobBound.BoundedWork | apps/job-queue/src/worker.ts:123-243 | a job added once and never requeued has its handler invoked at most that sum of times in every interleaving |
| JobBound.BoundedWorkOneReaper | apps/job-queue/src/reaper.ts:105-180 | with one reaper that is 2^maxAttempts - 1 |
| JobBound.BoundedWorkNoReaper | apps/job-queue/src/worker.ts:123-243 | without a reaper it is the attempt limit itself |
| JobTight.WorstRun | apps/job-queue/src/reaper.ts:105-180 | for every number of reapers and every attempt limit a run exists in which every entry is retried by its stale worker and by every reaper |
| JobTight.BoundAttained | apps/job-queue/src/worker.ts:126-135 | the bound is attained for every number of reapers and every attempt limit, with a single clock for everybody |
| JobTight.LimitHoldsIff | apps/job-queue/src/worker.ts:123-243 | no run of a job added once invokes its handler more often than max(1, maxAttempts) times exactly when there is no reaper or the limit is at most one |
| JobPlaces.OrderlyClaimed | apps/job-queue/src/reaper.ts:105-119 | a claim of an entry nobody is working on keeps each job in one place |
| JobPlaces.OrderlyNote | apps/job-queue/src/worker.ts:221-221 | the hash write between the two calls of a retry changes neither the job's place nor the state naming it |
| JobPlaces.OrderlyStep | apps/job-queue/src/lua.ts:3-81 | every step keeps each job in one place and its hash naming that place, as long as a reaper claims only entries nobody is working on, however long they are held |
| JobPlaces.ExactlyOnePlace | apps/job-queue/src/worker.ts:187-233 | in runs in which no reaper claims an entry somebody is working on, with fresh ids and requeuing only dead jobs, every unexpired job is in exactly one of stream, delayed set, completed and dead, and the hash state names it after every step |
| JobClaims.HeldClaimBreaks | apps/job-queue/src/reaper.ts:105-180 | after any claim of an entry somebody is working on, some continuation without another such claim puts the job in two places |
| JobClaims.ClaimKeepsIff | apps/job-queue/src/reaper.ts:105-119 | a claim leaves the job in exactly one place for ever after exactly when nobody is working on the entry |
| JobLimit.FitsStep | apps/job-queue/src/worker.ts:187-233 | every such step keeps invocations made plus runs left within the attempt limit |
| JobLimit.LimitKept | apps/job-queue/src/worker.ts:187-233 | in runs in which no reaper claims an entry somebody is working on the handler runs at most max(1, maxAttempts) times, with the retry as two calls |
| JobTimely.OnePlaceInTime | apps/job-queue/src/reaper.ts:85-119 | when no process outlives the visibility timeout every unexpired job is in exactly one place and its hash names it |
| JobTimely.LimitKeptInTime | apps/job-queue/src/reaper.ts:85-119 | nor does its handler then run more than max(1, maxAttempts) times |
| JobProtocol.RetryIsTwoCalls | apps/job-queue/src/worker.ts:221-233 | the worker's one-step retry is its hash write followed by its script |
| JobProtocol.ReaperRetryIsTwoCalls | apps/job-queue/src/reaper.ts:166-178 | the same for the reaper |
| JobSplit.WeaklyStep | apps/job-queue/src/worker.ts:221-233 | with the two calls apart no step raises the rank, which is lexicographic over attempt levels |
| Descent.Settles | apps/job-queue/src/worker.ts:221-233 | a sequence of lexicographic ranks that never rises settles, which bounds the retries |
| JobSplit.FinitelyManyRuns | apps/job-queue/src/worker.ts:123-243 | when nobody dies between the two calls, an infinite run invokes a job's handler only finitely often, for any number of reapers and any interleaving of the calls |
| JobDelayed.DueIsLeastFirst | apps/job-queue/src/lua.ts:8-8 | a move takes due members by ascending score, ties by id, up to the limit, and skips none |
| JobDelayed.PromoteAllAppends | apps/job-queue/src/lua.ts:10-21 | a move appends one stream entry for each member with a live hash, in order, carrying the hash's data |
| JobDelayed.TicksAddUp | apps/job-queue/src/scheduler.ts:46-54 | n ticks of a batch move what one move of n batches does |
| JobDelayed.BacklogDrained | apps/job-queue/src/scheduler.ts:46-54 | k due members are all gone after k / batch ticks rounded up, each with a live hash on the stream, in score order |
| JobDelayed.PromotedAtMostOnce | apps/job-queue/src/lua.ts:10-21 | under any number of schedulers a job is promoted at most once for each time it entered the delayed set |
| JobDelayed.RetryScoreWithinCap | apps/job-queue/src/worker.ts:214-218 | a retry's score lies within [now, now + cap] for every declared backoff kind and every attempt |
| JobDelayed.AddSchedules | apps/job-queue/src/queue.ts:60-101 | a job added with a delay is in the delayed set, due when the delay has passed and not before, and not on the stream; without one it is at the end of the stream |
| WorkerLoop.Semaphore.Acquire | apps/job-queue/src/semaphore.ts:18-25 | takes a free slot or queues a waiter |
| WorkerLoop.Semaphore.Release | apps/job-queue/src/semaphore.ts:27-31 | frees a slot and wakes the first waiter |
| WorkerLoop.NeverWaits | apps/job-queue/src/worker.ts:75-96 | over every interleaving of completions and the fetch loop, running handlers never exceed the concurrency, the free slots are the rest, and acquire finds one at once |
| WorkerLoop.GoesOn | apps/job-queue/src/worker.ts:75-96 | the loop always has a next move, and is idle again after a failed or empty read |
| WorkerLoop.EachEntryHandledOnce | apps/job-queue/src/worker.ts:92-95 | between reads as many handlers have been started as entries returned |
| WorkerLoop.SecondAcquirerOverruns | apps/job-queue/src/semaphore.ts:18-31 | at every capacity a second acquirer can slip in between a release and the woken waiter, and one slot too many is taken |
| Document.Materialize | apps/workflow-builder/src/ops/apply.ts:63-70 | the loop is the fold of the operations |
| Document.KeepEdges | apps/workflow-builder/src/ops/apply.ts:24-36 | deleting a node keeps exactly the edges not touching it, in any enumeration |
| Document.KeepsFormIff | apps/workflow-builder/src/ops/apply.ts:7-61 | an operation keeps keys equal to ids and no edge dangling exactly when its guard is not fooled by an inherited name |
| Document.FormedThroughoutIff | apps/workflow-builder/src/ops/apply.ts:63-70 | the same for whole operation sequences from the empty document |
| Document.OrdinaryOpsKeepForm | apps/workflow-builder/src/ops/apply.ts:7-61 | operations that mention no inherited name always build well-formed documents |
| Document.InheritedNamesDangle | apps/workflow-builder/src/ops/apply.ts:45-54 | an edge between two inherited names is accepted and dangles |
| Document.FoldConcat | apps/workflow-builder/src/ops/apply.ts:63-70 | folding in two parts is folding the whole |
| DocHistory.PresentIff | apps/workflow-builder/src/ops/apply.ts:7-42 | a node is in the document exactly when some operation created it after its last deletion |
| DocHistory.PositionIff | apps/workflow-builder/src/ops/apply.ts:9-31 | a node's position is that of the last add or move since its last deletion |
| DocHistory.KindIff | apps/workflow-builder/src/ops/apply.ts:9-31 | its kind is that of the last add since |
| DocHistory.PropertyIff | apps/workflow-builder/src/ops/apply.ts:32-42 | a property has the value of the last operation on that key since the last add, else the one the add gave it |
| DocHistory.EdgeIff | apps/workflow-builder/src/ops/apply.ts:22-55 | an edge is in the document exactly when it was accepted after it was last deleted or replaced and after either end was last deleted |
| DocHistory.EdgesKeyed | apps/workflow-builder/src/ops/apply.ts:43-49 | every edge is under its own id |
| OpLog.ConsistentStep | apps/workflow-builder/src/socket/gateway.ts:87-100 | every append, read and snapshot write keeps log, snapshot and hydrations in progress consistent |
| OpLog.SnapshotEquivalence | apps/workflow-builder/src/repo/workflows.ts:51-75 | over every interleaving, with stale snapshot writes, stored numbers are 1..n in order, the snapshot is the fold of its prefix, and a hydration is the fold up to the number it reports |
| OpLog.HydrationIsCurrent | apps/workflow-builder/src/repo/workflows.ts:65-75 | a hydration whose second read sees the whole log returns the fold of the whole log, however old its snapshot |
| OpLog.SnapshotCatchesUp | apps/workflow-builder/src/repo/workflows.ts:51-75 | a hydration and snapshot write that nothing interrupts bring the snapshot up to the end of the log |
| OpLog.InsertsOrGivesUp | apps/workflow-builder/src/repo/ops.ts:17-30 | in every interleaving an insert stores the operation last submitted under the number read unless that is taken; the client then reads again, and gives up on its fifth such insert |
| OpLog.AppendsWhenAlone | apps/workflow-builder/src/repo/ops.ts:7-30 | an append that nothing interrupts stores its operation under the next number |
| OpLog.OpRepo.Round | apps/workflow-builder/src/repo/ops.ts:7-30 | one round inserts under the next number exactly when no rival stored between its read and its insert, whatever rivals stored before |
| OpLog.OpRepo.Append | apps/workflow-builder/src/repo/ops.ts:17-30 | append succeeds exactly when in one of its five rounds no rival stores between read and insert, under the number after everything stored by then, and otherwise stores nothing |
| OpLog.SinceIsSuffix | apps/workflow-builder/src/repo/ops.ts:32-38 | the operations since a number are the rest of the log |
| OpLog.CatchUpComplete | apps/workflow-builder/src/socket/gateway.ts:129-141 | catching up page by page misses nothing and repeats nothing |
| Engine.FillInbound | apps/workflow-builder/src/execution/engine.ts:45-46 | the loop collects exactly the ids some edge leads to |
| Engine.RunRecord.PatchStep | apps/workflow-builder/src/repo/runs.ts:50-66 | the positional update changes the first step with the node id and no other |
| Engine.PatchFirst | apps/workflow-builder/src/repo/runs.ts:50-66 | what that update does, by the position of the first match |
| Engine.ExecuteWorkflow | apps/workflow-builder/src/execution/engine.ts:83-167 | the loop computes the run the walk function describes, result and step records |
| Execution.ChosenIff | apps/workflow-builder/src/execution/engine.ts:53-64 | the edge taken is the first listed one leaving the node that is labelled with the outcome's branch, else the first unlabelled or default one; there is none exactly when neither exists |
| Execution.BeginsIff | apps/workflow-builder/src/execution/engine.ts:41-51 | a run begins at the first node of kind start, else at the first that no edge leads to |
| Execution.MovesAsChosen | apps/workflow-builder/src/execution/engine.ts:153-156 | from a node a run goes to the node its chosen edge names |
| Execution.RunIsTrace | apps/workflow-builder/src/execution/engine.ts:83-167 | a run goes along such a trace, of at most 200 nodes, and its result and every step record are those the trace tells |
| Engine.NextFollowsEdge | apps/workflow-builder/src/execution/engine.ts:53-64 | the next node is the target of an edge of the current one |
| Engine.NextIsNode | apps/workflow-builder/src/execution/engine.ts:153-156 | on a well-formed document every cursor move finds a node |
| Engine.SucceedsIff | apps/workflow-builder/src/execution/engine.ts:97-166 | a run succeeds exactly when the walk from the start node completes, every node returning, in fewer than 200 nodes |
| Engine.AllSettledIff | apps/workflow-builder/src/repo/runs.ts:46-66 | a run leaves some step running for ever exactly when it visits a node twice |
| Engine.AlwaysSettlesIff | apps/workflow-builder/src/execution/engine.ts:97-166 | whatever the nodes return or throw no step is left running, exactly when no walk of at most 200 nodes from the start node, along edges some branch outcome picks, returns to a node |
| Engine.SmallAlwaysSettlesIff | apps/workflow-builder/src/execution/engine.ts:97-166 | with fewer than 200 nodes, exactly when no such walk of any length does |
| Engine.AcyclicRun | apps/workflow-builder/src/execution/engine.ts:97-166 | on a document in which no walk along edges returns to its start no node is visited twice; every step succeeded, or the last one's node threw and the run failed with what it threw; and with a start node and fewer than 200 nodes there is no other way to fail |
| RateLimit.RateLimiter.Check | apps/api-gateway/src/middleware/rateLimit.ts:5-27 | the script's reply and the key it leaves |
| RateLimit.AcceptsUnlessLimited | apps/api-gateway/src/middleware/rateLimit.ts:11-26 | a request is counted as accepted exactly when the reply is not limited, and then alone it enters the set |
| RateLimit.ReplyCounts | apps/api-gateway/src/middleware/rateLimit.ts:9-27 | a reply names the limit and the number of accepted requests in the window, this one included if it is accepted, and is limited exactly when they are max already |
| RateLimit.TrimIsWindow | apps/api-gateway/src/middleware/rateLimit.ts:9-10 | neither the trim nor the expiry of the key drops an accepted request still inside the window, and nothing older survives |
| RateLimit.SetIsWindow | apps/api-gateway/src/middleware/rateLimit.ts:5-27 | after every run of checks, repeated members included, the sorted set is exactly the members accepted within the window, each at its last acceptance |
| RateLimit.WindowBound | apps/api-gateway/src/middleware/rateLimit.ts:11-26 | every interval of the window's length, wherever it lies, holds at most max accepted requests in every run in which no request is accepted under a member still live |
| RateLimit.RetryExact | apps/api-gateway/src/middleware/rateLimit.ts:11-26 | with retry r of at least 1, every check before now + r is limited and changes nothing, and one at now + r is accepted |
| RateLimit.RepeatOverruns | apps/api-gateway/src/middleware/rateLimit.ts:11-26 | after any request accepted under a live member, the fresh requests there is room for in the same instant all pass and make max + 1 in the window |
| RateLimit.BoundHoldsIff | apps/api-gateway/src/middleware/rateLimit.ts:44-88 | the next request leaves the bound safe for every continuation without repeats exactly when it is not accepted under a live member itself |
| Circuit.CircuitBreaker.Allow | apps/api-gateway/src/middleware/circuit.ts:40-59 | the admission decision and the state it leaves, for this key only |
| Circuit.CircuitBreaker.Success | apps/api-gateway/src/middleware/circuit.ts:61-80 | a success closes a half-open breaker with fresh counters and counts otherwise |
| Circuit.CircuitBreaker.Failure | apps/api-gateway/src/middleware/circuit.ts:82-106 | a failure reopens a half-open breaker, and trips a closed one exactly at the threshold |
| Circuit.SoundStep | apps/api-gateway/src/middleware/circuit.ts:40-106 | every admission, record and passage of time keeps the breaker's invariant |
| Circuit.NoEarlyAdmission | apps/api-gateway/src/middleware/circuit.ts:40-59 | over every interleaving nothing is admitted less than openMs after the breaker last opened |
| Circuit.AtMostTwoProbes | apps/api-gateway/src/middleware/circuit.ts:44-57 | a half-open episode has one or two admitted calls that have not recorded, and admits another exactly when it is one |
| Circuit.NeverStuck | apps/api-gateway/src/proxy/handler.ts:140-195 | an open breaker admits as soon as openMs has passed; a half-open one has a call out whose report, whatever it is, ends the episode |
| Circuit.RecordedOncePerAdmission | apps/api-gateway/src/proxy/handler.ts:140-195 | every admission is recorded exactly once, and a request is admitted at most as often as its own route's maxRetries + 1 |
| Circuit.TwoProbesAdmitted | apps/api-gateway/src/middleware/circuit.ts:44-57 | two requests get through one half-open episode |
| CircuitWindow.WindowIs | apps/api-gateway/src/middleware/circuit.ts:61-98 | a window begins at the start, with a successful probe, or at the first report more than windowMs after the one before it began |
| CircuitWindow.CountersAreReports | apps/api-gateway/src/middleware/circuit.ts:61-98 | over every interleaving total and failures are the number of reports in the current window and of those that failed |
| CircuitWindow.ModeAfterReport | apps/api-gateway/src/middleware/circuit.ts:61-106 | a closed breaker opens exactly on a failure with which the window has minRequests reports and a share of failures at or above errorRate; a half-open one opens on a failure and closes on a success |
| CircuitWindow.AdmitsIff | apps/api-gateway/src/middleware/circuit.ts:40-59 | requests are admitted exactly while the breaker is closed, once openMs has passed since it opened, and while a half-open episode has admitted one only |
| CircuitWindow.LastErrorIs | apps/api-gateway/src/middleware/circuit.ts:71-85 | the error kept is that of the last failure, until a probe succeeds |
| CircuitWindow.AsksOnce | apps/api-gateway/src/proxy/handler.ts:140-195 | a refused request is done and leaves the breaker as it was; an admitted one is in flight with the retries made |
| CircuitWindow.RetriesIff | apps/api-gateway/src/proxy/handler.ts:140-195 | a request tries again exactly when its route has retries left and the report is a status it retries on or an error before the headers were sent |
| Circuit.RoundsAreACourse | apps/api-gateway/src/proxy/handler.ts:140-195 | the retry loop is a course of the gate in which no other request moves; it answers that the circuit is open exactly when its last move is an admission refused |
| Circuit.Handle | apps/api-gateway/src/proxy/handler.ts:140-195 | the retry loop records once per admission, stops at its limit and touches one breaker only |
| MetricKeys.EscapeIsOnePass | apps/api-gateway/src/metrics/counters.ts:51-53 | the three replacements one after the other are a single pass over the text |
| MetricKeys.ReadUndoesEscape | apps/api-gateway/src/metrics/counters.ts:51-53 | reading an escaped value up to its quote gives the value back, for every value |
| MetricKeys.KeysAreInjective | apps/api-gateway/src/metrics/counters.ts:43-49 | metrics with plain names have the same key exactly when they are equal |
| MetricKeys.KeyIgnoresOrder | apps/api-gateway/src/metrics/counters.ts:44-46 | the key does not depend on the order in which labels were inserted |
| MetricKeys.KeyIsItsLabels | apps/api-gateway/src/metrics/counters.ts:43-49 | keys are equal exactly when name and label map are, for names without a brace and labels without an equals sign |
| MetricKeys.OtherNamesCollide | apps/api-gateway/src/metrics/counters.ts:43-49 | keys do coincide for a name that looks like a rendered metric, and for a label name that holds `="` |
| MetricKeys.SortSorts | apps/api-gateway/src/metrics/counters.ts:46-46 | sorting the label names leaves the same names, ascending |
| MetricKeys.Counters.Inc | apps/api-gateway/src/metrics/counters.ts:5-8 | each counter is the sum of all increments whose key text it has, over the whole history, which for plain names are its own and no other's |
| MetricKeys.Counters.Observe | apps/api-gateway/src/metrics/counters.ts:10-19 | a histogram holds the last 5000 observations |
| MetricKeys.RecentIs | apps/api-gateway/src/metrics/counters.ts:15-18 | those are a suffix of all observations, of length 5000 unless there are fewer |
| BlankLines.CutFrames | apps/feature-flags/src/sdk/node.ts:125-131 | cutting at the leftmost blank line gives a framing of the text |
| BlankLines.FramingUnique | apps/feature-flags/src/sdk/node.ts:125-131 | a text has only one framing |
| BlankLines.CutResumes | apps/feature-flags/src/sdk/node.ts:124-131 | cutting may be interrupted anywhere and resumed with the leftover |
| Edge.CutUndoesPrint | apps/feature-flags/src/sse/edge.ts:24-45 | cutting what the server printed gives back its frames, nothing left over, and exactly the announcements in order |
| Edge.ArrivedIsPrefix | apps/feature-flags/src/sdk/node.ts:120-153 | from any part of the stream that has arrived the client recovers a prefix of the announcements, from all of it all |
| Survival.AnnouncementSurvivesIff | apps/feature-flags/src/sse/edge.ts:38-41 | an announcement comes back as itself exactly when its payload is one nonempty line |
| Frames.DataIs | apps/feature-flags/src/sdk/node.ts:138-144 | a frame's data is one payload whose lines are the texts of its data lines, in order, and none without a data line |
| Frames.EventNameIs | apps/feature-flags/src/sdk/node.ts:138-140 | its event is the trimmed rest of the last line that names one |
| Frames.TrimIs | apps/feature-flags/src/sdk/node.ts:140-140 | trimming takes blanks off both ends and leaves none there |
| SdkClient.CatchesUp | apps/feature-flags/src/sdk/node.ts:145-153 | when the requests made are answered with a ruleset at least as new as announced, the client ends no older than any announcement for its environment and never goes back |
| SdkClient.VersionMoves | apps/feature-flags/src/sdk/node.ts:86-94 | the version moves exactly when a newer one of the client's own environment is announced and the answer to its request is newer than the one held, and then to that answer |
| SdkClient.FeatureFlagClient.InstallRuleset | apps/feature-flags/src/sdk/node.ts:86-94 | the version held never goes down |
| SdkClient.FeatureFlagClient.HandleSseChunk | apps/feature-flags/src/sdk/node.ts:135-153 | a frame is acted on exactly when it is a ruleset event with data, with the joined data lines |
| SdkClient.FeatureFlagClient.Drain | apps/feature-flags/src/sdk/node.ts:125-131 | the inner loop handles every complete frame of the buffer in order and keeps the rest |
| SdkClient.FeatureFlagClient.Connect | apps/feature-flags/src/sdk/node.ts:112-133 | what a connection hears and the version it ends with depend on the whole text alone, for every way of cutting it into reads |
| Compiler.CompileFlag | apps/feature-flags/src/compiler/compile.ts:3-21 | the loop over variants and the copied fields are the compiled flag, none without a configuration for the environment |
| Compiler.CompileRuleset | apps/feature-flags/src/compiler/compile.ts:23-39 | the ruleset holds the configured flags in order |
| Evaluator.RulesetIndex.constructor | apps/feature-flags/src/compiler/eval.ts:118-122 | the index maps each key to the last flag that has it |
| Evaluator.RulesetIndex.Eval | apps/feature-flags/src/compiler/eval.ts:124-135 | evaluation by key, with the missing flag's answer |
| Conditions.MatchesIff | apps/feature-flags/src/compiler/eval.ts:40-47 | conditions match exactly when each of them holds |
| Conditions.BreaksIff | apps/feature-flags/src/compiler/eval.ts:36-47 | matching throws exactly when some condition breaks (its pattern is not one, or its operator is an inherited name that cannot be called so) and all conditions before it hold |
| Operators.OneRuleIff | apps/feature-flags/src/compiler/eval.ts:12-47 | evaluated from its definition on, a flag with a rule of one condition gives the rule's variant exactly when what its operator means is true of the attribute's value, and throws exactly when the operator breaks on it |
| Operators.PrefixReadsSame | apps/feature-flags/src/compiler/eval.ts:12-19 | an attribute reads the same with the prefix "attrs." and without, for plain keys |
| Flags.ResolveIff | apps/feature-flags/src/compiler/eval.ts:49-54 | a compiled lookup finds the last variant declared under a name, exactly when no inherited property stands in for it |
| Flags.MeansUnique | apps/feature-flags/src/compiler/eval.ts:56-100 | a flag definition means one outcome for a context |
| Flags.MeaningKeptIff | apps/feature-flags/src/compiler/compile.ts:6-7 | configurations naming one variant are evaluated as they mean for every context exactly when its name is not taken by an inherited property |
| Flags.CompilationPreservesMeaning | apps/feature-flags/src/compiler/compile.ts:3-39 | compiling, indexing and evaluating gives what the last configured definition of the key means, or says the flag is missing |
| Flags.ThrowsIff | apps/feature-flags/src/compiler/eval.ts:68-80 | whatever the flag and its variants are called, evaluation throws exactly when the flag is enabled and the first rule to halt the search has a breaking condition with only holding ones before it |
| Flags.BrokenPatternThrows | apps/feature-flags/src/compiler/eval.ts:36-37 | one rule with a broken pattern is enough |
| Buckets.Fnv1a32 | apps/feature-flags/src/compiler/bucket.ts:5-12 | the loop computes the 32-bit hash of the text's code units |
| Buckets.Bucket | apps/feature-flags/src/compiler/bucket.ts:14-17 | a bucket is below 10000 |
| Buckets.XorBits | apps/feature-flags/src/compiler/bucket.ts:8-8 | bit i of an exclusive or is set exactly when it is in one of the two |
| Buckets.HashIs | apps/feature-flags/src/compiler/bucket.ts:5-12 | any sequence that starts at the offset and goes on by exclusive or with the next unit and multiplication with the prime, in 32 bits, ends at the hash |
| Buckets.SurrogatesStand | apps/feature-flags/src/compiler/bucket.ts:8-8 | a character beyond the basic plane gives its two surrogates |
| Buckets.BucketIs | apps/feature-flags/src/compiler/bucket.ts:14-17 | a user's bucket is what such a sequence over the flag's key, a bar and the user's id leaves modulo 10000 |
| Buckets.InRolloutIff | apps/feature-flags/src/compiler/bucket.ts:19-27 | for every percentage a user is in exactly when the bucket is below a hundred times it: the shortcuts change nothing |
| Flags.RolloutIsMonotone | apps/feature-flags/src/compiler/eval.ts:81-99 | raising the percentage leaves an outcome alone or moves it from the default to the rollout variant |
| ServiceMap.RecordedIff | apps/observability/src/storage/services.ts:76-86 | a call is recorded under its own two services exactly when neither name is empty or holds an arrow |
| ServiceMap.ArrowsConflate | apps/observability/src/storage/services.ts:76-86 | with an arrow in a name calls between different services share one edge |
| ServiceMap.EdgeGetsItsChildren | apps/observability/src/storage/services.ts:70-86 | in a trace with plain service names the calls recorded for an edge are exactly the spans of its one service whose parent is in its other |
| ServiceMap.ByIdIsLast | apps/observability/src/storage/services.ts:15-16 | a parent id finds the last span that has it |
| ServiceMap.RollingMean | apps/observability/src/storage/services.ts:44-61 | the weighted update of an exact mean is the mean of everything |
| ServiceMap.GroupByService | apps/observability/src/storage/services.ts:14-23 | the loop tallies count, duration and errors of each service |
| ServiceMap.GroupByEdge | apps/observability/src/storage/services.ts:70-83 | the loop tallies the calls whose parent is in another service, by key |
| ServiceMap.ServiceMapStore.UpsertService | apps/observability/src/storage/services.ts:25-68 | the two writes add one trace's mean to a service's mean of means |
| ServiceMap.ServiceMapStore.UpsertEdge | apps/observability/src/storage/services.ts:87-126 | the two writes add a group of calls to an edge's mean |
| ServiceMap.ServiceMapStore.Materialize | apps/observability/src/storage/services.ts:13-128 | after any sequence of traces each service's average is the mean of its per-trace means, each edge's the mean of all its calls, and counts, errors and times seen agree with the history |
| ServiceMap.EdgesByService | apps/observability/src/storage/services.ts:70-126 | with plain service names an edge's count, errors and average are those of exactly the child spans between its two services in the whole history |
| ServiceFigures.EdgeFigures | apps/observability/src/storage/services.ts:70-126 | that is, the number of those spans, of those of them that failed, and the mean of their durations, over all traces |
| ServiceFigures.ServiceFigures | apps/observability/src/storage/services.ts:14-69 | a service's document counts the traces that touch it and its failed spans, averages the means of those traces, and has the start of the first and the end of the last of them |
| ServiceFigures.EdgeSeen | apps/observability/src/storage/services.ts:77-95 | with plain service names an edge was last seen at the latest end of its child spans in the last trace that has any |
| Buffering.TraceBuffer.Add | apps/observability/src/ingest/buffer.ts:12-24 | a span joins the bucket of its trace, and nothing else changes |
| Buffering.TraceBuffer.DrainIdle | apps/observability/src/ingest/buffer.ts:30-40 | exactly the idle buckets leave, in order, and every span is in what left or what stayed |
| Buffering.AddJoins | apps/observability/src/ingest/buffer.ts:12-24 | a span joins its trace's bucket, idle from now on, and leaves the others; the bucket of a new trace is the last |
| Sampling.SlowIff | apps/observability/src/sampling/tail.ts:23-65 | a trace is slow exactly when some span of it ends that long after some span of it starts, or no time at all is slow |
| Sampling.KeptIff | apps/observability/src/sampling/tail.ts:23-65 | a trace is kept exactly when it has an error, is slow, or the draw is below the sample rate |
| Sampling.DocumentTells | apps/observability/src/sampling/tail.ts:23-65 | a kept trace's document has its first start, last end, duration, and numbers of spans and errors |
| Traces.DecideJudges | apps/observability/src/sampling/tail.ts:23-65 | whatever the draw, a trace is dropped only if it has no error and is not slow, and kept for the reason it deserves |
| Traces.FlightTakes | apps/observability/src/sampling/worker.ts:31-42 | a tick makes a flight of exactly the idle traces and counts those it leaves; a final flush makes one of them all |
| Traces.SpansStep | apps/observability/src/sampling/worker.ts:31-55 | every move keeps each span in exactly one of buffer, process, stored, dropped and lost |
| Traces.TracesAreConserved | apps/observability/src/sampling/worker.ts:31-55 | over every interleaving of adds, overlapping ticks and failing writes, spans and traces are conserved, reasons add up, and no trace mixes spans of two |
| Traces.CleanRun | apps/observability/src/sampling/worker.ts:44-55 | without failed writes, flushed, dropped and in process are all that was drained, and no span with an error is dropped |
| Traces.RunFromStart | apps/observability/src/sampling/worker.ts:31-55 | so in every run from the start of the service |
| Flushing.ProcessedEffect | apps/observability/src/sampling/worker.ts:44-55 | what processing one trace does to counters, store and the rest of its tick, by decision and by which write fails |
| Flushing.CountsTheReason | apps/observability/src/sampling/worker.ts:44-55 | a trace kept, stored and mapped is counted as flushed and under error if it has one, else slow if it is, else probabilistic; a drop as dropped; one whose writes fail not at all |
| Flushing.FlushWorker.ProcessOne | apps/observability/src/sampling/worker.ts:44-55 | the code does that |
| Flushing.FlushWorker.Tick | apps/observability/src/sampling/worker.ts:36-42 | an uninterrupted tick is the moves of its flight, ended by the first failed write |

## Left out

- JobNoLoss.NoJobLost: takes "the hash has not expired" as a condition; expiry is a step that may happen to any job at any time, since the scheduler drops members whose hash is gone.
- JobBound.BoundedWork: takes each retry as one step (hash write and script together); `JobSplit` takes them apart and proves finiteness instead of a number. For attempt limits below one the bound is that of limit one, because the first run happens before any check.
- JobPlaces.ExactlyOnePlace: assumes that no reaper claims an entry somebody is still working on. A process that outlives the visibility timeout does no harm by that alone; `JobClaims.ClaimKeepsIff` shows that a claim breaks the property exactly when its entry is held.
- JobSplit.FinitelyManyRuns: assumes that no process dies between the two calls of a retry; a worker that dies there leaves its entry to be reaped at the old attempt count.
- JobScripts.Redis.Requeue: the read of the hash and the transaction are one step.
- JobScripts.Worker.ProcessOne: a handler that times out counts as failed; that it may still be running is not modelled.
- JobScripts.Redis.ReadOne: reads one entry; a read of several is several steps.
- Engine.ExecuteWorkflow: runners, template rendering and variables are arbitrary; logs and times of steps are not kept.
- RateLimit.WindowBound: assumes that no request is accepted under a member still live, as `RateLimit.BoundHoldsIff` shows it must, and a clock that never goes back.
- Edge.CutUndoesPrint: the server's payloads are taken to be on one line, as `Survival.AnnouncementSurvivesIff` shows they must be.
- SdkClient.FeatureFlagClient.Connect: reads are texts; UTF-8 decoding, aborting and reconnecting are not modelled, and the answer to a refresh is a version or none.
- Flags.CompilationPreservesMeaning: takes the variant names looked up to be plain, as `Flags.MeaningKeptIff` shows they must be; environments are looked up among own properties only.
- ServiceMap.ServiceMapStore.Materialize: one call at a time; overlapping calls can interleave the increment with the mean update. An edge's time last seen is that of one of the keys recorded for it in the last trace that calls it. Real arithmetic instead of floating point.
- Flushing.FlushWorker.ProcessOne: the spans of a trace are stored all or none; an insert of several that fails half way is not modelled.
- Traces.DecideJudges: root span, service list and creation time of the stored trace are not modelled.
- MetricKeys.KeyIgnoresOrder: labels are sorted by code point; for names beyond the basic plane JavaScript orders by code unit, which is another total order.
- Undecodable entries, which worker and reaper acknowledge and delete.
- Idempotency keys: the reservation precedes the job write, so two overlapping adds can both enqueue.
- Payloads, names, error texts, events and metrics of jobs; dead-letter listing, purge and removal; graceful shutdown.
- Stream and job ids are natural numbers in order of issue.
- Deleting a workflow while it is edited, presence, rooms and broadcast.
- Authentication, validation of requests, HTTP routing and the forwarder.
- Audit log, publishing and storage of rulesets, log ingestion and the mapping of foreign span formats.
- Rendering of counters and the summary of histograms.
