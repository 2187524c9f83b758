# Verified models of goresilience

Dafny models of the stateful runners of goresilience, with proofs about every run of them:

- **the queue-backed executors** (LIFO and adaptive LIFO + CoDel): the call handshake, the dynamic queue,
  the forwarder and the resizable worker pool, as one labelled transition system. Every goroutine has a
  program counter, every critical section or channel operation is one step, and all interleavings are
  covered. The objects behind it (the job slice, the statistic, the queue, the pool) are classes proved
  against the functions the transition system takes as its steps;
- **the circuit breaker** over its ring of buckets: classes proved against a machine that only reads an
  event log, and theorems about every run of that machine;
- **the AIMD limiter** and **the closed loop** of in-flight counter, executor, limiter and pool, for any executor
  and composed with the FIFO, LIFO and CoDel ones;
- **the chaos injector's** percentage feedback.

## How to read it

| file | what it holds |
|---|---|
| `JobQueue.dfy`, `QueueStats.dfy`, `DynamicQueue.dfy` | queue policies on a Go slice window, the busy-time statistic and its history, the queue object |
| `WorkerPool.dfy` | the pool: numbered workers, stop channels, accounting |
| `Handshake.dfy` | one call of `Execute`: caller, timer and job closure |
| `Pipeline.dfy` | the transition system: `Enabled`, `Apply`, `Legal`, `After`, `Reachable` |
| `PipelineInvariant.dfy` | the inductive invariant, kept by every step |
| `PipelineSafety.dfy`, `PipelineCancel.dfy`, `PipelineTiming.dfy`, `PipelineDrain.dfy`, `PipelineOrder.dfy` | the theorems about every run |
| `BucketWindow.dfy`, `CircuitBreaker.dfy`, `BreakerRuns.dfy` | ring, breaker object, every run of a single caller, calls of the object as runs |
| `Aimd.dfy`, `Chaos.dfy` | limiter arithmetic, failure injector |
| `LimiterLoop.dfy`, `ClosedLoop.dfy`, `QueueLoop.dfy` | the closed loop over any executor, over the FIFO one, over the queue-backed ones |

Conventions. A panic (a channel closed twice, a nil job sent) is a flag that is proved never to be set.
Time is a logical clock that any step may find advanced; timers fire at or after their deadline; ticks of
the bucket window fall anywhere. `float64` is `real`, and 0/0 is an explicit `NaN`. What f returns, what the
result policy decides and what `int(NaN)` is are parameters chosen freely at every step.

## Where the code and its documentation differ

- A half-open circuit is documented to close if all its executions succeeded and to open if not. For every
  circuit that can open, either half of that holds over all runs exactly when fewer ticks cross the visit than
  the window has buckets (`HalfOpenHonestExactly`). With as many, a failure can be forgotten and the circuit
  closes (`ForgottenFailure`), or the window is emptied between the two readings of one decision, the rate is not
  a number and the circuit opens after nothing but successes (`ForgottenSuccess`). `DecisionExactly` gives the
  decision for any ticks between the readings.
- A circuit whose threshold is above 100 percent never opens (`CanOpenExactly`).
- The circuit is documented to open when the error percentage is greater than the threshold. It opens at the
  threshold too, and with the defaults filled in a run to such a decision exists for exactly the thresholds from
  1 to 100 (`OpensAtThresholdExactly`); everywhere else code and documentation agree (`StrictRuleAgreesExactly`).
- A window of one bucket crashes at its first tick; `Window.SlideWindow` succeeds exactly for two or more.
- With an error percent of zero the chaos injector fails the first run if `int(NaN)` is negative, and no other
  (`ZeroPercentExactly`). With a hundred percent it lets exactly one run through (`HundredPercentExactly`).

## Model

| member | source | states |
|---|---|---|
| JobQueue.JobSlice.Append | concurrencylimit/execute/queue.go:149-151 | appending to the slice window, in place or in a grown array, is appending to the sequence; no slot of the old window changes |
| JobQueue.JobSlice.TakeLifo | concurrencylimit/execute/queue.go:155-166 | re-slicing takes the last job of the sequence, for length 0, 1 and more |
| JobQueue.JobSlice.TakeFifo | concurrencylimit/execute/queue.go:170-177 | re-slicing takes the first job of the sequence, or none |
| QueueStats.StatsCounter.IncAt | concurrencylimit/execute/queue.go:187-194 | the object stays in agreement with the history of its sizes, extended by the new one: its time is the start of the current busy period |
| QueueStats.StatsCounter.DecrAt | concurrencylimit/execute/queue.go:196-203 | so it does when a job leaves |
| QueueStats.StatsCounter.SinceLastEmptyAt | concurrencylimit/execute/queue.go:206-213 | the answer reaches back beyond a moment exactly if the size has been positive ever since before it; the history is untouched |
| QueueStats.IncRefines | concurrencylimit/execute/queue.go:187-194 | an increment keeps lastTimeEmpty the start of the current busy period of the size history |
| QueueStats.DecrRefines | concurrencylimit/execute/queue.go:196-203 | so does a decrement |
| QueueStats.CongestedIffBusyThroughout | concurrencylimit/execute/codel.go:148-150 | congested exactly when the history shows no empty instant in the whole last interval |
| DynamicQueue.Queue.constructor | concurrencylimit/execute/queue.go:31-60 | a new queue is empty, has the given policy and no signal |
| DynamicQueue.Queue.SetDequeuePolicy | concurrencylimit/execute/queue.go:78-82 | only the policy changes |
| DynamicQueue.Queue.Enqueue | concurrencylimit/execute/queue.go:89-101 | the job is counted, appended and signalled |
| DynamicQueue.Queue.QueueIsEmpty | concurrencylimit/execute/queue.go:141-145 | true exactly when no job waits |
| DynamicQueue.Queue.TakeJob | concurrencylimit/execute/queue.go:127-134 | the policy in force decides which job leaves, and it is uncounted |
| DynamicQueue.Queue.Wake | concurrencylimit/execute/queue.go:115-134 | a woken dequeuer takes a job if there is one, and a stale signal is harmless |
| DynamicQueue.Play | concurrencylimit/execute/queue.go:78-177 | whatever turns are taken, the slices cut from one array and the arrays outgrown hold the jobs of the mathematical sequence |
| DynamicQueue.PlayConserves | concurrencylimit/execute/queue.go:149-177 | over any turns and policy switches, the jobs taken and those left are those that were there and those that came |
| DynamicQueue.PlayFifo | concurrencylimit/execute/queue.go:168-177 | under the FIFO policy they are so in order |
| WorkerPool.Workers.SetWorkerQuantity | concurrencylimit/execute/executor.go:39-60 | growing keeps every worker and its channel and starts exactly the missing ones, with new channels; shrinking starts nobody and closes exactly the dropped channels, those of the oldest; a negative quantity changes nothing |
| WorkerPool.ResizedMeans | concurrencylimit/execute/executor.go:39-60 | the same of the numbered workers: who is retired, who is started, and that nobody's work is touched |
| WorkerPool.Workers.DecreaseWorkers | concurrencylimit/execute/executor.go:62-71 | the oldest stop channels, each still open, are closed and dropped from the list |
| WorkerPool.Workers.IncreaseWorkers | concurrencylimit/execute/executor.go:73-80 | new workers with distinct open stop channels join at the end |
| WorkerPool.Workers.TakeJob | concurrencylimit/execute/executor.go:82-91 | a live worker between jobs may take one, also when it has been retired |
| WorkerPool.Workers.LookAtStopChannel | concurrencylimit/execute/executor.go:82-91 | a worker that looks at its stop channel leaves exactly if it was retired, so no configured worker ever leaves |
| WorkerPool.DrivePool | concurrencylimit/execute/executor.go:39-91 | any sequence of resizes and worker steps can be made, none closes a stop channel twice, and the accounting holds where it ends |
| WorkerPool.LastResizeHolds | concurrencylimit/execute/executor.go:39-91 | once the retired workers have left, the workers alive are as many as the last resize asked for, whatever they do |
| WorkerPool.RetiredWorkersLeave | concurrencylimit/execute/executor.go:82-91 | and retired workers leave when they look between two jobs |
| WorkerPool.Accounting | concurrencylimit/execute/executor.go:39-91 | live workers are the configured ones plus the retired ones still in their loop, and running jobs are at most the live workers |
| Handshake.CheckCancelKeeps | concurrencylimit/execute/codel.go:104-111 | looking at the cancel channel keeps caller and job agreed on what happened, and in what order |
| PipelineInvariant.InvKept | concurrencylimit/execute/queue.go:84-139 | every step of every goroutine keeps conservation, handshake, wake-up, statistic, pool and history invariants together |
| PipelineSafety.NoLostWakeUp | concurrencylimit/execute/queue.go:84-139 | in every reachable state with waiting jobs a sleeping dequeuer has its signal buffered or about to be sent, and some queue step is possible unless the forwarder is the one awaited |
| PipelineSafety.Conservation | concurrencylimit/execute/queue.go:89-137 | every submitted job occurs exactly once among submitter, enqueuer, queue, dequeuer, forwarder, workers and finished jobs |
| PipelineSafety.NoPanic | concurrencylimit/execute/codel.go:102-116 | no channel is closed twice, no policy sees an empty queue, no nil job is sent |
| PipelineSafety.ChannelsAreReady | concurrencylimit/execute/codel.go:102-131 | every close finds its channel open and every send to a one-slot channel finds room |
| PipelineSafety.AppendAndSignal | concurrencylimit/execute/queue.go:91-101 | nobody looks at the queue between an append and its signal |
| PipelineSafety.AnyLiveWorkerMayTake | concurrencylimit/execute/executor.go:82-91 | any live worker between two jobs, a retired one too, may take the forwarder's job and then runs it |
| PipelineSafety.CancellationHandshake | concurrencylimit/execute/lifo.go:58-82 | the safety half: a cancel seen means f never runs; f runs for a rejected caller only if it was let go before the cancel; a returned result is that of the only run of f |
| PipelineCancel.CancelDecides | concurrencylimit/execute/lifo.go:60-79 | the same of any run split at its cancel: if the worker's check had not let f go by then f never runs, and otherwise dequeuedJob had been closed |
| PipelineCancel.ResultIsTheOutcome | concurrencylimit/execute/codel.go:102-131 | in every run f ends at most once for each call, and a returned result is the outcome of that end |
| PipelineDrain.NobodyBlocks | concurrencylimit/execute/lifo.go:58-82 | the other half, for any number of workers, none included: where no step is left no worker is in a job, and only callers whose time is not up have no answer |
| PipelineDrain.EveryCallReturns | concurrencylimit/execute/codel.go:119-131 | once every deadline has passed and no step is left, every call has returned |
| PipelineDrain.DequeuedIsAnswered | concurrencylimit/execute/codel.go:102-116 | a call whose job was taken by a worker needs no timer to end, on both sides |
| PipelineDrain.DequeuedBranchReceives | concurrencylimit/execute/codel.go:119-131 | a caller on the dequeued branch is never rejected later, and after a bounded number of steps has the result of the only run of f |
| PipelineSafety.SizeCounts | concurrencylimit/execute/queue.go:89-134 | in every reachable state of either executor the size counts the queue, the job about to join it and the job that has just left it |
| PipelineSafety.CongestionClock | concurrencylimit/execute/codel.go:72-83 | a call is told congested exactly when the statistic was never zero in the last interval |
| PipelineSafety.CounterOrdering | concurrencylimit/concurrencylimit.go:77-98 | executing calls are at most the in-flight ones plus the rejected ones let go before their cancel, and at most the live workers |
| PipelineTiming.CongestedExactly | concurrencylimit/execute/codel.go:148-150 | a call is told congested exactly if there was a backlog at every moment of the run in the last interval, its ends included |
| PipelineTiming.PolicyFollows | concurrencylimit/execute/codel.go:75-83 | that answer, and no other, turns the queue to LIFO or back to FIFO |
| PipelineTiming.LifoWait | concurrencylimit/execute/lifo.go:76-82 | from the launch the LIFO caller has exactly the configured wait: not rejected before it is over, answered once nothing moves after it |
| PipelineTiming.CodelWait | concurrencylimit/execute/codel.go:75-131 | the CoDel caller has the target delay exactly if it found a backlog throughout the interval before it measured, and the interval otherwise |
| PipelineTiming.EveryWait | concurrencylimit/execute/codel.go:71-131 | every launched call of every run was granted its wait so |
| PipelineDrain.EveryRunTerminates | concurrencylimit/execute/queue.go:108-139 | a run makes at most 29 executor steps per call and one more, whatever the wake-ups, timers, policy switches and resizes |
| PipelineDrain.DrainsAndTerminates | concurrencylimit/execute/lifo.go:87-97 | without new calls every run is finite, and where no step is left with a worker configured every job was handed over exactly once, every caller has its answer and the dequeuer sleeps without a signal |
| PipelineDrain.CanSettle | concurrencylimit/execute/executor.go:82-91 | from every state the invariant allows there is a run to rest |
| PipelineDrain.RetiredCanLeave | concurrencylimit/execute/executor.go:39-91 | and from every reachable state one to exactly the configured number of live workers |
| PipelineOrder.ReceivedTells | concurrencylimit/execute/queue.go:84-101 | the received history is the sequence of jobs that the run sends to the enqueuer |
| PipelineOrder.HandedTells | concurrencylimit/execute/codel.go:136-145 | the handed history is the sequence of jobs that workers got |
| PipelineOrder.LineKept | concurrencylimit/execute/queue.go:147-177 | every step keeps the pipeline, read from its front, in order of arrival, unless a LIFO pop has a choice |
| PipelineOrder.FifoOrder | concurrencylimit/execute/queue.go:108-177 | while jobs are popped under the FIFO policy, or one at a time, jobs received are jobs handed to workers, then forwarder, dequeuer, queue and enqueuer, in that order, in either executor |
| PipelineOrder.FifoExactly | concurrencylimit/execute/queue.go:149-177 | a run keeps the pipeline in order throughout if and only if no pop of it is a LIFO one with a choice |
| PipelineOrder.CalmFifoOrder | concurrencylimit/execute/codel.go:79-83 | so the CoDel executor keeps the order while no call is told congested |
| PipelineOrder.LifoOrder | concurrencylimit/execute/lifo_test.go:82-87 | n jobs that arrive one by one without workers are then handed over in the order 0, 1, n-1, ..., 2, whether or not timers fire, and every call gets an answer |
| PipelineOrder.LifoAllReturn | concurrencylimit/execute/lifo.go:76-82 | and if no timer fires every call returns a result |
| PipelineOrder.LifoOrderPossible | concurrencylimit/execute/lifo_test.go:94-118 | such runs exist for every n, without a timer |
| BucketWindow.Window.constructor | circuitbreaker/metrics.go:34-51 | the window has the asked number of buckets, one if none is asked |
| BucketWindow.Window.ResetBuckets | circuitbreaker/metrics.go:86-100 | all buckets are new, distinct and empty, the first is current |
| BucketWindow.Window.Inc | circuitbreaker/metrics.go:77-84 | the ring still agrees with the log extended by the result |
| BucketWindow.Window.SlideWindow | circuitbreaker/metrics.go:56-75 | the oldest slot becomes the new current bucket; the tick succeeds exactly for two buckets or more |
| BucketWindow.Window.TotalRequests | circuitbreaker/metrics.go:116-125 | the sum over the ring is the number of results logged since the last reset and fewer than N ticks ago |
| BucketWindow.Window.ErrorRate | circuitbreaker/metrics.go:102-114 | the share of failures among those results, not a number when there are none |
| BucketWindow.RecentIsVisit | circuitbreaker/metrics.go:86-114 | while fewer than N ticks cross a visit the window holds exactly its results |
| CircuitBreaker.CircuitBreaker.constructor | circuitbreaker/circuitbreaker.go:49-71 | a new breaker is closed, keeps every setting and fills in 50, 20, 1, five seconds and 10 buckets; its ring has the buckets asked for |
| CircuitBreaker.CircuitBreaker.MoveState | circuitbreaker/circuitbreaker.go:220-232 | only a real change sets the state, the time and an empty window |
| CircuitBreaker.CircuitBreaker.PreDecideState | circuitbreaker/circuitbreaker.go:157-167 | the object does what the log-based machine does before an execution |
| CircuitBreaker.CircuitBreaker.PostDecideState | circuitbreaker/circuitbreaker.go:171-193 | and after one, with two readings of the ring and any ticks between them |
| CircuitBreaker.CircuitBreaker.Run | circuitbreaker/circuitbreaker.go:137-153 | a whole call with any ticks between its phases refines the log-based machine, and a refusal is an error that is logged too |
| BreakerRuns.EveryTransition | circuitbreaker/circuitbreaker.go:157-193 | in every run the state is the one the history tells; it changes before an execution exactly from open to half-open and once more than the wait has passed since the history's last change, after one exactly as decided by the window that the run's last count has read, and at no other step |
| BreakerRuns.EveryDecision | circuitbreaker/circuitbreaker.go:171-193 | every decision of every run splits the run at the count it rests on, after which only ticks and time came; a closed circuit opens exactly with Min results or more at that count and 100*errs >= threshold*total over what the ticks have left, a half-open one leaves with K results or more and closes exactly if what is left holds results and no failure |
| BreakerRuns.CallIsRun | circuitbreaker/circuitbreaker.go:137-153 | a call of the object is a run of the machine, phase by phase, with the state its contract promises and the history its results tell |
| BreakerRuns.MakeCalls | circuitbreaker/circuitbreaker.go:137-153 | any sequence of calls of a new breaker is the run of the machine with the same calls, and the calls that ran their function are those of its history |
| BreakerRuns.OpensAtThresholdExactly | circuitbreaker/circuitbreaker.go:186-190 | with the defaults filled in, a run that opens the circuit with a rate equal to the threshold exists if and only if the threshold is from 1 to 100 |
| BreakerRuns.StrictRuleAgreesExactly | circuitbreaker/circuitbreaker.go:186-190 | the documented strict rule and the code agree on a decision if and only if 100*errs != threshold*total |
| BreakerRuns.DecisionExactly | circuitbreaker/circuitbreaker.go:171-193 | the decision after an execution, for any ticks between its two readings: enough results in the window, and 100*errs >= threshold*total over the part of it that is left |
| BreakerRuns.OpensNoEarlier | circuitbreaker/circuitbreaker.go:53-60 | a closed circuit never opens before the configured minimum of functions, 20 if none, has run since it closed |
| BreakerRuns.OpensAtMinimum | circuitbreaker/circuitbreaker.go:186-190 | a new breaker whose calls all fail without a tick opens with exactly that many calls |
| BreakerRuns.NoExecutionWhileOpen | circuitbreaker/circuitbreaker.go:195-206 | in every run no function starts until more than the wait duration after each opening |
| BreakerRuns.OpenLastsTheWait | circuitbreaker/circuitbreaker.go:157-167 | from the step that opens it the circuit is open, and refuses, until the clock has gone on by more than the wait |
| BreakerRuns.OpenEndsExactly | circuitbreaker/circuitbreaker.go:161-166 | and the first call after that finds it half-open |
| BreakerRuns.HalfOpenVisitIsExact | circuitbreaker/circuitbreaker.go:175-185 | a half-open visit crossed by fewer than N ticks ends with its K-th execution and closes exactly if none of the functions it ran failed |
| BreakerRuns.CanOpenExactly | circuitbreaker/circuitbreaker.go:186-190 | an open circuit is reachable if and only if the threshold is at most 100 percent |
| BreakerRuns.HalfOpenHonestExactly | circuitbreaker/circuitbreaker.go:171-185 | closing only after successes, and opening only after a failure, hold in all visits crossed by at most n ticks if and only if n < N |
| BreakerRuns.ForgottenFailure | circuitbreaker/circuitbreaker.go:108-113 | for every configuration that can open there is a visit with one failure and N ticks that closes the circuit |
| BreakerRuns.ForgottenSuccess | circuitbreaker/circuitbreaker.go:175-185 | and one with K successes, no failure and N ticks that opens it |
| Aimd.Limiter.constructor | concurrencylimit/limit/aimd.go:27-56 | a new limiter starts at its minimum, keeps every setting and fills in 10, two seconds, 0.9 and 1 |
| Aimd.Limiter.MeasureSample | concurrencylimit/limit/aimd.go:65-90 | a failure or a success later than the timeout cuts the limit by the ratio, not below the minimum; a success in time with more in flight than the whole limit times the factor adds one or its inverse, by the threshold; anything else leaves it; the answer is its whole part |
| Aimd.NextExactly | concurrencylimit/limit/aimd.go:65-114 | the same of the function that the loops use |
| Aimd.DefaultsExactly | concurrencylimit/limit/aimd.go:27-44 | what the defaults keep and what they fill in, field by field |
| Aimd.Limiter.DecreaseLimit | concurrencylimit/limit/aimd.go:93-100 | the limit is cut by the ratio, not below the minimum |
| Aimd.Limiter.IncreaseLimit | concurrencylimit/limit/aimd.go:103-114 | the limit gains one in slow start and its inverse beyond the threshold |
| Aimd.DefaultsAreSound | concurrencylimit/limit/aimd.go:27-44 | the defaults leave a positive minimum and factor and a ratio from one half to one |
| Aimd.NextBounds | concurrencylimit/limit/aimd.go:65-90 | one sample keeps the floor, adds at most one to the integer limit, and only if more executions were in flight |
| Aimd.BackOffClosedForm | concurrencylimit/limit/aimd.go:69-100 | k failures or late successes in a row leave exactly max(Min, limit * r^k) |
| Aimd.BackOffReachesMinimum | concurrencylimit/limit/aimd.go:93-100 | for r < 1 the minimum is reached once k >= (limit/Min - 1) * r/(1 - r) |
| Aimd.SquareRootGrowth | concurrencylimit/limit/aimd.go:103-114 | beyond the threshold n accepted samples give limit^2 + 2n <= L^2 <= limit^2 + 2n + n/limit^2 |
| Aimd.AcceptedGrowth | concurrencylimit/limit/aimd.go:80-114 | with slow start: one per sample up to the threshold, then that band from there |
| Aimd.EndlessSlowStart | concurrencylimit/limit/aimd.go:103-114 | without a threshold one per sample for ever |
| LimiterLoop.LimitStaysInRange | concurrencylimit/concurrencylimit.go:72-115 | whatever the executor does, with C callers the limit and the worker count stay between the minimum and max(minimum, C-1), even when measures and resizes of different calls interleave, and inflights is the number of calls in flight |
| LimiterLoop.SampleIsTrue | concurrencylimit/concurrencylimit.go:98-108 | only samples move the limit, each with the number of calls in flight just after its own call left |
| LimiterLoop.WorkersFollowLimit | concurrencylimit/concurrencylimit.go:108-112 | the worker count is the minimum until the first resize, and then the whole limit that the sample before the run's last resize, of the same caller, left |
| LimiterLoop.WorkersCatchUp | concurrencylimit/concurrencylimit.go:108-112 | when samples have stopped and the last was followed by its resize the worker count is the whole limit |
| ClosedLoop.FifoIsAnExecutor | concurrencylimit/execute/fifo.go:44-56 | every run with the FIFO executor is a run of that loop step for step, so the range holds and the workers follow the limit |
| QueueLoop.QueueIsAnExecutor | concurrencylimit/concurrencylimit.go:72-115 | so is every run with the LIFO or the CoDel executor, composed with the pipeline |
| QueueLoop.RunnersAndCalls | concurrencylimit/concurrencylimit.go:72-100 | there the executor is in a reachable state of the pipeline, every runner in it has a call of its own, and every call without an answer has its runner |
| QueueLoop.CountersOrdered | concurrencylimit/concurrencylimit.go:77-98 | there inflights counts the runners in flight, and executing is at most inflights plus the rejected calls let go before their cancel, and at most the ceiling of the limit plus the retired workers that have not left |
| ClosedLoop.CountersOrdered | concurrencylimit/concurrencylimit.go:77-98 | with the FIFO executor the counters count the running calls and those in flight; executing <= inflights <= C, and executing <= live workers |
| ClosedLoop.RejectedNeverRan | concurrencylimit/execute/fifo.go:44-56 | a call the FIFO executor rejects never ran its function, an answered one ran it once |
| Chaos.Injector.SetErrorPercent | chaos/inject.go:34-42 | a percent outside 0..100 is refused and changes nothing |
| Chaos.FailureInjector.Run | chaos/inject.go:86-120 | each run pulls the failures towards the configured share: the deficit is then at most max(p, deficit - (100-p)), and if the inner runner does not fail the surplus at most max(100-p, surplus - p) |
| Chaos.DeficitCatchesUp | chaos/inject.go:109-117 | after a change to p, k runs leave a deficit of at most max(p, deficit - k*(100-p)), whatever the inner runner does |
| Chaos.SurplusDecays | chaos/inject.go:109-117 | and, if the inner runner never fails, a surplus of at most max(100-p, surplus - k*p) |
| Chaos.Discrepancy | chaos/inject.go:89-117 | after n >= 1 runs p*n - p <= 100*e, and 100*e <= p*n + 100 - p if only the injector fails |
| Chaos.DiscrepancyIsSharp | chaos/inject.go:109-117 | for 0 < p < 100, where only the injector fails runs, the share is exact after every hundred runs, and the next run meets one bound or the other as its share is rounded |
| Chaos.ZeroPercentExactly | chaos/inject.go:109-117 | where only the injector fails runs, zero percent fails one if the first percentage is a negative int(NaN), and none otherwise, however many follow |
| Chaos.HundredPercentExactly | chaos/inject.go:109-117 | and a hundred percent lets exactly one through: the first if int(NaN) is a hundred or more, the second otherwise |

## Left out

- Several concurrent callers of one circuit breaker: each phase reads the state and acts on it under separate
  locks, so stale reads can take any state to any other; the run theorems are for a single caller.
- Shutdown through the stop channels of the queue and the forwarder: a parked dequeuer does not watch it.
- Goroutine scheduling fairness, panics in user functions and unlocked reads: a run is any interleaving of steps.
- Concurrent runs of the chaos injector, and its latency attack: `Run` is one atomic step.
- IEEE-754 rounding, except the case 100*errs = percent*total of the chaos percentage with 0 < errs < total,
  where both outcomes are allowed; counters are unbounded integers.
- SinceLastEmpty reads the clock twice, and the breaker once for a decision and again for the change of state;
  the models read it once.
- The in-place form of the transition systems: their states are values, because their steps interleave; the
  objects with the same steps are the classes listed above. The atomic counters are plain fields of the states.
- Retry, timeout, bulkhead, the static limiter, runner chains and the result policies: short wrappers and tables
  that would only add easy members. Any result policy is covered as a free choice in the closed loop.
- The default durations and intervals of the executors: they are parameters.
- Metrics recorders: observation only.
- Negative limits, factors and bucket quantities, which the defaults pass through.
