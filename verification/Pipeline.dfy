/** The queue-backed executors as a labelled transition system.

    One program counter per goroutine, one step per critical section or channel operation:
    callers and their timers, the submitting goroutine of each call, the enqueuer, the dequeuer,
    the forwarder to the worker pool, and the workers. Every interleaving is a sequence of actions. */
module Pipeline {
  import opened Common
  import opened Handshake
  import opened JobQueue
  import opened QueueStats
  import opened WorkerPool

  // Where a job is. Exactly one place per job; Holds ties it to the goroutine or slice that has it.
  datatype Place =
    | Unlaunched
    | AtSubmitter
    | AtEnqueuer
    | InQueue
    | AtDequeuer
    | AtForwarder
    | AtWorker(worker: WorkerId)
    | Finished

  datatype Enqueuer = EnqIdle | EnqGot(job: JobId) | EnqCounted(job: JobId) | EnqAppended

  datatype Dequeuer =
    | DeqCheck
    | DeqParked
    | DeqRecheck
    | DeqPop
    | DeqPopped(job: Option<JobId>)
    | DeqSending(job: Option<JobId>)

  datatype Config = Config(kind: Kind, interval: int, targetDelay: int, maxWait: int)

  datatype State = State(
    calls: seq<Call>,
    places: seq<Place>,
    enq: Enqueuer,
    queue: seq<JobId>,
    locked: bool,            // jobsMu
    token: bool,             // the one-slot wake-up channel holds a signal
    policy: Policy,
    deq: Dequeuer,
    forwarder: Option<JobId>,
    pool: Pool,
    stats: Stats,
    now: int,
    nilSent: bool,           // a nil job was sent on the out channel
    received: seq<JobId>,    // history: order in which the enqueuer received jobs
    handed: seq<JobId>,      // history: order in which workers received jobs
    sizes: seq<Sample>       // history: every size of the statistic
  )

  function Init(c: Config): State {
    State([], [], EnqIdle, [], false, false, if c.kind.Lifo? then LifoPolicy else FifoPolicy,
          DeqCheck, None, NoWorkers, Stats(0, 0), 0, false, [], [], [Sample(0, 0)])
  }

  datatype Action =
      // a new call of Execute, and what its caller does
    | Arrive
    | Measure(call: JobId)
    | SetPolicy(call: JobId)
    | Launch(call: JobId)
    | TimerFires(call: JobId)
    | CancelJob(call: JobId)
    | SeeDequeued(call: JobId)
    | ReceiveResult(call: JobId)
      // submitter to enqueuer, enqueuer
    | SendIn(call: JobId)
    | CountIn
    | Append
    | Signal
      // dequeuer and forwarder
    | CheckEmpty
    | Wake
    | Recheck
    | Pop
    | CountOut
    | SendOut
      // workers
    | HandOff(worker: WorkerId)
    | Announce(worker: WorkerId)
    | Check(worker: WorkerId)
    | Return(worker: WorkerId, outcome: Outcome)
    | SendResult(worker: WorkerId)
      // environment
    | Resize(quantity: int)
    | Exit(worker: WorkerId)
    | Elapse(duration: nat)

  predicate Calling(s: State, j: JobId) {
    j < |s.calls| && j < |s.places|
  }

  // The call whose job worker w is running.
  predicate Working(s: State, w: WorkerId) {
    w in s.pool.busy && Calling(s, s.pool.busy[w])
  }

  predicate Enabled(c: Config, s: State, a: Action) {
    match a
    case Arrive => true
    case Measure(j) => Calling(s, j) && c.kind.Codel? && s.calls[j].caller.Entered?
    case SetPolicy(j) => Calling(s, j) && s.calls[j].caller.Measured?
    case Launch(j) =>
      Calling(s, j) && (if c.kind.Lifo? then s.calls[j].caller.Entered? else s.calls[j].caller.PolicySet?)
    case TimerFires(j) => Calling(s, j) && s.calls[j].caller.Waiting? && s.now >= s.calls[j].caller.deadline
    case CancelJob(j) => Calling(s, j) && CanCancel(c.kind, s.calls[j])
    case SeeDequeued(j) => Calling(s, j) && s.calls[j].caller.Waiting? && s.calls[j].dequeued
    case ReceiveResult(j) => Calling(s, j) && CanTakeResult(s.calls[j])
    case SendIn(j) => Calling(s, j) && s.places[j] == AtSubmitter && s.enq.EnqIdle?
    case CountIn => s.enq.EnqGot?
    case Append => s.enq.EnqCounted? && s.enq.job < |s.places| && !s.locked
    case Signal => s.enq.EnqAppended?
    case CheckEmpty => s.deq.DeqCheck? && !s.locked
    case Wake => s.deq.DeqParked? && s.token
    case Recheck => s.deq.DeqRecheck? && !s.locked
    case Pop => s.deq.DeqPop? && !s.locked
    case CountOut => s.deq.DeqPopped?
    case SendOut => s.deq.DeqSending? && s.forwarder.None?
    case HandOff(w) => s.forwarder.Some? && s.forwarder.value < |s.places| && Live(s.pool, w) && w !in s.pool.busy
    case Announce(w) => Working(s, w) && s.calls[s.pool.busy[w]].job.Fresh?
    case Check(w) => Working(s, w) && s.calls[s.pool.busy[w]].job.Announced?
    case Return(w, _) => Working(s, w) && s.calls[s.pool.busy[w]].job.Running?
    case SendResult(w) => Working(s, w) && CanDeliver(s.calls[s.pool.busy[w]])
    case Resize(_) => true
    case Exit(w) => Live(s.pool, w) && w < s.pool.retired && w !in s.pool.busy
    case Elapse(_) => true
  }

  function SetCaller(s: State, j: JobId, caller: Caller): State
    requires j < |s.calls|
  {
    s.(calls := s.calls[j := s.calls[j].(caller := caller)])
  }

  function SetCall(s: State, j: JobId, call: Call): State
    requires j < |s.calls|
  {
    s.(calls := s.calls[j := call])
  }

  function MoveTo(s: State, j: JobId, place: Place): State
    requires j < |s.places|
  {
    s.(places := s.places[j := place])
  }

  // The worker's closure has ended: it goes back to its select.
  function FreeWorker(s: State, w: WorkerId): State
    requires Working(s, w)
  {
    MoveTo(s, s.pool.busy[w], Finished).(pool := s.pool.(busy := s.pool.busy - {w}))
  }

  function MeasureCongestion(c: Config, s: State, j: JobId): State
    requires Calling(s, j)
  {
    var (stats, since) := SinceLastEmpty(s.stats, s.now);
    SetCaller(s, j, Measured(since > c.interval)).(stats := stats)
  }

  function ChoosePolicy(c: Config, s: State, j: JobId): State
    requires Calling(s, j) && s.calls[j].caller.Measured?
  {
    if s.calls[j].caller.congested
    then SetCaller(s, j, PolicySet(c.targetDelay)).(policy := LifoPolicy)
    else SetCaller(s, j, PolicySet(c.interval)).(policy := FifoPolicy)
  }

  function LaunchJob(c: Config, s: State, j: JobId): State
    requires Calling(s, j) && (c.kind.Lifo? || s.calls[j].caller.PolicySet?)
  {
    var timeout := if c.kind.Lifo? then c.maxWait else s.calls[j].caller.timeout;
    MoveTo(SetCaller(s, j, Waiting(s.now + timeout)), j, AtSubmitter)
  }

  function PopJob(s: State): State {
    var (job, rest) := Dequeue(s.policy, s.queue);
    var next := s.(queue := rest, deq := DeqPopped(job));
    if job.Some? && job.value < |s.places| then MoveTo(next, job.value, AtDequeuer) else next
  }

  function SendJobOut(s: State): State
    requires s.deq.DeqSending?
  {
    match s.deq.job
    case Some(j) =>
      var next := s.(deq := DeqCheck, forwarder := Some(j));
      if j < |s.places| then MoveTo(next, j, AtForwarder) else next
    case None =>
      s.(deq := DeqCheck, nilSent := true)
  }

  function HandToWorker(s: State, w: WorkerId): State
    requires s.forwarder.Some? && s.forwarder.value < |s.places|
  {
    var j := s.forwarder.value;
    MoveTo(s, j, AtWorker(w)).(forwarder := None,
    pool := s.pool.(busy := s.pool.busy[w := j]),
    handed := s.handed + [j])
  }

  function CheckCancelled(s: State, w: WorkerId): State
    requires Working(s, w)
  {
    var j := s.pool.busy[w];
    var next := SetCall(s, j, CheckCancel(s.calls[j]));
    if next.calls[j].job.Skipped? then FreeWorker(next, w) else next
  }

  function Apply(c: Config, s: State, a: Action): State
    requires Enabled(c, s, a)
  {
    match a
    case Arrive => s.(calls := s.calls + [NewCall], places := s.places + [Unlaunched])
    case Measure(j) => MeasureCongestion(c, s, j)
    case SetPolicy(j) => ChoosePolicy(c, s, j)
    case Launch(j) => LaunchJob(c, s, j)
    case TimerFires(j) => SetCaller(s, j, TimedOut)
    case CancelJob(j) => SetCall(s, j, Cancel(c.kind, s.calls[j]))
    case SeeDequeued(j) => SetCaller(s, j, AwaitResult)
    case ReceiveResult(j) => SetCall(s, j, TakeResult(s.calls[j]))
    case SendIn(j) => MoveTo(s, j, AtEnqueuer).(enq := EnqGot(j), received := s.received + [j])
    case CountIn =>
      s.(enq := EnqCounted(s.enq.job),
         stats := Inc(s.stats, s.now), sizes := s.sizes + [Sample(s.now, s.stats.size + 1)])
    case Append =>
      MoveTo(s, s.enq.job, InQueue).(enq := EnqAppended, queue := EnqueueAtEnd(s.enq.job, s.queue), locked := true)
    case Signal => s.(enq := EnqIdle, token := true, locked := false)
    case CheckEmpty => s.(deq := if |s.queue| < 1 then DeqParked else DeqPop)
    case Wake => s.(deq := DeqRecheck, token := false)
    case Recheck => s.(deq := if |s.queue| < 1 then DeqCheck else DeqPop)
    case Pop => PopJob(s)
    case CountOut =>
      s.(deq := DeqSending(s.deq.job),
         stats := Decr(s.stats, s.now), sizes := s.sizes + [Sample(s.now, s.stats.size - 1)])
    case SendOut => SendJobOut(s)
    case HandOff(w) => HandToWorker(s, w)
    case Announce(w) => SetCall(s, s.pool.busy[w], CloseDequeued(s.calls[s.pool.busy[w]]))
    case Check(w) => CheckCancelled(s, w)
    case Return(w, outcome) => SetCall(s, s.pool.busy[w], Complete(s.calls[s.pool.busy[w]], outcome))
    case SendResult(w) => FreeWorker(SetCall(s, s.pool.busy[w], Deliver(s.calls[s.pool.busy[w]])), w)
    case Resize(quantity) => s.(pool := Resized(s.pool, quantity))
    case Exit(w) => s.(pool := s.pool.(exited := s.pool.exited + {w}))
    case Elapse(duration) => s.(now := s.now + duration)
  }

  // ---- runs ----

  predicate Legal(c: Config, s: State, run: seq<Action>)
    decreases |run|
  {
    run == [] || (Enabled(c, s, run[0]) && Legal(c, Apply(c, s, run[0]), run[1..]))
  }

  function After(c: Config, s: State, run: seq<Action>): State
    requires Legal(c, s, run)
    decreases |run|
  {
    if run == [] then s else After(c, Apply(c, s, run[0]), run[1..])
  }

  ghost predicate Reachable(c: Config, s: State) {
    exists run :: Legal(c, Init(c), run) && After(c, Init(c), run) == s
  }

  lemma {:induction false} ExtendRun(c: Config, s: State, run: seq<Action>, a: Action)
    requires Legal(c, s, run) && Enabled(c, After(c, s, run), a)
    ensures Legal(c, s, run + [a]) && After(c, s, run + [a]) == Apply(c, After(c, s, run), a)
    decreases |run|
  {
    if run == [] {
      assert After(c, Apply(c, s, a), []) == Apply(c, s, a);
    } else {
      assert (run + [a])[1..] == run[1..] + [a];
      ExtendRun(c, Apply(c, s, run[0]), run[1..], a);
    }
  }

  lemma ReachableStep(c: Config, s: State, a: Action)
    requires Reachable(c, s) && Enabled(c, s, a)
    ensures Reachable(c, Apply(c, s, a))
  {
    var run :| Legal(c, Init(c), run) && After(c, Init(c), run) == s;
    ExtendRun(c, Init(c), run, a);
  }

  lemma ReachableInit(c: Config)
    ensures Reachable(c, Init(c))
  {
    assert Legal(c, Init(c), []) && After(c, Init(c), []) == Init(c);
  }

  lemma {:induction false} SplitRun(c: Config, s: State, first: seq<Action>, second: seq<Action>)
    requires Legal(c, s, first + second)
    ensures Legal(c, s, first) && Legal(c, After(c, s, first), second)
    ensures After(c, s, first + second) == After(c, After(c, s, first), second)
    decreases |first|
  {
    if first == [] {
      assert first + second == second;
    } else {
      assert (first + second)[1..] == first[1..] + second;
      SplitRun(c, Apply(c, s, first[0]), first[1..], second);
    }
  }

  lemma OneStep(c: Config, s: State, a: Action)
    requires Legal(c, s, [a])
    ensures Enabled(c, s, a) && After(c, s, [a]) == Apply(c, s, a)
  {
    assert After(c, Apply(c, s, a), [a][1..]) == Apply(c, s, a);
  }

  // A run and its last step.
  lemma LastStep(c: Config, s: State, run: seq<Action>)
    requires run != [] && Legal(c, s, run)
    ensures var init := run[..|run| - 1];
            && Legal(c, s, init) && Enabled(c, After(c, s, init), run[|run| - 1])
            && After(c, s, run) == Apply(c, After(c, s, init), run[|run| - 1])
  {
    var init, last := run[..|run| - 1], run[|run| - 1];
    assert run == init + [last];
    SplitRun(c, s, init, [last]);
    OneStep(c, After(c, s, init), last);
  }

  // The state after i steps of a run.
  function At(c: Config, s: State, run: seq<Action>, i: nat): State
    requires Legal(c, s, run) && i <= |run|
    decreases i
  {
    if i == 0 then s else At(c, Apply(c, s, run[0]), run[1..], i - 1)
  }

  lemma {:induction false} AtPrefix(c: Config, s: State, first: seq<Action>, second: seq<Action>, i: nat)
    requires Legal(c, s, first + second) && i <= |first| && Legal(c, s, first)
    ensures At(c, s, first + second, i) == At(c, s, first, i)
    decreases i
  {
    if i > 0 {
      assert (first + second)[1..] == first[1..] + second;
      AtPrefix(c, Apply(c, s, first[0]), first[1..], second, i - 1);
    }
  }

  lemma {:induction false} AtEnd(c: Config, s: State, run: seq<Action>)
    requires Legal(c, s, run)
    ensures At(c, s, run, |run|) == After(c, s, run)
    decreases |run|
  {
    if run != [] {
      AtEnd(c, Apply(c, s, run[0]), run[1..]);
    }
  }
}
