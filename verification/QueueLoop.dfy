/** The closed loop with a queue-backed executor, LIFO or CoDel: the pipeline model, the runners that call
    it and the limiter that resizes its pool, composed. A caller may have left while its job still waits
    or runs. */
module QueueLoop {
  import opened WorkerPool
  import opened Handshake
  import opened Pipeline
  import opened PipelineInvariant
  import opened PipelineDrain
  import PipelineSafety
  import LimiterLoop
  import Aimd

  datatype Runner =
    | Out
    | InExecutor(call: JobId)
    | Back                         // Execute has returned
    | Left(inflight: int)          // inflights.Dec returned `inflight`
    | Resizing(limit: int)         // MeasureSample returned `limit`

  datatype Loop = Loop(executor: State, runners: seq<Runner>, inflights: int, limit: real)

  datatype Step =
    | Start(runner: nat)
    | Inside(action: Action)       // a step of the executor and of its callers
    | Back(runner: nat)
    | Leave(runner: nat)
    | MeasureSample(runner: nat, elapsed: int, result: Aimd.Result)
    | SetWorkers(runner: nat)

  datatype Settings = Settings(executor: Config, limiter: Aimd.Config, runners: nat)

  function FirstLimit(c: Settings): real {
    c.limiter.minimumLimit as real
  }

  function First(c: Settings): Loop {
    Loop(Apply(c.executor, Init(c.executor), Resize(Aimd.Truncate(FirstLimit(c)))),
         seq(c.runners, _ => Out), 0, FirstLimit(c))
  }

  // The caller of a runner's call has its answer.
  predicate HasAnswer(s: Loop, r: Runner) {
    r.InExecutor? && r.call < |s.executor.calls| && CallerDone(s.executor.calls[r.call])
  }

  predicate Possible(c: Settings, s: Loop, step: Step) {
    match step
    case Inside(a) => !a.Arrive? && !a.Resize? && Enabled(c.executor, s.executor, a)
    case Start(i) => i < |s.runners| && s.runners[i].Out?
    case Back(i) => i < |s.runners| && HasAnswer(s, s.runners[i])
    case Leave(i) => i < |s.runners| && s.runners[i].Back?
    case MeasureSample(i, _, _) => i < |s.runners| && s.runners[i].Left? && s.limit > 0.0
    case SetWorkers(i) => i < |s.runners| && s.runners[i].Resizing?
  }

  function Put(s: Loop, i: nat, runner: Runner): Loop
    requires i < |s.runners|
  {
    s.(runners := s.runners[i := runner])
  }

  function Take(c: Settings, s: Loop, step: Step): Loop
    requires Possible(c, s, step)
  {
    match step
    case Inside(a) => s.(executor := Apply(c.executor, s.executor, a))
    case Start(i) =>
      Put(s, i, InExecutor(|s.executor.calls|))
      .(inflights := s.inflights + 1, executor := Apply(c.executor, s.executor, Arrive))
    case Back(i) => Put(s, i, Runner.Back)
    case Leave(i) => Put(s, i, Left(s.inflights - 1)).(inflights := s.inflights - 1)
    case MeasureSample(i, elapsed, result) =>
      // the result policy ignores the sample or feeds the limiter
      if result.Ignore? then Put(s, i, Out)
      else
        var limit := Aimd.Next(c.limiter, s.limit, Aimd.Sample(elapsed, s.runners[i].inflight, result));
        Put(s, i, Resizing(Aimd.Truncate(limit))).(limit := limit)
    case SetWorkers(i) =>
      Put(s, i, Out).(executor := Apply(c.executor, s.executor, Resize(s.runners[i].limit)))
  }

  predicate CanRun(c: Settings, s: Loop, run: seq<Step>)
    decreases |run|
  {
    run == [] || (Possible(c, s, run[0]) && CanRun(c, Take(c, s, run[0]), run[1..]))
  }

  function Ran(c: Settings, s: Loop, run: seq<Step>): Loop
    requires CanRun(c, s, run)
    decreases |run|
  {
    if run == [] then s else Ran(c, Take(c, s, run[0]), run[1..])
  }

  // ---- a loop like any other ----

  function Abstract(r: Runner): LimiterLoop.Caller {
    match r
    case Out => LimiterLoop.Idle
    case InExecutor(_) => LimiterLoop.InExecutor
    case Back => LimiterLoop.Answered
    case Left(inflight) => LimiterLoop.Left(inflight)
    case Resizing(limit) => LimiterLoop.Resizing(limit)
  }

  function AllAbstract(runners: seq<Runner>): seq<LimiterLoop.Caller> {
    seq(|runners|, i requires 0 <= i < |runners| => Abstract(runners[i]))
  }

  function View(s: Loop): LimiterLoop.State {
    LimiterLoop.State(AllAbstract(s.runners), s.inflights, s.limit, s.executor.pool)
  }

  function Abstraction(c: Settings, s: Loop, step: Step): LimiterLoop.Action
    requires Possible(c, s, step)
  {
    match step
    case Inside(a) =>
      var pool := Apply(c.executor, s.executor, a).pool;
      LimiterLoop.Work(pool.busy, pool.exited)
    case Start(i) => LimiterLoop.Start(i)
    case Back(i) => LimiterLoop.Return(i)
    case Leave(i) => LimiterLoop.Leave(i)
    case MeasureSample(i, elapsed, result) => LimiterLoop.Measure(i, elapsed, result)
    case SetWorkers(i) => LimiterLoop.SetWorkers(i)
  }

  lemma PutAbstract(runners: seq<Runner>, i: nat, runner: Runner)
    requires i < |runners|
    ensures AllAbstract(runners[i := runner]) == AllAbstract(runners)[i := Abstract(runner)]
  {
  }

  // Only a resize starts or retires workers.
  predicate SameWorkers(p: Pool, q: Pool) {
    q == p.(busy := q.busy, exited := q.exited)
  }

  lemma WorkersStay(c: Config, s: State, a: Action)
    requires Enabled(c, s, a) && !a.Resize?
    ensures SameWorkers(s.pool, Apply(c, s, a).pool)
  {
    if CallerStep(a) {
      CallerFrame(c, s, a);
    } else if a.Check? || a.SendResult? {
      FreedStay(c, s, a);
    }
  }

  lemma FreedStay(c: Config, s: State, a: Action)
    requires Enabled(c, s, a) && (a.Check? || a.SendResult?)
    ensures SameWorkers(s.pool, Apply(c, s, a).pool)
  {
  }

  lemma InsideIsAbstract(c: Settings, s: Loop, a: Action)
    requires Possible(c, s, Inside(a))
    ensures LimiterLoop.Apply(c.limiter, View(s), Abstraction(c, s, Inside(a))) == View(Take(c, s, Inside(a)))
  {
    WorkersStay(c.executor, s.executor, a);
  }

  lemma StepIsAbstract(c: Settings, s: Loop, step: Step)
    requires Possible(c, s, step)
    ensures LimiterLoop.Enabled(View(s), Abstraction(c, s, step))
    ensures LimiterLoop.Apply(c.limiter, View(s), Abstraction(c, s, step)) == View(Take(c, s, step))
  {
    if step.Inside? {
      InsideIsAbstract(c, s, step.action);
    } else {
      RunnerIsAbstract(c, s, step);
    }
  }

  lemma RunnerIsAbstract(c: Settings, s: Loop, step: Step)
    requires Possible(c, s, step) && !step.Inside?
    ensures LimiterLoop.Enabled(View(s), Abstraction(c, s, step))
    ensures LimiterLoop.Apply(c.limiter, View(s), Abstraction(c, s, step)) == View(Take(c, s, step))
  {
    var t := Take(c, s, step);
    assert t.runners == s.runners[step.runner := t.runners[step.runner]];
    PutAbstract(s.runners, step.runner, t.runners[step.runner]);
    if step.Start? {
      ArriveFrame(c.executor, s.executor);
    } else if step.SetWorkers? {
      ResizeFrame(c.executor, s.executor, s.runners[step.runner].limit);
    }
  }

  // ---- the invariant ----

  // A call without an answer has a runner waiting for it.
  ghost predicate Awaited(s: Loop, j: JobId) {
    exists i | 0 <= i < |s.runners| :: s.runners[i] == InExecutor(j)
  }

  ghost predicate AllAwaited(s: Loop) {
    forall j | 0 <= j < |s.executor.calls| && !CallerDone(s.executor.calls[j]) :: Awaited(s, j)
  }

  // A runner in the executor has a call of its own there.
  ghost predicate OwnCalls(s: Loop) {
    && (forall i | 0 <= i < |s.runners| && s.runners[i].InExecutor? :: s.runners[i].call < |s.executor.calls|)
    && (forall i, k | 0 <= i < k < |s.runners| && s.runners[i].InExecutor? && s.runners[k].InExecutor? ::
          s.runners[i].call != s.runners[k].call)
  }

  ghost predicate Inv(c: Settings, s: Loop) {
    && Reachable(c.executor, s.executor)
    && AllAwaited(s)
    && OwnCalls(s)
  }

  lemma OwnCallsKept(c: Settings, s: Loop, step: Step)
    requires OwnCalls(s) && Possible(c, s, step) && !step.Inside?
    ensures OwnCalls(Take(c, s, step))
  {
    CallsOf(c, s, step);
    var t := Take(c, s, step);
    assert t.runners == s.runners[step.runner := t.runners[step.runner]];
  }

  lemma OwnCallsInside(c: Settings, s: Loop, a: Action)
    requires OwnCalls(s) && Located(s.executor) && Possible(c, s, Inside(a))
    ensures OwnCalls(Take(c, s, Inside(a)))
  {
    AnswersKept(c.executor, s.executor, a);
  }

  // An answer is final.
  predicate AnswersStay(s: State, t: State) {
    |t.calls| == |s.calls| && forall j | 0 <= j < |s.calls| && CallerDone(s.calls[j]) :: CallerDone(t.calls[j])
  }

  lemma CallerAnswersStay(c: Config, s: State, a: Action)
    requires Enabled(c, s, a) && CallerStep(a)
    ensures AnswersStay(s, Apply(c, s, a))
  {
    CallerLighter(c, s, a);
  }

  lemma WorkAnswersStay(c: Config, s: State, a: Action)
    requires Located(s) && Enabled(c, s, a) && WorkStep(a)
    ensures AnswersStay(s, Apply(c, s, a))
  {
    assert s.places[s.pool.busy[a.worker]] == AtWorker(a.worker);
    WorkLighter(c, s, a);
  }

  lemma LaunchAnswersStay(c: Config, s: State, j: JobId)
    requires Enabled(c, s, Launch(j))
    ensures AnswersStay(s, Apply(c, s, Launch(j)))
  {
    assert AnswersStay(s, LaunchJob(c, s, j));
  }

  lemma MoveAnswersStay(c: Config, s: State, a: Action)
    requires Enabled(c, s, a) && (a.SendIn? || a.Append? || a.Pop? || a.SendOut? || a.HandOff?)
    ensures AnswersStay(s, Apply(c, s, a))
  {
  }

  lemma AnswersKept(c: Config, s: State, a: Action)
    requires Located(s) && Enabled(c, s, a) && !a.Arrive?
    ensures AnswersStay(s, Apply(c, s, a))
  {
    if CallerStep(a) {
      CallerAnswersStay(c, s, a);
    } else if WorkStep(a) {
      WorkAnswersStay(c, s, a);
    } else if MachineStep(a) {
      MachineFrame(c, s, a);
    } else if a.Launch? {
      LaunchAnswersStay(c, s, a.call);
    } else {
      MoveAnswersStay(c, s, a);
    }
  }

  lemma InsideAwaited(c: Settings, s: Loop, a: Action)
    requires AllAwaited(s) && Located(s.executor) && Possible(c, s, Inside(a))
    ensures AllAwaited(Take(c, s, Inside(a)))
  {
    var t := Take(c, s, Inside(a));
    AnswersKept(c.executor, s.executor, a);
    forall j | 0 <= j < |t.executor.calls| && !CallerDone(t.executor.calls[j]) ensures Awaited(t, j) {
      assert Awaited(s, j);
    }
  }

  lemma StillAwaited(s: Loop, t: Loop, i: nat, j: JobId)
    requires i < |s.runners| == |t.runners| && t.runners == s.runners[i := t.runners[i]] && Awaited(s, j)
    requires s.runners[i] != InExecutor(j)
    ensures Awaited(t, j)
  {
    var k :| 0 <= k < |s.runners| && s.runners[k] == InExecutor(j);
    assert t.runners[k] == InExecutor(j);
  }

  lemma RunnerAwaited(c: Settings, s: Loop, step: Step)
    requires AllAwaited(s) && Possible(c, s, step) && !step.Inside?
    ensures AllAwaited(Take(c, s, step))
  {
    var t := Take(c, s, step);
    var i := step.runner;
    assert t.runners == s.runners[i := t.runners[i]];
    CallsOf(c, s, step);
    forall j | 0 <= j < |t.executor.calls| && !CallerDone(t.executor.calls[j]) ensures Awaited(t, j) {
      if j < |s.executor.calls| {
        StillAwaited(s, t, i, j);
      } else {
        assert t.runners[i] == InExecutor(j);
      }
    }
  }

  lemma CallsOf(c: Settings, s: Loop, step: Step)
    requires Possible(c, s, step) && !step.Inside?
    ensures Take(c, s, step).executor.calls ==
            if step.Start? then s.executor.calls + [NewCall] else s.executor.calls
  {
    if step.Start? {
      ArriveFrame(c.executor, s.executor);
    } else if step.SetWorkers? {
      ResizeFrame(c.executor, s.executor, s.runners[step.runner].limit);
    }
  }

  lemma ExecutorReachable(c: Settings, s: Loop, step: Step)
    requires Reachable(c.executor, s.executor) && Possible(c, s, step)
    ensures Reachable(c.executor, Take(c, s, step).executor)
  {
    if step.Inside? {
      ReachableStep(c.executor, s.executor, step.action);
    } else if step.Start? {
      ReachableStep(c.executor, s.executor, Arrive);
    } else if step.SetWorkers? {
      ReachableStep(c.executor, s.executor, Resize(s.runners[step.runner].limit));
    }
  }

  lemma InvKept(c: Settings, s: Loop, step: Step)
    requires Inv(c, s) && Possible(c, s, step)
    ensures Inv(c, Take(c, s, step))
  {
    ExecutorReachable(c, s, step);
    if step.Inside? {
      ReachableInv(c.executor, s.executor);
      InsideAwaited(c, s, step.action);
      OwnCallsInside(c, s, step.action);
    } else {
      RunnerAwaited(c, s, step);
      OwnCallsKept(c, s, step);
    }
  }

  lemma FirstInv(c: Settings)
    ensures Inv(c, First(c)) && View(First(c)) == LimiterLoop.Init(c.limiter, c.runners)
  {
    var quantity := Aimd.Truncate(FirstLimit(c));
    ReachableInit(c.executor);
    ReachableStep(c.executor, Init(c.executor), Resize(quantity));
    ResizeFrame(c.executor, Init(c.executor), quantity);
  }

  // The run of the loop over any executor, step for step.
  function AbstractRun(c: Settings, s: Loop, run: seq<Step>): seq<LimiterLoop.Action>
    requires CanRun(c, s, run)
    decreases |run|
  {
    if run == [] then []
    else [Abstraction(c, s, run[0])] + AbstractRun(c, Take(c, s, run[0]), run[1..])
  }

  lemma {:induction false} RunIsAbstract(c: Settings, s: Loop, run: seq<Step>)
    requires CanRun(c, s, run)
    ensures var steps := AbstractRun(c, s, run);
            && |steps| == |run| && LimiterLoop.Legal(c.limiter, View(s), steps)
            && LimiterLoop.After(c.limiter, View(s), steps) == View(Ran(c, s, run))
    decreases |run|
  {
    if run != [] {
      StepIsAbstract(c, s, run[0]);
      RunIsAbstract(c, Take(c, s, run[0]), run[1..]);
      assert AbstractRun(c, s, run)[1..] == AbstractRun(c, Take(c, s, run[0]), run[1..]);
    }
  }

  lemma {:induction false} InvAfter(c: Settings, s: Loop, run: seq<Step>)
    requires Inv(c, s) && CanRun(c, s, run)
    ensures Inv(c, Ran(c, s, run))
    decreases |run|
  {
    if run != [] {
      InvKept(c, s, run[0]);
      InvAfter(c, Take(c, s, run[0]), run[1..]);
    }
  }

  // ---- what the composition promises ----

  function Runners(s: Loop): set<nat> {
    set i | 0 <= i < |s.runners| && s.runners[i].InExecutor?
  }

  // Every call in flight has a runner of its own.
  lemma CallsHaveRunners(s: Loop)
    requires AllAwaited(s)
    ensures |PipelineSafety.InFlight(s.executor)| <= |Runners(s)|
  {
    var calls := map i | i in Runners(s) :: s.runners[i].call;
    forall j | j in PipelineSafety.InFlight(s.executor) ensures j in calls.Values {
      assert Awaited(s, j);
      var i :| 0 <= i < |s.runners| && s.runners[i] == InExecutor(j);
      assert calls[i] == j;
    }
    SubsetSize(PipelineSafety.InFlight(s.executor), calls.Values);
    ValuesSize(calls);
    assert calls.Keys == Runners(s);
  }

  // The runners that have entered Run and not left the executor, or not counted themselves out of it yet.
  function Flying(s: Loop): set<nat> {
    set i | 0 <= i < |s.runners| && (s.runners[i].InExecutor? || s.runners[i].Back?)
  }

  lemma RunnersFly(s: Loop)
    ensures |Runners(s)| <= |Flying(s)|
    ensures Flying(s) == LimiterLoop.InFlightCallers(AllAbstract(s.runners))
  {
    SubsetSize(Runners(s), Flying(s));
    forall i | 0 <= i < |s.runners|
      ensures i in Flying(s) <==> i in LimiterLoop.InFlightCallers(AllAbstract(s.runners))
    {
      assert AllAbstract(s.runners)[i] == Abstract(s.runners[i]);
    }
  }

  /** With a LIFO or a CoDel executor too the loop is one of those over any executor, step for step: the
      limit and the workers stay in range, and the workers follow the limit. */
  lemma QueueIsAnExecutor(executor: Config, raw: Aimd.Config, runners: nat, run: seq<Step>)
    requires raw.minimumLimit >= 0 && raw.inflightFactor >= 0
    requires var c := Settings(executor, Aimd.Defaults(raw), runners); CanRun(c, First(c), run)
    ensures var c := Settings(executor, Aimd.Defaults(raw), runners);
            var s := Ran(c, First(c), run);
            var steps := AbstractRun(c, First(c), run);
            && |steps| == |run| && LimiterLoop.Legal(c.limiter, LimiterLoop.Init(c.limiter, runners), steps)
            && LimiterLoop.After(c.limiter, LimiterLoop.Init(c.limiter, runners), steps) == View(s)
            && LimiterLoop.InRange(c.limiter, runners, Aimd.Truncate(s.limit))
            && LimiterLoop.InRange(c.limiter, runners, Quantity(s.executor.pool))
            && LimiterLoop.Configured(c.limiter, runners, steps, Quantity(s.executor.pool))
  {
    var c := Settings(executor, Aimd.Defaults(raw), runners);
    Aimd.DefaultsAreSound(raw);
    FirstInv(c);
    RunIsAbstract(c, First(c), run);
    LimiterLoop.LimitStaysInRange(raw, runners, View(Ran(c, First(c), run)));
    LimiterLoop.WorkersFollowLimit(c.limiter, runners, AbstractRun(c, First(c), run));
  }

  /** All that is proved of the pipeline holds of the executor in the loop; every runner in it has a call of
      its own there, and every call without an answer has its runner. */
  lemma RunnersAndCalls(c: Settings, run: seq<Step>)
    requires CanRun(c, First(c), run)
    ensures var s := Ran(c, First(c), run); Reachable(c.executor, s.executor) && OwnCalls(s) && AllAwaited(s)
  {
    FirstInv(c);
    InvAfter(c, First(c), run);
  }

  /** The counters: inflights counts the runners in flight, of at most as many calls; executing is at most
      inflights plus the rejected calls whose f had been let go, and at most the ceiling of the limit plus
      the retired workers that have not left. */
  lemma CountersOrdered(executor: Config, raw: Aimd.Config, runners: nat, run: seq<Step>)
    requires raw.minimumLimit >= 0 && raw.inflightFactor >= 0
    requires var c := Settings(executor, Aimd.Defaults(raw), runners); CanRun(c, First(c), run)
    ensures var c := Settings(executor, Aimd.Defaults(raw), runners);
            var s := Ran(c, First(c), run);
            var executing := |PipelineSafety.Executing(s.executor)|;
            && s.inflights == |Flying(s)| <= runners
            && executing <= s.inflights + |PipelineSafety.Stragglers(s.executor)|
            && executing <= LimiterLoop.Ceiling(c.limiter, runners) + |Retiring(s.executor.pool)|
  {
    var c := Settings(executor, Aimd.Defaults(raw), runners);
    var s := Ran(c, First(c), run);
    RunnersAndCalls(c, run);
    QueueIsAnExecutor(executor, raw, runners, run);
    LimiterLoop.LimitStaysInRange(raw, runners, View(s));
    PipelineSafety.CounterOrdering(executor, s.executor);
    CallsHaveRunners(s);
    RunnersFly(s);
  }
}
