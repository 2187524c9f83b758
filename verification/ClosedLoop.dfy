/** The closed loop with the FIFO executor: every step of it is a step of the loop over any executor, and
    what the FIFO hand-off adds. */
module ClosedLoop {
  import opened WorkerPool
  import Aimd
  import LimiterLoop

  datatype Answer = Executed(error: bool) | Rejected

  /** With the FIFO executor the caller waits for its job from the hand-off on, so caller and job share
      one program counter. */
  datatype Caller =
    | Idle
    | Submitting                          // in the executor's select
    | Handed(worker: WorkerId)            // a worker has the job
    | Running(worker: WorkerId)           // f runs, between executing.Inc and executing.Dec
    | Ended(worker: WorkerId, error: bool)
    | Replied(error: bool)                // the result is sent, the worker has left the job
    | Answered(answer: Answer)            // Execute has returned
    | Left(answer: Answer, inflight: int) // inflights.Dec returned `inflight`
    | Resizing(limit: int)                // MeasureSample returned `limit`

  datatype State = State(
    callers: seq<Caller>,
    inflights: int,
    executing: int,
    limit: real,
    pool: Pool,
    runs: seq<nat>        // history: how often f has run in the current call of each slot
  )

  datatype Action =
    | Start(caller: nat)
    | HandOff(caller: nat, to: WorkerId)
    | WaitTooLong(caller: nat)
    | Begin(caller: nat)
    | End(caller: nat, error: bool)
    | Reply(caller: nat)
    | Answer(caller: nat)
    | Leave(caller: nat)
    | Measure(caller: nat, elapsed: int, result: Aimd.Result)
    | SetWorkers(caller: nat)
    | Exit(worker: WorkerId)

  function Init(c: Aimd.Config, callers: nat): State {
    State(seq(callers, _ => Idle), 0, 0, c.minimumLimit as real,
          Resized(NoWorkers, Aimd.Truncate(c.minimumLimit as real)), seq(callers, _ => 0))
  }

  predicate Enabled(s: State, a: Action) {
    match a
    case Exit(w) => Live(s.pool, w) && w < s.pool.retired && w !in s.pool.busy
    case _ =>
      var i := a.caller;
      i < |s.callers| == |s.runs| && s.limit > 0.0 &&
      match a
      case Start(_) => s.callers[i].Idle?
      case HandOff(_, w) => s.callers[i].Submitting? && Live(s.pool, w) && w !in s.pool.busy
      case WaitTooLong(_) => s.callers[i].Submitting?
      case Begin(_) => s.callers[i].Handed?
      case End(_, _) => s.callers[i].Running?
      case Reply(_) => s.callers[i].Ended?
      case Answer(_) => s.callers[i].Replied?
      case Leave(_) => s.callers[i].Answered?
      case Measure(_, _, _) => s.callers[i].Left?
      case SetWorkers(_) => s.callers[i].Resizing?
  }

  function Put(s: State, i: nat, caller: Caller): State
    requires i < |s.callers|
  {
    s.(callers := s.callers[i := caller])
  }

  function Apply(c: Aimd.Config, s: State, a: Action): State
    requires Enabled(s, a)
  {
    match a
    case Start(i) => Put(s, i, Submitting).(inflights := s.inflights + 1, runs := s.runs[i := 0])
    case HandOff(i, w) => Put(s, i, Handed(w)).(pool := s.pool.(busy := s.pool.busy[w := i]))
    case WaitTooLong(i) => Put(s, i, Answered(Rejected))
    case Begin(i) =>
      Put(s, i, Running(s.callers[i].worker)).(executing := s.executing + 1, runs := s.runs[i := s.runs[i] + 1])
    case End(i, error) => Put(s, i, Ended(s.callers[i].worker, error)).(executing := s.executing - 1)
    case Reply(i) =>
      Put(s, i, Replied(s.callers[i].error)).(pool := s.pool.(busy := s.pool.busy - {s.callers[i].worker}))
    case Answer(i) => Put(s, i, Answered(Executed(s.callers[i].error)))
    case Leave(i) => Put(s, i, Left(s.callers[i].answer, s.inflights - 1)).(inflights := s.inflights - 1)
    case Measure(i, elapsed, result) =>
      // the result policy ignores the sample or feeds the limiter
      if result.Ignore? then Put(s, i, Idle)
      else
        var limit := Aimd.Next(c, s.limit, Aimd.Sample(elapsed, s.callers[i].inflight, result));
        Put(s, i, Resizing(Aimd.Truncate(limit))).(limit := limit)
    case SetWorkers(i) => Put(s, i, Idle).(pool := Resized(s.pool, s.callers[i].limit))
    case Exit(w) => s.(pool := s.pool.(exited := s.pool.exited + {w}))
  }

  predicate Legal(c: Aimd.Config, s: State, run: seq<Action>)
    decreases |run|
  {
    run == [] || (Enabled(s, run[0]) && Legal(c, Apply(c, s, run[0]), run[1..]))
  }

  function After(c: Aimd.Config, s: State, run: seq<Action>): State
    requires Legal(c, s, run)
    decreases |run|
  {
    if run == [] then s else After(c, Apply(c, s, run[0]), run[1..])
  }

  // ---- the invariant ----

  predicate InFlight(caller: Caller) {
    !caller.Idle? && !caller.Left? && !caller.Resizing?
  }

  predicate OnWorker(caller: Caller) {
    caller.Handed? || caller.Running? || caller.Ended?
  }

  function InFlightCallers(callers: seq<Caller>): set<nat> {
    set i | 0 <= i < |callers| && InFlight(callers[i])
  }

  function RunningCallers(callers: seq<Caller>): set<nat> {
    set i | 0 <= i < |callers| && callers[i].Running?
  }

  ghost predicate Counted(s: State) {
    && s.inflights == |InFlightCallers(s.callers)|
    && s.executing == |RunningCallers(s.callers)|
  }

  ghost predicate Placed(s: State) {
    && PoolOk(s.pool)
    && (forall w | w in s.pool.busy :: s.pool.busy[w] < |s.callers| && OnWorker(s.callers[s.pool.busy[w]])
                                       && s.callers[s.pool.busy[w]].worker == w)
    && (forall i | 0 <= i < |s.callers| && OnWorker(s.callers[i]) ::
          s.callers[i].worker in s.pool.busy && s.pool.busy[s.callers[i].worker] == i)
  }

  // How often f has run so far, by where the call is.
  predicate RunsOk(caller: Caller, runs: nat) {
    match caller
    case Submitting => runs == 0
    case Handed(_) => runs == 0
    case Running(_) => runs == 1
    case Ended(_, _) => runs == 1
    case Replied(_) => runs == 1
    case Answered(answer) => runs == if answer.Executed? then 1 else 0
    case Left(answer, _) => runs == if answer.Executed? then 1 else 0
    case _ => true
  }

  ghost predicate Ran(s: State) {
    |s.runs| == |s.callers| && forall i | 0 <= i < |s.callers| :: RunsOk(s.callers[i], s.runs[i])
  }

  ghost predicate Inv(s: State) {
    Counted(s) && Placed(s) && Ran(s)
  }

  lemma PutInFlight(callers: seq<Caller>, i: nat, caller: Caller)
    requires i < |callers|
    ensures |InFlightCallers(callers[i := caller])| ==
            |InFlightCallers(callers)| + (if InFlight(caller) then 1 else 0) - (if InFlight(callers[i]) then 1 else 0)
  {
    LimiterLoop.PutSize(InFlightCallers(callers), InFlightCallers(callers[i := caller]), i);
  }

  lemma PutRunning(callers: seq<Caller>, i: nat, caller: Caller)
    requires i < |callers|
    ensures |RunningCallers(callers[i := caller])| ==
            |RunningCallers(callers)| + (if caller.Running? then 1 else 0) - (if callers[i].Running? then 1 else 0)
  {
    LimiterLoop.PutSize(RunningCallers(callers), RunningCallers(callers[i := caller]), i);
  }

  lemma CountedKept(c: Aimd.Config, s: State, a: Action)
    requires Counted(s) && Enabled(s, a)
    ensures Counted(Apply(c, s, a))
  {
    if !a.Exit? {
      var next := Apply(c, s, a).callers[a.caller];
      PutInFlight(s.callers, a.caller, next);
      PutRunning(s.callers, a.caller, next);
      assert Apply(c, s, a).callers == s.callers[a.caller := next];
    }
  }

  // Steps of a caller that is on no worker before or after.
  lemma OffWorkerPlaced(c: Aimd.Config, s: State, a: Action)
    requires Placed(s) && Enabled(s, a)
    requires a.Start? || a.WaitTooLong? || a.Answer? || a.Leave? || a.Measure?
    ensures Placed(Apply(c, s, a))
  {
  }

  lemma OnWorkerPlaced(c: Aimd.Config, s: State, a: Action)
    requires Placed(s) && Enabled(s, a) && (a.Begin? || a.End?)
    ensures Placed(Apply(c, s, a))
  {
  }

  lemma HandOffPlaced(c: Aimd.Config, s: State, a: Action)
    requires Placed(s) && Enabled(s, a) && (a.HandOff? || a.Reply?)
    ensures Placed(Apply(c, s, a))
  {
  }

  lemma PoolPlaced(c: Aimd.Config, s: State, a: Action)
    requires Placed(s) && Enabled(s, a) && (a.SetWorkers? || a.Exit?)
    ensures Placed(Apply(c, s, a))
  {
  }

  lemma PlacedKept(c: Aimd.Config, s: State, a: Action)
    requires Placed(s) && Enabled(s, a)
    ensures Placed(Apply(c, s, a))
  {
    match a
    case HandOff(_, _) | Reply(_) => HandOffPlaced(c, s, a);
    case Begin(_) | End(_, _) => OnWorkerPlaced(c, s, a);
    case SetWorkers(_) | Exit(_) => PoolPlaced(c, s, a);
    case _ => OffWorkerPlaced(c, s, a);
  }

  lemma RanKept(c: Aimd.Config, s: State, a: Action)
    requires Ran(s) && Enabled(s, a)
    ensures Ran(Apply(c, s, a))
  {
  }

  lemma InitInv(c: Aimd.Config, callers: nat)
    requires Aimd.Sound(c)
    ensures Inv(Init(c, callers))
  {
    var s := Init(c, callers);
    assert InFlightCallers(s.callers) == {} && RunningCallers(s.callers) == {};
    ResizedOk(NoWorkers, Aimd.Truncate(c.minimumLimit as real));
  }

  lemma {:induction false} InvAfter(c: Aimd.Config, s: State, run: seq<Action>)
    requires Inv(s) && Legal(c, s, run)
    ensures Inv(After(c, s, run)) && |After(c, s, run).callers| == |s.callers|
    decreases |run|
  {
    if run != [] {
      CountedKept(c, s, run[0]);
      PlacedKept(c, s, run[0]);
      RanKept(c, s, run[0]);
      InvAfter(c, Apply(c, s, run[0]), run[1..]);
    }
  }

  // ---- a loop like any other ----

  function Abstract(caller: Caller): LimiterLoop.Caller {
    match caller
    case Idle => LimiterLoop.Idle
    case Answered(_) => LimiterLoop.Answered
    case Left(_, inflight) => LimiterLoop.Left(inflight)
    case Resizing(limit) => LimiterLoop.Resizing(limit)
    case _ => LimiterLoop.InExecutor
  }

  function AllAbstract(callers: seq<Caller>): seq<LimiterLoop.Caller> {
    seq(|callers|, i requires 0 <= i < |callers| => Abstract(callers[i]))
  }

  function View(s: State): LimiterLoop.State {
    LimiterLoop.State(AllAbstract(s.callers), s.inflights, s.limit, s.pool)
  }

  // The step that the loop over any executor makes.
  function Abstraction(c: Aimd.Config, s: State, a: Action): LimiterLoop.Action
    requires Enabled(s, a)
  {
    match a
    case Start(i) => LimiterLoop.Start(i)
    case WaitTooLong(i) => LimiterLoop.Return(i)
    case Answer(i) => LimiterLoop.Return(i)
    case Leave(i) => LimiterLoop.Leave(i)
    case Measure(i, elapsed, result) => LimiterLoop.Measure(i, elapsed, result)
    case SetWorkers(i) => LimiterLoop.SetWorkers(i)
    case _ => LimiterLoop.Work(Apply(c, s, a).pool.busy, Apply(c, s, a).pool.exited)
  }

  lemma PutAbstract(callers: seq<Caller>, i: nat, caller: Caller)
    requires i < |callers|
    ensures AllAbstract(callers[i := caller]) == AllAbstract(callers)[i := Abstract(caller)]
    ensures Abstract(caller) == Abstract(callers[i]) ==> AllAbstract(callers[i := caller]) == AllAbstract(callers)
  {
  }

  lemma StepIsAbstract(c: Aimd.Config, s: State, a: Action)
    requires Enabled(s, a)
    ensures LimiterLoop.Enabled(View(s), Abstraction(c, s, a))
    ensures LimiterLoop.Apply(c, View(s), Abstraction(c, s, a)) == View(Apply(c, s, a))
  {
    if !a.Exit? {
      var next := Apply(c, s, a).callers[a.caller];
      assert Apply(c, s, a).callers == s.callers[a.caller := next];
      PutAbstract(s.callers, a.caller, next);
    }
  }

  // The run of the loop over any executor, step for step.
  function AbstractRun(c: Aimd.Config, s: State, run: seq<Action>): seq<LimiterLoop.Action>
    requires Legal(c, s, run)
    decreases |run|
  {
    if run == [] then []
    else [Abstraction(c, s, run[0])] + AbstractRun(c, Apply(c, s, run[0]), run[1..])
  }

  lemma {:induction false} RunIsAbstract(c: Aimd.Config, s: State, run: seq<Action>)
    requires Legal(c, s, run)
    ensures var steps := AbstractRun(c, s, run);
            && |steps| == |run| && LimiterLoop.Legal(c, View(s), steps)
            && LimiterLoop.After(c, View(s), steps) == View(After(c, s, run))
    decreases |run|
  {
    if run != [] {
      StepIsAbstract(c, s, run[0]);
      RunIsAbstract(c, Apply(c, s, run[0]), run[1..]);
      assert AbstractRun(c, s, run)[1..] == AbstractRun(c, Apply(c, s, run[0]), run[1..]);
    }
  }

  // ---- what the loop promises ----

  /** The loop with the FIFO executor is one of the loops over any executor, step for step, so the limit and
      the workers stay in range and the workers follow the limit. */
  lemma FifoIsAnExecutor(raw: Aimd.Config, callers: nat, run: seq<Action>)
    requires raw.minimumLimit >= 0 && raw.inflightFactor >= 0
    requires Legal(Aimd.Defaults(raw), Init(Aimd.Defaults(raw), callers), run)
    ensures var c := Aimd.Defaults(raw);
            var s := After(c, Init(c, callers), run);
            var steps := AbstractRun(c, Init(c, callers), run);
            && |steps| == |run| && LimiterLoop.Legal(c, LimiterLoop.Init(c, callers), steps)
            && LimiterLoop.After(c, LimiterLoop.Init(c, callers), steps) == View(s)
            && LimiterLoop.InRange(c, callers, Aimd.Truncate(s.limit))
            && LimiterLoop.InRange(c, callers, Quantity(s.pool))
            && LimiterLoop.Configured(c, callers, steps, Quantity(s.pool))
  {
    var c := Aimd.Defaults(raw);
    var start := Init(c, callers);
    Aimd.DefaultsAreSound(raw);
    assert View(start) == LimiterLoop.Init(c, callers);
    RunIsAbstract(c, start, run);
    LimiterLoop.LimitStaysInRange(raw, callers, View(After(c, start, run)));
    LimiterLoop.WorkersFollowLimit(c, callers, AbstractRun(c, start, run));
  }

  /** The counters count the calls that run and those in flight: executing <= inflights, and executing <= the
      workers alive, which are the configured ones and the retired ones that have not left yet. */
  lemma CountersOrdered(c: Aimd.Config, callers: nat, run: seq<Action>)
    requires Aimd.Sound(c) && Legal(c, Init(c, callers), run)
    ensures var s := After(c, Init(c, callers), run);
            && s.executing == |RunningCallers(s.callers)| && s.inflights == |InFlightCallers(s.callers)|
            && 0 <= s.executing <= s.inflights <= callers
            && s.executing <= |LiveWorkers(s.pool)| == Quantity(s.pool) + |Retiring(s.pool)|
  {
    InitInv(c, callers);
    InvAfter(c, Init(c, callers), run);
    var s := After(c, Init(c, callers), run);
    SubsetSize(RunningCallers(s.callers), InFlightCallers(s.callers));
    SubsetSize(InFlightCallers(s.callers), Range(0, callers));
    RunningOnWorkers(s);
    Accounting(s.pool);
  }

  lemma RunningOnWorkers(s: State)
    requires Placed(s)
    ensures |RunningCallers(s.callers)| <= |s.pool.busy.Keys|
  {
    forall i | i in RunningCallers(s.callers) ensures i in s.pool.busy.Values {
      assert s.pool.busy[s.callers[i].worker] == i;
    }
    SubsetSize(RunningCallers(s.callers), s.pool.busy.Values);
    ValuesSize(s.pool.busy);
  }

  /** A call the FIFO executor rejects never ran its function; a call it answers ran it exactly once. */
  lemma RejectedNeverRan(c: Aimd.Config, callers: nat, run: seq<Action>, i: nat)
    requires Aimd.Sound(c) && Legal(c, Init(c, callers), run) && i < callers
    ensures var s := After(c, Init(c, callers), run);
            && |s.callers| == |s.runs| == callers
            && (s.callers[i].Answered? ==> s.runs[i] == if s.callers[i].answer.Rejected? then 0 else 1)
  {
    InitInv(c, callers);
    InvAfter(c, Init(c, callers), run);
    var s := After(c, Init(c, callers), run);
    assert RunsOk(s.callers[i], s.runs[i]);
  }
}
