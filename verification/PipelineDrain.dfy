/** Termination of the queue-backed executors: every run makes a bounded number of steps per call,
    and a run that can make no more has finished every call. */
module PipelineDrain {
  import opened Common
  import opened Handshake
  import opened JobQueue
  import opened WorkerPool
  import opened Pipeline
  import opened PipelineInvariant

  // Steps of the executor itself, as opposed to new calls, resizes, leaving workers and time.
  predicate Progress(a: Action) {
    !a.Arrive? && !a.Resize? && !a.Exit? && !a.Elapse?
  }

  // ---- the measure ----

  function PlaceWeight(p: Place): nat {
    match p
    case Unlaunched => 20
    case AtSubmitter => 19
    case AtEnqueuer => 15
    case InQueue => 10
    case AtDequeuer => 8
    case AtForwarder => 6
    case AtWorker(_) => 5
    case Finished => 0
  }

  function JobWeight(j: JobPc): nat {
    match j
    case Fresh => 4
    case Announced => 3
    case Running => 2
    case Ran(_) => 1
    case Skipped | Delivered => 0
  }

  function CallerWeight(caller: Caller): nat {
    match caller
    case Entered => 5
    case Measured(_) => 4
    case PolicySet(_) => 3
    case Waiting(_) => 2
    case TimedOut | AwaitResult => 1
    case Returned(_) | Rejected => 0
  }

  function CallWeight(call: Call, place: Place): nat {
    PlaceWeight(place) + JobWeight(call.job) + CallerWeight(call.caller)
  }

  const ArrivalWeight := 29

  function EnqueuerWeight(e: Enqueuer): nat {
    match e
    case EnqIdle => 0
    case EnqGot(_) => 2
    case EnqCounted(_) => 1
    case EnqAppended => 5
  }

  function DequeuerWeight(d: Dequeuer): nat {
    match d
    case DeqRecheck => 2
    case DeqCheck | DeqPopped(_) => 1
    case DeqParked | DeqPop | DeqSending(_) => 0
  }

  function Weights(s: State): seq<nat>
    requires |s.places| == |s.calls|
  {
    seq(|s.calls|, i requires 0 <= i < |s.calls| => CallWeight(s.calls[i], s.places[i]))
  }

  function MachineWeight(s: State): nat {
    EnqueuerWeight(s.enq) + DequeuerWeight(s.deq) + (if s.token then 3 else 0)
  }

  function Measure(s: State): nat
    requires |s.places| == |s.calls|
  {
    Total(Weights(s)) + MachineWeight(s)
  }

  // A step that touches call j only, for the better.
  lemma OneCallLess(s: State, t: State, j: JobId)
    requires |s.places| == |s.calls| && j < |s.calls|
    requires |t.calls| == |s.calls| && |t.places| == |s.places|
    requires t.calls == s.calls[j := t.calls[j]] && t.places == s.places[j := t.places[j]]
    requires CallWeight(t.calls[j], t.places[j]) + MachineWeight(t) <
             CallWeight(s.calls[j], s.places[j]) + MachineWeight(s)
    ensures Measure(t) < Measure(s)
  {
    var weight := CallWeight(t.calls[j], t.places[j]);
    TotalUpdate(Weights(s), j, weight);
    assert Weights(t) == Weights(s)[j := weight];
  }

  lemma CallerDecreases(c: Config, s: State, a: Action)
    requires |s.places| == |s.calls| && Enabled(c, s, a) && CallerStep(a)
    ensures var t := Apply(c, s, a); |t.places| == |t.calls| && Measure(t) < Measure(s)
  {
    CallerFrame(c, s, a);
    CallerLighter(c, s, a);
    OneCallLess(s, Apply(c, s, a), a.call);
  }

  ghost predicate Lighter(s: State, t: State, j: JobId) {
    && j < |s.calls| == |t.calls|
    && t.calls == s.calls[j := t.calls[j]]
    && CallerWeight(t.calls[j].caller) < CallerWeight(s.calls[j].caller)
    && t.calls[j].job == s.calls[j].job
  }

  lemma CallerLighter(c: Config, s: State, a: Action)
    requires Enabled(c, s, a) && CallerStep(a)
    ensures Lighter(s, Apply(c, s, a), a.call)
  {
    if a.Measure? || a.SetPolicy? {
      PrologueLighter(c, s, a);
    } else if a.TimerFires? || a.SeeDequeued? {
      ChoiceLighter(c, s, a);
    } else {
      EndLighter(c, s, a);
    }
  }

  lemma PrologueLighter(c: Config, s: State, a: Action)
    requires Enabled(c, s, a) && (a.Measure? || a.SetPolicy?)
    ensures Lighter(s, Apply(c, s, a), a.call)
  {
    if a.Measure? {
      assert Lighter(s, MeasureCongestion(c, s, a.call), a.call);
    } else {
      assert Lighter(s, ChoosePolicy(c, s, a.call), a.call);
    }
  }

  lemma ChoiceLighter(c: Config, s: State, a: Action)
    requires Enabled(c, s, a) && (a.TimerFires? || a.SeeDequeued?)
    ensures Lighter(s, Apply(c, s, a), a.call)
  {
  }

  lemma EndLighter(c: Config, s: State, a: Action)
    requires Enabled(c, s, a) && (a.CancelJob? || a.ReceiveResult?)
    ensures Lighter(s, Apply(c, s, a), a.call)
  {
  }

  lemma WorkDecreases(c: Config, s: State, a: Action)
    requires |s.places| == |s.calls| && Enabled(c, s, a) && WorkStep(a)
    requires s.places[s.pool.busy[a.worker]].AtWorker?
    ensures var t := Apply(c, s, a); |t.places| == |t.calls| && Measure(t) < Measure(s)
  {
    WorkFrame(c, s, a);
    WorkLighter(c, s, a);
    OneCallLess(s, Apply(c, s, a), s.pool.busy[a.worker]);
  }

  ghost predicate Worked(s: State, t: State, j: JobId) {
    && j < |s.calls| == |t.calls| && j < |s.places| == |t.places|
    && t.calls == s.calls[j := t.calls[j]]
    && t.places == s.places[j := t.places[j]]
    && PlaceWeight(t.places[j]) <= PlaceWeight(s.places[j])
    && JobWeight(t.calls[j].job) < JobWeight(s.calls[j].job)
    && t.calls[j].caller == s.calls[j].caller
  }

  lemma WorkLighter(c: Config, s: State, a: Action)
    requires Enabled(c, s, a) && WorkStep(a)
    requires s.places[s.pool.busy[a.worker]].AtWorker?
    ensures Worked(s, Apply(c, s, a), s.pool.busy[a.worker])
  {
    if a.Announce? || a.Return? {
      StayLighter(c, s, a);
    } else {
      FreeLighter(c, s, a);
    }
  }

  lemma StayLighter(c: Config, s: State, a: Action)
    requires Enabled(c, s, a) && (a.Announce? || a.Return?)
    ensures Worked(s, Apply(c, s, a), s.pool.busy[a.worker])
  {
    assert s.places == s.places[s.pool.busy[a.worker] := s.places[s.pool.busy[a.worker]]];
  }

  lemma FreeLighter(c: Config, s: State, a: Action)
    requires Enabled(c, s, a) && (a.Check? || a.SendResult?)
    requires s.places[s.pool.busy[a.worker]].AtWorker?
    ensures Worked(s, Apply(c, s, a), s.pool.busy[a.worker])
  {
    if a.Check? {
      CheckLighter(c, s, a.worker);
    } else {
      ResultLighter(c, s, a.worker);
    }
  }

  lemma CheckLighter(c: Config, s: State, w: WorkerId)
    requires Enabled(c, s, Check(w)) && s.places[s.pool.busy[w]].AtWorker?
    ensures Worked(s, Apply(c, s, Check(w)), s.pool.busy[w])
  {
    assert s.places == s.places[s.pool.busy[w] := s.places[s.pool.busy[w]]];
    assert Worked(s, CheckCancelled(s, w), s.pool.busy[w]);
  }

  lemma ResultLighter(c: Config, s: State, w: WorkerId)
    requires Enabled(c, s, SendResult(w)) && s.places[s.pool.busy[w]].AtWorker?
    ensures Worked(s, Apply(c, s, SendResult(w)), s.pool.busy[w])
  {
  }

  lemma LaunchDecreases(c: Config, s: State, j: JobId)
    requires |s.places| == |s.calls| && Enabled(c, s, Launch(j)) && s.places[j].Unlaunched?
    ensures var t := Apply(c, s, Launch(j)); |t.places| == |t.calls| && Measure(t) < Measure(s)
  {
    OneCallLess(s, Apply(c, s, Launch(j)), j);
  }

  // A job that moves one stage on.
  lemma MoveDecreases(s: State, t: State, j: JobId, place: Place)
    requires |s.places| == |s.calls| && j < |s.places|
    requires t.calls == s.calls && t.places == s.places[j := place]
    requires PlaceWeight(place) + MachineWeight(t) < PlaceWeight(s.places[j]) + MachineWeight(s)
    ensures |t.places| == |t.calls| && Measure(t) < Measure(s)
  {
    OneCallLess(s, t, j);
  }

  lemma StageDecreases(c: Config, s: State, a: Action)
    requires Located(s) && Enabled(c, s, a)
    requires a.SendIn? || a.Append? || a.Pop? || a.SendOut? || a.HandOff?
    ensures var t := Apply(c, s, a); |t.places| == |t.calls| && Measure(t) < Measure(s)
  {
    if a.SendIn? || a.Append? {
      EntryDecreases(c, s, a);
    } else {
      ExitDecreases(c, s, a);
    }
  }

  lemma EntryDecreases(c: Config, s: State, a: Action)
    requires Located(s) && Enabled(c, s, a) && (a.SendIn? || a.Append?)
    ensures var t := Apply(c, s, a); |t.places| == |t.calls| && Measure(t) < Measure(s)
  {
    var t := Apply(c, s, a);
    match a
    case SendIn(j) => MoveDecreases(s, t, j, AtEnqueuer);
    case Append => MoveDecreases(s, t, s.enq.job, InQueue);
  }

  lemma PopDecreases(c: Config, s: State)
    requires Located(s) && Enabled(c, s, Pop)
    ensures var t := Apply(c, s, Pop); |t.places| == |t.calls| && Measure(t) < Measure(s)
  {
    DequeueTakesOne(s.policy, s.queue);
    MoveDecreases(s, PopJob(s), Dequeue(s.policy, s.queue).0.value, AtDequeuer);
  }

  lemma ExitDecreases(c: Config, s: State, a: Action)
    requires Located(s) && Enabled(c, s, a) && (a.Pop? || a.SendOut? || a.HandOff?)
    ensures var t := Apply(c, s, a); |t.places| == |t.calls| && Measure(t) < Measure(s)
  {
    if a.Pop? {
      PopDecreases(c, s);
    } else if a.SendOut? {
      MoveDecreases(s, SendJobOut(s), s.deq.job.value, AtForwarder);
    } else {
      MoveDecreases(s, HandToWorker(s, a.worker), s.forwarder.value, AtWorker(a.worker));
    }
  }

  lemma MachineDecreases(c: Config, s: State, a: Action)
    requires |s.places| == |s.calls| && Enabled(c, s, a) && MachineStep(a)
    ensures var t := Apply(c, s, a);
            && |t.places| == |t.calls|
            && Measure(t) + (if Progress(a) then 1 else 0) <= Measure(s)
  {
    MachineFrame(c, s, a);
    assert Weights(Apply(c, s, a)) == Weights(s);
    MachineLighter(c, s, a);
  }

  lemma MachineLighter(c: Config, s: State, a: Action)
    requires Enabled(c, s, a) && MachineStep(a)
    ensures MachineWeight(Apply(c, s, a)) + (if Progress(a) then 1 else 0) <= MachineWeight(s)
  {
  }

  lemma ArriveAdds(c: Config, s: State)
    requires |s.places| == |s.calls|
    ensures var t := Apply(c, s, Arrive); |t.places| == |t.calls| && Measure(t) == Measure(s) + ArrivalWeight
  {
    TotalAppend(Weights(s), ArrivalWeight);
    assert Weights(Apply(c, s, Arrive)) == Weights(s) + [ArrivalWeight];
  }

  lemma TravelDecreases(c: Config, s: State, a: Action)
    requires Located(s) && Coupled(c, s) && Enabled(c, s, a)
    requires a.Launch? || a.SendIn? || a.Append? || a.Pop? || a.SendOut? || a.HandOff?
    ensures var t := Apply(c, s, a); |t.places| == |t.calls| && Measure(t) < Measure(s)
  {
    if a.Launch? {
      assert CoupledAt(c.kind, s.calls[a.call], s.places[a.call]);
      LaunchDecreases(c, s, a.call);
    } else {
      StageDecreases(c, s, a);
    }
  }

  lemma StepMeasure(c: Config, s: State, a: Action)
    requires Located(s) && Coupled(c, s) && Enabled(c, s, a)
    ensures var t := Apply(c, s, a);
            && |t.places| == |t.calls|
            && Measure(t) + (if Progress(a) then 1 else 0) <= Measure(s) + (if a.Arrive? then ArrivalWeight else 0)
  {
    if a.Arrive? {
      ArriveAdds(c, s);
    } else if CallerStep(a) {
      CallerDecreases(c, s, a);
    } else if WorkStep(a) {
      assert s.places[s.pool.busy[a.worker]] == AtWorker(a.worker);
      WorkDecreases(c, s, a);
    } else if MachineStep(a) {
      MachineDecreases(c, s, a);
    } else {
      TravelDecreases(c, s, a);
    }
  }

  // ---- every run ----

  function Steps(run: seq<Action>): nat {
    if run == [] then 0 else (if Progress(run[0]) then 1 else 0) + Steps(run[1..])
  }

  function Arrivals(run: seq<Action>): nat {
    if run == [] then 0 else (if run[0].Arrive? then 1 else 0) + Arrivals(run[1..])
  }

  lemma {:induction false} StepsBounded(c: Config, s: State, run: seq<Action>)
    requires Inv(c, s) && Legal(c, s, run)
    ensures Inv(c, After(c, s, run))
    ensures Steps(run) + Measure(After(c, s, run)) <= Measure(s) + ArrivalWeight * Arrivals(run)
    decreases |run|
  {
    if run != [] {
      StepMeasure(c, s, run[0]);
      InvKept(c, s, run[0]);
      StepsBounded(c, Apply(c, s, run[0]), run[1..]);
    }
  }

  /** No interleaving livelocks: a run makes at most 29 steps per call and one more, however often
      the dequeuer is woken for nothing, whatever the policy switches, resizes and timers. */
  lemma EveryRunTerminates(c: Config, run: seq<Action>)
    requires Legal(c, Init(c), run)
    ensures Steps(run) <= ArrivalWeight * Arrivals(run) + 1
  {
    InvInit(c);
    StepsBounded(c, Init(c), run);
  }

  // ---- states where nothing is left to do ----

  // No step of the executor is possible; a timer may still be running.
  ghost predicate Quiet(c: Config, s: State) {
    forall a :: Progress(a) && !a.TimerFires? ==> !Enabled(c, s, a)
  }

  lemma QuietCallers(c: Config, s: State)
    requires Coupled(c, s) && Quiet(c, s)
    ensures forall j | 0 <= j < |s.places| :: !s.places[j].Unlaunched?
  {
    forall j | 0 <= j < |s.places| ensures !s.places[j].Unlaunched? {
      assert CoupledAt(c.kind, s.calls[j], s.places[j]);
      assert !Enabled(c, s, Action.Measure(j));
      assert !Enabled(c, s, SetPolicy(j));
      assert !Enabled(c, s, Launch(j));
    }
  }

  lemma QuietEnqueuer(c: Config, s: State)
    requires |s.places| == |s.calls| && EnqLocated(s) && WakeOk(s) && Quiet(c, s)
    ensures s.enq.EnqIdle? && !s.locked
    ensures forall j | 0 <= j < |s.places| :: !s.places[j].AtSubmitter? && !s.places[j].AtEnqueuer?
  {
    assert !Enabled(c, s, Signal);
    assert !Enabled(c, s, CountIn);
    assert !Enabled(c, s, Append);
    forall j | 0 <= j < |s.places| ensures !s.places[j].AtSubmitter? {
      assert !Enabled(c, s, SendIn(j));
    }
  }

  lemma QuietDequeuer(c: Config, s: State)
    requires WakeOk(s) && s.enq.EnqIdle? && Quiet(c, s)
    ensures (s.deq.DeqParked? && s.queue == [] && !s.token) || (s.deq.DeqSending? && s.forwarder.Some?)
  {
    assert !Enabled(c, s, CheckEmpty);
    assert !Enabled(c, s, Wake);
    assert !Enabled(c, s, Recheck);
    assert !Enabled(c, s, Pop);
    assert !Enabled(c, s, CountOut);
    assert !Enabled(c, s, SendOut);
  }

  lemma QuietWorkers(c: Config, s: State)
    requires Located(s) && Coupled(c, s) && Quiet(c, s)
    ensures s.pool.busy == map[]
  {
    forall w | w in s.pool.busy ensures false {
      var j := s.pool.busy[w];
      assert CoupledAt(c.kind, s.calls[j], s.places[j]);
      BusyWorkerMoves(c, s, w);
    }
  }

  lemma BusyWorkerMoves(c: Config, s: State, w: WorkerId)
    requires Working(s, w) && CallOk(s.calls[s.pool.busy[w]]) && !JobDone(s.calls[s.pool.busy[w]])
    ensures exists a :: WorkStep(a) && Enabled(c, s, a)
  {
    match s.calls[s.pool.busy[w]].job
    case Fresh => assert WorkStep(Announce(w)) && Enabled(c, s, Announce(w));
    case Announced => assert WorkStep(Check(w)) && Enabled(c, s, Check(w));
    case Running => assert WorkStep(Return(w, Nil)) && Enabled(c, s, Return(w, Nil));
    case Ran(_) => assert WorkStep(SendResult(w)) && Enabled(c, s, SendResult(w));
  }

  lemma QuietForwarder(c: Config, s: State)
    requires Located(s) && s.pool.busy == map[] && Quiet(c, s) && s.forwarder.Some?
    ensures forall w :: !Live(s.pool, w)
  {
    forall w ensures !Live(s.pool, w) {
      assert !Enabled(c, s, HandOff(w));
    }
  }

  lemma QuietCaller(c: Config, s: State, j: JobId)
    requires Quiet(c, s) && Calling(s, j) && CallOk(s.calls[j]) && JobDone(s.calls[j])
    ensures CallerDone(s.calls[j])
  {
    assert !Enabled(c, s, SeeDequeued(j));
    assert !Enabled(c, s, CancelJob(j));
    assert !Enabled(c, s, ReceiveResult(j));
  }

  // Every call has been answered, every job was handed to a worker once, and everyone is asleep.
  ghost predicate Drained(s: State) {
    && s.enq.EnqIdle? && s.queue == [] && s.deq.DeqParked? && !s.token && s.forwarder.None? && s.pool.busy == map[]
    && (forall j | 0 <= j < |s.calls| :: CallerDone(s.calls[j]) && JobDone(s.calls[j]))
    && Distinct(s.handed)
    && (forall j :: j in s.handed <==> 0 <= j < |s.calls|)
    && (forall j :: j in s.received <==> 0 <= j < |s.calls|)
  }

  // Where every job is when nothing can move.
  lemma QuietShape(c: Config, s: State)
    requires Inv(c, s) && Quiet(c, s)
    ensures s.enq.EnqIdle? && s.pool.busy == map[]
    ensures (s.deq.DeqParked? && s.queue == [] && !s.token) || (s.deq.DeqSending? && s.forwarder.Some?)
    ensures s.forwarder.Some? ==> forall w :: !Live(s.pool, w)
    ensures forall j | 0 <= j < |s.places| ::
              s.places[j].InQueue? || s.places[j].AtDequeuer? || s.places[j].AtForwarder? || s.places[j].Finished?
  {
    QuietCallers(c, s);
    QuietEnqueuer(c, s);
    QuietDequeuer(c, s);
    QuietWorkers(c, s);
    if s.forwarder.Some? {
      QuietForwarder(c, s);
    }
  }

  lemma QuietIsDrained(c: Config, s: State)
    requires Inv(c, s) && Quiet(c, s) && Quantity(s.pool) >= 1
    ensures Drained(s)
  {
    QuietShape(c, s);
    assert Live(s.pool, s.pool.retired);
    forall j | 0 <= j < |s.calls| ensures s.places[j].Finished? && CallerDone(s.calls[j]) && JobDone(s.calls[j]) {
      assert CoupledAt(c.kind, s.calls[j], s.places[j]);
      QuietCaller(c, s, j);
    }
  }

  /** From any reachable state, once no new call arrives, every run of the executor is finite, and
      where it can go no further with a worker configured it has drained: no job and no caller is
      left behind, even if no timer ever fires. */
  lemma DrainsAndTerminates(c: Config, s: State, run: seq<Action>)
    requires Reachable(c, s) && Legal(c, s, run) && Arrivals(run) == 0
    ensures |s.places| == |s.calls| && Steps(run) <= Measure(s)
    ensures var t := After(c, s, run); Quiet(c, t) && Quantity(t.pool) >= 1 ==> Drained(t)
  {
    ReachableInv(c, s);
    StepsBounded(c, s, run);
    var t := After(c, s, run);
    if Quiet(c, t) && Quantity(t.pool) >= 1 {
      QuietIsDrained(c, t);
    }
  }

  // ---- nobody blocks, with or without workers ----

  // Nothing can happen but new calls, resizes, leaving workers and the passing of time.
  ghost predicate AtRest(c: Config, s: State) {
    forall a :: Progress(a) ==> !Enabled(c, s, a)
  }

  // A caller that still has time to wait for a worker.
  predicate StillWaiting(s: State, j: JobId) {
    j < |s.calls| && s.calls[j].caller.Waiting? && !s.calls[j].dequeued && s.now < s.calls[j].caller.deadline
  }

  /** Whatever the quantity of workers, also when the pool has been cut to none: where no step is left
      no worker is stuck in a job, and only callers whose time is not up have no answer yet. */
  lemma NobodyBlocks(c: Config, s: State)
    requires Reachable(c, s) && AtRest(c, s)
    ensures s.pool.busy == map[]
    ensures forall j | 0 <= j < |s.calls| :: CallerDone(s.calls[j]) || StillWaiting(s, j)
  {
    ReachableInv(c, s);
    QuietShape(c, s);
    forall j | 0 <= j < |s.calls| ensures CallerDone(s.calls[j]) || StillWaiting(s, j) {
      assert CoupledAt(c.kind, s.calls[j], s.places[j]);
      RestingCaller(c, s, j);
    }
  }

  lemma RestingCaller(c: Config, s: State, j: JobId)
    requires AtRest(c, s) && Calling(s, j) && CallOk(s.calls[j]) && !BeforeLaunch(s.calls[j])
    requires s.calls[j].job.Fresh? || JobDone(s.calls[j])
    ensures CallerDone(s.calls[j]) || StillWaiting(s, j)
  {
    assert !Enabled(c, s, TimerFires(j));
    assert !Enabled(c, s, CancelJob(j));
    assert !Enabled(c, s, SeeDequeued(j));
    assert !Enabled(c, s, ReceiveResult(j));
  }

  /** So once every deadline has passed and no step is left, every call has returned. */
  lemma EveryCallReturns(c: Config, s: State)
    requires Reachable(c, s) && AtRest(c, s)
    requires forall j | 0 <= j < |s.calls| && s.calls[j].caller.Waiting? :: s.calls[j].caller.deadline <= s.now
    ensures s.pool.busy == map[] && forall j | 0 <= j < |s.calls| :: CallerDone(s.calls[j])
  {
    NobodyBlocks(c, s);
  }

  /** A call whose job a worker has taken needs no timer: when nothing else moves, both sides are done. */
  lemma DequeuedIsAnswered(c: Config, s: State, j: JobId)
    requires Reachable(c, s) && Quiet(c, s) && j < |s.calls| && s.calls[j].dequeued
    ensures CallerDone(s.calls[j]) && JobDone(s.calls[j])
  {
    ReachableInv(c, s);
    QuietShape(c, s);
    assert CoupledAt(c.kind, s.calls[j], s.places[j]);
    QuietCaller(c, s, j);
  }

  // ---- the dequeued branch ----

  predicate OnDequeuedBranch(s: State, j: JobId) {
    j < |s.calls| && (s.calls[j].caller.AwaitResult? || s.calls[j].caller.Returned?)
  }

  lemma ReplyKeepsBranch(c: Config, s: State, a: Action, j: JobId)
    requires Enabled(c, s, a) && CallerStep(a) && OnDequeuedBranch(s, j)
    ensures OnDequeuedBranch(Apply(c, s, a), j)
  {
    CallerLighter(c, s, a);
    if a.call == j {
      assert a.ReceiveResult?;
    }
  }

  lemma WorkKeepsBranch(c: Config, s: State, a: Action, j: JobId)
    requires Located(s) && Enabled(c, s, a) && WorkStep(a) && OnDequeuedBranch(s, j)
    ensures OnDequeuedBranch(Apply(c, s, a), j)
  {
    WorkFrame(c, s, a);
    WorkLighter(c, s, a);
  }

  lemma MoveKeepsBranch(c: Config, s: State, a: Action, j: JobId)
    requires Enabled(c, s, a) && OnDequeuedBranch(s, j) && !CallerStep(a) && !WorkStep(a)
    ensures OnDequeuedBranch(Apply(c, s, a), j)
  {
    if MachineStep(a) {
      MachineFrame(c, s, a);
    } else {
      HandingKeepsBranch(c, s, a, j);
    }
  }

  lemma HandingKeepsBranch(c: Config, s: State, a: Action, j: JobId)
    requires Enabled(c, s, a) && OnDequeuedBranch(s, j)
    requires a.Arrive? || a.Launch? || a.SendIn? || a.Append? || a.Pop? || a.SendOut? || a.HandOff?
    ensures OnDequeuedBranch(Apply(c, s, a), j)
  {
    assert !Enabled(c, s, Launch(j));
  }

  lemma BranchKept(c: Config, s: State, a: Action, j: JobId)
    requires Located(s) && Enabled(c, s, a) && OnDequeuedBranch(s, j)
    ensures OnDequeuedBranch(Apply(c, s, a), j)
  {
    if CallerStep(a) {
      ReplyKeepsBranch(c, s, a, j);
    } else if WorkStep(a) {
      WorkKeepsBranch(c, s, a, j);
    } else {
      MoveKeepsBranch(c, s, a, j);
    }
  }

  lemma {:induction false} BranchAfter(c: Config, s: State, run: seq<Action>, j: JobId)
    requires Inv(c, s) && Legal(c, s, run) && OnDequeuedBranch(s, j)
    ensures Inv(c, After(c, s, run)) && OnDequeuedBranch(After(c, s, run), j)
    decreases |run|
  {
    if run != [] {
      BranchKept(c, s, run[0], j);
      InvKept(c, s, run[0]);
      BranchAfter(c, Apply(c, s, run[0]), run[1..], j);
    }
  }

  /** A caller that has seen its job dequeued is never rejected afterwards. The executor makes a bounded
      number of steps, and where it stops the caller has what the only run of f returned, whether or not
      timers fire and whatever becomes of the pool meanwhile. */
  lemma DequeuedBranchReceives(c: Config, s: State, run: seq<Action>, j: JobId)
    requires Reachable(c, s) && j < |s.calls| && s.calls[j].caller.AwaitResult?
    requires Legal(c, s, run)
    ensures |s.places| == |s.calls| && Steps(run) <= Measure(s) + ArrivalWeight * Arrivals(run)
    ensures var t := After(c, s, run);
            && OnDequeuedBranch(t, j)
            && (Quiet(c, t) ==> t.calls[j].caller.Returned? && t.calls[j].ran == [t.calls[j].caller.result])
  {
    ReachableInv(c, s);
    StepsBounded(c, s, run);
    BranchAfter(c, s, run, j);
    var t := After(c, s, run);
    assert CoupledAt(c.kind, t.calls[j], t.places[j]);
    if Quiet(c, t) {
      QuietShape(c, t);
      QuietCaller(c, t, j);
    }
  }

  // ---- settling ----

  // A step the executor takes by itself, without its timers.
  predicate Internal(a: Action) {
    (Progress(a) && !a.TimerFires?) || a.Elapse?
  }

  ghost predicate AllInternal(run: seq<Action>) {
    forall i | 0 <= i < |run| :: Internal(run[i])
  }

  // Run leads from s to t, where nothing more can happen by itself.
  ghost predicate Settles(c: Config, s: State, run: seq<Action>, t: State) {
    AllInternal(run) && Legal(c, s, run) && After(c, s, run) == t && Quiet(c, t)
  }

  // A step the executor takes by itself, timers included: no new call, no resize, no worker that leaves.
  predicate Unattended(a: Action) {
    Progress(a) || a.Elapse?
  }

  ghost predicate AllUnattended(run: seq<Action>) {
    forall i | 0 <= i < |run| :: Unattended(run[i])
  }

  // Run leads from s to t, where at most a timer is left to fire.
  ghost predicate ComesToRest(c: Config, s: State, run: seq<Action>, t: State) {
    AllUnattended(run) && Legal(c, s, run) && After(c, s, run) == t && Quiet(c, t)
  }

  /** From every state the invariant allows, the executor can come to rest. */
  lemma {:induction false} CanSettle(c: Config, s: State) returns (run: seq<Action>, t: State)
    requires Inv(c, s)
    ensures Settles(c, s, run, t)
    decreases Measure(s)
  {
    if Quiet(c, s) {
      run, t := [], s;
    } else {
      var a := Restless(c, s);
      InvKept(c, s, a);
      StepMeasure(c, s, a);
      var rest, last := CanSettle(c, Apply(c, s, a));
      run, t := [a] + rest, last;
      SettlesStep(c, s, a, rest, last);
    }
  }

  lemma SettlesAfter(c: Config, s: State, a: Action) returns (run: seq<Action>, t: State)
    requires Inv(c, s) && Enabled(c, s, a)
    ensures Settles(c, Apply(c, s, a), run, t)
  {
    InvKept(c, s, a);
    run, t := CanSettle(c, Apply(c, s, a));
  }

  lemma Restless(c: Config, s: State) returns (a: Action)
    requires !Quiet(c, s)
    ensures Progress(a) && !a.TimerFires? && Enabled(c, s, a)
  {
    a :| Progress(a) && !a.TimerFires? && Enabled(c, s, a);
  }

  lemma SettlesStep(c: Config, s: State, a: Action, rest: seq<Action>, t: State)
    requires Enabled(c, s, a) && Internal(a) && Settles(c, Apply(c, s, a), rest, t)
    ensures Settles(c, s, [a] + rest, t)
  {
    assert ([a] + rest)[1..] == rest;
  }

  // ---- retired workers leave ----

  lemma ExitFrame(c: Config, s: State, w: WorkerId)
    requires Enabled(c, s, Exit(w))
    ensures Apply(c, s, Exit(w)) == s.(pool := s.pool.(exited := s.pool.exited + {w}))
  {
  }

  // Idle retired workers go one by one.
  lemma {:induction false} AllLeave(c: Config, s: State) returns (run: seq<Action>)
    requires PoolOk(s.pool) && s.pool.busy == map[]
    ensures Legal(c, s, run) && forall i | 0 <= i < |run| :: run[i].Exit?
    ensures var t := After(c, s, run); t == s.(pool := s.pool.(exited := t.pool.exited)) && Retiring(t.pool) == {}
    ensures forall w | w in After(c, s, run).pool.exited :: w < s.pool.retired
    decreases |Retiring(s.pool)|
  {
    if Retiring(s.pool) == {} {
      run := [];
    } else {
      var w :| w in Retiring(s.pool);
      ExitFrame(c, s, w);
      var t := Apply(c, s, Exit(w));
      assert Retiring(t.pool) == Retiring(s.pool) - {w};
      var rest := AllLeave(c, t);
      run := [Exit(w)] + rest;
      assert run[1..] == rest;
    }
  }

  /** From every reachable state a run leads to one where exactly the configured workers are alive: the jobs
      of the retired ones end and they leave. */
  lemma RetiredCanLeave(c: Config, s: State) returns (work: seq<Action>, exits: seq<Action>)
    requires Reachable(c, s)
    ensures AllInternal(work) && Legal(c, s, work) && Legal(c, After(c, s, work), exits)
    ensures forall i | 0 <= i < |exits| :: exits[i].Exit?
    ensures var t := After(c, After(c, s, work), exits); |LiveWorkers(t.pool)| == Quantity(t.pool) == Quantity(s.pool)
  {
    ReachableInv(c, s);
    var settled;
    work, settled := CanSettle(c, s);
    StepsBounded(c, s, work);
    WorkKeepsQuantity(c, s, work);
    exits := SettledLeave(c, settled);
  }

  lemma SettledLeave(c: Config, s: State) returns (exits: seq<Action>)
    requires Inv(c, s) && Quiet(c, s)
    ensures Legal(c, s, exits) && forall i | 0 <= i < |exits| :: exits[i].Exit?
    ensures var t := After(c, s, exits); |LiveWorkers(t.pool)| == Quantity(t.pool) == Quantity(s.pool)
  {
    QuietShape(c, s);
    exits := AllLeave(c, s);
    Alone(s.pool, After(c, s, exits).pool);
  }

  lemma Alone(p: Pool, t: Pool)
    requires PoolOk(p) && p.busy == map[] && t == p.(exited := t.exited) && Retiring(t) == {}
    requires forall w | w in t.exited :: w < p.retired
    ensures |LiveWorkers(t)| == Quantity(t) == Quantity(p)
  {
    Accounting(t);
  }

  lemma InternalKeepsQuantity(c: Config, s: State, a: Action)
    requires Enabled(c, s, a) && Internal(a)
    ensures Quantity(Apply(c, s, a).pool) == Quantity(s.pool)
  {
    if CallerStep(a) {
      CallerFrame(c, s, a);
    }
  }

  lemma {:induction false} WorkKeepsQuantity(c: Config, s: State, run: seq<Action>)
    requires Legal(c, s, run) && AllInternal(run)
    ensures Quantity(After(c, s, run).pool) == Quantity(s.pool)
    decreases |run|
  {
    if run != [] {
      InternalKeepsQuantity(c, s, run[0]);
      assert forall i | 0 <= i < |run[1..]| :: run[1..][i] == run[i + 1];
      WorkKeepsQuantity(c, Apply(c, s, run[0]), run[1..]);
    }
  }
}
