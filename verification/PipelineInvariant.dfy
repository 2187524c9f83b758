/** What every step of the executor pipeline keeps, and so what holds in every reachable state. */
module PipelineInvariant {
  import opened Common
  import opened Handshake
  import opened JobQueue
  import opened QueueStats
  import opened WorkerPool
  import opened Pipeline

  // ---- conservation: the place of a job and the goroutine, slice or worker that has it agree ----

  predicate EnqHolds(s: State, j: JobId) {
    (s.enq.EnqGot? || s.enq.EnqCounted?) && s.enq.job == j
  }

  predicate DeqHolds(s: State, j: JobId) {
    (s.deq.DeqPopped? || s.deq.DeqSending?) && s.deq.job == Some(j)
  }

  ghost predicate EnqLocated(s: State) {
    && (s.enq.EnqGot? || s.enq.EnqCounted? ==> s.enq.job < |s.places|)
    && (forall j | 0 <= j < |s.places| :: s.places[j] == AtEnqueuer <==> EnqHolds(s, j))
  }

  ghost predicate QueueLocated(s: State) {
    && Distinct(s.queue)
    && (forall i | 0 <= i < |s.queue| :: s.queue[i] < |s.places| && s.places[s.queue[i]] == InQueue)
    && (forall j | 0 <= j < |s.places| && s.places[j] == InQueue :: j in s.queue)
  }

  ghost predicate DeqLocated(s: State) {
    && !s.nilSent
    && (s.deq.DeqPopped? || s.deq.DeqSending? ==> s.deq.job.Some? && s.deq.job.value < |s.places|)
    && (forall j | 0 <= j < |s.places| :: s.places[j] == AtDequeuer <==> DeqHolds(s, j))
    && (s.deq.DeqPop? ==> s.queue != [])
  }

  ghost predicate ForwarderLocated(s: State) {
    && (s.forwarder.Some? ==> s.forwarder.value < |s.places|)
    && (forall j | 0 <= j < |s.places| :: s.places[j] == AtForwarder <==> s.forwarder == Some(j))
  }

  ghost predicate WorkersLocated(s: State) {
    && (forall w | w in s.pool.busy :: s.pool.busy[w] < |s.places| && s.places[s.pool.busy[w]] == AtWorker(w))
    && (forall j | 0 <= j < |s.places| && s.places[j].AtWorker? ::
          s.places[j].worker in s.pool.busy && s.pool.busy[s.places[j].worker] == j)
  }

  ghost predicate Located(s: State) {
    && |s.places| == |s.calls|
    && EnqLocated(s)
    && QueueLocated(s)
    && DeqLocated(s)
    && ForwarderLocated(s)
    && WorkersLocated(s)
  }

  // ---- the other parts of the invariant ----

  ghost predicate CoupledAt(kind: Kind, call: Call, place: Place) {
    && CallOk(call)
    && (place.Unlaunched? <==> BeforeLaunch(call))
    && (place.Finished? <==> JobDone(call))
    && (!place.AtWorker? && !place.Finished? ==> call.job.Fresh?)
    && (kind.Lifo? && place.Unlaunched? ==> call.caller.Entered?)
  }

  ghost predicate Coupled(c: Config, s: State) {
    |s.places| == |s.calls| && forall j | 0 <= j < |s.calls| :: CoupledAt(c.kind, s.calls[j], s.places[j])
  }

  // A sleeping dequeuer is never left alone with a job.
  ghost predicate WakeOk(s: State) {
    && (s.locked <==> s.enq.EnqAppended?)
    && (s.deq.DeqParked? && s.queue != [] ==> s.token || s.enq.EnqAppended?)
  }

  ghost predicate StatsOk(s: State) {
    && s.stats.size == |s.queue| + (if s.enq.EnqCounted? then 1 else 0) + (if s.deq.DeqPopped? then 1 else 0)
    && Refines(s.stats, s.sizes, s.now)
  }

  ghost predicate HistoryOk(s: State) {
    && Distinct(s.received)
    && (forall j :: j in s.received <==> 0 <= j < |s.places| && PastIn(s.places[j]))
    && Distinct(s.handed)
    && (forall j :: j in s.handed <==> 0 <= j < |s.places| && PastHandOff(s.places[j]))
  }

  predicate PastIn(p: Place) {
    !p.Unlaunched? && !p.AtSubmitter?
  }

  predicate PastHandOff(p: Place) {
    p.AtWorker? || p.Finished?
  }

  ghost predicate Inv(c: Config, s: State) {
    Located(s) && Coupled(c, s) && WakeOk(s) && StatsOk(s) && PoolOk(s.pool) && HistoryOk(s)
  }

  // ---- frames: what a group of steps leaves alone ----

  predicate CallerStep(a: Action) {
    a.Measure? || a.SetPolicy? || a.TimerFires? || a.CancelJob? || a.SeeDequeued? || a.ReceiveResult?
  }

  predicate WorkStep(a: Action) {
    a.Announce? || a.Check? || a.Return? || a.SendResult?
  }

  // Steps of the enqueuer and the dequeuer.
  predicate QueueStep(a: Action) {
    || a.SendIn? || a.CountIn? || a.Append? || a.Signal?
    || a.CheckEmpty? || a.Wake? || a.Recheck? || a.Pop? || a.CountOut? || a.SendOut?
  }

  predicate MachineStep(a: Action) {
    || a.CountIn? || a.Signal? || a.CheckEmpty? || a.Wake? || a.Recheck? || a.CountOut?
    || a.Resize? || a.Exit? || a.Elapse?
  }

  // t differs from s at most in the calls, the statistic and the policy.
  predicate CallerFramed(s: State, t: State) {
    t == s.(calls := t.calls, stats := t.stats, policy := t.policy) && |t.calls| == |s.calls|
  }

  lemma CallerFrame(c: Config, s: State, a: Action)
    requires Enabled(c, s, a) && CallerStep(a)
    ensures CallerFramed(s, Apply(c, s, a))
  {
    if a.Measure? || a.SetPolicy? {
      PrologueFrame(c, s, a);
    } else {
      ReplyFrame(c, s, a);
    }
  }

  lemma PrologueFrame(c: Config, s: State, a: Action)
    requires Enabled(c, s, a) && (a.Measure? || a.SetPolicy?)
    ensures CallerFramed(s, Apply(c, s, a))
  {
    if a.Measure? {
      assert CallerFramed(s, MeasureCongestion(c, s, a.call));
    } else {
      assert CallerFramed(s, ChoosePolicy(c, s, a.call));
    }
  }

  lemma ReplyFrame(c: Config, s: State, a: Action)
    requires Enabled(c, s, a) && (a.TimerFires? || a.CancelJob? || a.SeeDequeued? || a.ReceiveResult?)
    ensures CallerFramed(s, Apply(c, s, a))
  {
  }

  // t differs from s at most in the calls, the places and the pool.
  predicate WorkFramed(s: State, t: State) {
    t == s.(calls := t.calls, places := t.places, pool := t.pool) && |t.calls| == |s.calls|
  }

  lemma WorkFrame(c: Config, s: State, a: Action)
    requires Enabled(c, s, a) && WorkStep(a)
    ensures WorkFramed(s, Apply(c, s, a))
  {
    match a
    case Check(w) => CheckFrame(c, s, w);
    case SendResult(w) => SendResultFrame(c, s, w);
    case _ =>
  }

  lemma CheckFrame(c: Config, s: State, w: WorkerId)
    requires Enabled(c, s, Check(w))
    ensures WorkFramed(s, Apply(c, s, Check(w)))
  {
  }

  lemma SendResultFrame(c: Config, s: State, w: WorkerId)
    requires Enabled(c, s, SendResult(w))
    ensures WorkFramed(s, Apply(c, s, SendResult(w)))
  {
  }

  lemma MachineFrame(c: Config, s: State, a: Action)
    requires Enabled(c, s, a) && MachineStep(a)
    ensures var t := Apply(c, s, a);
            t == s.(enq := t.enq, deq := t.deq, token := t.token, locked := t.locked,
            stats := t.stats, sizes := t.sizes, pool := t.pool, now := t.now)
  {
  }

  lemma ArriveFrame(c: Config, s: State)
    ensures Apply(c, s, Arrive) == s.(calls := s.calls + [NewCall], places := s.places + [Unlaunched])
  {
  }

  lemma ResizeFrame(c: Config, s: State, quantity: int)
    ensures Apply(c, s, Resize(quantity)) == s.(pool := Resized(s.pool, quantity))
  {
  }

  lemma CallsKept(c: Config, s: State, a: Action)
    requires Enabled(c, s, a) && !a.Arrive?
    ensures |Apply(c, s, a).calls| == |s.calls|
  {
    if CallerStep(a) {
      CallerFrame(c, s, a);
    } else if WorkStep(a) {
      WorkFrame(c, s, a);
    } else if MachineStep(a) {
      MachineFrame(c, s, a);
    }
  }

  // ---- Located ----

  lemma ArriveLocated(c: Config, s: State)
    requires Located(s)
    ensures Located(Apply(c, s, Arrive))
  {
  }

  lemma LaunchLocated(c: Config, s: State, j: JobId)
    requires Located(s) && Enabled(c, s, Launch(j)) && s.places[j].Unlaunched?
    ensures Located(Apply(c, s, Launch(j)))
  {
  }

  lemma SendInLocated(c: Config, s: State, j: JobId)
    requires Located(s) && Enabled(c, s, SendIn(j))
    ensures Located(Apply(c, s, SendIn(j)))
  {
  }

  lemma AppendLocated(c: Config, s: State)
    requires Located(s) && Enabled(c, s, Append)
    ensures Located(Apply(c, s, Append))
  {
  }

  // Steps of the enqueuer or the dequeuer that move no job.
  lemma PcLocated(c: Config, s: State, a: Action)
    requires Located(s) && Enabled(c, s, a) && (a.CountIn? || a.Signal? || a.Wake? || a.CountOut?)
    ensures Located(Apply(c, s, a))
  {
  }

  lemma LookLocated(c: Config, s: State, a: Action)
    requires Located(s) && Enabled(c, s, a) && (a.CheckEmpty? || a.Recheck?)
    ensures Located(Apply(c, s, a))
  {
  }

  // Whatever the policy, a dequeue takes exactly one job out of a non-empty queue.
  lemma DequeueTakesOne(policy: Policy, queue: seq<JobId>)
    requires Distinct(queue) && queue != []
    ensures var (job, rest) := Dequeue(policy, queue);
            && job.Some?
            && job.value in queue
            && |rest| == |queue| - 1
            && Distinct(rest)
            && (forall j :: j in rest <==> j in queue && j != job.value)
  {
    var (job, rest) := Dequeue(policy, queue);
    var k := if job.value == queue[0] then 0 else |queue| - 1;
    assert rest == queue[..k] + queue[k + 1..];
  }

  lemma PopLocated(c: Config, s: State)
    requires Located(s) && Enabled(c, s, Pop)
    ensures Located(Apply(c, s, Pop))
  {
    DequeueTakesOne(s.policy, s.queue);
    var (job, rest) := Dequeue(s.policy, s.queue);
    TakenLocated(s, job.value, rest);
  }

  lemma TakenLocated(s: State, j: JobId, rest: seq<JobId>)
    requires Located(s) && s.deq.DeqPop? && j in s.queue && Distinct(rest)
    requires forall i :: i in rest <==> i in s.queue && i != j
    ensures Located(MoveTo(s.(queue := rest, deq := DeqPopped(Some(j))), j, AtDequeuer))
  {
    var t := MoveTo(s.(queue := rest, deq := DeqPopped(Some(j))), j, AtDequeuer);
    assert forall i | 0 <= i < |rest| :: rest[i] in rest;
    assert QueueLocated(t);
  }

  lemma SendOutLocated(c: Config, s: State)
    requires Located(s) && Enabled(c, s, SendOut)
    ensures Located(Apply(c, s, SendOut))
  {
  }

  lemma HandOffLocated(c: Config, s: State, w: WorkerId)
    requires Located(s) && Enabled(c, s, HandOff(w))
    ensures Located(Apply(c, s, HandOff(w)))
  {
    HandOffWorkers(s, w);
  }

  lemma HandOffWorkers(s: State, w: WorkerId)
    requires Located(s) && s.forwarder.Some? && w !in s.pool.busy
    ensures WorkersLocated(HandToWorker(s, w))
  {
  }

  lemma FreeLocated(s: State, w: WorkerId)
    requires Located(s) && Working(s, w)
    ensures Located(FreeWorker(s, w))
  {
    var t := FreeWorker(s, w);
    assert WorkersLocated(t);
  }

  lemma SameLocated(s: State, t: State)
    requires Located(s)
    requires t.places == s.places && |t.calls| == |s.calls| && t.enq == s.enq && t.queue == s.queue && t.deq == s.deq
    requires t.nilSent == s.nilSent && t.forwarder == s.forwarder && t.pool.busy == s.pool.busy
    ensures Located(t)
  {
  }

  lemma CheckLocated(c: Config, s: State, w: WorkerId)
    requires Located(s) && Enabled(c, s, Check(w))
    ensures Located(Apply(c, s, Check(w)))
  {
    var j := s.pool.busy[w];
    var next := SetCall(s, j, CheckCancel(s.calls[j]));
    SameLocated(s, next);
    FreeLocated(next, w);
  }

  lemma SendResultLocated(c: Config, s: State, w: WorkerId)
    requires Located(s) && Enabled(c, s, SendResult(w))
    ensures Located(Apply(c, s, SendResult(w)))
  {
    var j := s.pool.busy[w];
    var next := SetCall(s, j, Deliver(s.calls[j]));
    SameLocated(s, next);
    FreeLocated(next, w);
  }

  lemma CallerLocated(c: Config, s: State, a: Action)
    requires Located(s) && Enabled(c, s, a) && CallerStep(a)
    ensures Located(Apply(c, s, a))
  {
    CallerFrame(c, s, a);
    SameLocated(s, Apply(c, s, a));
  }

  lemma StillLocated(c: Config, s: State, a: Action)
    requires Located(s) && Enabled(c, s, a) && (a.Announce? || a.Return? || a.Resize? || a.Exit? || a.Elapse?)
    ensures Located(Apply(c, s, a))
  {
    SameLocated(s, Apply(c, s, a));
  }

  lemma WorkLocated(c: Config, s: State, a: Action)
    requires Located(s) && Coupled(c, s) && Enabled(c, s, a) && WorkStep(a)
    ensures Located(Apply(c, s, a))
  {
    if a.Check? {
      CheckLocated(c, s, a.worker);
    } else if a.SendResult? {
      SendResultLocated(c, s, a.worker);
    } else {
      StillLocated(c, s, a);
    }
  }

  lemma QueueLocatedKept(c: Config, s: State, a: Action)
    requires Located(s) && Enabled(c, s, a) && QueueStep(a)
    ensures Located(Apply(c, s, a))
  {
    if a.SendIn? {
      SendInLocated(c, s, a.call);
    } else if a.Append? {
      AppendLocated(c, s);
    } else if a.CheckEmpty? || a.Recheck? {
      LookLocated(c, s, a);
    } else if a.Pop? {
      PopLocated(c, s);
    } else if a.SendOut? {
      SendOutLocated(c, s);
    } else {
      PcLocated(c, s, a);
    }
  }

  lemma OtherLocated(c: Config, s: State, a: Action)
    requires Located(s) && Coupled(c, s) && Enabled(c, s, a)
    requires !CallerStep(a) && !WorkStep(a) && !QueueStep(a)
    ensures Located(Apply(c, s, a))
  {
    if a.Arrive? {
      ArriveLocated(c, s);
    } else if a.Launch? {
      LaunchLocated(c, s, a.call);
    } else if a.HandOff? {
      HandOffLocated(c, s, a.worker);
    } else {
      StillLocated(c, s, a);
    }
  }

  lemma LocatedKept(c: Config, s: State, a: Action)
    requires Located(s) && Coupled(c, s) && Enabled(c, s, a)
    ensures Located(Apply(c, s, a))
  {
    if CallerStep(a) {
      CallerLocated(c, s, a);
    } else if WorkStep(a) {
      WorkLocated(c, s, a);
    } else if QueueStep(a) {
      QueueLocatedKept(c, s, a);
    } else {
      OtherLocated(c, s, a);
    }
  }

  // ---- Coupled ----

  lemma CoupledSet(c: Config, s: State, t: State, j: JobId, call: Call, place: Place)
    requires Coupled(c, s) && j < |s.calls| && CoupledAt(c.kind, call, place)
    requires t.calls == s.calls[j := call] && t.places == s.places[j := place]
    ensures Coupled(c, t)
  {
  }

  lemma CallerCoupled(c: Config, s: State, a: Action)
    requires Coupled(c, s) && Enabled(c, s, a) && (a.TimerFires? || a.SeeDequeued?)
    ensures Coupled(c, Apply(c, s, a))
  {
    var next := if a.TimerFires? then TimedOut else AwaitResult;
    CallerKeeps(s.calls[a.call], next);
    CoupledSet(c, s, Apply(c, s, a), a.call, s.calls[a.call].(caller := next), s.places[a.call]);
  }

  lemma PrologueCoupled(c: Config, s: State, a: Action)
    requires Coupled(c, s) && Enabled(c, s, a) && (a.Measure? || a.SetPolicy?)
    ensures Coupled(c, Apply(c, s, a))
  {
    match a
    case Measure(j) => MeasureCoupled(c, s, j);
    case SetPolicy(j) => SetPolicyCoupled(c, s, j);
  }

  // The caller of j takes a step of its own before the launch.
  lemma PreludeCoupled(c: Config, s: State, t: State, j: JobId, next: Caller)
    requires Coupled(c, s) && Calling(s, j) && c.kind.Codel?
    requires BeforeLaunch(s.calls[j]) && (next.Measured? || next.PolicySet?)
    requires t.calls == s.calls[j := s.calls[j].(caller := next)] && t.places == s.places
    ensures Coupled(c, t)
  {
    assert CoupledAt(c.kind, s.calls[j], s.places[j]);
    CallerKeeps(s.calls[j], next);
    assert s.places == s.places[j := s.places[j]];
    CoupledSet(c, s, t, j, s.calls[j].(caller := next), s.places[j]);
  }

  lemma MeasureCoupled(c: Config, s: State, j: JobId)
    requires Coupled(c, s) && Enabled(c, s, Action.Measure(j))
    ensures Coupled(c, Apply(c, s, Action.Measure(j)))
  {
    var t := MeasureCongestion(c, s, j);
    PreludeCoupled(c, s, t, j, t.calls[j].caller);
  }

  lemma SetPolicyCoupled(c: Config, s: State, j: JobId)
    requires Coupled(c, s) && Enabled(c, s, SetPolicy(j))
    ensures Coupled(c, Apply(c, s, SetPolicy(j)))
  {
    assert CoupledAt(c.kind, s.calls[j], s.places[j]);
    var t := ChoosePolicy(c, s, j);
    PreludeCoupled(c, s, t, j, t.calls[j].caller);
  }

  lemma CallerEndCoupled(c: Config, s: State, a: Action)
    requires Coupled(c, s) && Enabled(c, s, a)
    requires a.CancelJob? || a.ReceiveResult?
    ensures Coupled(c, Apply(c, s, a))
  {
    var j := a.call;
    var t := Apply(c, s, a);
    if a.CancelJob? {
      CancelKeeps(c.kind, s.calls[j]);
    } else {
      TakeResultKeeps(s.calls[j]);
    }
    CoupledSet(c, s, t, j, t.calls[j], s.places[j]);
  }

  lemma LaunchCoupled(c: Config, s: State, j: JobId)
    requires Coupled(c, s) && Enabled(c, s, Launch(j))
    ensures Coupled(c, Apply(c, s, Launch(j)))
  {
    var t := Apply(c, s, Launch(j));
    CoupledSet(c, s, t, j, t.calls[j], AtSubmitter);
  }

  predicate Carrying(p: Place) {
    p.AtSubmitter? || p.AtEnqueuer? || p.InQueue? || p.AtDequeuer? || p.AtForwarder?
  }

  // Moving a job that has not reached a worker yet changes nothing in its call.
  lemma CarryCoupled(c: Config, s: State, t: State, j: JobId, place: Place)
    requires Coupled(c, s) && j < |s.places| && Carrying(s.places[j]) && (Carrying(place) || place.AtWorker?)
    requires t.calls == s.calls && t.places == s.places[j := place]
    ensures Coupled(c, t)
  {
    CoupledSet(c, s, t, j, s.calls[j], place);
    assert t.calls == s.calls[j := s.calls[j]];
  }

  lemma MoveCoupled(c: Config, s: State, a: Action)
    requires Coupled(c, s) && Located(s) && Enabled(c, s, a)
    requires a.SendIn? || a.Append? || a.SendOut? || a.HandOff?
    ensures Coupled(c, Apply(c, s, a))
  {
    var t := Apply(c, s, a);
    match a
    case SendIn(j) => CarryCoupled(c, s, t, j, AtEnqueuer);
    case Append => CarryCoupled(c, s, t, s.enq.job, InQueue);
    case SendOut => CarryCoupled(c, s, t, s.deq.job.value, AtForwarder);
    case HandOff(w) => CarryCoupled(c, s, t, s.forwarder.value, AtWorker(w));
  }

  lemma PopCoupled(c: Config, s: State)
    requires Coupled(c, s) && Located(s) && Enabled(c, s, Pop)
    ensures Coupled(c, Apply(c, s, Pop))
  {
    DequeueTakesOne(s.policy, s.queue);
    CarryCoupled(c, s, Apply(c, s, Pop), Dequeue(s.policy, s.queue).0.value, AtDequeuer);
  }

  lemma WorkerCoupled(c: Config, s: State, w: WorkerId, call: Call)
    requires Coupled(c, s) && Located(s) && Working(s, w)
    requires CallOk(call) && !BeforeLaunch(call)
    ensures !JobDone(call) ==> Coupled(c, SetCall(s, s.pool.busy[w], call))
    ensures JobDone(call) ==> Coupled(c, FreeWorker(SetCall(s, s.pool.busy[w], call), w))
  {
    var j := s.pool.busy[w];
    if JobDone(call) {
      CoupledSet(c, s, FreeWorker(SetCall(s, j, call), w), j, call, Finished);
    } else {
      assert s.places == s.places[j := s.places[j]];
      CoupledSet(c, s, SetCall(s, j, call), j, call, AtWorker(w));
    }
  }

  lemma WorkCoupled(c: Config, s: State, a: Action)
    requires Coupled(c, s) && Located(s) && Enabled(c, s, a) && WorkStep(a)
    ensures Coupled(c, Apply(c, s, a))
  {
    if a.Announce? || a.Return? {
      RunCoupled(c, s, a);
    } else {
      DecideCoupled(c, s, a);
    }
  }

  lemma RunCoupled(c: Config, s: State, a: Action)
    requires Coupled(c, s) && Located(s) && Enabled(c, s, a) && (a.Announce? || a.Return?)
    ensures Coupled(c, Apply(c, s, a))
  {
    var call := s.calls[s.pool.busy[a.worker]];
    match a
    case Announce(w) =>
      CloseDequeuedKeeps(call);
      WorkerCoupled(c, s, w, CloseDequeued(call));
    case Return(w, outcome) =>
      CompleteKeeps(call, outcome);
      WorkerCoupled(c, s, w, Complete(call, outcome));
  }

  lemma DecideCoupled(c: Config, s: State, a: Action)
    requires Coupled(c, s) && Located(s) && Enabled(c, s, a) && (a.Check? || a.SendResult?)
    ensures Coupled(c, Apply(c, s, a))
  {
    var call := s.calls[s.pool.busy[a.worker]];
    match a
    case Check(w) =>
      CheckCancelKeeps(call);
      WorkerCoupled(c, s, w, CheckCancel(call));
    case SendResult(w) =>
      DeliverKeeps(call);
      WorkerCoupled(c, s, w, Deliver(call));
  }

  lemma StillCoupled(c: Config, s: State, a: Action)
    requires Coupled(c, s) && Enabled(c, s, a) && MachineStep(a)
    ensures Coupled(c, Apply(c, s, a))
  {
    MachineFrame(c, s, a);
  }

  lemma ArriveCoupled(c: Config, s: State)
    requires Coupled(c, s)
    ensures Coupled(c, Apply(c, s, Arrive))
  {
  }

  lemma CallerStepCoupled(c: Config, s: State, a: Action)
    requires Coupled(c, s) && Enabled(c, s, a) && CallerStep(a)
    ensures Coupled(c, Apply(c, s, a))
  {
    if a.Measure? || a.SetPolicy? {
      PrologueCoupled(c, s, a);
    } else if a.TimerFires? || a.SeeDequeued? {
      CallerCoupled(c, s, a);
    } else {
      CallerEndCoupled(c, s, a);
    }
  }

  lemma TravelCoupled(c: Config, s: State, a: Action)
    requires Located(s) && Coupled(c, s) && Enabled(c, s, a) && !CallerStep(a) && !WorkStep(a) && !MachineStep(a)
    ensures Coupled(c, Apply(c, s, a))
  {
    if a.Arrive? {
      ArriveCoupled(c, s);
    } else if a.Launch? {
      LaunchCoupled(c, s, a.call);
    } else if a.Pop? {
      PopCoupled(c, s);
    } else {
      MoveCoupled(c, s, a);
    }
  }

  lemma CoupledKept(c: Config, s: State, a: Action)
    requires Located(s) && Coupled(c, s) && Enabled(c, s, a)
    ensures Coupled(c, Apply(c, s, a))
  {
    if CallerStep(a) {
      CallerStepCoupled(c, s, a);
    } else if WorkStep(a) {
      WorkCoupled(c, s, a);
    } else if MachineStep(a) {
      StillCoupled(c, s, a);
    } else {
      TravelCoupled(c, s, a);
    }
  }

  // ---- wake-up, pool ----

  lemma WakeKept(c: Config, s: State, a: Action)
    requires Located(s) && WakeOk(s) && Enabled(c, s, a)
    ensures WakeOk(Apply(c, s, a))
  {
    if CallerStep(a) {
      CallerFrame(c, s, a);
    } else if WorkStep(a) {
      WorkFrame(c, s, a);
    } else {
      QueueWakeKept(c, s, a);
    }
  }

  lemma QueueWakeKept(c: Config, s: State, a: Action)
    requires Located(s) && WakeOk(s) && Enabled(c, s, a) && !CallerStep(a) && !WorkStep(a)
    ensures WakeOk(Apply(c, s, a))
  {
  }

  lemma PoolKept(c: Config, s: State, a: Action)
    requires PoolOk(s.pool) && Enabled(c, s, a)
    ensures PoolOk(Apply(c, s, a).pool)
  {
    if a.HandOff? || a.Resize? || a.Exit? {
      PoolChangeKept(c, s, a);
    } else if a.Check? || a.SendResult? {
      PoolFreeKept(c, s, a);
    } else if CallerStep(a) {
      CallerFrame(c, s, a);
    }
  }

  lemma PoolChangeKept(c: Config, s: State, a: Action)
    requires PoolOk(s.pool) && Enabled(c, s, a) && (a.HandOff? || a.Resize? || a.Exit?)
    ensures PoolOk(Apply(c, s, a).pool)
  {
  }

  lemma PoolFreeKept(c: Config, s: State, a: Action)
    requires PoolOk(s.pool) && Enabled(c, s, a) && (a.Check? || a.SendResult?)
    ensures PoolOk(Apply(c, s, a).pool)
  {
  }

  // ---- the statistic ----

  lemma CountKept(c: Config, s: State, a: Action)
    requires Located(s) && StatsOk(s) && Enabled(c, s, a) && (a.CountIn? || a.CountOut?)
    ensures StatsOk(Apply(c, s, a))
  {
    if a.CountIn? {
      IncRefines(s.stats, s.sizes, s.now);
    } else {
      DecrRefines(s.stats, s.sizes, s.now);
    }
  }

  // Steps of the enqueuer and the dequeuer that do not count.
  lemma UncountedKept(c: Config, s: State, a: Action)
    requires Located(s) && StatsOk(s) && Enabled(c, s, a)
    requires a.Append? || a.Signal? || a.CheckEmpty? || a.Wake? || a.Recheck? || a.Pop? || a.SendOut? || a.Elapse?
    ensures StatsOk(Apply(c, s, a))
  {
    if a.Pop? {
      PopCounted(c, s);
    } else if !a.Append? && !a.SendOut? {
      MachineFrame(c, s, a);
    }
  }

  lemma PopCounted(c: Config, s: State)
    requires Located(s) && StatsOk(s) && Enabled(c, s, Pop)
    ensures StatsOk(Apply(c, s, Pop))
  {
    DequeueTakesOne(s.policy, s.queue);
  }

  lemma SameStats(s: State, t: State)
    requires StatsOk(s) && t.stats == s.stats && t.sizes == s.sizes && t.now == s.now
    requires t.queue == s.queue && t.enq.EnqCounted? == s.enq.EnqCounted? && t.deq == s.deq
    ensures StatsOk(t)
  {
  }

  // Asking moves the time of an empty queue only.
  lemma AskedKept(c: Config, s: State, j: JobId)
    requires StatsOk(s) && Enabled(c, s, Action.Measure(j))
    ensures StatsOk(MeasureCongestion(c, s, j))
  {
  }

  lemma CallerKept(c: Config, s: State, a: Action)
    requires StatsOk(s) && Enabled(c, s, a) && CallerStep(a)
    ensures StatsOk(Apply(c, s, a))
  {
    if a.Measure? {
      AskedKept(c, s, a.call);
    } else {
      CallerFrame(c, s, a);
      SameStats(s, Apply(c, s, a));
    }
  }

  lemma AwayKept(c: Config, s: State, a: Action)
    requires StatsOk(s) && Enabled(c, s, a)
    requires a.Arrive? || a.Launch? || a.HandOff? || a.Resize? || a.Exit? || WorkStep(a)
    ensures StatsOk(Apply(c, s, a))
  {
    if WorkStep(a) {
      WorkFrame(c, s, a);
    }
    SameStats(s, Apply(c, s, a));
  }

  lemma SendInKept(c: Config, s: State, j: JobId)
    requires StatsOk(s) && Enabled(c, s, SendIn(j))
    ensures StatsOk(Apply(c, s, SendIn(j)))
  {
    SameStats(s, Apply(c, s, SendIn(j)));
  }

  lemma QueueCounted(c: Config, s: State, a: Action)
    requires Located(s) && StatsOk(s) && Enabled(c, s, a) && (QueueStep(a) || a.Elapse?)
    ensures StatsOk(Apply(c, s, a))
  {
    if a.CountIn? || a.CountOut? {
      CountKept(c, s, a);
    } else if a.SendIn? {
      SendInKept(c, s, a.call);
    } else {
      UncountedKept(c, s, a);
    }
  }

  lemma StatsKept(c: Config, s: State, a: Action)
    requires Located(s) && StatsOk(s) && Enabled(c, s, a)
    ensures StatsOk(Apply(c, s, a))
  {
    if CallerStep(a) {
      CallerKept(c, s, a);
    } else if QueueStep(a) || a.Elapse? {
      QueueCounted(c, s, a);
    } else {
      AwayKept(c, s, a);
    }
  }

  // ---- history ----

  lemma HistoryMove(s: State, t: State, j: JobId, place: Place)
    requires HistoryOk(s) && j < |s.places| && t.places == s.places[j := place]
    requires PastIn(place) == PastIn(s.places[j]) && PastHandOff(place) == PastHandOff(s.places[j])
    requires t.received == s.received && t.handed == s.handed
    ensures HistoryOk(t)
  {
  }

  lemma LaunchHistory(c: Config, s: State, j: JobId)
    requires HistoryOk(s) && Coupled(c, s) && Enabled(c, s, Launch(j))
    ensures HistoryOk(Apply(c, s, Launch(j)))
  {
    assert CoupledAt(c.kind, s.calls[j], s.places[j]);
    HistoryMove(s, LaunchJob(c, s, j), j, AtSubmitter);
  }

  lemma PopHistory(c: Config, s: State)
    requires HistoryOk(s) && Located(s) && Enabled(c, s, Pop)
    ensures HistoryOk(Apply(c, s, Pop))
  {
    DequeueTakesOne(s.policy, s.queue);
    HistoryMove(s, PopJob(s), Dequeue(s.policy, s.queue).0.value, AtDequeuer);
  }

  lemma MoveHistory(c: Config, s: State, a: Action)
    requires HistoryOk(s) && Located(s) && Enabled(c, s, a) && (a.Append? || a.SendOut?)
    ensures HistoryOk(Apply(c, s, a))
  {
    var t := Apply(c, s, a);
    match a
    case Append => HistoryMove(s, t, s.enq.job, InQueue);
    case SendOut => HistoryMove(s, t, s.deq.job.value, AtForwarder);
  }

  lemma SendInHistory(c: Config, s: State, j: JobId)
    requires HistoryOk(s) && Enabled(c, s, SendIn(j))
    ensures HistoryOk(Apply(c, s, SendIn(j)))
  {
  }

  lemma HandOffHistory(c: Config, s: State, w: WorkerId)
    requires HistoryOk(s) && Located(s) && Enabled(c, s, HandOff(w))
    ensures HistoryOk(Apply(c, s, HandOff(w)))
  {
  }

  // A worker finishes its job or leaves it where it is.
  lemma WorkPlaces(c: Config, s: State, a: Action)
    requires Located(s) && Enabled(c, s, a) && WorkStep(a)
    ensures var (t, j) := (Apply(c, s, a), s.pool.busy[a.worker]);
            && j < |t.places| && t.places == s.places[j := t.places[j]]
            && PastHandOff(s.places[j]) && PastHandOff(t.places[j])
  {
    var j := s.pool.busy[a.worker];
    assert s.places[j] == AtWorker(a.worker);
    if a.Check? {
      assert CheckCancelled(s, a.worker).places in {s.places, s.places[j := Finished]};
    }
  }

  lemma WorkHistory(c: Config, s: State, a: Action)
    requires HistoryOk(s) && Located(s) && Enabled(c, s, a) && WorkStep(a)
    ensures HistoryOk(Apply(c, s, a))
  {
    WorkFrame(c, s, a);
    WorkPlaces(c, s, a);
    var t := Apply(c, s, a);
    var j := s.pool.busy[a.worker];
    HistoryMove(s, t, j, t.places[j]);
  }

  lemma HistoryKept(c: Config, s: State, a: Action)
    requires Located(s) && Coupled(c, s) && HistoryOk(s) && Enabled(c, s, a)
    ensures HistoryOk(Apply(c, s, a))
  {
    if CallerStep(a) {
      CallerFrame(c, s, a);
    } else if MachineStep(a) {
      MachineFrame(c, s, a);
    } else if WorkStep(a) {
      WorkHistory(c, s, a);
    } else {
      TravelHistory(c, s, a);
    }
  }

  lemma TravelHistory(c: Config, s: State, a: Action)
    requires Located(s) && Coupled(c, s) && HistoryOk(s) && Enabled(c, s, a)
    requires !CallerStep(a) && !MachineStep(a) && !WorkStep(a)
    ensures HistoryOk(Apply(c, s, a))
  {
    match a
    case Arrive =>
    case SendIn(j) => SendInHistory(c, s, j);
    case HandOff(w) => HandOffHistory(c, s, w);
    case Launch(j) => LaunchHistory(c, s, j);
    case Pop => PopHistory(c, s);
    case Append | SendOut => MoveHistory(c, s, a);
  }

  // ---- every reachable state ----

  lemma InvInit(c: Config)
    ensures Inv(c, Init(c))
  {
  }

  lemma InvKept(c: Config, s: State, a: Action)
    requires Inv(c, s) && Enabled(c, s, a)
    ensures Inv(c, Apply(c, s, a))
  {
    LocatedKept(c, s, a);
    CoupledKept(c, s, a);
    WakeKept(c, s, a);
    StatsKept(c, s, a);
    PoolKept(c, s, a);
    HistoryKept(c, s, a);
  }

  lemma {:induction false} InvAfter(c: Config, s: State, run: seq<Action>)
    requires Inv(c, s) && Legal(c, s, run)
    ensures Inv(c, After(c, s, run))
    decreases |run|
  {
    if run != [] {
      InvKept(c, s, run[0]);
      InvAfter(c, Apply(c, s, run[0]), run[1..]);
    }
  }

  lemma ReachableInv(c: Config, s: State)
    requires Reachable(c, s)
    ensures Inv(c, s)
  {
    var run :| Legal(c, Init(c), run) && After(c, Init(c), run) == s;
    InvInit(c);
    InvAfter(c, Init(c), run);
  }
}
