/** The cancellation handshake, run by run: what is before the cancel decides, and no history is asked. */
module PipelineCancel {
  import opened Handshake
  import opened WorkerPool
  import opened Pipeline
  import opened PipelineInvariant
  import opened PipelineDrain

  // The caller has been rejected and f has not been started.
  predicate CalledOff(s: State, j: JobId) {
    && j < |s.calls|
    && s.calls[j].caller.Rejected? && s.calls[j].ran == []
    && (s.calls[j].job.Fresh? || s.calls[j].job.Announced? || s.calls[j].job.Skipped?)
  }

  lemma CallerCallsOff(c: Config, s: State, a: Action, j: JobId)
    requires Enabled(c, s, a) && CallerStep(a) && CalledOff(s, j)
    ensures CalledOff(Apply(c, s, a), j)
  {
    CallerLighter(c, s, a);
  }

  lemma WorkCallsOff(c: Config, s: State, a: Action, j: JobId)
    requires Located(s) && Enabled(c, s, a) && WorkStep(a) && CalledOff(s, j) && CallOk(s.calls[j])
    ensures CalledOff(Apply(c, s, a), j)
  {
    assert s.places[s.pool.busy[a.worker]] == AtWorker(a.worker);
    WorkFrame(c, s, a);
    WorkLighter(c, s, a);
    if s.pool.busy[a.worker] == j {
      OwnWork(c, s, a, j);
    }
  }

  lemma OwnWork(c: Config, s: State, a: Action, j: JobId)
    requires Enabled(c, s, a) && WorkStep(a) && CalledOff(s, j) && CallOk(s.calls[j]) && s.pool.busy[a.worker] == j
    ensures CalledOff(Apply(c, s, a), j)
  {
    if a.Check? {
      assert CheckCancel(s.calls[j]).job.Skipped?;
      assert CalledOff(CheckCancelled(s, a.worker), j);
    }
  }

  lemma MoveCallsOff(c: Config, s: State, a: Action, j: JobId)
    requires Enabled(c, s, a) && !CallerStep(a) && !WorkStep(a) && CalledOff(s, j)
    ensures CalledOff(Apply(c, s, a), j)
  {
    if MachineStep(a) {
      MachineFrame(c, s, a);
    } else if a.Launch? {
      LaunchCallsOff(c, s, a.call, j);
    } else {
      TravelCallsOff(c, s, a, j);
    }
  }

  lemma LaunchCallsOff(c: Config, s: State, i: JobId, j: JobId)
    requires Enabled(c, s, Launch(i)) && CalledOff(s, j)
    ensures CalledOff(Apply(c, s, Launch(i)), j)
  {
    assert CalledOff(LaunchJob(c, s, i), j);
  }

  lemma TravelCallsOff(c: Config, s: State, a: Action, j: JobId)
    requires Enabled(c, s, a) && CalledOff(s, j)
    requires a.Arrive? || a.SendIn? || a.Append? || a.Pop? || a.SendOut? || a.HandOff?
    ensures CalledOff(Apply(c, s, a), j)
  {
  }

  lemma CalledOffKept(c: Config, s: State, a: Action, j: JobId)
    requires Located(s) && Coupled(c, s) && Enabled(c, s, a) && CalledOff(s, j)
    ensures CalledOff(Apply(c, s, a), j)
  {
    assert CoupledAt(c.kind, s.calls[j], s.places[j]);
    if CallerStep(a) {
      CallerCallsOff(c, s, a, j);
    } else if WorkStep(a) {
      WorkCallsOff(c, s, a, j);
    } else {
      MoveCallsOff(c, s, a, j);
    }
  }

  lemma {:induction false} CalledOffAfter(c: Config, s: State, run: seq<Action>, j: JobId)
    requires Inv(c, s) && Legal(c, s, run) && CalledOff(s, j)
    ensures CalledOff(After(c, s, run), j)
    decreases |run|
  {
    if run != [] {
      CalledOffKept(c, s, run[0], j);
      InvKept(c, s, run[0]);
      CalledOffAfter(c, Apply(c, s, run[0]), run[1..], j);
    }
  }

  // The check has let f go.
  predicate LetGo(call: Call) {
    call.job.Running? || call.job.Ran? || call.job.Delivered?
  }

  lemma LetGoDequeued(call: Call)
    requires CallOk(call) && LetGo(call)
    ensures call.dequeued
  {
  }

  lemma CancelCallsOff(c: Config, s: State, j: JobId)
    requires Inv(c, s) && Enabled(c, s, CancelJob(j)) && !LetGo(s.calls[j])
    ensures CalledOff(Apply(c, s, CancelJob(j)), j)
  {
    assert CoupledAt(c.kind, s.calls[j], s.places[j]);
    assert Apply(c, s, CancelJob(j)).calls[j] == Cancel(c.kind, s.calls[j]);
  }

  // From the state in which j cancels on.
  lemma CancelGoesOn(c: Config, s: State, after: seq<Action>, j: JobId)
    requires Inv(c, s) && Enabled(c, s, CancelJob(j)) && Legal(c, Apply(c, s, CancelJob(j)), after)
    ensures var t := After(c, Apply(c, s, CancelJob(j)), after);
            j < |t.calls| && (!LetGo(s.calls[j]) ==> CalledOff(t, j)) && (LetGo(s.calls[j]) ==> s.calls[j].dequeued)
  {
    var cancelled := Apply(c, s, CancelJob(j));
    assert CoupledAt(c.kind, s.calls[j], s.places[j]);
    InvKept(c, s, CancelJob(j));
    CallsGrow(c, s, [CancelJob(j)]);
    CallsGrow(c, cancelled, after);
    if LetGo(s.calls[j]) {
      LetGoDequeued(s.calls[j]);
    } else {
      CancelCallsOff(c, s, j);
      CalledOffAfter(c, cancelled, after, j);
    }
  }

  /** A caller is rejected either before the worker's check lets f go, and then f never runs, however the run
      goes on; or after it, when dequeuedJob had been closed. */
  lemma CancelDecides(c: Config, before: seq<Action>, after: seq<Action>, j: JobId)
    requires Legal(c, Init(c), before + [CancelJob(j)] + after)
    ensures Legal(c, Init(c), before) && j < |After(c, Init(c), before).calls|
    ensures var (s, t) := (After(c, Init(c), before), After(c, Init(c), before + [CancelJob(j)] + after));
            && j < |t.calls|
            && (!LetGo(s.calls[j]) ==> t.calls[j].ran == [] && !LetGo(t.calls[j]))
            && (LetGo(s.calls[j]) ==> s.calls[j].dequeued)
  {
    var start := Init(c);
    SplitRun(c, start, before + [CancelJob(j)], after);
    SplitRun(c, start, before, [CancelJob(j)]);
    var s := After(c, start, before);
    OneStep(c, s, CancelJob(j));
    assert Reachable(c, s);
    ReachableInv(c, s);
    CancelGoesOn(c, s, after, j);
  }

  lemma {:induction false} CallsGrow(c: Config, s: State, run: seq<Action>)
    requires Legal(c, s, run)
    ensures |After(c, s, run).calls| >= |s.calls|
    decreases |run|
  {
    if run != [] {
      if run[0].Arrive? {
        ArriveFrame(c, s);
      } else {
        CallsKept(c, s, run[0]);
      }
      CallsGrow(c, Apply(c, s, run[0]), run[1..]);
    }
  }

  // ---- what f returned ----

  // What one step returns for job j: the outcome, if it ends f in the worker that has the job.
  function OutcomeBy(s: State, a: Action, j: JobId): seq<Outcome> {
    if a.Return? && a.worker in s.pool.busy && s.pool.busy[a.worker] == j then [a.outcome] else []
  }

  function OutcomesOf(c: Config, s: State, run: seq<Action>, j: JobId): seq<Outcome>
    requires Legal(c, s, run)
    decreases |run|
  {
    if run == [] then [] else OutcomeBy(s, run[0], j) + OutcomesOf(c, Apply(c, s, run[0]), run[1..], j)
  }

  function RanOf(s: State, j: JobId): seq<Outcome> {
    if j < |s.calls| then s.calls[j].ran else []
  }

  lemma PreludeRan(c: Config, s: State, a: Action, j: JobId)
    requires Enabled(c, s, a) && (a.Measure? || a.SetPolicy?)
    ensures RanOf(Apply(c, s, a), j) == RanOf(s, j)
  {
    if a.Measure? {
      assert RanOf(MeasureCongestion(c, s, a.call), j) == RanOf(s, j);
    } else {
      assert RanOf(ChoosePolicy(c, s, a.call), j) == RanOf(s, j);
    }
  }

  lemma ReplyRan(c: Config, s: State, a: Action, j: JobId)
    requires Enabled(c, s, a) && CallerStep(a) && !a.Measure? && !a.SetPolicy?
    ensures RanOf(Apply(c, s, a), j) == RanOf(s, j)
  {
  }

  lemma CheckRan(c: Config, s: State, w: WorkerId, j: JobId)
    requires Enabled(c, s, Check(w))
    ensures RanOf(Apply(c, s, Check(w)), j) == RanOf(s, j)
  {
    assert RanOf(CheckCancelled(s, w), j) == RanOf(s, j);
  }

  lemma WorkRan(c: Config, s: State, a: Action, j: JobId)
    requires Enabled(c, s, a) && (a.Announce? || a.Return? || a.SendResult?)
    ensures RanOf(Apply(c, s, a), j) == RanOf(s, j) + OutcomeBy(s, a, j)
  {
  }

  lemma MoveRan(c: Config, s: State, a: Action, j: JobId)
    requires Enabled(c, s, a) && !CallerStep(a) && !WorkStep(a)
    ensures RanOf(Apply(c, s, a), j) == RanOf(s, j)
  {
    if MachineStep(a) {
      MachineFrame(c, s, a);
    } else if a.Launch? {
      assert RanOf(LaunchJob(c, s, a.call), j) == RanOf(s, j);
    } else {
      TravelRan(c, s, a, j);
    }
  }

  lemma TravelRan(c: Config, s: State, a: Action, j: JobId)
    requires Enabled(c, s, a)
    requires a.Arrive? || a.SendIn? || a.Append? || a.Pop? || a.SendOut? || a.HandOff?
    ensures RanOf(Apply(c, s, a), j) == RanOf(s, j)
  {
  }

  lemma StepRan(c: Config, s: State, a: Action, j: JobId)
    requires Enabled(c, s, a)
    ensures RanOf(Apply(c, s, a), j) == RanOf(s, j) + OutcomeBy(s, a, j)
  {
    if a.Measure? || a.SetPolicy? {
      PreludeRan(c, s, a, j);
    } else if CallerStep(a) {
      ReplyRan(c, s, a, j);
    } else if a.Check? {
      CheckRan(c, s, a.worker, j);
    } else if WorkStep(a) {
      WorkRan(c, s, a, j);
    } else {
      MoveRan(c, s, a, j);
    }
  }

  lemma {:induction false} RanTells(c: Config, s: State, run: seq<Action>, j: JobId)
    requires Legal(c, s, run)
    ensures RanOf(After(c, s, run), j) == RanOf(s, j) + OutcomesOf(c, s, run, j)
    decreases |run|
  {
    if run != [] {
      var t := Apply(c, s, run[0]);
      RanTells(c, t, run[1..], j);
      StepRan(c, s, run[0], j);
      Joined(RanOf(s, j), OutcomeBy(s, run[0], j), OutcomesOf(c, t, run[1..], j));
    }
  }

  lemma Joined(a: seq<Outcome>, b: seq<Outcome>, rest: seq<Outcome>)
    ensures (a + b) + rest == a + (b + rest)
  {
  }

  /** In every run f ends at most once for each call, and a caller that returns a result returns the outcome
      of that one end. */
  lemma ResultIsTheOutcome(c: Config, run: seq<Action>, j: JobId)
    requires Legal(c, Init(c), run) && j < |After(c, Init(c), run).calls|
    ensures |OutcomesOf(c, Init(c), run, j)| <= 1
    ensures var caller := After(c, Init(c), run).calls[j].caller;
            caller.Returned? ==> OutcomesOf(c, Init(c), run, j) == [caller.result]
  {
    var s := After(c, Init(c), run);
    RanTells(c, Init(c), run, j);
    assert [] + OutcomesOf(c, Init(c), run, j) == OutcomesOf(c, Init(c), run, j);
    assert Reachable(c, s);
    ReachableInv(c, s);
    assert CoupledAt(c.kind, s.calls[j], s.places[j]);
  }
}
