/** What a call is told about congestion, how long it then waits, and with which policy the queue works:
    all in terms of the run alone. */
module PipelineTiming {
  import opened Handshake
  import opened JobQueue
  import opened WorkerPool
  import opened Pipeline
  import opened PipelineInvariant
  import opened PipelineDrain
  import PipelineSafety

  // ---- the congestion clock, moment by moment ----

  // Jobs in the queue, counted in and about to join it, or taken out and not counted out yet.
  function Backlog(s: State): nat {
    |s.queue| + (if s.enq.EnqCounted? then 1 else 0) + (if s.deq.DeqPopped? then 1 else 0)
  }

  // At every moment of the run since `from` there was a backlog.
  ghost predicate BackloggedSince(c: Config, run: seq<Action>, from: int)
    requires Legal(c, Init(c), run)
  {
    forall i | 0 <= i <= |run| :: At(c, Init(c), run, i).now >= from ==> Backlog(At(c, Init(c), run, i)) > 0
  }

  // The last empty moment that the statistic stands for.
  function LastEmpty(s: State): int {
    if s.stats.size > 0 then s.stats.lastTimeEmpty else s.now
  }

  // It is the last moment of the run without a backlog.
  ghost predicate ClockTells(c: Config, run: seq<Action>)
    requires Legal(c, Init(c), run)
  {
    var s := After(c, Init(c), run);
    && LastEmpty(s) <= s.now
    && (forall i | 0 <= i <= |run| ::
          Backlog(At(c, Init(c), run, i)) == 0 ==> At(c, Init(c), run, i).now <= LastEmpty(s))
    && exists i :: EmptyAt(c, run, i, LastEmpty(s))
  }

  ghost predicate EmptyAt(c: Config, run: seq<Action>, i: nat, time: int)
    requires Legal(c, Init(c), run)
  {
    i <= |run| && Backlog(At(c, Init(c), run, i)) == 0 && At(c, Init(c), run, i).now == time
  }

  lemma CallerEmpty(c: Config, s: State, a: Action)
    requires Enabled(c, s, a) && CallerStep(a)
    ensures LastEmpty(Apply(c, s, a)) == LastEmpty(s)
    ensures Apply(c, s, a).stats.size == s.stats.size
  {
    CallerFrame(c, s, a);
    if a.Measure? {
      assert LastEmpty(MeasureCongestion(c, s, a.call)) == LastEmpty(s);
    }
  }

  lemma MachineEmpty(c: Config, s: State, a: Action)
    requires Enabled(c, s, a) && MachineStep(a)
    ensures var t := Apply(c, s, a);
            && t.now >= s.now
            && (t.stats.size > 0 ==> LastEmpty(t) == LastEmpty(s))
  {
  }

  lemma OtherEmpty(c: Config, s: State, a: Action)
    requires Enabled(c, s, a) && !CallerStep(a) && !MachineStep(a)
    ensures Apply(c, s, a).stats == s.stats && Apply(c, s, a).now == s.now
  {
    if WorkStep(a) {
      WorkFrame(c, s, a);
    }
  }

  // While there is a backlog the last empty moment stays.
  lemma StepEmpty(c: Config, s: State, a: Action)
    requires Enabled(c, s, a)
    ensures var t := Apply(c, s, a); t.now >= s.now && (t.stats.size > 0 ==> LastEmpty(t) == LastEmpty(s))
  {
    if CallerStep(a) {
      CallerFrame(c, s, a);
      CallerEmpty(c, s, a);
    } else if MachineStep(a) {
      MachineEmpty(c, s, a);
    } else {
      OtherEmpty(c, s, a);
    }
  }

  lemma SizeIsBacklog(c: Config, run: seq<Action>)
    requires Legal(c, Init(c), run)
    ensures After(c, Init(c), run).stats.size == Backlog(After(c, Init(c), run))
  {
    assert Reachable(c, After(c, Init(c), run));
    PipelineSafety.SizeCounts(c, After(c, Init(c), run));
  }

  lemma AtInit(c: Config, run: seq<Action>, i: nat)
    requires run != [] && Legal(c, Init(c), run) && i < |run|
    ensures Legal(c, Init(c), run[..|run| - 1])
    ensures At(c, Init(c), run, i) == At(c, Init(c), run[..|run| - 1], i)
  {
    LastStep(c, Init(c), run);
    assert run == run[..|run| - 1] + [run[|run| - 1]];
    AtPrefix(c, Init(c), run[..|run| - 1], [run[|run| - 1]], i);
  }

  lemma {:induction false} ClockAlwaysTells(c: Config, run: seq<Action>)
    requires Legal(c, Init(c), run)
    ensures ClockTells(c, run)
    decreases |run|
  {
    if run == [] {
      assert EmptyAt(c, run, 0, 0);
    } else {
      LastStep(c, Init(c), run);
      ClockAlwaysTells(c, run[..|run| - 1]);
      ClockStep(c, run);
    }
  }

  lemma ClockStep(c: Config, run: seq<Action>)
    requires run != [] && Legal(c, Init(c), run)
    requires Legal(c, Init(c), run[..|run| - 1]) && ClockTells(c, run[..|run| - 1])
    ensures ClockTells(c, run)
  {
    var init := run[..|run| - 1];
    var (s, t) := (After(c, Init(c), init), After(c, Init(c), run));
    LastStep(c, Init(c), run);
    StepEmpty(c, s, run[|run| - 1]);
    SizeIsBacklog(c, init);
    SizeIsBacklog(c, run);
    AtEnd(c, Init(c), run);
    forall i | 0 <= i <= |run| && Backlog(At(c, Init(c), run, i)) == 0
      ensures At(c, Init(c), run, i).now <= LastEmpty(t)
    {
      if i < |run| {
        AtInit(c, run, i);
      }
    }
    if t.stats.size > 0 {
      var i :| EmptyAt(c, init, i, LastEmpty(s));
      AtInit(c, run, i);
      assert EmptyAt(c, run, i, LastEmpty(t));
    } else {
      assert EmptyAt(c, run, |run|, LastEmpty(t));
    }
  }

  /** A call is told that the queue is congested exactly if there was a backlog at every moment of the run in
      the last interval, its ends included. */
  lemma CongestedExactly(c: Config, run: seq<Action>, j: JobId)
    requires Legal(c, Init(c), run) && c.interval >= 0 && Enabled(c, After(c, Init(c), run), Action.Measure(j))
    ensures var s := After(c, Init(c), run);
            Apply(c, s, Action.Measure(j)) ==
            SetCaller(s, j, Measured(BackloggedSince(c, run, s.now - c.interval)))
            .(stats := Apply(c, s, Action.Measure(j)).stats)
  {
    var s := After(c, Init(c), run);
    ClockAlwaysTells(c, run);
    SizeIsBacklog(c, run);
    AtEnd(c, Init(c), run);
    var i: nat :| EmptyAt(c, run, i, LastEmpty(s));
    assert MeasureCongestion(c, s, j) == Apply(c, s, Action.Measure(j));
    if LastEmpty(s) >= s.now - c.interval {
      assert !BackloggedSince(c, run, s.now - c.interval);
    }
  }

  // ---- steps of one caller ----

  lemma CallerUntouched(c: Config, s: State, a: Action, j: JobId)
    requires Located(s) && Enabled(c, s, a) && j < |s.calls|
    requires !(CallerStep(a) && a.call == j) && a != Launch(j)
    ensures var t := Apply(c, s, a); j < |t.calls| && t.calls[j].caller == s.calls[j].caller && t.now >= s.now
  {
    StepEmpty(c, s, a);
    if CallerStep(a) {
      CallerFrame(c, s, a);
      CallerLighter(c, s, a);
    } else if WorkStep(a) {
      assert s.places[s.pool.busy[a.worker]] == AtWorker(a.worker);
      WorkFrame(c, s, a);
      WorkLighter(c, s, a);
    } else if MachineStep(a) {
      MachineFrame(c, s, a);
    } else {
      TravelUntouched(c, s, a, j);
    }
  }

  lemma TravelUntouched(c: Config, s: State, a: Action, j: JobId)
    requires Enabled(c, s, a) && j < |s.calls| && a != Launch(j)
    requires a.Arrive? || a.Launch? || a.SendIn? || a.Append? || a.Pop? || a.SendOut? || a.HandOff?
    ensures var t := Apply(c, s, a); j < |t.calls| && t.calls[j].caller == s.calls[j].caller
  {
    if a.Launch? {
      assert LaunchJob(c, s, a.call).calls[j].caller == s.calls[j].caller;
    }
  }

  // ---- from the measure to the launch ----

  function Granted(c: Config, congested: bool): int {
    if congested then c.targetDelay else c.interval
  }

  // What the caller does with the answer, until it launches its job.
  predicate Prepared(c: Config, s: State, j: JobId, congested: bool) {
    && j < |s.calls|
    && var caller := s.calls[j].caller;
       (caller == Measured(congested) || caller == PolicySet(Granted(c, congested)) || !BeforeLaunch(s.calls[j]))
  }

  lemma PreparedKept(c: Config, s: State, a: Action, j: JobId, congested: bool)
    requires Located(s) && Enabled(c, s, a) && Prepared(c, s, j, congested)
    ensures Prepared(c, Apply(c, s, a), j, congested)
  {
    if a == Launch(j) {
      assert LaunchJob(c, s, j).calls[j].caller.Waiting?;
    } else if CallerStep(a) && a.call == j {
      PreparedStep(c, s, a, congested);
    } else {
      CallerUntouched(c, s, a, j);
    }
  }

  lemma PreparedStep(c: Config, s: State, a: Action, congested: bool)
    requires Enabled(c, s, a) && CallerStep(a) && Prepared(c, s, a.call, congested)
    ensures Prepared(c, Apply(c, s, a), a.call, congested)
  {
    if a.SetPolicy? {
      assert ChoosePolicy(c, s, a.call).calls[a.call].caller == PolicySet(Granted(c, congested));
    }
  }

  lemma {:induction false} PreparedAfter(c: Config, s: State, run: seq<Action>, j: JobId, congested: bool)
    requires Inv(c, s) && Legal(c, s, run) && Prepared(c, s, j, congested)
    ensures Inv(c, After(c, s, run)) && Prepared(c, After(c, s, run), j, congested)
    decreases |run|
  {
    if run != [] {
      PreparedKept(c, s, run[0], j, congested);
      InvKept(c, s, run[0]);
      PreparedAfter(c, Apply(c, s, run[0]), run[1..], j, congested);
    }
  }

  // Whether call j, which measures after `pre`, finds the queue congested.
  ghost predicate FindsCongested(c: Config, pre: seq<Action>)
    requires Legal(c, Init(c), pre)
  {
    BackloggedSince(c, pre, After(c, Init(c), pre).now - c.interval)
  }

  lemma MeasuredSo(c: Config, pre: seq<Action>, mid: seq<Action>, j: JobId)
    requires c.interval >= 0 && Legal(c, Init(c), pre + [Action.Measure(j)] + mid)
    ensures Legal(c, Init(c), pre)
    ensures var s := After(c, Init(c), pre + [Action.Measure(j)] + mid);
            Inv(c, s) && Prepared(c, s, j, FindsCongested(c, pre))
  {
    var start := Init(c);
    SplitRun(c, start, pre + [Action.Measure(j)], mid);
    SplitRun(c, start, pre, [Action.Measure(j)]);
    OneStep(c, After(c, start, pre), Action.Measure(j));
    CongestedExactly(c, pre, j);
    var measured := After(c, start, pre + [Action.Measure(j)]);
    assert Reachable(c, measured);
    ReachableInv(c, measured);
    PreparedAfter(c, measured, mid, j, FindsCongested(c, pre));
  }

  /** The policy follows the answer: the call that was told of congestion turns the queue to LIFO, and the
      one that was not back to FIFO. */
  lemma PolicyFollows(c: Config, pre: seq<Action>, mid: seq<Action>, j: JobId)
    requires c.interval >= 0 && Legal(c, Init(c), pre + [Action.Measure(j)] + mid)
    requires Enabled(c, After(c, Init(c), pre + [Action.Measure(j)] + mid), SetPolicy(j))
    ensures Legal(c, Init(c), pre)
    ensures var s := After(c, Init(c), pre + [Action.Measure(j)] + mid);
            Apply(c, s, SetPolicy(j)).policy == if FindsCongested(c, pre) then LifoPolicy else FifoPolicy
  {
    MeasuredSo(c, pre, mid, j);
    var s := After(c, Init(c), pre + [Action.Measure(j)] + mid);
    assert ChoosePolicy(c, s, j) == Apply(c, s, SetPolicy(j));
  }

  // ---- from the launch on ----

  // The call waits until `due`, is not rejected before, and has its answer once nothing moves after it.
  predicate WaitsUntil(c: Config, s: State, j: JobId, due: int) {
    && j < |s.calls| && !BeforeLaunch(s.calls[j])
    && (s.calls[j].caller.Waiting? ==> s.calls[j].caller.deadline == due)
    && (s.calls[j].caller.TimedOut? || s.calls[j].caller.Rejected? ==> s.now >= due)
  }

  lemma ReplyWaits(c: Config, s: State, a: Action, due: int)
    requires Enabled(c, s, a) && CallerStep(a) && WaitsUntil(c, s, a.call, due)
    ensures WaitsUntil(c, Apply(c, s, a), a.call, due)
  {
    CallerFrame(c, s, a);
    if a.CancelJob? {
      assert Apply(c, s, a).calls[a.call].caller.Rejected?;
    } else if a.ReceiveResult? {
      assert Apply(c, s, a).calls[a.call].caller.Returned?;
    }
  }

  lemma WaitsKept(c: Config, s: State, a: Action, j: JobId, due: int)
    requires Located(s) && Enabled(c, s, a) && WaitsUntil(c, s, j, due)
    ensures WaitsUntil(c, Apply(c, s, a), j, due)
  {
    assert a != Launch(j);
    if CallerStep(a) && a.call == j {
      ReplyWaits(c, s, a, due);
    } else {
      CallerUntouched(c, s, a, j);
    }
  }

  lemma {:induction false} WaitsAfter(c: Config, s: State, run: seq<Action>, j: JobId, due: int)
    requires Inv(c, s) && Legal(c, s, run) && WaitsUntil(c, s, j, due)
    ensures WaitsUntil(c, After(c, s, run), j, due)
    decreases |run|
  {
    if run != [] {
      WaitsKept(c, s, run[0], j, due);
      InvKept(c, s, run[0]);
      WaitsAfter(c, Apply(c, s, run[0]), run[1..], j, due);
    }
  }

  // And nobody is left waiting beyond it.
  ghost predicate AnsweredBy(c: Config, s: State, j: JobId, due: int) {
    WaitsUntil(c, s, j, due) && (AtRest(c, s) && s.now >= due ==> CallerDone(s.calls[j]))
  }

  lemma LaunchedUntil(c: Config, before: seq<Action>, after: seq<Action>, j: JobId, timeout: int)
    requires Legal(c, Init(c), before + [Launch(j)] + after)
    ensures Legal(c, Init(c), before) && Enabled(c, After(c, Init(c), before), Launch(j))
    ensures var s := After(c, Init(c), before);
            timeout == (if c.kind.Lifo? then c.maxWait else s.calls[j].caller.timeout) ==>
              AnsweredBy(c, After(c, Init(c), before + [Launch(j)] + after), j, s.now + timeout)
  {
    var start := Init(c);
    SplitRun(c, start, before + [Launch(j)], after);
    SplitRun(c, start, before, [Launch(j)]);
    var s := After(c, start, before);
    OneStep(c, s, Launch(j));
    var launched := After(c, start, before + [Launch(j)]);
    assert Reachable(c, launched);
    ReachableInv(c, launched);
    if timeout == (if c.kind.Lifo? then c.maxWait else s.calls[j].caller.timeout) {
      assert LaunchJob(c, s, j).calls[j].caller == Waiting(s.now + timeout);
      WaitsAfter(c, launched, after, j, s.now + timeout);
      RestAnswers(c, before + [Launch(j)] + after, j, s.now + timeout);
    }
  }

  lemma RestAnswers(c: Config, run: seq<Action>, j: JobId, due: int)
    requires Legal(c, Init(c), run) && WaitsUntil(c, After(c, Init(c), run), j, due)
    ensures AnsweredBy(c, After(c, Init(c), run), j, due)
  {
    var s := After(c, Init(c), run);
    assert Reachable(c, s);
    if AtRest(c, s) {
      NobodyBlocks(c, s);
    }
  }

  /** The LIFO executor grants exactly the configured wait, counted from the launch: until then the caller
      is not rejected, and after it nobody is left waiting. */
  lemma LifoWait(c: Config, before: seq<Action>, after: seq<Action>, j: JobId)
    requires c.kind.Lifo? && Legal(c, Init(c), before + [Launch(j)] + after)
    ensures Legal(c, Init(c), before)
    ensures AnsweredBy(c, After(c, Init(c), before + [Launch(j)] + after), j, After(c, Init(c), before).now + c.maxWait)
  {
    LaunchedUntil(c, before, after, j, c.maxWait);
  }

  /** The CoDel executor grants the target delay exactly to the calls that found a backlog throughout the
      interval before they measured, and the whole interval to the others. */
  lemma CodelWait(c: Config, pre: seq<Action>, mid: seq<Action>, after: seq<Action>, j: JobId)
    requires c.kind.Codel? && c.interval >= 0
    requires Legal(c, Init(c), pre + [Action.Measure(j)] + mid + [Launch(j)] + after)
    ensures Legal(c, Init(c), pre) && Legal(c, Init(c), pre + [Action.Measure(j)] + mid)
    ensures var launch := After(c, Init(c), pre + [Action.Measure(j)] + mid).now;
            AnsweredBy(c, After(c, Init(c), pre + [Action.Measure(j)] + mid + [Launch(j)] + after), j,
                       launch + if FindsCongested(c, pre) then c.targetDelay else c.interval)
  {
    var before := pre + [Action.Measure(j)] + mid;
    LaunchedUntil(c, before, after, j, 0);
    MeasuredSo(c, pre, mid, j);
    LaunchedUntil(c, before, after, j, After(c, Init(c), before).calls[j].caller.timeout);
  }

  // ---- every call has been launched so ----

  lemma {:induction false} FindLaunch(c: Config, run: seq<Action>, j: JobId)
    returns (before: seq<Action>, after: seq<Action>)
    requires Legal(c, Init(c), run) && j < |After(c, Init(c), run).calls|
    requires !BeforeLaunch(After(c, Init(c), run).calls[j])
    ensures run == before + [Launch(j)] + after
    decreases |run|
  {
    LastStep(c, Init(c), run);
    var init, a := run[..|run| - 1], run[|run| - 1];
    var s := After(c, Init(c), init);
    assert run == init + [a];
    if a == Launch(j) {
      before, after := init, [];
    } else {
      assert Reachable(c, s);
      ReachableInv(c, s);
      NotLaunchedNow(c, s, a, j);
      before, after := FindLaunch(c, init, j);
      after := after + [a];
    }
  }

  // Only the launch takes a call past it.
  lemma NotLaunchedNow(c: Config, s: State, a: Action, j: JobId)
    requires Located(s) && Enabled(c, s, a) && a != Launch(j) && j < |Apply(c, s, a).calls|
    requires !BeforeLaunch(Apply(c, s, a).calls[j])
    ensures j < |s.calls| && !BeforeLaunch(s.calls[j])
  {
    if a.Arrive? {
      ArriveFrame(c, s);
    } else if CallerStep(a) && a.call == j {
      CallerFrame(c, s, a);
      if BeforeLaunch(s.calls[j]) {
        PreludeStays(c, s, a);
      }
    } else {
      CallsKept(c, s, a);
      CallerUntouched(c, s, a, j);
    }
  }

  lemma PreludeStays(c: Config, s: State, a: Action)
    requires Enabled(c, s, a) && CallerStep(a) && BeforeLaunch(s.calls[a.call])
    ensures BeforeLaunch(Apply(c, s, a).calls[a.call])
  {
    if a.Measure? {
      assert BeforeLaunch(MeasureCongestion(c, s, a.call).calls[a.call]);
    } else {
      assert a.SetPolicy?;
      assert BeforeLaunch(ChoosePolicy(c, s, a.call).calls[a.call]);
    }
  }

  lemma {:induction false} FindMeasure(c: Config, run: seq<Action>, j: JobId)
    returns (pre: seq<Action>, mid: seq<Action>)
    requires Legal(c, Init(c), run) && j < |After(c, Init(c), run).calls|
    requires var caller := After(c, Init(c), run).calls[j].caller; caller.Measured? || caller.PolicySet?
    ensures run == pre + [Action.Measure(j)] + mid
    decreases |run|
  {
    LastStep(c, Init(c), run);
    var init, a := run[..|run| - 1], run[|run| - 1];
    var s := After(c, Init(c), init);
    assert run == init + [a];
    if a == Action.Measure(j) {
      pre, mid := init, [];
    } else {
      assert Reachable(c, s);
      ReachableInv(c, s);
      NotMeasuredNow(c, s, a, j);
      pre, mid := FindMeasure(c, init, j);
      mid := mid + [a];
    }
  }

  lemma NotMeasuredNow(c: Config, s: State, a: Action, j: JobId)
    requires Located(s) && Enabled(c, s, a) && a != Action.Measure(j) && j < |Apply(c, s, a).calls|
    requires var caller := Apply(c, s, a).calls[j].caller; caller.Measured? || caller.PolicySet?
    ensures j < |s.calls| && (s.calls[j].caller.Measured? || s.calls[j].caller.PolicySet?)
  {
    if Enabled(c, s, Launch(j)) {
      LaunchWaits(c, s, j);
    }
    if a.Arrive? {
      ArriveFrame(c, s);
    } else if CallerStep(a) && a.call == j {
      CallerFrame(c, s, a);
      OnlyPolicySets(c, s, a);
    } else {
      CallsKept(c, s, a);
      CallerUntouched(c, s, a, j);
    }
  }

  lemma LaunchWaits(c: Config, s: State, j: JobId)
    requires Enabled(c, s, Launch(j))
    ensures Apply(c, s, Launch(j)).calls[j].caller.Waiting?
  {
    assert LaunchJob(c, s, j).calls[j].caller.Waiting?;
  }

  lemma OnlyPolicySets(c: Config, s: State, a: Action)
    requires Enabled(c, s, a) && CallerStep(a) && !a.Measure?
    requires var caller := Apply(c, s, a).calls[a.call].caller; caller.Measured? || caller.PolicySet?
    ensures a.SetPolicy?
  {
  }

  // How the run grants call j its wait.
  ghost predicate GrantedUntil(c: Config, run: seq<Action>, j: JobId, due: int) {
    if c.kind.Lifo? then exists before, after :: LifoGrant(c, run, j, due, before, after)
    else exists pre, mid, after :: CodelGrant(c, run, j, due, pre, mid, after)
  }

  ghost predicate LifoGrant(c: Config, run: seq<Action>, j: JobId, due: int, before: seq<Action>, after: seq<Action>) {
    && run == before + [Launch(j)] + after && Legal(c, Init(c), before)
    && due == After(c, Init(c), before).now + c.maxWait
  }

  ghost predicate CodelGrant(c: Config, run: seq<Action>, j: JobId, due: int, pre: seq<Action>, mid: seq<Action>,
                             after: seq<Action>)
  {
    && run == pre + [Action.Measure(j)] + mid + [Launch(j)] + after
    && Legal(c, Init(c), pre) && Legal(c, Init(c), pre + [Action.Measure(j)] + mid)
    && due == After(c, Init(c), pre + [Action.Measure(j)] + mid).now +
              if FindsCongested(c, pre) then c.targetDelay else c.interval
  }

  /** Every call of every run, once launched, has been granted its wait so, is not rejected before it is over,
      and has its answer when nothing moves after it. */
  lemma EveryWait(c: Config, run: seq<Action>, j: JobId) returns (due: int)
    requires Legal(c, Init(c), run) && c.interval >= 0
    requires j < |After(c, Init(c), run).calls| && !BeforeLaunch(After(c, Init(c), run).calls[j])
    ensures GrantedUntil(c, run, j, due) && AnsweredBy(c, After(c, Init(c), run), j, due)
  {
    var before, after := FindLaunch(c, run, j);
    LaunchedUntil(c, before, after, j, 0);
    if c.kind.Lifo? {
      LifoWait(c, before, after, j);
      due := After(c, Init(c), before).now + c.maxWait;
      assert LifoGrant(c, run, j, due, before, after);
    } else {
      var pre, mid := FindMeasure(c, before, j);
      CodelWait(c, pre, mid, after, j);
      due := After(c, Init(c), before).now + if FindsCongested(c, pre) then c.targetDelay else c.interval;
      assert CodelGrant(c, run, j, due, pre, mid, after);
    }
  }
}
