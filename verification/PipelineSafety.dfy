/** Safety of the queue-backed executors, over every run and every interleaving. */
module PipelineSafety {
  import opened Common
  import opened Handshake
  import opened QueueStats
  import opened WorkerPool
  import opened Pipeline
  import opened PipelineInvariant

  // ---- no lost wake-up ----

  // A step of the enqueuer or the dequeuer that moves waiting jobs on.
  predicate MovesQueue(a: Action) {
    a.Signal? || a.CheckEmpty? || a.Wake? || a.Recheck? || a.Pop? || a.CountOut? || a.SendOut?
  }

  /** While jobs wait, a sleeping dequeuer has its signal on the way, and the queue is stuck only
      because the forwarder has not taken the previous job yet. */
  lemma NoLostWakeUp(c: Config, s: State)
    requires Reachable(c, s) && s.queue != []
    ensures s.deq.DeqParked? ==> s.token || s.enq.EnqAppended?
    ensures (exists a :: MovesQueue(a) && Enabled(c, s, a)) || (s.deq.DeqSending? && s.forwarder.Some?)
  {
    ReachableInv(c, s);
    if s.enq.EnqAppended? {
      assert MovesQueue(Signal) && Enabled(c, s, Signal);
    } else {
      DequeuerMoves(c, s);
    }
  }

  lemma DequeuerMoves(c: Config, s: State)
    requires WakeOk(s) && s.queue != [] && !s.enq.EnqAppended?
    ensures (exists a :: MovesQueue(a) && Enabled(c, s, a)) || (s.deq.DeqSending? && s.forwarder.Some?)
  {
    match s.deq
    case DeqCheck => assert MovesQueue(CheckEmpty) && Enabled(c, s, CheckEmpty);
    case DeqParked => assert MovesQueue(Wake) && Enabled(c, s, Wake);
    case DeqRecheck => assert MovesQueue(Recheck) && Enabled(c, s, Recheck);
    case DeqPop => assert MovesQueue(Pop) && Enabled(c, s, Pop);
    case DeqPopped(_) => assert MovesQueue(CountOut) && Enabled(c, s, CountOut);
    case DeqSending(_) => assert s.forwarder.None? ==> MovesQueue(SendOut) && Enabled(c, s, SendOut);
  }

  // ---- conservation ----

  function One(b: bool): nat {
    if b then 1 else 0
  }

  function Carriers(s: State, j: JobId): set<WorkerId> {
    set w | w in s.pool.busy && s.pool.busy[w] == j
  }

  // How many times job j occurs in the whole system.
  function Occurrences(s: State, j: JobId): nat
    requires Calling(s, j)
  {
    One(BeforeLaunch(s.calls[j])) + One(s.places[j] == AtSubmitter) + One(EnqHolds(s, j)) + multiset(s.queue)[j]
    + One(DeqHolds(s, j)) + One(s.forwarder == Some(j)) + |Carriers(s, j)| + One(JobDone(s.calls[j]))
  }

  lemma {:induction false} DistinctCount(s: seq<JobId>, j: JobId)
    requires Distinct(s)
    ensures multiset(s)[j] == One(j in s)
  {
    if s != [] {
      DistinctCount(s[1..], j);
      assert s == [s[0]] + s[1..];
      assert s[0] !in s[1..];
    }
  }

  lemma CarriersCount(s: State, j: JobId)
    requires Located(s) && j < |s.places|
    ensures |Carriers(s, j)| == One(s.places[j].AtWorker?)
  {
    if s.places[j].AtWorker? {
      assert Carriers(s, j) == {s.places[j].worker};
    } else {
      assert Carriers(s, j) == {};
    }
  }

  /** Every submitted job is in exactly one place, whatever the policy switches and resizes; so no
      job is lost, duplicated or run twice. */
  lemma Conservation(c: Config, s: State, j: JobId)
    requires Reachable(c, s) && j < |s.calls|
    ensures Calling(s, j) && Occurrences(s, j) == 1
  {
    ReachableInv(c, s);
    DistinctCount(s.queue, j);
    CarriersCount(s, j);
    OccurrencesByPlace(c, s, j);
  }

  lemma OccurrencesByPlace(c: Config, s: State, j: JobId)
    requires Located(s) && Coupled(c, s) && Calling(s, j)
    requires multiset(s.queue)[j] == One(j in s.queue) && |Carriers(s, j)| == One(s.places[j].AtWorker?)
    ensures Occurrences(s, j) == 1
  {
    assert CoupledAt(c.kind, s.calls[j], s.places[j]);
    assert s.places[j].AtEnqueuer? <==> EnqHolds(s, j);
    assert s.places[j].InQueue? <==> j in s.queue;
    assert s.places[j].AtDequeuer? <==> DeqHolds(s, j);
    assert s.places[j].AtForwarder? <==> s.forwarder == Some(j);
  }

  /** No channel is closed twice, the dequeue policy never sees an empty queue and no nil job is sent. */
  lemma NoPanic(c: Config, s: State)
    requires Reachable(c, s)
    ensures forall j | 0 <= j < |s.calls| :: !s.calls[j].panicked
    ensures s.deq.DeqPop? ==> s.queue != []
    ensures s.deq.DeqSending? ==> s.deq.job.Some?
    ensures !s.nilSent
  {
    ReachableInv(c, s);
    forall j | 0 <= j < |s.calls| ensures !s.calls[j].panicked {
      assert CoupledAt(c.kind, s.calls[j], s.places[j]);
    }
  }

  /** The steps that would panic or block for ever are never taken in the wrong state: a worker that is
      about to close dequeuedJob finds it open, a caller that cancels finds canceledJob open and with
      room, a worker that sends the result finds room for it, and the dequeuer has a job to send. */
  lemma ChannelsAreReady(c: Config, s: State)
    requires Reachable(c, s)
    ensures forall w | Working(s, w) && s.calls[s.pool.busy[w]].job.Fresh? :: !s.calls[s.pool.busy[w]].dequeued
    ensures forall j | 0 <= j < |s.calls| && s.calls[j].caller.TimedOut? :: s.calls[j].cancel.Empty?
    ensures forall w | Working(s, w) && s.calls[s.pool.busy[w]].job.Ran? :: s.calls[s.pool.busy[w]].res.None?
    ensures Enabled(c, s, SendOut) ==> s.deq.job.Some?
  {
    ReachableInv(c, s);
    forall j | 0 <= j < |s.calls|
      ensures s.calls[j].job.Fresh? ==> !s.calls[j].dequeued
      ensures s.calls[j].caller.TimedOut? ==> s.calls[j].cancel.Empty?
      ensures s.calls[j].job.Ran? ==> s.calls[j].res.None?
    {
      assert CoupledAt(c.kind, s.calls[j], s.places[j]);
    }
  }

  /** The enqueuer holds the lock from the append to the signal: in between nobody looks at the queue. */
  lemma AppendAndSignal(c: Config, s: State)
    requires Reachable(c, s) && s.enq.EnqAppended?
    ensures !Enabled(c, s, CheckEmpty) && !Enabled(c, s, Recheck) && !Enabled(c, s, Pop)
    ensures Enabled(c, s, Signal) && Apply(c, s, Signal).token && Apply(c, s, Signal).enq.EnqIdle?
  {
    ReachableInv(c, s);
  }

  /** Any live worker between two jobs may take the forwarder's job, also one that has been retired, and
      then runs it. */
  lemma AnyLiveWorkerMayTake(c: Config, s: State, w: WorkerId)
    requires Reachable(c, s) && s.forwarder.Some? && w in LiveWorkers(s.pool) && w !in s.pool.busy
    ensures Enabled(c, s, HandOff(w))
    ensures var t := Apply(c, s, HandOff(w));
            t.forwarder.None? && t.pool.busy == s.pool.busy[w := s.forwarder.value] && Enabled(c, t, Announce(w))
  {
    ReachableInv(c, s);
    InvKept(c, s, HandOff(w));
    assert CoupledAt(c.kind, s.calls[s.forwarder.value], s.places[s.forwarder.value]);
  }

  // ---- the handshake ----

  ghost predicate Precedes(log: seq<Event>, a: Event, b: Event) {
    exists i, k | 0 <= i < k < |log| :: log[i] == a && log[k] == b
  }

  /** Over all interleavings of caller, timer and worker:
      - a job that saw the cancel never runs f, and its caller had been rejected before it looked;
      - if f runs although the caller was rejected, dequeuedJob was closed and f was let go before the cancel;
      - a caller that returns a result returns what the one and only run of f returned, after that run. */
  lemma CancellationHandshake(c: Config, s: State, j: JobId)
    requires Reachable(c, s) && j < |s.calls|
    ensures var call := s.calls[j];
            && |call.ran| <= 1
            && (Discarded in call.log ==>
                  Started !in call.log && call.ran == [] && Precedes(call.log, Cancelled, Discarded))
            && (Started in call.log && Cancelled in call.log ==>
                  Precedes(call.log, Dequeued, Started) && Precedes(call.log, Started, Cancelled))
            && (call.caller.Returned? ==>
                  call.ran == [call.caller.result] && Cancelled !in call.log && Precedes(call.log, Completed, Received))
            && (call.caller.Rejected? <==> Cancelled in call.log)
  {
    ReachableInv(c, s);
    var call := s.calls[j];
    assert CoupledAt(c.kind, call, s.places[j]);
    if Discarded in call.log {
      InOrder(call.log, Cancelled, Discarded);
    }
    if Started in call.log && Cancelled in call.log {
      InOrder(call.log, Dequeued, Started);
      InOrder(call.log, Started, Cancelled);
    }
    if call.caller.Returned? {
      InOrder(call.log, Completed, Received);
    }
  }

  lemma InOrder(log: seq<Event>, a: Event, b: Event)
    requires a in log && b in log && NeverAfter(log, a, b)
    ensures Precedes(log, a, b)
  {
    var i :| 0 <= i < |log| && log[i] == a;
    var k :| 0 <= k < |log| && log[k] == b;
    assert i < k;
  }

  // ---- the congestion clock ----

  /** The statistic counts the queue and the two jobs on its edges, in every reachable state of either
      executor, and is never negative. */
  lemma SizeCounts(c: Config, s: State)
    requires Reachable(c, s)
    ensures s.stats.size == |s.queue| + One(s.enq.EnqCounted?) + One(s.deq.DeqPopped?)
    ensures s.stats.size >= 0
  {
    ReachableInv(c, s);
  }

  /** The CoDel executor treats a call as congested exactly when the statistic has not been zero at any
      instant of the last interval. */
  lemma CongestionClock(c: Config, s: State, j: JobId)
    requires Reachable(c, s) && c.interval >= 0 && Enabled(c, s, Measure(j))
    ensures Apply(c, s, Measure(j)).calls[j].caller == Measured(BusyThroughout(s.sizes, s.now - c.interval))
  {
    ReachableInv(c, s);
    CongestedIffBusyThroughout(s.stats, s.sizes, s.now, c.interval);
  }

  // ---- counters ----

  // The executing counter: calls whose f is running.
  function Executing(s: State): set<JobId> {
    set j | 0 <= j < |s.calls| && s.calls[j].job.Running?
  }

  // The in-flight counter: calls that have not returned.
  function InFlight(s: State): set<JobId> {
    set j | 0 <= j < |s.calls| && !CallerDone(s.calls[j])
  }

  // Rejected calls whose f runs all the same: it had been let go before the cancel.
  function Stragglers(s: State): set<JobId> {
    set j | 0 <= j < |s.calls| && s.calls[j].caller.Rejected? && s.calls[j].job.Running?
  }

  /** Executing calls are in-flight ones or stragglers, and each occupies a live worker: at most the
      configured quantity plus the retired workers that have not left. */
  lemma CounterOrdering(c: Config, s: State)
    requires Reachable(c, s)
    ensures |Executing(s)| <= |InFlight(s)| + |Stragglers(s)|
    ensures |Executing(s)| <= |LiveWorkers(s.pool)| == Quantity(s.pool) + |Retiring(s.pool)|
  {
    ReachableInv(c, s);
    forall j | j in Executing(s) ensures j in InFlight(s) + Stragglers(s) {
      assert CoupledAt(c.kind, s.calls[j], s.places[j]);
    }
    SubsetSize(Executing(s), InFlight(s) + Stragglers(s));
    forall j | j in Executing(s) ensures j in s.pool.busy.Values {
      assert CoupledAt(c.kind, s.calls[j], s.places[j]);
      assert s.pool.busy[s.places[j].worker] == j;
    }
    SubsetSize(Executing(s), s.pool.busy.Values);
    ValuesSize(s.pool.busy);
    Accounting(s.pool);
  }
}
