/** In which order workers receive the jobs. */
module PipelineOrder {
  import opened Common
  import opened Handshake
  import opened JobQueue
  import opened WorkerPool
  import opened Pipeline
  import opened PipelineInvariant
  import opened PipelineDrain

  function Held(job: Option<JobId>): seq<JobId> {
    if job.Some? then [job.value] else []
  }

  function DequeuerJob(s: State): Option<JobId> {
    if s.deq.DeqPopped? || s.deq.DeqSending? then s.deq.job else None
  }

  function EnqueuerJob(s: State): Option<JobId> {
    if s.enq.EnqGot? || s.enq.EnqCounted? then Some(s.enq.job) else None
  }

  // The whole pipeline read from its front.
  function Line(s: State): seq<JobId> {
    s.handed + Held(s.forwarder) + Held(DequeuerJob(s)) + s.queue + Held(EnqueuerJob(s))
  }

  // ---- what the histories stand for ----

  // The jobs that the run sends to the enqueuer, in order.
  function Sent(run: seq<Action>): seq<JobId> {
    if run == [] then [] else (if run[0].SendIn? then [run[0].call] else []) + Sent(run[1..])
  }

  // What one step hands over.
  function HandedBy(c: Config, s: State, a: Action): seq<JobId>
    requires Enabled(c, s, a)
  {
    var t := Apply(c, s, a);
    if a.HandOff? && a.worker in t.pool.busy then [t.pool.busy[a.worker]] else []
  }

  // The jobs that the run hands to workers, in order: what the worker then runs.
  function HandedOver(c: Config, s: State, run: seq<Action>): seq<JobId>
    requires Legal(c, s, run)
    decreases |run|
  {
    if run == [] then [] else HandedBy(c, s, run[0]) + HandedOver(c, Apply(c, s, run[0]), run[1..])
  }

  lemma ReceivedSame(c: Config, s: State, a: Action)
    requires Enabled(c, s, a) && !a.SendIn?
    ensures Apply(c, s, a).received == s.received
  {
    if CallerStep(a) {
      CallerFrame(c, s, a);
    } else if WorkStep(a) {
      WorkFrame(c, s, a);
    } else if MachineStep(a) {
      MachineFrame(c, s, a);
    }
  }

  lemma HandedSame(c: Config, s: State, a: Action)
    requires Enabled(c, s, a) && !a.HandOff?
    ensures Apply(c, s, a).handed == s.handed
  {
    if CallerStep(a) {
      CallerFrame(c, s, a);
    } else if WorkStep(a) {
      WorkFrame(c, s, a);
    } else if MachineStep(a) {
      MachineFrame(c, s, a);
    }
  }

  lemma SendInReceives(c: Config, s: State, j: JobId)
    requires Enabled(c, s, SendIn(j))
    ensures Apply(c, s, SendIn(j)).received == s.received + [j]
  {
  }

  lemma HandOffHands(c: Config, s: State, w: WorkerId)
    requires Enabled(c, s, HandOff(w))
    ensures var t := Apply(c, s, HandOff(w)); w in t.pool.busy && t.handed == s.handed + [t.pool.busy[w]]
  {
  }

  /** Received are the jobs sent to the enqueuer, in order. */
  lemma {:induction false} ReceivedTells(c: Config, s: State, run: seq<Action>)
    requires Legal(c, s, run)
    ensures After(c, s, run).received == s.received + Sent(run)
    decreases |run|
  {
    if run != [] {
      var t := Apply(c, s, run[0]);
      ReceivedTells(c, t, run[1..]);
      if run[0].SendIn? {
        SendInReceives(c, s, run[0].call);
        assert s.received + [run[0].call] + Sent(run[1..]) == s.received + ([run[0].call] + Sent(run[1..]));
      } else {
        ReceivedSame(c, s, run[0]);
      }
    }
  }

  lemma HandedStep(c: Config, s: State, a: Action)
    requires Enabled(c, s, a)
    ensures Apply(c, s, a).handed == s.handed + HandedBy(c, s, a)
  {
    if a.HandOff? {
      HandOffHands(c, s, a.worker);
    } else {
      HandedSame(c, s, a);
    }
  }

  lemma JoinHanded(handed: seq<JobId>, now: seq<JobId>, rest: seq<JobId>)
    ensures (handed + now) + rest == handed + (now + rest)
  {
  }

  /** Handed are the jobs that workers got, in order. */
  lemma {:induction false} HandedTells(c: Config, s: State, run: seq<Action>)
    requires Legal(c, s, run)
    ensures After(c, s, run).handed == s.handed + HandedOver(c, s, run)
    decreases |run|
  {
    if run != [] {
      var t := Apply(c, s, run[0]);
      HandedTells(c, t, run[1..]);
      HandedStep(c, s, run[0]);
      JoinHanded(s.handed, HandedBy(c, s, run[0]), HandedOver(c, t, run[1..]));
    }
  }

  // ---- first in, first out ----

  function Front(s: State): seq<JobId> {
    s.handed + Held(s.forwarder) + Held(DequeuerJob(s))
  }

  lemma SendOutLine(c: Config, s: State)
    requires Located(s) && Enabled(c, s, SendOut)
    ensures Front(Apply(c, s, SendOut)) == Front(s)
  {
  }

  lemma HandOffLine(c: Config, s: State, w: WorkerId)
    requires Enabled(c, s, HandOff(w))
    ensures Front(Apply(c, s, HandOff(w))) == Front(s)
  {
  }

  lemma CountOutLine(c: Config, s: State)
    requires Enabled(c, s, CountOut)
    ensures Front(Apply(c, s, CountOut)) == Front(s)
  {
  }

  lemma FrontMoves(s: State, t: State)
    requires Front(t) == Front(s) && t.queue == s.queue && t.enq == s.enq
    ensures Line(t) == Line(s)
  {
  }

  lemma DequeuerLine(c: Config, s: State, a: Action)
    requires Located(s) && Enabled(c, s, a) && (a.SendOut? || a.HandOff? || a.CountOut?)
    ensures Line(Apply(c, s, a)) == Line(s) && Apply(c, s, a).received == s.received
  {
    match a
    case SendOut => SendOutLine(c, s);
    case HandOff(w) => HandOffLine(c, s, w);
    case CountOut => CountOutLine(c, s);
    FrontMoves(s, Apply(c, s, a));
  }

  lemma EnqueuerLine(c: Config, s: State, a: Action)
    requires Enabled(c, s, a) && s.received == Line(s)
    requires a.SendIn? || a.CountIn? || a.Append? || a.Signal?
    ensures Apply(c, s, a).received == Line(Apply(c, s, a))
  {
    var t := Apply(c, s, a);
    EnqueuerMoves(c, s, a);
    LineBack(s);
    LineBack(t);
  }

  // The line from the queue on.
  function Back(s: State): seq<JobId> {
    s.queue + Held(EnqueuerJob(s))
  }

  lemma LineBack(s: State)
    ensures Line(s) == Front(s) + Back(s)
  {
  }

  lemma EnqueuerMoves(c: Config, s: State, a: Action)
    requires Enabled(c, s, a) && (a.SendIn? || a.CountIn? || a.Append? || a.Signal?)
    ensures var t := Apply(c, s, a);
            && Front(t) == Front(s)
            && (if a.SendIn? then t.received == s.received + [a.call] && Back(t) == Back(s) + [a.call]
                else t.received == s.received && Back(t) == Back(s))
  {
  }

  lemma TakesFirst(policy: Policy, queue: seq<JobId>)
    requires queue != [] && (policy.FifoPolicy? || |queue| <= 1)
    ensures Dequeue(policy, queue) == (Some(queue[0]), queue[1..])
  {
    if |queue| == 1 {
      assert queue[1..] == [];
    }
  }

  lemma PopLine(c: Config, s: State)
    requires Located(s) && Enabled(c, s, Pop) && s.received == Line(s)
    requires s.policy.FifoPolicy? || |s.queue| <= 1
    ensures Apply(c, s, Pop).received == Line(Apply(c, s, Pop))
  {
    TakesFirst(s.policy, s.queue);
    assert Held(Some(s.queue[0])) + s.queue[1..] == s.queue;
    FrontLine(s, Apply(c, s, Pop));
  }

  lemma FrontLine(s: State, t: State)
    requires s.queue != [] && t.queue == s.queue[1..] && DequeuerJob(s).None? && DequeuerJob(t) == Some(s.queue[0])
    requires t.handed == s.handed && t.forwarder == s.forwarder && t.enq == s.enq
    ensures Line(t) == Line(s)
  {
  }

  lemma AsideLine(c: Config, s: State, a: Action)
    requires Enabled(c, s, a) && (CallerStep(a) || WorkStep(a) || a.Arrive? || a.Launch?)
    ensures Line(Apply(c, s, a)) == Line(s) && Apply(c, s, a).received == s.received
  {
    if CallerStep(a) {
      CallerFrame(c, s, a);
    } else if WorkStep(a) {
      WorkFrame(c, s, a);
    }
    SameLine(s, Apply(c, s, a));
  }

  // The dequeuer looks for a job; the pool is resized; time passes.
  predicate Idle(a: Action) {
    a.CheckEmpty? || a.Wake? || a.Recheck? || a.Resize? || a.Exit? || a.Elapse?
  }

  lemma IdleLine(c: Config, s: State, a: Action)
    requires Enabled(c, s, a) && Idle(a)
    ensures Line(Apply(c, s, a)) == Line(s) && Apply(c, s, a).received == s.received
  {
    MachineFrame(c, s, a);
    LookingHoldsNothing(c, s, a);
  }

  lemma LookingHoldsNothing(c: Config, s: State, a: Action)
    requires Enabled(c, s, a) && (Idle(a) || a.CountOut?)
    ensures DequeuerJob(Apply(c, s, a)) == DequeuerJob(s) && Apply(c, s, a).enq == s.enq
  {
  }

  lemma SameLine(s: State, t: State)
    requires t.handed == s.handed && t.forwarder == s.forwarder
    requires t.deq == s.deq && t.queue == s.queue && t.enq == s.enq
    ensures Line(t) == Line(s)
  {
  }

  lemma QueueLine(c: Config, s: State, a: Action)
    requires Located(s) && Enabled(c, s, a) && s.received == Line(s) && (QueueStep(a) || a.HandOff?)
    requires a.Pop? ==> s.policy.FifoPolicy? || |s.queue| <= 1
    ensures Apply(c, s, a).received == Line(Apply(c, s, a))
  {
    if a.Pop? {
      PopLine(c, s);
    } else if a.SendOut? || a.HandOff? || a.CountOut? {
      DequeuerLine(c, s, a);
    } else if a.SendIn? || a.CountIn? || a.Append? || a.Signal? {
      EnqueuerLine(c, s, a);
    } else {
      IdleLine(c, s, a);
    }
  }

  /** One step keeps the order of arrival, unless a LIFO pop has a choice. */
  lemma LineKept(c: Config, s: State, a: Action)
    requires Located(s) && Enabled(c, s, a) && s.received == Line(s)
    requires a.Pop? ==> s.policy.FifoPolicy? || |s.queue| <= 1
    ensures Apply(c, s, a).received == Line(Apply(c, s, a))
  {
    if QueueStep(a) || a.HandOff? {
      QueueLine(c, s, a);
    } else if Idle(a) {
      IdleLine(c, s, a);
    } else {
      AsideLine(c, s, a);
    }
  }

  // No pop of the run has another job to choose than the first.
  ghost predicate NoChoice(c: Config, s: State, run: seq<Action>)
    requires Legal(c, s, run)
    decreases |run|
  {
    run == [] || (
      && (run[0].Pop? ==> s.policy.FifoPolicy? || |s.queue| <= 1)
      && NoChoice(c, Apply(c, s, run[0]), run[1..]))
  }

  lemma {:induction false} OrderAfter(c: Config, s: State, run: seq<Action>)
    requires Inv(c, s) && Legal(c, s, run) && NoChoice(c, s, run) && s.received == Line(s)
    ensures After(c, s, run).received == Line(After(c, s, run))
    decreases |run|
  {
    if run != [] {
      LineKept(c, s, run[0]);
      InvKept(c, s, run[0]);
      OrderAfter(c, Apply(c, s, run[0]), run[1..]);
    }
  }

  /** While jobs are popped under the FIFO policy, or one at a time, either executor is first in, first
      out: what the enqueuer received is what workers got, then what is in the pipeline, in that order. */
  lemma FifoOrder(c: Config, run: seq<Action>)
    requires Legal(c, Init(c), run) && NoChoice(c, Init(c), run)
    ensures var s := After(c, Init(c), run); s.received == Line(s) && s.handed <= s.received
  {
    InvInit(c);
    OrderAfter(c, Init(c), run);
  }

  // The pipeline is in order of arrival at every moment of the run.
  ghost predicate InOrderThroughout(c: Config, s: State, run: seq<Action>)
    requires Legal(c, s, run)
    decreases |run|
  {
    s.received == Line(s) && (run == [] || InOrderThroughout(c, Apply(c, s, run[0]), run[1..]))
  }

  lemma PopFront(c: Config, s: State)
    requires Located(s) && Enabled(c, s, Pop) && s.policy.LifoPolicy? && |s.queue| > 1
    ensures Front(Apply(c, s, Pop)) == Front(s) + [s.queue[|s.queue| - 1]]
  {
  }

  lemma LineFront(s: State)
    ensures Line(s) == Front(s) + (s.queue + Held(EnqueuerJob(s)))
  {
  }

  // A LIFO pop that has a choice lets a job overtake.
  lemma ChoiceOvertakes(c: Config, s: State)
    requires Located(s) && Enabled(c, s, Pop) && s.policy.LifoPolicy? && |s.queue| > 1
    requires s.received == Line(s)
    ensures Apply(c, s, Pop).received != Line(Apply(c, s, Pop))
  {
    var t := Apply(c, s, Pop);
    var at := |Front(s)|;
    PopFront(c, s);
    LineFront(s);
    LineFront(t);
    assert Line(s)[at] == s.queue[0];
    assert Line(t)[at] == s.queue[|s.queue| - 1];
  }

  /** And only then: a pipeline in order stays in order throughout a run exactly if no pop of the run has
      a choice. */
  lemma {:induction false} FifoExactly(c: Config, s: State, run: seq<Action>)
    requires Inv(c, s) && s.received == Line(s) && Legal(c, s, run)
    ensures InOrderThroughout(c, s, run) <==> NoChoice(c, s, run)
    decreases |run|
  {
    if run != [] {
      if run[0].Pop? && s.policy.LifoPolicy? && |s.queue| > 1 {
        ChoiceOvertakes(c, s);
      } else {
        LineKept(c, s, run[0]);
        InvKept(c, s, run[0]);
        FifoExactly(c, Apply(c, s, run[0]), run[1..]);
      }
    }
  }

  // No call of the run found the queue congested.
  ghost predicate Calm(c: Config, s: State, run: seq<Action>)
    requires Legal(c, s, run)
    decreases |run|
  {
    run == [] || (
      var t := Apply(c, s, run[0]);
      && (run[0].Measure? ==> !t.calls[run[0].call].caller.congested)
      && Calm(c, t, run[1..]))
  }

  ghost predicate FifoPolicySet(s: State) {
    && s.policy.FifoPolicy?
    && (forall j | 0 <= j < |s.calls| && s.calls[j].caller.Measured? :: !s.calls[j].caller.congested)
  }

  lemma CallerCalm(c: Config, s: State, a: Action)
    requires Enabled(c, s, a) && CallerStep(a) && FifoPolicySet(s)
    requires a.Measure? ==> !Apply(c, s, a).calls[a.call].caller.congested
    ensures FifoPolicySet(Apply(c, s, a))
  {
    CallerLighter(c, s, a);
    PolicyChosen(c, s, a);
  }

  lemma PolicyChosen(c: Config, s: State, a: Action)
    requires Enabled(c, s, a) && CallerStep(a) && FifoPolicySet(s)
    ensures var t := Apply(c, s, a);
            t.policy == FifoPolicy && (t.calls[a.call].caller.Measured? ==> a.Measure?)
  {
  }

  lemma WorkCalm(c: Config, s: State, a: Action)
    requires Located(s) && Enabled(c, s, a) && WorkStep(a) && FifoPolicySet(s)
    ensures FifoPolicySet(Apply(c, s, a))
  {
    WorkFrame(c, s, a);
    WorkLighter(c, s, a);
  }

  lemma MoveCalm(c: Config, s: State, a: Action)
    requires Enabled(c, s, a) && FifoPolicySet(s)
    requires a.Arrive? || a.Launch? || a.SendIn? || a.Append? || a.Pop? || a.SendOut? || a.HandOff?
    ensures FifoPolicySet(Apply(c, s, a))
  {
  }

  lemma CalmStep(c: Config, s: State, a: Action)
    requires Located(s) && Enabled(c, s, a) && FifoPolicySet(s)
    requires a.Measure? ==> !Apply(c, s, a).calls[a.call].caller.congested
    ensures FifoPolicySet(Apply(c, s, a))
  {
    if CallerStep(a) {
      CallerCalm(c, s, a);
    } else if WorkStep(a) {
      WorkCalm(c, s, a);
    } else if MachineStep(a) {
      MachineFrame(c, s, a);
    } else {
      MoveCalm(c, s, a);
    }
  }

  lemma {:induction false} CalmHasNoChoice(c: Config, s: State, run: seq<Action>)
    requires Inv(c, s) && Legal(c, s, run) && Calm(c, s, run) && FifoPolicySet(s)
    ensures NoChoice(c, s, run)
    decreases |run|
  {
    if run != [] {
      CalmStep(c, s, run[0]);
      InvKept(c, s, run[0]);
      CalmHasNoChoice(c, Apply(c, s, run[0]), run[1..]);
    }
  }

  /** In particular the CoDel executor is, while no call is told that the queue is congested. */
  lemma CalmFifoOrder(c: Config, run: seq<Action>)
    requires c.kind.Codel? && Legal(c, Init(c), run) && Calm(c, Init(c), run)
    ensures var s := After(c, Init(c), run); s.received == Line(s) && s.handed <= s.received
  {
    InvInit(c);
    CalmHasNoChoice(c, Init(c), run);
    FifoOrder(c, run);
  }

  // ---- last in, first out ----

  // Jobs 0, 1, ... arrive one by one, with no worker and time to settle in between.
  ghost predicate Fills(c: Config, states: seq<State>, runs: seq<seq<Action>>) {
    && |states| == |runs| + 1
    && states[0] == Init(c)
    && (forall i | 0 <= i < |runs| :: ComesToRest(c, Apply(c, states[i], Arrive), runs[i], states[i + 1]))
  }

  // Everything that holds while job n makes its way in, the others having settled.
  ghost predicate Filling(c: Config, s: State, n: nat) {
    && Inv(c, s)
    && s.policy.LifoPolicy? && NeverStarted(s.pool) && s.handed == []
    && |s.calls| == n + 1
    && s.received == Line(s)
    && (s.received == Iota(n) || s.received == Iota(n + 1))
    && (n >= 1 ==> s.forwarder.Some?)
    && (n >= 2 ==> s.deq.DeqSending?)
  }

  ghost predicate FullLine(c: Config, s: State, n: nat) {
    && Inv(c, s)
    && s.policy.LifoPolicy? && NeverStarted(s.pool) && s.handed == []
    && |s.calls| == n
    && s.enq.EnqIdle?
    && s.received == Line(s) == Iota(n)
    && (n >= 1 ==> s.forwarder.Some?)
    && (n >= 2 ==> s.deq.DeqSending?)
  }

  // ---- the policy and the calls ----

  lemma NeverMeasured(c: Config, s: State, j: JobId)
    requires c.kind.Lifo? && Coupled(c, s)
    ensures !Enabled(c, s, SetPolicy(j))
  {
    if Calling(s, j) {
      assert CoupledAt(c.kind, s.calls[j], s.places[j]);
    }
  }

  // Nothing changes the policy of the LIFO executor.
  lemma LifoPolicyKept(c: Config, s: State, a: Action)
    requires c.kind.Lifo? && Coupled(c, s) && Enabled(c, s, a)
    ensures Apply(c, s, a).policy == s.policy
  {
    forall j: JobId ensures a != SetPolicy(j) {
      NeverMeasured(c, s, j);
    }
    PolicySame(c, s, a);
  }

  lemma PolicySame(c: Config, s: State, a: Action)
    requires Enabled(c, s, a) && !a.SetPolicy?
    ensures Apply(c, s, a).policy == s.policy
  {
    if WorkStep(a) {
      WorkFrame(c, s, a);
    } else if MachineStep(a) {
      MachineFrame(c, s, a);
    }
  }

  // ---- filling ----

  lemma ShortQueue(c: Config, s: State, n: nat)
    requires Filling(c, s, n) && Enabled(c, s, Pop)
    ensures |s.queue| <= 1
  {
    assert |Line(s)| == |Held(s.forwarder)| + |Held(DequeuerJob(s))| + |s.queue| + |Held(EnqueuerJob(s))|;
  }

  // Without workers a held job stays where it is.
  lemma Blocked(c: Config, s: State, a: Action)
    requires Enabled(c, s, a) && Unattended(a) && NeverStarted(s.pool)
    ensures var t := Apply(c, s, a);
            && NeverStarted(t.pool) && t.handed == s.handed
            && (s.forwarder.Some? ==> t.forwarder == s.forwarder)
            && (s.forwarder.Some? && s.deq.DeqSending? ==> t.deq == s.deq)
  {
    if CallerStep(a) {
      CallerFrame(c, s, a);
    } else if a.Elapse? {
    } else {
      BlockedMove(c, s, a);
    }
  }

  lemma BlockedMove(c: Config, s: State, a: Action)
    requires Enabled(c, s, a) && Unattended(a) && !CallerStep(a) && !a.Elapse? && NeverStarted(s.pool)
    ensures var t := Apply(c, s, a);
            && NeverStarted(t.pool) && t.handed == s.handed
            && (s.forwarder.Some? ==> t.forwarder == s.forwarder)
            && (s.forwarder.Some? && s.deq.DeqSending? ==> t.deq == s.deq)
  {
    NoWorkerMoves(c, s, a);
    if a.Launch? || a.SendIn? || a.CountIn? || a.Append? || a.Signal? {
      EntryFrame(c, s, a);
    } else {
      DequeuerFrame(c, s, a);
    }
  }

  lemma NoWorkerMoves(c: Config, s: State, a: Action)
    requires Enabled(c, s, a) && NeverStarted(s.pool)
    ensures !WorkStep(a) && !a.HandOff?
  {
    forall w: WorkerId ensures !Working(s, w) && !Live(s.pool, w) {
    }
  }

  // On the way in a job does not touch the other end of the pipeline.
  lemma EntryFrame(c: Config, s: State, a: Action)
    requires Enabled(c, s, a) && (a.Launch? || a.SendIn? || a.CountIn? || a.Append? || a.Signal?)
    ensures var t := Apply(c, s, a);
            t.pool == s.pool && t.handed == s.handed && t.forwarder == s.forwarder && t.deq == s.deq
  {
    match a
    case Launch(_) =>
    case SendIn(_) =>
    case Append =>
    case _ => MachineFrame(c, s, a);
  }

  lemma DequeuerFrame(c: Config, s: State, a: Action)
    requires Enabled(c, s, a)
    requires a.CheckEmpty? || a.Wake? || a.Recheck? || a.Pop? || a.CountOut? || a.SendOut?
    ensures var t := Apply(c, s, a); t.pool == s.pool && t.handed == s.handed
    ensures s.forwarder.Some? ==> Apply(c, s, a).forwarder == s.forwarder
    ensures s.forwarder.Some? ==> !s.deq.DeqSending?
  {
  }

  lemma AllReceived(c: Config, s: State, j: JobId)
    requires HistoryOk(s) && s.received == Iota(|s.places|)
    ensures !Enabled(c, s, SendIn(j))
  {
    if j < |s.places| {
      assert s.received[j] == j;
    }
  }

  lemma LastToReceive(c: Config, s: State, n: nat, j: JobId)
    requires HistoryOk(s) && |s.places| == n + 1 && s.received == Iota(n) && Enabled(c, s, SendIn(j))
    ensures j == n && s.received + [j] == Iota(n + 1)
  {
    forall i: nat | i < n ensures i in s.received {
      assert s.received[i] == i;
    }
  }

  // The only job that can still be sent to the enqueuer is the last one.
  lemma ReceivesInTurn(c: Config, s: State, n: nat, a: Action)
    requires HistoryOk(s) && |s.places| == n + 1 && Enabled(c, s, a)
    requires s.received == Iota(n) || s.received == Iota(n + 1)
    ensures var t := Apply(c, s, a); t.received == Iota(n) || t.received == Iota(n + 1)
  {
    if s.received == Iota(n) && a.SendIn? {
      LastToReceive(c, s, n, a.call);
    } else {
      if s.received == Iota(n + 1) {
        forall j: JobId ensures a != SendIn(j) {
          AllReceived(c, s, j);
        }
      }
      ReceivedSame(c, s, a);
    }
  }

  lemma FillingKept(c: Config, s: State, n: nat, a: Action)
    requires c.kind.Lifo? && Filling(c, s, n) && Enabled(c, s, a) && Unattended(a)
    ensures Filling(c, Apply(c, s, a), n)
  {
    if a.Pop? {
      ShortQueue(c, s, n);
    }
    LineKept(c, s, a);
    InvKept(c, s, a);
    LifoPolicyKept(c, s, a);
    Blocked(c, s, a);
    CallsKept(c, s, a);
    ReceivesInTurn(c, s, n, a);
  }

  lemma UnattendedTail(run: seq<Action>)
    requires run != [] && AllUnattended(run)
    ensures Unattended(run[0]) && AllUnattended(run[1..])
  {
  }

  lemma {:induction false} FillingAfter(c: Config, s: State, n: nat, run: seq<Action>)
    requires c.kind.Lifo? && Filling(c, s, n) && Legal(c, s, run) && AllUnattended(run)
    ensures Filling(c, After(c, s, run), n)
    decreases |run|
  {
    if run != [] {
      UnattendedTail(run);
      FillingKept(c, s, n, run[0]);
      FillingAfter(c, Apply(c, s, run[0]), n, run[1..]);
    }
  }

  lemma SettledFilling(c: Config, s: State, n: nat)
    requires Filling(c, s, n) && Quiet(c, s)
    ensures FullLine(c, s, n + 1)
  {
    QuietShape(c, s);
    SettledReceived(s, n);
    SettledHolds(s);
  }

  lemma SettledReceived(s: State, n: nat)
    requires HistoryOk(s) && |s.places| == n + 1 && (s.received == Iota(n) || s.received == Iota(n + 1))
    requires forall j | 0 <= j < |s.places| :: PastIn(s.places[j])
    ensures s.received == Iota(n + 1)
  {
    assert n in s.received;
  }

  // With one job in the line the forwarder has it, with more the dequeuer has another.
  lemma SettledHolds(s: State)
    requires s.received == Line(s) && s.handed == [] && s.enq.EnqIdle?
    requires (s.deq.DeqParked? && s.queue == [] && !s.token) || (s.deq.DeqSending? && s.forwarder.Some?)
    ensures |s.received| >= 1 ==> s.forwarder.Some?
    ensures |s.received| >= 2 ==> s.deq.DeqSending?
  {
    assert |Line(s)| == |Held(s.forwarder)| + |Held(DequeuerJob(s))| + |s.queue|;
  }

  lemma {:induction false} FilledIsFull(c: Config, states: seq<State>, runs: seq<seq<Action>>, n: nat)
    requires c.kind.Lifo? && Fills(c, states, runs) && n <= |runs|
    ensures FullLine(c, states[n], n)
    decreases n
  {
    if n == 0 {
      FirstIsFull(c, states, runs);
    } else {
      FilledIsFull(c, states, runs, n - 1);
      FilledNext(c, states, runs, n);
    }
  }

  lemma FilledNext(c: Config, states: seq<State>, runs: seq<seq<Action>>, n: nat)
    requires c.kind.Lifo? && Fills(c, states, runs) && 1 <= n <= |runs| && FullLine(c, states[n - 1], n - 1)
    ensures FullLine(c, states[n], n)
  {
    FillsStep(c, states, runs, n - 1);
    FillsUp(c, states[n - 1], n - 1, runs[n - 1], states[n]);
  }

  lemma FirstIsFull(c: Config, states: seq<State>, runs: seq<seq<Action>>)
    requires c.kind.Lifo? && Fills(c, states, runs)
    ensures FullLine(c, states[0], 0)
  {
    EmptyIsFull(c);
  }

  lemma FillsStep(c: Config, states: seq<State>, runs: seq<seq<Action>>, n: nat)
    requires Fills(c, states, runs) && n < |runs|
    ensures ComesToRest(c, Apply(c, states[n], Arrive), runs[n], states[n + 1])
  {
  }

  lemma FillsUp(c: Config, s: State, n: nat, run: seq<Action>, t: State)
    requires c.kind.Lifo? && FullLine(c, s, n) && ComesToRest(c, Apply(c, s, Arrive), run, t)
    ensures FullLine(c, t, n + 1)
  {
    OneMore(c, s, n);
    FillingSettles(c, Apply(c, s, Arrive), n, run, t);
  }

  lemma EmptyIsFull(c: Config)
    requires c.kind.Lifo?
    ensures FullLine(c, Init(c), 0)
  {
    InvInit(c);
    assert Iota(0) == [];
  }

  lemma OneMore(c: Config, s: State, n: nat)
    requires FullLine(c, s, n)
    ensures Filling(c, Apply(c, s, Arrive), n)
  {
    var t := Apply(c, s, Arrive);
    InvKept(c, s, Arrive);
    OneMoreLine(c, s, t, n) by {
      ArriveFrame(c, s);
    }
  }

  lemma OneMoreLine(c: Config, s: State, t: State, n: nat)
    requires FullLine(c, s, n) && Inv(c, t)
    requires t == s.(calls := s.calls + [NewCall], places := s.places + [Unlaunched])
    ensures Filling(c, t, n)
  {
    SameLine(s, t);
  }

  lemma FillingSettles(c: Config, s: State, n: nat, run: seq<Action>, t: State)
    requires c.kind.Lifo? && Filling(c, s, n) && ComesToRest(c, s, run, t)
    ensures FullLine(c, t, n + 1)
  {
    FillingAfter(c, s, n, run);
    SettledFilling(c, t, n);
  }

  // ---- draining ----

  // 0 and 1 were already on their way to the workers; the rest leaves from the end.
  function LifoRunOrder(n: nat): seq<JobId>
    requires n >= 2
  {
    [0, 1] + Reverse(Iota(n)[2..])
  }

  function LifoLine(s: State): seq<JobId> {
    s.handed + Held(s.forwarder) + Held(DequeuerJob(s)) + Reverse(s.queue)
  }

  ghost predicate Draining(c: Config, s: State, n: nat)
    requires n >= 2
  {
    && Inv(c, s)
    && s.policy.LifoPolicy? && Quantity(s.pool) == 1
    && |s.calls| == n
    && s.enq.EnqIdle?
    && s.received == Iota(n)
    && LifoLine(s) == LifoRunOrder(n)
  }

  lemma TakesLast(queue: seq<JobId>)
    requires queue != []
    ensures var (job, rest) := Dequeue(LifoPolicy, queue); job.Some? && Reverse(queue) == [job.value] + Reverse(rest)
  {
    var (job, rest) := Dequeue(LifoPolicy, queue);
    if |queue| == 1 {
      assert Reverse(rest) == [];
    }
    assert queue == rest + [job.value];
  }

  lemma LifoPop(c: Config, s: State)
    requires Located(s) && Enabled(c, s, Pop) && s.policy.LifoPolicy?
    ensures LifoLine(Apply(c, s, Pop)) == LifoLine(s)
  {
    TakesLast(s.queue);
    var (job, rest) := Dequeue(LifoPolicy, s.queue);
    var t := Apply(c, s, Pop);
    assert Held(DequeuerJob(t)) + Reverse(t.queue) == Held(DequeuerJob(s)) + Reverse(s.queue);
    LifoFront(s, t);
  }

  lemma LifoFront(s: State, t: State)
    requires t.handed == s.handed && t.forwarder == s.forwarder
    requires Held(DequeuerJob(t)) + Reverse(t.queue) == Held(DequeuerJob(s)) + Reverse(s.queue)
    ensures LifoLine(t) == LifoLine(s)
  {
    assert LifoLine(t) == t.handed + Held(t.forwarder) + (Held(DequeuerJob(t)) + Reverse(t.queue));
    assert LifoLine(s) == s.handed + Held(s.forwarder) + (Held(DequeuerJob(s)) + Reverse(s.queue));
  }

  lemma LifoFrontMoves(s: State, t: State)
    requires Front(t) == Front(s) && t.queue == s.queue
    ensures LifoLine(t) == LifoLine(s)
  {
    assert LifoLine(t) == Front(t) + Reverse(t.queue);
    assert LifoLine(s) == Front(s) + Reverse(s.queue);
  }

  lemma LifoDelivery(c: Config, s: State, a: Action)
    requires Located(s) && Enabled(c, s, a) && (a.SendOut? || a.HandOff? || a.CountOut?)
    ensures LifoLine(Apply(c, s, a)) == LifoLine(s) && Apply(c, s, a).enq == s.enq
  {
    match a
    case SendOut => SendOutLine(c, s);
    case HandOff(w) => HandOffLine(c, s, w);
    case CountOut => CountOutLine(c, s);
    LifoFrontMoves(s, Apply(c, s, a));
  }

  lemma LifoIdle(c: Config, s: State, a: Action)
    requires Enabled(c, s, a) && Idle(a)
    ensures LifoLine(Apply(c, s, a)) == LifoLine(s) && Apply(c, s, a).enq == s.enq
  {
    MachineFrame(c, s, a);
    LookingHoldsNothing(c, s, a);
    LifoFrontMoves(s, Apply(c, s, a));
  }

  lemma LifoStill(c: Config, s: State, a: Action)
    requires Enabled(c, s, a) && (CallerStep(a) || WorkStep(a) || a.Launch?)
    ensures LifoLine(Apply(c, s, a)) == LifoLine(s) && Apply(c, s, a).enq == s.enq
  {
    if CallerStep(a) {
      CallerFrame(c, s, a);
    } else if WorkStep(a) {
      WorkFrame(c, s, a);
    }
  }

  lemma LifoLineKept(c: Config, s: State, a: Action)
    requires Located(s) && Enabled(c, s, a) && Unattended(a) && s.policy.LifoPolicy? && s.enq.EnqIdle? && !a.SendIn?
    ensures LifoLine(Apply(c, s, a)) == LifoLine(s) && Apply(c, s, a).enq == s.enq
  {
    if a.Pop? {
      LifoPop(c, s);
    } else if a.SendOut? || a.HandOff? || a.CountOut? {
      LifoDelivery(c, s, a);
    } else if Idle(a) {
      LifoIdle(c, s, a);
    } else {
      LifoStill(c, s, a);
    }
  }

  lemma QuantityKept(c: Config, s: State, a: Action)
    requires Enabled(c, s, a) && Unattended(a)
    ensures Quantity(Apply(c, s, a).pool) == Quantity(s.pool)
  {
    if CallerStep(a) {
      CallerFrame(c, s, a);
    }
  }

  lemma DrainingKept(c: Config, s: State, n: nat, a: Action)
    requires c.kind.Lifo? && n >= 2 && Draining(c, s, n) && Enabled(c, s, a) && Unattended(a)
    ensures Draining(c, Apply(c, s, a), n)
  {
    forall j: JobId ensures a != SendIn(j) {
      AllReceived(c, s, j);
    }
    LifoLineKept(c, s, a);
    InvKept(c, s, a);
    LifoPolicyKept(c, s, a);
    QuantityKept(c, s, a);
    CallsKept(c, s, a);
    ReceivedSame(c, s, a);
  }

  lemma {:induction false} DrainingAfter(c: Config, s: State, n: nat, run: seq<Action>)
    requires c.kind.Lifo? && n >= 2 && Draining(c, s, n) && Legal(c, s, run) && AllUnattended(run)
    ensures Draining(c, After(c, s, run), n)
    decreases |run|
  {
    if run != [] {
      UnattendedTail(run);
      DrainingKept(c, s, n, run[0]);
      DrainingAfter(c, Apply(c, s, run[0]), n, run[1..]);
    }
  }

  lemma LineOfTwo(s: State)
    requires s.handed == [] && s.forwarder.Some? && s.deq.DeqSending? && s.deq.job.Some? && s.enq.EnqIdle?
    ensures Line(s) == [s.forwarder.value] + [s.deq.job.value] + s.queue
  {
  }

  lemma FullLineParts(c: Config, s: State, n: nat)
    requires n >= 2 && FullLine(c, s, n)
    ensures s.deq.job.Some? && [s.forwarder.value] + [s.deq.job.value] + s.queue == Iota(n)
  {
    LineOfTwo(s);
  }

  lemma PrefetchedTwo(n: nat, first: JobId, second: JobId, queue: seq<JobId>)
    requires n >= 2 && [first] + [second] + queue == Iota(n)
    ensures first == 0 && second == 1 && queue == Iota(n)[2..]
  {
    var whole := [first] + [second] + queue;
    assert whole[0] == 0 && whole[1] == 1;
    assert queue == whole[2..];
  }

  lemma TwoThen(first: JobId, second: JobId, rest: seq<JobId>)
    ensures [] + [first] + [second] + rest == [first, second] + rest
  {
  }

  lemma StartLine(s: State, n: nat)
    requires n >= 2 && s.handed == []
    requires s.forwarder == Some(0) && s.deq == DeqSending(Some(1)) && s.queue == Iota(n)[2..]
    ensures LifoLine(s) == LifoRunOrder(n)
  {
    TwoThen(0, 1, Reverse(s.queue));
  }

  // The line once it is full: 0 with the forwarder, 1 with the dequeuer, the rest waiting.
  ghost predicate LinedUp(s: State, n: nat)
    requires n >= 2
  {
    && s.policy.LifoPolicy? && s.handed == []
    && |s.calls| == n
    && s.enq.EnqIdle?
    && s.received == Iota(n)
    && s.forwarder == Some(0) && s.deq == DeqSending(Some(1)) && s.queue == Iota(n)[2..]
  }

  lemma FullIsLinedUp(c: Config, s: State, n: nat)
    requires n >= 2 && FullLine(c, s, n)
    ensures LinedUp(s, n)
  {
    FullLineParts(c, s, n);
    PrefetchedTwo(n, s.forwarder.value, s.deq.job.value, s.queue);
  }

  lemma StartDraining(c: Config, s: State, t: State, n: nat)
    requires n >= 2 && LinedUp(s, n) && t == s.(pool := t.pool)
    requires Inv(c, t) && Quantity(t.pool) == 1
    ensures Draining(c, t, n)
  {
    StartLine(t, n);
  }

  lemma WorkerJoins(c: Config, s: State, n: nat)
    requires n >= 2 && FullLine(c, s, n)
    ensures Draining(c, Apply(c, s, Resize(1)), n)
  {
    FullIsLinedUp(c, s, n);
    LinedUpJoins(c, s, n);
  }

  lemma LinedUpJoins(c: Config, s: State, n: nat)
    requires n >= 2 && LinedUp(s, n) && Inv(c, s)
    ensures Draining(c, Apply(c, s, Resize(1)), n)
  {
    var t := Apply(c, s, Resize(1));
    InvKept(c, s, Resize(1));
    ResizeFrame(c, s, 1);
    ResizedOk(s.pool, 1);
    StartDraining(c, s, t, n);
  }

  lemma DrainedInOrder(c: Config, s: State, n: nat)
    requires n >= 2 && Draining(c, s, n) && Quiet(c, s)
    ensures s.handed == LifoRunOrder(n)
    ensures forall j | 0 <= j < n :: CallerDone(s.calls[j])
  {
    QuietIsDrained(c, s);
    assert Reverse(s.queue) == [];
    assert LifoLine(s) == s.handed;
  }

  /** Whatever the interleaving, n jobs that arrive one by one without workers are then handed to one
      worker in the order 0, 1, n - 1, ..., 2: two jobs have left the queue before the worker came. That
      holds whether or not timers fire meanwhile; every call has its answer at the end. */
  lemma LifoOrder(c: Config, states: seq<State>, runs: seq<seq<Action>>, run: seq<Action>, t: State)
    requires c.kind.Lifo? && |runs| >= 2 && Fills(c, states, runs)
    requires ComesToRest(c, Apply(c, states[|runs|], Resize(1)), run, t)
    ensures t.handed == LifoRunOrder(|runs|)
    ensures |t.calls| == |runs| && forall j | 0 <= j < |runs| :: CallerDone(t.calls[j])
  {
    var (s, n) := (states[|runs|], |runs|);
    FilledIsFull(c, states, runs, n);
    WorkerJoins(c, s, n);
    DrainingSettles(c, Apply(c, s, Resize(1)), n, run, t);
  }

  lemma DrainingSettles(c: Config, s: State, n: nat, run: seq<Action>, t: State)
    requires c.kind.Lifo? && n >= 2 && Draining(c, s, n) && ComesToRest(c, s, run, t)
    ensures |t.calls| == n && t.handed == LifoRunOrder(n)
    ensures forall j | 0 <= j < n :: CallerDone(t.calls[j])
  {
    DrainingAfter(c, s, n, run);
    DrainedInOrder(c, t, n);
  }

  // ---- the same without timers ----

  ghost predicate Untimed(s: State) {
    forall j | 0 <= j < |s.calls| :: !s.calls[j].caller.TimedOut? && !s.calls[j].caller.Rejected?
  }

  lemma UntimedKept(c: Config, s: State, a: Action)
    requires Located(s) && Enabled(c, s, a) && Internal(a) && Untimed(s)
    ensures Untimed(Apply(c, s, a))
  {
    if CallerStep(a) {
      UntimedCaller(c, s, a);
    } else if WorkStep(a) {
      WorkFrame(c, s, a);
      WorkLighter(c, s, a);
    } else if MachineStep(a) {
      MachineFrame(c, s, a);
    } else {
      UntimedMove(c, s, a);
    }
  }

  lemma NothingToCancel(c: Config, s: State, j: JobId)
    requires Untimed(s)
    ensures !Enabled(c, s, CancelJob(j))
  {
  }

  lemma UntimedCaller(c: Config, s: State, a: Action)
    requires Enabled(c, s, a) && CallerStep(a) && !a.TimerFires? && Untimed(s)
    ensures Untimed(Apply(c, s, a))
  {
    forall j: JobId ensures a != CancelJob(j) {
      NothingToCancel(c, s, j);
    }
    CallerLighter(c, s, a);
    UntimedChoice(c, s, a);
  }

  lemma UntimedChoice(c: Config, s: State, a: Action)
    requires Enabled(c, s, a) && (a.Measure? || a.SetPolicy? || a.SeeDequeued? || a.ReceiveResult?)
    ensures var next := Apply(c, s, a).calls[a.call].caller; !next.TimedOut? && !next.Rejected?
  {
    match a
    case Measure(j) => assert Apply(c, s, Action.Measure(j)).calls[j].caller.Measured?;
    case SetPolicy(j) => assert Apply(c, s, SetPolicy(j)).calls[j].caller.PolicySet?;
    case SeeDequeued(j) => assert Apply(c, s, SeeDequeued(j)).calls[j].caller.AwaitResult?;
    case ReceiveResult(j) => assert Apply(c, s, ReceiveResult(j)).calls[j].caller.Returned?;
  }

  lemma UntimedMove(c: Config, s: State, a: Action)
    requires Enabled(c, s, a) && Untimed(s)
    requires a.Launch? || a.SendIn? || a.Append? || a.Pop? || a.SendOut? || a.HandOff?
    ensures Untimed(Apply(c, s, a))
  {
  }

  lemma {:induction false} UntimedAfter(c: Config, s: State, run: seq<Action>)
    requires Inv(c, s) && Untimed(s) && Legal(c, s, run) && AllInternal(run)
    ensures Untimed(After(c, s, run))
    decreases |run|
  {
    if run != [] {
      InternalTail(run);
      UntimedKept(c, s, run[0]);
      InvKept(c, s, run[0]);
      UntimedAfter(c, Apply(c, s, run[0]), run[1..]);
    }
  }

  lemma InternalTail(run: seq<Action>)
    requires run != [] && AllInternal(run)
    ensures Internal(run[0]) && AllInternal(run[1..])
  {
  }

  lemma UntimedArrival(c: Config, s: State)
    requires Untimed(s)
    ensures Untimed(Apply(c, s, Arrive))
  {
    ArriveFrame(c, s);
  }

  lemma UntimedResize(c: Config, s: State, quantity: int)
    requires Untimed(s)
    ensures Untimed(Apply(c, s, Resize(quantity)))
  {
    ResizeFrame(c, s, quantity);
  }

  lemma UntimedFill(c: Config, s: State, run: seq<Action>, t: State)
    requires Inv(c, s) && Untimed(s) && ComesToRest(c, Apply(c, s, Arrive), run, t) && AllInternal(run)
    ensures Untimed(t)
  {
    UntimedArrival(c, s);
    InvKept(c, s, Arrive);
    UntimedAfter(c, Apply(c, s, Arrive), run);
  }

  ghost predicate NoTimers(runs: seq<seq<Action>>) {
    forall i | 0 <= i < |runs| :: AllInternal(runs[i])
  }

  lemma FilledInv(c: Config, states: seq<State>, runs: seq<seq<Action>>, n: nat)
    requires c.kind.Lifo? && Fills(c, states, runs) && n <= |runs|
    ensures Inv(c, states[n])
  {
    FilledIsFull(c, states, runs, n);
  }

  lemma FirstUntimed(c: Config, states: seq<State>, runs: seq<seq<Action>>)
    requires Fills(c, states, runs)
    ensures Untimed(states[0])
  {
  }

  lemma {:induction false} UntimedFills(c: Config, states: seq<State>, runs: seq<seq<Action>>, n: nat)
    requires c.kind.Lifo? && Fills(c, states, runs) && n <= |runs| && NoTimers(runs)
    ensures Untimed(states[n])
    decreases n
  {
    if n == 0 {
      FirstUntimed(c, states, runs);
    } else {
      UntimedFills(c, states, runs, n - 1);
      UntimedNext(c, states, runs, n - 1);
    }
  }

  lemma UntimedNext(c: Config, states: seq<State>, runs: seq<seq<Action>>, n: nat)
    requires c.kind.Lifo? && Fills(c, states, runs) && n < |runs| && AllInternal(runs[n]) && Untimed(states[n])
    ensures Untimed(states[n + 1])
  {
    FilledInv(c, states, runs, n);
    FillsStep(c, states, runs, n);
    UntimedFill(c, states[n], runs[n], states[n + 1]);
  }

  /** If no timer fires, every call returns the result of its function. */
  lemma LifoAllReturn(c: Config, states: seq<State>, runs: seq<seq<Action>>, run: seq<Action>, t: State)
    requires c.kind.Lifo? && |runs| >= 2 && Fills(c, states, runs)
    requires ComesToRest(c, Apply(c, states[|runs|], Resize(1)), run, t)
    requires AllInternal(run) && NoTimers(runs)
    ensures |t.calls| == |runs| && forall j | 0 <= j < |runs| :: t.calls[j].caller.Returned?
  {
    var s := states[|runs|];
    LifoOrder(c, states, runs, run, t);
    FilledIsFull(c, states, runs, |runs|);
    UntimedFills(c, states, runs, |runs|);
    UntimedResize(c, s, 1);
    InvKept(c, s, Resize(1));
    UntimedAfter(c, Apply(c, s, Resize(1)), run);
  }

  // ---- such runs exist ----

  // The executor can always come to rest without a timer.
  ghost predicate ComesToRestUntimed(c: Config, s: State, run: seq<Action>, t: State) {
    AllInternal(run) && ComesToRest(c, s, run, t)
  }

  lemma RestsAfter(c: Config, s: State, a: Action) returns (run: seq<Action>, t: State)
    requires Inv(c, s) && Enabled(c, s, a)
    ensures ComesToRestUntimed(c, Apply(c, s, a), run, t)
  {
    run, t := SettlesAfter(c, s, a);
    forall i | 0 <= i < |run| ensures Unattended(run[i]) {
      assert Internal(run[i]);
    }
  }

  lemma FillsOneMore(c: Config, states: seq<State>, runs: seq<seq<Action>>, run: seq<Action>, t: State)
    requires Fills(c, states, runs) && ComesToRest(c, Apply(c, states[|runs|], Arrive), run, t)
    ensures Fills(c, states + [t], runs + [run])
  {
  }

  lemma FillOneMore(c: Config, states: seq<State>, runs: seq<seq<Action>>) returns (run: seq<Action>, t: State)
    requires c.kind.Lifo? && Fills(c, states, runs)
    ensures Fills(c, states + [t], runs + [run]) && AllInternal(run)
  {
    FilledIsFull(c, states, runs, |runs|);
    run, t := RestsAfter(c, states[|runs|], Arrive);
    FillsOneMore(c, states, runs, run, t);
  }

  lemma {:induction false} FillPossible(c: Config, n: nat) returns (states: seq<State>, runs: seq<seq<Action>>)
    requires c.kind.Lifo?
    ensures |runs| == n && Fills(c, states, runs) && NoTimers(runs)
  {
    if n == 0 {
      states, runs := [Init(c)], [];
    } else {
      states, runs := FillPossible(c, n - 1);
      var run, t := FillOneMore(c, states, runs);
      states, runs := states + [t], runs + [run];
    }
  }

  /** Such runs exist for every n, without any timer. */
  lemma LifoOrderPossible(c: Config, n: nat)
    returns (states: seq<State>, runs: seq<seq<Action>>, run: seq<Action>, t: State)
    requires c.kind.Lifo?
    ensures |runs| == n && Fills(c, states, runs) && NoTimers(runs)
    ensures ComesToRestUntimed(c, Apply(c, states[n], Resize(1)), run, t)
  {
    states, runs := FillPossible(c, n);
    FilledIsFull(c, states, runs, n);
    run, t := RestsAfter(c, states[n], Resize(1));
  }
}
