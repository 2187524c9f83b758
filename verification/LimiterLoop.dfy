/** The loop that the concurrency-limit runner closes over any executor: in-flight counter, AIMD limiter,
    worker pool. A slot is a goroutine that calls Run again and again, so at most |callers| calls are
    concurrent. Of the executor it is only said that Execute returns at some moment and that its workers
    come, go and work as they please. Steps of different calls interleave arbitrarily, and the steps of
    one call (leave, measure, resize) are separate. */
module LimiterLoop {
  import opened WorkerPool
  import Aimd

  datatype Caller =
    | Idle
    | InExecutor
    | Answered                // Execute has returned
    | Left(inflight: int)     // inflights.Dec returned `inflight`
    | Resizing(limit: int)    // MeasureSample returned `limit`

  datatype State = State(callers: seq<Caller>, inflights: int, limit: real, pool: Pool)

  datatype Action =
    | Start(caller: nat)
    | Return(caller: nat)
    | Leave(caller: nat)
    | Measure(caller: nat, elapsed: int, result: Aimd.Result)
    | SetWorkers(caller: nat)
    | Work(busy: map<WorkerId, JobId>, exited: set<WorkerId>)

  function Init(c: Aimd.Config, callers: nat): State {
    State(seq(callers, _ => Idle), 0, c.minimumLimit as real,
          Resized(NoWorkers, Aimd.Truncate(c.minimumLimit as real)))
  }

  predicate Enabled(s: State, a: Action) {
    match a
    case Work(_, _) => true
    case Start(i) => i < |s.callers| && s.callers[i].Idle?
    case Return(i) => i < |s.callers| && s.callers[i].InExecutor?
    case Leave(i) => i < |s.callers| && s.callers[i].Answered?
    case Measure(i, _, _) => i < |s.callers| && s.callers[i].Left? && s.limit > 0.0
    case SetWorkers(i) => i < |s.callers| && s.callers[i].Resizing?
  }

  function Put(s: State, i: nat, caller: Caller): State
    requires i < |s.callers|
  {
    s.(callers := s.callers[i := caller])
  }

  function Apply(c: Aimd.Config, s: State, a: Action): State
    requires Enabled(s, a)
  {
    match a
    case Start(i) => Put(s, i, InExecutor).(inflights := s.inflights + 1)
    case Return(i) => Put(s, i, Answered)
    case Leave(i) => Put(s, i, Left(s.inflights - 1)).(inflights := s.inflights - 1)
    case Measure(i, elapsed, result) =>
      // the result policy ignores the sample or feeds the limiter
      if result.Ignore? then Put(s, i, Idle)
      else
        var limit := Aimd.Next(c, s.limit, Aimd.Sample(elapsed, s.callers[i].inflight, result));
        Put(s, i, Resizing(Aimd.Truncate(limit))).(limit := limit)
    case SetWorkers(i) => Put(s, i, Idle).(pool := Resized(s.pool, s.callers[i].limit))
    case Work(busy, exited) => s.(pool := s.pool.(busy := busy, exited := exited))
  }

  predicate Legal(c: Aimd.Config, s: State, run: seq<Action>)
    decreases |run|
  {
    run == [] || (Enabled(s, run[0]) && Legal(c, Apply(c, s, run[0]), run[1..]))
  }

  function After(c: Aimd.Config, s: State, run: seq<Action>): State
    requires Legal(c, s, run)
    decreases |run|
  {
    if run == [] then s else After(c, Apply(c, s, run[0]), run[1..])
  }

  ghost predicate Reachable(c: Aimd.Config, callers: nat, s: State) {
    exists run :: Legal(c, Init(c, callers), run) && After(c, Init(c, callers), run) == s
  }

  lemma {:induction false} OneMore(c: Aimd.Config, s: State, run: seq<Action>, a: Action)
    requires Legal(c, s, run) && Enabled(After(c, s, run), a)
    ensures Legal(c, s, run + [a]) && After(c, s, run + [a]) == Apply(c, After(c, s, run), a)
    decreases |run|
  {
    if run == [] {
      assert After(c, Apply(c, s, a), []) == Apply(c, s, a);
    } else {
      assert (run + [a])[1..] == run[1..] + [a];
      OneMore(c, Apply(c, s, run[0]), run[1..], a);
    }
  }

  lemma ReachableStep(c: Aimd.Config, callers: nat, s: State, a: Action)
    requires Reachable(c, callers, s) && Enabled(s, a)
    ensures Reachable(c, callers, Apply(c, s, a))
  {
    var run :| Legal(c, Init(c, callers), run) && After(c, Init(c, callers), run) == s;
    OneMore(c, Init(c, callers), run, a);
  }

  lemma ReachableInit(c: Aimd.Config, callers: nat)
    ensures Reachable(c, callers, Init(c, callers))
  {
    assert Legal(c, Init(c, callers), []) && After(c, Init(c, callers), []) == Init(c, callers);
  }

  // ---- the invariant ----

  predicate InFlight(caller: Caller) {
    caller.InExecutor? || caller.Answered?
  }

  function InFlightCallers(callers: seq<Caller>): set<nat> {
    set i | 0 <= i < |callers| && InFlight(callers[i])
  }

  // What the limit and the worker count may reach with that many callers.
  function Ceiling(c: Aimd.Config, callers: nat): int {
    if c.minimumLimit <= callers - 1 then callers - 1 else c.minimumLimit
  }

  predicate InRange(c: Aimd.Config, callers: nat, limit: int) {
    c.minimumLimit <= limit <= Ceiling(c, callers)
  }

  ghost predicate Counted(s: State) {
    s.inflights == |InFlightCallers(s.callers)|
  }

  ghost predicate Bounded(c: Aimd.Config, s: State) {
    && Aimd.Sound(c)
    && s.limit >= c.minimumLimit as real
    && InRange(c, |s.callers|, Aimd.Truncate(s.limit))
    && InRange(c, |s.callers|, Quantity(s.pool))
    && (forall i | 0 <= i < |s.callers| && s.callers[i].Left? :: s.callers[i].inflight <= |s.callers| - 1)
    && (forall i | 0 <= i < |s.callers| && s.callers[i].Resizing? :: InRange(c, |s.callers|, s.callers[i].limit))
  }

  ghost predicate Inv(c: Aimd.Config, s: State) {
    Counted(s) && Bounded(c, s)
  }

  lemma PutSize(before: set<nat>, after: set<nat>, i: nat)
    requires forall k: nat | k != i :: k in before <==> k in after
    ensures |after| == |before| + (if i in after then 1 else 0) - (if i in before then 1 else 0)
  {
    var rest := before - {i};
    assert before == rest + if i in before then {i} else {};
    assert after == rest + if i in after then {i} else {};
  }

  lemma CountedKept(c: Aimd.Config, s: State, a: Action)
    requires Counted(s) && Enabled(s, a)
    ensures Counted(Apply(c, s, a))
  {
    if !a.Work? {
      var t := Apply(c, s, a);
      assert t.callers == s.callers[a.caller := t.callers[a.caller]];
      PutSize(InFlightCallers(s.callers), InFlightCallers(t.callers), a.caller);
    }
  }

  lemma AtMostAll(s: State)
    requires Counted(s)
    ensures 0 <= s.inflights <= |s.callers|
  {
    SubsetSize(InFlightCallers(s.callers), Range(0, |s.callers|));
  }

  lemma MeasureInRange(c: Aimd.Config, callers: nat, limit: real, sample: Aimd.Sample)
    requires Aimd.Sound(c) && limit >= c.minimumLimit as real && InRange(c, callers, Aimd.Truncate(limit))
    requires sample.inflight <= callers - 1
    ensures Aimd.Next(c, limit, sample) >= c.minimumLimit as real
    ensures InRange(c, callers, Aimd.Truncate(Aimd.Next(c, limit, sample)))
  {
    Aimd.NextBounds(c, limit, sample);
    Aimd.TruncateOrder(c.minimumLimit as real, Aimd.Next(c, limit, sample));
  }

  lemma ResizedQuantity(p: Pool, quantity: int)
    ensures quantity >= 0 ==> Quantity(Resized(p, quantity)) == quantity
  {
  }

  lemma BoundedKept(c: Aimd.Config, s: State, a: Action)
    requires Counted(s) && Bounded(c, s) && Enabled(s, a)
    ensures Bounded(c, Apply(c, s, a))
  {
    match a
    case Leave(i) => AtMostAll(s);
    case Measure(i, elapsed, result) =>
      if !result.Ignore? {
        MeasureInRange(c, |s.callers|, s.limit, Aimd.Sample(elapsed, s.callers[i].inflight, result));
      }
    case SetWorkers(i) => ResizedQuantity(s.pool, s.callers[i].limit);
    case _ =>
  }

  lemma InitInv(c: Aimd.Config, callers: nat)
    requires Aimd.Sound(c)
    ensures Inv(c, Init(c, callers))
  {
    assert InFlightCallers(Init(c, callers).callers) == {};
    ResizedQuantity(NoWorkers, Aimd.Truncate(c.minimumLimit as real));
  }

  lemma {:induction false} InvAfter(c: Aimd.Config, s: State, run: seq<Action>)
    requires Inv(c, s) && Legal(c, s, run)
    ensures Inv(c, After(c, s, run)) && |After(c, s, run).callers| == |s.callers|
    decreases |run|
  {
    if run != [] {
      CountedKept(c, s, run[0]);
      BoundedKept(c, s, run[0]);
      InvAfter(c, Apply(c, s, run[0]), run[1..]);
    }
  }

  lemma ReachableInv(c: Aimd.Config, callers: nat, s: State)
    requires Aimd.Sound(c) && Reachable(c, callers, s)
    ensures Inv(c, s) && |s.callers| == callers
  {
    var run :| Legal(c, Init(c, callers), run) && After(c, Init(c, callers), run) == s;
    InitInv(c, callers);
    InvAfter(c, Init(c, callers), run);
  }

  /** With C callers the limit and the configured workers stay between the minimum and max(minimum, C - 1),
      whatever the executor does and in whatever order measures and resizes of different calls land. */
  lemma LimitStaysInRange(raw: Aimd.Config, callers: nat, s: State)
    requires raw.minimumLimit >= 0 && raw.inflightFactor >= 0
    requires Reachable(Aimd.Defaults(raw), callers, s)
    ensures var c := Aimd.Defaults(raw);
            && InRange(c, callers, Aimd.Truncate(s.limit))
            && InRange(c, callers, Quantity(s.pool))
            && 0 <= s.inflights <= callers && s.inflights == |InFlightCallers(s.callers)|
  {
    Aimd.DefaultsAreSound(raw);
    ReachableInv(Aimd.Defaults(raw), callers, s);
    AtMostAll(s);
  }

  // ---- where the limit and the quantity come from ----

  lemma {:induction false} LastStep(c: Aimd.Config, s: State, run: seq<Action>)
    requires run != [] && Legal(c, s, run)
    ensures var init := run[..|run| - 1];
            && Legal(c, s, init) && Enabled(After(c, s, init), run[|run| - 1])
            && After(c, s, run) == Apply(c, After(c, s, init), run[|run| - 1])
    decreases |run|
  {
    if |run| > 1 {
      LastStep(c, Apply(c, s, run[0]), run[1..]);
      assert run[1..][..|run| - 2] == run[..|run| - 1][1..];
    }
  }

  predicate StepOf(a: Action, i: nat) {
    !a.Work? && a.caller == i
  }

  ghost predicate NoneOf(run: seq<Action>, i: nat) {
    forall k | 0 <= k < |run| :: !StepOf(run[k], i)
  }

  // Caller i last made step a, after `before`; `after` is what the others and the workers did since.
  ghost predicate LastOf(c: Aimd.Config, s: State, run: seq<Action>, i: nat, before: seq<Action>, a: Action,
                         after: seq<Action>)
  {
    && run == before + [a] + after && StepOf(a, i) && NoneOf(after, i)
    && Legal(c, s, before) && Enabled(After(c, s, before), a)
  }

  lemma OthersLeave(c: Aimd.Config, s: State, a: Action, i: nat)
    requires Enabled(s, a) && !StepOf(a, i) && i < |s.callers|
    ensures |Apply(c, s, a).callers| == |s.callers| && Apply(c, s, a).callers[i] == s.callers[i]
  {
  }

  lemma StepMoves(c: Aimd.Config, s: State, a: Action, i: nat)
    requires Enabled(s, a) && StepOf(a, i)
    ensures i < |s.callers| == |Apply(c, s, a).callers|
  {
  }

  // And that step left it at `now`.
  ghost predicate LeftAt(c: Aimd.Config, s: State, run: seq<Action>, i: nat, before: seq<Action>, a: Action,
                         after: seq<Action>, now: Caller)
  {
    && LastOf(c, s, run, i, before, a, after)
    && var t := Apply(c, After(c, s, before), a); i < |t.callers| && t.callers[i] == now
  }

  lemma LastNow(c: Aimd.Config, s: State, run: seq<Action>, a: Action, i: nat)
    requires Legal(c, s, run) && Enabled(After(c, s, run), a) && StepOf(a, i)
    ensures i < |Apply(c, After(c, s, run), a).callers|
    ensures LeftAt(c, s, run + [a], i, run, a, [], Apply(c, After(c, s, run), a).callers[i])
  {
    assert run + [a] == run + [a] + [];
    StepMoves(c, After(c, s, run), a, i);
  }

  lemma LastStill(c: Aimd.Config, s: State, run: seq<Action>, more: Action, i: nat, before: seq<Action>, a: Action,
                  after: seq<Action>, now: Caller)
    requires LeftAt(c, s, run, i, before, a, after, now) && !StepOf(more, i)
    ensures LeftAt(c, s, run + [more], i, before, a, after + [more], now)
  {
    assert run + [more] == before + [a] + (after + [more]);
  }

  // The last step of a run was not that of caller i.
  lemma BeforeIt(c: Aimd.Config, s: State, run: seq<Action>, i: nat)
    requires run != [] && Legal(c, s, run) && !StepOf(run[|run| - 1], i) && i < |s.callers|
    ensures var init := run[..|run| - 1];
            && Legal(c, s, init) && i < |After(c, s, init).callers| == |After(c, s, run).callers|
            && After(c, s, init).callers[i] == After(c, s, run).callers[i]
  {
    LastStep(c, s, run);
    CallersStay(c, s, run[..|run| - 1]);
    OthersLeave(c, After(c, s, run[..|run| - 1]), run[|run| - 1], i);
  }

  lemma {:induction false} CallersStay(c: Aimd.Config, s: State, run: seq<Action>)
    requires Legal(c, s, run)
    ensures |After(c, s, run).callers| == |s.callers|
    decreases |run|
  {
    if run != [] {
      CallersStay(c, Apply(c, s, run[0]), run[1..]);
    }
  }

  // A caller that is not idle any more has made a step, and is where that step left it.
  lemma {:induction false} FindLast(c: Aimd.Config, s: State, run: seq<Action>, i: nat)
    returns (before: seq<Action>, a: Action, after: seq<Action>)
    requires Legal(c, s, run) && i < |s.callers| == |After(c, s, run).callers|
    requires s.callers[i].Idle? && !After(c, s, run).callers[i].Idle?
    ensures LeftAt(c, s, run, i, before, a, after, After(c, s, run).callers[i])
    decreases |run|
  {
    var init, last := run[..|run| - 1], run[|run| - 1];
    assert run == init + [last];
    if StepOf(last, i) {
      before, a, after := init, last, [];
      LastStep(c, s, run);
      LastNow(c, s, init, last, i);
    } else {
      BeforeIt(c, s, run, i);
      CallersStay(c, s, init);
      before, a, after := FindLast(c, s, init, i);
      LastStill(c, s, init, last, i, before, a, after, After(c, s, init).callers[i]);
      after := after + [last];
    }
  }

  /** Only samples move the limit. Each is taken with the number of calls that were in flight just after its
      own call had left, however many have come and gone since, and moves the limit as the limiter says. */
  lemma SampleIsTrue(c: Aimd.Config, callers: nat, run: seq<Action>, a: Action)
    returns (before: seq<Action>, after: seq<Action>)
    requires Aimd.Sound(c) && Legal(c, Init(c, callers), run) && Enabled(After(c, Init(c, callers), run), a)
    ensures var s := After(c, Init(c, callers), run);
            !a.Measure? || a.result.Ignore? ==> Apply(c, s, a).limit == s.limit
    ensures var s := After(c, Init(c, callers), run);
            a.Measure? ==>
              && LastOf(c, Init(c, callers), run, a.caller, before, Leave(a.caller), after)
              && var left := Apply(c, After(c, Init(c, callers), before), Leave(a.caller));
                 s.limit > 0.0
                 && (!a.result.Ignore? ==>
                       Apply(c, s, a).limit ==
                       Aimd.Next(c, s.limit, Aimd.Sample(a.elapsed, |InFlightCallers(left.callers)|, a.result)))
  {
    var s := After(c, Init(c, callers), run);
    before, after := [], [];
    if a.Measure? {
      var last;
      CallersStay(c, Init(c, callers), run);
      before, last, after := FindLast(c, Init(c, callers), run, a.caller);
      var was := After(c, Init(c, callers), before);
      assert Reachable(c, callers, was);
      ReachableInv(c, callers, was);
      CountedKept(c, was, last);
    }
  }

  ghost predicate NoResize(run: seq<Action>) {
    forall k | 0 <= k < |run| :: !run[k].SetWorkers?
  }

  // The last resize of the run is that of caller i, after `before`.
  ghost predicate LastResize(c: Aimd.Config, s: State, run: seq<Action>, before: seq<Action>, i: nat,
                             after: seq<Action>)
  {
    && run == before + [SetWorkers(i)] + after && NoResize(after)
    && Legal(c, s, before) && Enabled(After(c, s, before), SetWorkers(i))
  }

  lemma QuantityStays(c: Aimd.Config, s: State, a: Action)
    requires Enabled(s, a) && !a.SetWorkers?
    ensures Quantity(Apply(c, s, a).pool) == Quantity(s.pool)
  {
  }

  lemma {:induction false} FindResize(c: Aimd.Config, callers: nat, run: seq<Action>)
    returns (before: seq<Action>, i: nat, after: seq<Action>)
    requires Aimd.Sound(c) && Legal(c, Init(c, callers), run) && !NoResize(run)
    ensures LastResize(c, Init(c, callers), run, before, i, after)
    ensures Quantity(After(c, Init(c, callers), run).pool) == After(c, Init(c, callers), before).callers[i].limit
    decreases |run|
  {
    LastStep(c, Init(c, callers), run);
    var init, last := run[..|run| - 1], run[|run| - 1];
    var s := After(c, Init(c, callers), init);
    assert run == init + [last];
    if last.SetWorkers? {
      before, i, after := init, last.caller, [];
      assert run == before + [SetWorkers(i)] + [];
      assert Reachable(c, callers, s);
      ReachableInv(c, callers, s);
      ResizedQuantity(s.pool, s.callers[i].limit);
    } else {
      before, i, after := FindResize(c, callers, init);
      QuantityStays(c, s, last);
      assert run == before + [SetWorkers(i)] + (after + [last]);
      after := after + [last];
    }
  }

  lemma {:induction false} NeverResized(c: Aimd.Config, callers: nat, run: seq<Action>)
    requires Aimd.Sound(c) && Legal(c, Init(c, callers), run) && NoResize(run)
    ensures Quantity(After(c, Init(c, callers), run).pool) == c.minimumLimit
    decreases |run|
  {
    if run == [] {
      ResizedQuantity(NoWorkers, Aimd.Truncate(c.minimumLimit as real));
    } else {
      LastStep(c, Init(c, callers), run);
      NeverResized(c, callers, run[..|run| - 1]);
      QuantityStays(c, After(c, Init(c, callers), run[..|run| - 1]), run[|run| - 1]);
    }
  }

  // The quantity comes from the sample a, taken by caller i after `first`: i went on to resize the pool
  // after `second`, and nobody has since.
  ghost predicate ComesFrom(c: Aimd.Config, s: State, run: seq<Action>, quantity: int, first: seq<Action>, a: Action,
                            second: seq<Action>, third: seq<Action>)
  {
    && a.Measure? && !a.result.Ignore? && NoneOf(second, a.caller) && NoResize(third)
    && run == first + [a] + second + [SetWorkers(a.caller)] + third
    && Legal(c, s, first) && Enabled(After(c, s, first), a)
    && quantity == Aimd.Truncate(Apply(c, After(c, s, first), a).limit)
  }

  // What the configured quantity has to do with the limiter.
  ghost predicate Configured(c: Aimd.Config, callers: nat, run: seq<Action>, quantity: int) {
    if NoResize(run) then quantity == c.minimumLimit
    else exists first, a, second, third :: ComesFrom(c, Init(c, callers), run, quantity, first, a, second, third)
  }

  /** The workers follow the limit: until the first resize there are as many as the minimum, and after it as
      many as the limit was, in whole numbers, that the last resizing caller had just set by its sample. */
  lemma WorkersFollowLimit(c: Aimd.Config, callers: nat, run: seq<Action>)
    requires Aimd.Sound(c) && Legal(c, Init(c, callers), run)
    ensures Configured(c, callers, run, Quantity(After(c, Init(c, callers), run).pool))
  {
    if NoResize(run) {
      NeverResized(c, callers, run);
    } else {
      var before, i, third := FindResize(c, callers, run);
      CallersStay(c, Init(c, callers), before);
      var first, a, second := FindLast(c, Init(c, callers), before, i);
      assert run == first + [a] + second + [SetWorkers(i)] + third;
      var quantity := Quantity(After(c, Init(c, callers), run).pool);
      assert ComesFrom(c, Init(c, callers), run, quantity, first, a, second, third);
    }
  }

  ghost predicate NoSample(run: seq<Action>) {
    forall k | 0 <= k < |run| :: !run[k].Measure?
  }

  lemma {:induction false} LimitStays(c: Aimd.Config, s: State, run: seq<Action>)
    requires Legal(c, s, run) && NoSample(run)
    ensures After(c, s, run).limit == s.limit
    decreases |run|
  {
    if run != [] {
      LimitStays(c, Apply(c, s, run[0]), run[1..]);
    }
  }

  lemma {:induction false} SplitRun(c: Aimd.Config, s: State, first: seq<Action>, second: seq<Action>)
    requires Legal(c, s, first + second)
    ensures Legal(c, s, first) && Legal(c, After(c, s, first), second)
    ensures After(c, s, first + second) == After(c, After(c, s, first), second)
    decreases |first|
  {
    if first == [] {
      assert first + second == second;
    } else {
      assert (first + second)[1..] == first[1..] + second;
      SplitRun(c, Apply(c, s, first[0]), first[1..], second);
    }
  }

  /** So once samples have stopped and the last one has been followed by its resize, the workers are exactly
      the whole part of the limit. */
  lemma WorkersCatchUp(c: Aimd.Config, callers: nat, first: seq<Action>, a: Action, second: seq<Action>,
                       third: seq<Action>)
    requires Aimd.Sound(c) && a.Measure? && !a.result.Ignore?
    requires NoSample(second) && NoneOf(second, a.caller) && NoSample(third) && NoResize(third)
    requires Legal(c, Init(c, callers), first + [a] + second + [SetWorkers(a.caller)] + third)
    ensures var s := After(c, Init(c, callers), first + [a] + second + [SetWorkers(a.caller)] + third);
            Quantity(s.pool) == Aimd.Truncate(s.limit)
  {
    var start := Init(c, callers);
    var upto := first + [a] + second + [SetWorkers(a.caller)];
    SplitRun(c, start, upto, third);
    SplitRun(c, start, first + [a] + second, [SetWorkers(a.caller)]);
    SplitRun(c, start, first + [a], second);
    SplitRun(c, start, first, [a]);
    var sampled := After(c, start, first + [a]);
    OneStep(c, After(c, start, first), a);
    var ready := After(c, start, first + [a] + second);
    OneStep(c, ready, SetWorkers(a.caller));
    CallerStays(c, sampled, second, a.caller);
    assert Reachable(c, callers, ready);
    ReachableInv(c, callers, ready);
    ResizedQuantity(ready.pool, ready.callers[a.caller].limit);
    QuantityStaysAfter(c, After(c, start, upto), third);
    LimitStays(c, sampled, second);
    LimitStays(c, After(c, start, upto), third);
  }

  lemma OneStep(c: Aimd.Config, s: State, a: Action)
    requires Legal(c, s, [a])
    ensures Enabled(s, a) && After(c, s, [a]) == Apply(c, s, a)
  {
    assert After(c, Apply(c, s, a), [a][1..]) == Apply(c, s, a);
  }

  lemma {:induction false} CallerStays(c: Aimd.Config, s: State, run: seq<Action>, i: nat)
    requires Legal(c, s, run) && NoneOf(run, i) && i < |s.callers|
    ensures |After(c, s, run).callers| == |s.callers| && After(c, s, run).callers[i] == s.callers[i]
    decreases |run|
  {
    if run != [] {
      OthersLeave(c, s, run[0], i);
      CallerStays(c, Apply(c, s, run[0]), run[1..], i);
    }
  }

  lemma {:induction false} QuantityStaysAfter(c: Aimd.Config, s: State, run: seq<Action>)
    requires Legal(c, s, run) && NoResize(run)
    ensures Quantity(After(c, s, run).pool) == Quantity(s.pool)
    decreases |run|
  {
    if run != [] {
      QuantityStays(c, s, run[0]);
      QuantityStaysAfter(c, Apply(c, s, run[0]), run[1..]);
    }
  }
}
