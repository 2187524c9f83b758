/** Every run of the circuit breaker with a single caller: the phases of Run are steps, and ticks of the
    window and the passing of time fall anywhere between them. */
module BreakerRuns {
  import opened BucketWindow
  import opened CircuitBreaker

  datatype Phase = Idle | Decided | Executed(failed: bool) | Recorded | Counted(enough: bool)

  // What an observer sees.
  datatype Entry =
    | Moved(to: BreakerState, at: int)
    | Ran(at: int, failed: bool)       // f was started, and how it ended
    | Refused(at: int)                 // ErrCircuitOpen

  datatype System = System(b: Breaker, phase: Phase, now: int, history: seq<Entry>)

  datatype Action = Tick | Elapse(duration: nat) | Pre | Exec(fails: bool) | Inc | Count | Post

  function Init(now: int): System {
    System(Breaker(Closed, now, [Reset]), Idle, now, [])
  }

  // A tick of a one-bucket window crashes the program (see Window.SlideWindow); it is not a step.
  predicate Enabled(c: Config, s: System, a: Action) {
    match a
    case Tick => WindowSize(c) >= 2
    case Elapse(_) => true
    case Pre => s.phase.Idle?
    case Exec(_) => s.phase.Decided?
    case Inc => s.phase.Executed?
    case Count => s.phase.Recorded?
    case Post => s.phase.Counted?
  }

  function Moves(before: Breaker, after: Breaker, now: int): seq<Entry> {
    if before.state == after.state then [] else [Moved(after.state, now)]
  }

  function Apply(c: Config, s: System, a: Action): System
    requires Enabled(c, s, a)
  {
    match a
    case Tick => s.(b := Record(s.b, Slide))
    case Elapse(duration) => s.(now := s.now + duration)
    case Pre =>
      var next := PreDecide(c, s.b, s.now);
      s.(b := next, phase := Decided, history := s.history + Moves(s.b, next, s.now))
    case Exec(fails) =>
      if s.b.state.Open? then s.(phase := Executed(true), history := s.history + [Refused(s.now)])
      else s.(phase := Executed(fails), history := s.history + [Ran(s.now, fails)])
    case Inc => s.(b := Record(s.b, Outcome(s.phase.failed)), phase := Recorded)
    case Count => s.(phase := Counted(Enough(c, s.b)))
    case Post =>
      var next := PostDecide(c, s.b, s.phase.enough, s.now);
      s.(b := next, phase := Idle, history := s.history + Moves(s.b, next, s.now))
  }

  predicate Legal(c: Config, s: System, run: seq<Action>)
    decreases |run|
  {
    run == [] || (Enabled(c, s, run[0]) && Legal(c, Apply(c, s, run[0]), run[1..]))
  }

  function After(c: Config, s: System, run: seq<Action>): System
    requires Legal(c, s, run)
    decreases |run|
  {
    if run == [] then s else After(c, Apply(c, s, run[0]), run[1..])
  }

  ghost predicate Reachable(c: Config, s: System) {
    exists start, run :: Legal(c, Init(start), run) && After(c, Init(start), run) == s
  }

  // ---- the invariant ----

  function RunsThisVisit(history: seq<Entry>): nat {
    if history == [] || history[|history| - 1].Moved? then 0
    else RunsThisVisit(history[..|history| - 1]) + if history[|history| - 1].Ran? then 1 else 0
  }

  function FailuresThisVisit(history: seq<Entry>): nat {
    if history == [] || history[|history| - 1].Moved? then 0
    else
      var last := history[|history| - 1];
      FailuresThisVisit(history[..|history| - 1]) + if last.Ran? && last.failed then 1 else 0
  }

  function RefusedThisVisit(history: seq<Entry>): nat {
    if history == [] || history[|history| - 1].Moved? then 0
    else RefusedThisVisit(history[..|history| - 1]) + if history[|history| - 1].Refused? then 1 else 0
  }

  // The state the history tells, and since when.
  function Last(history: seq<Entry>): BreakerState {
    if history == [] then Closed
    else if history[|history| - 1].Moved? then history[|history| - 1].to
    else Last(history[..|history| - 1])
  }

  ghost predicate Dated(s: System) {
    && s.b.stateStarted <= s.now
    && (forall i | 0 <= i < |s.history| :: s.history[i].at <= s.now)
    && (forall i, k | 0 <= i < k < |s.history| :: s.history[i].at <= s.history[k].at)
  }

  // Entry i opened the circuit, and the circuit is still open for it.
  ghost predicate StillOpen(s: System, i: nat)
    requires i < |s.history|
  {
    && s.b.state.Open?
    && s.b.stateStarted == s.history[i].at
    && (forall k | i < k < |s.history| :: !s.history[k].Ran?)
  }

  ghost predicate WaitedSince(c: Config, s: System, i: nat)
    requires i < |s.history|
  {
    && s.now - s.history[i].at > c.waitDurationInOpenState
    && (forall k | i < k < |s.history| && s.history[k].Ran? ::
          s.history[k].at - s.history[i].at > c.waitDurationInOpenState)
  }

  ghost predicate OpeningsRespected(c: Config, s: System) {
    forall i | 0 <= i < |s.history| && s.history[i].Moved? && s.history[i].to.Open? ::
      StillOpen(s, i) || WaitedSince(c, s, i)
  }

  function Visit(s: System): seq<Event> {
    SinceReset(s.b.log)
  }

  // The results of a visit are those of the functions it let run, none of a refusal.
  ghost predicate VisitRan(s: System) {
    !s.b.state.Open? ==>
      && RunsThisVisit(s.history) == ResultCount(Visit(s), false) + (if s.phase.Executed? then 1 else 0)
      && FailuresThisVisit(s.history) ==
         ResultCount(Visit(s), true) + (if s.phase.Executed? && s.phase.failed then 1 else 0)
      && RefusedThisVisit(s.history) == 0
  }

  // A half-open visit that ticks have not cut short still has room for the next function, unless it
  // is about to end; and what the first reading found is still what the visit tells.
  ghost predicate ProbesLeft(c: Config, s: System) {
    s.b.state.HalfOpen? && c.successfulRequiredOnHalfOpen >= 1 && SlideCount(Visit(s)) < WindowSize(c) ==>
      var results := ResultCount(Visit(s), false);
      && results + (if s.phase.Recorded? || s.phase.Counted? then 0 else 1) <= c.successfulRequiredOnHalfOpen
      && (s.phase.Counted? ==> (s.phase.enough <==> results >= c.successfulRequiredOnHalfOpen))
  }

  ghost predicate Inv(c: Config, s: System) {
    s.b.state == Last(s.history) && Dated(s) && OpeningsRespected(c, s) && VisitRan(s) && ProbesLeft(c, s)
  }

  lemma HistoryAppend(history: seq<Entry>, e: Entry)
    ensures Last(history + [e]) == if e.Moved? then e.to else Last(history)
    ensures RunsThisVisit(history + [e]) == if e.Moved? then 0 else RunsThisVisit(history) + if e.Ran? then 1 else 0
    ensures FailuresThisVisit(history + [e]) ==
            if e.Moved? then 0 else FailuresThisVisit(history) + if e.Ran? && e.failed then 1 else 0
    ensures RefusedThisVisit(history + [e]) ==
            if e.Moved? then 0 else RefusedThisVisit(history) + if e.Refused? then 1 else 0
  {
    assert (history + [e])[..|history|] == history;
  }

  lemma LogAppend(log: seq<Event>, e: Event)
    ensures SinceReset(log + [e]) == if e.Reset? then [] else SinceReset(log) + [e]
    ensures !e.Reset? ==> SlideCount(SinceReset(log + [e])) == SlideCount(SinceReset(log)) + Slides(e)
    ensures !e.Reset? ==>
              ResultCount(SinceReset(log + [e]), false) ==
              ResultCount(SinceReset(log), false) + if e.Outcome? then 1 else 0
    ensures !e.Reset? ==>
              ResultCount(SinceReset(log + [e]), true) ==
              ResultCount(SinceReset(log), true) + if e.Outcome? && e.failed then 1 else 0
  {
    SinceResetAppend(log, e);
    VisitAppend(SinceReset(log), e, false);
    VisitAppend(SinceReset(log), e, true);
  }

  // Leaving a state starts an empty visit.
  lemma MoveKeeps(c: Config, s: System, next: BreakerState, phase: Phase)
    requires Inv(c, s) && s.b.state != next
    requires s.b.state.Open? ==> s.now - s.b.stateStarted > c.waitDurationInOpenState
    requires phase.Idle? || phase.Decided?
    ensures Inv(c, System(Move(s.b, next, s.now), phase, s.now, s.history + [Moved(next, s.now)]))
  {
    HistoryAppend(s.history, Moved(next, s.now));
    SinceResetAppend(s.b.log, Reset);
    var t := System(Move(s.b, next, s.now), phase, s.now, s.history + [Moved(next, s.now)]);
    forall i | 0 <= i < |t.history| && t.history[i].Moved? && t.history[i].to.Open?
      ensures StillOpen(t, i) || WaitedSince(c, t, i)
    {
      if i < |s.history| {
        assert t.history[i] == s.history[i];
        assert StillOpen(s, i) || WaitedSince(c, s, i);
      }
    }
  }

  lemma TickKeeps(c: Config, s: System)
    requires Inv(c, s) && Enabled(c, s, Tick)
    ensures Inv(c, Apply(c, s, Tick))
  {
    LogAppend(s.b.log, Slide);
    SameHistory(c, s, Apply(c, s, Tick));
  }

  lemma SameHistory(c: Config, s: System, t: System)
    requires Dated(s) && OpeningsRespected(c, s)
    requires t.history == s.history && t.now >= s.now && t.b.state == s.b.state && t.b.stateStarted == s.b.stateStarted
    ensures Dated(t) && OpeningsRespected(c, t)
  {
    forall i | 0 <= i < |t.history| && t.history[i].Moved? && t.history[i].to.Open?
      ensures StillOpen(t, i) || WaitedSince(c, t, i)
    {
      assert StillOpen(s, i) || WaitedSince(c, s, i);
    }
  }

  lemma ElapseKeeps(c: Config, s: System, duration: nat)
    requires Inv(c, s)
    ensures Inv(c, Apply(c, s, Elapse(duration)))
  {
    SameHistory(c, s, Apply(c, s, Elapse(duration)));
  }

  lemma PreKeeps(c: Config, s: System)
    requires Inv(c, s) && Enabled(c, s, Pre)
    ensures Inv(c, Apply(c, s, Pre))
  {
    if PreDecide(c, s.b, s.now).state != s.b.state {
      MoveKeeps(c, s, HalfOpen, Decided);
    } else {
      assert s.history + [] == s.history;
      SameHistory(c, s, Apply(c, s, Pre));
    }
  }

  lemma ExecKeeps(c: Config, s: System, fails: bool)
    requires Inv(c, s) && Enabled(c, s, Exec(fails))
    ensures Inv(c, Apply(c, s, Exec(fails)))
  {
    var e := if s.b.state.Open? then Refused(s.now) else Ran(s.now, fails);
    HistoryAppend(s.history, e);
    EntryAdded(c, s, Apply(c, s, Exec(fails)), e);
  }

  lemma EntryAdded(c: Config, s: System, t: System, e: Entry)
    requires Dated(s) && OpeningsRespected(c, s)
    requires t.history == s.history + [e] && t.b == s.b && t.now == s.now
    requires if s.b.state.Open? then e == Refused(s.now) else e.Ran? && e.at == s.now
    ensures Dated(t) && OpeningsRespected(c, t)
  {
    forall i | 0 <= i < |t.history| && t.history[i].Moved? && t.history[i].to.Open?
      ensures StillOpen(t, i) || WaitedSince(c, t, i)
    {
      assert t.history[i] == s.history[i];
      assert StillOpen(s, i) || WaitedSince(c, s, i);
    }
  }

  lemma IncKeeps(c: Config, s: System)
    requires Inv(c, s) && Enabled(c, s, Inc)
    ensures Inv(c, Apply(c, s, Inc))
  {
    LogAppend(s.b.log, Outcome(s.phase.failed));
    SameHistory(c, s, Apply(c, s, Inc));
  }

  lemma CountKeeps(c: Config, s: System)
    requires Inv(c, s) && Enabled(c, s, Count)
    ensures Inv(c, Apply(c, s, Count))
  {
    SameHistory(c, s, Apply(c, s, Count));
    if SlideCount(Visit(s)) < WindowSize(c) {
      RecentIsVisit(WindowSize(c), s.b.log, false);
    }
  }

  lemma PostKeeps(c: Config, s: System)
    requires Inv(c, s) && Enabled(c, s, Post)
    ensures Inv(c, Apply(c, s, Post))
  {
    var next := PostDecide(c, s.b, s.phase.enough, s.now);
    if next.state != s.b.state {
      MoveKeeps(c, s, next.state, Idle);
    } else {
      var t := Apply(c, s, Post);
      assert s.history + [] == s.history;
      assert t.b == s.b && t.history == s.history && t.now == s.now;
      SameHistory(c, s, t);
    }
  }

  lemma {:induction false} InvAfter(c: Config, s: System, run: seq<Action>)
    requires Inv(c, s) && Legal(c, s, run)
    ensures Inv(c, After(c, s, run))
    decreases |run|
  {
    if run != [] {
      match run[0] {
        case Tick => TickKeeps(c, s);
        case Elapse(duration) => ElapseKeeps(c, s, duration);
        case Pre => PreKeeps(c, s);
        case Exec(fails) => ExecKeeps(c, s, fails);
        case Inc => IncKeeps(c, s);
        case Count => CountKeeps(c, s);
        case Post => PostKeeps(c, s);
      }
      InvAfter(c, Apply(c, s, run[0]), run[1..]);
    }
  }

  lemma ReachableInv(c: Config, s: System)
    requires Reachable(c, s)
    ensures Inv(c, s)
  {
    var start, run :| Legal(c, Init(start), run) && After(c, Init(start), run) == s;
    assert SinceReset([Reset]) == [];
    InvAfter(c, Init(start), run);
  }

  // ---- what the breaker promises ----

  /** After each opening no function is started until more than the wait duration has passed. */
  lemma NoExecutionWhileOpen(c: Config, s: System, opening: nat, execution: nat)
    requires Reachable(c, s) && opening < execution < |s.history|
    requires s.history[opening].Moved? && s.history[opening].to.Open? && s.history[execution].Ran?
    ensures s.history[execution].at - s.history[opening].at > c.waitDurationInOpenState
  {
    ReachableInv(c, s);
    assert StillOpen(s, opening) || WaitedSince(c, s, opening);
  }

  // Open since no earlier than `since`, or out of it after more than the wait.
  ghost predicate OpenOrWaited(c: Config, s: System, since: int) {
    if s.b.state.Open? then since <= s.b.stateStarted <= s.now
    else s.now - since > c.waitDurationInOpenState
  }

  lemma WaitingKept(c: Config, s: System, a: Action, since: int)
    requires OpenOrWaited(c, s, since) && since <= s.now && Enabled(c, s, a)
    ensures OpenOrWaited(c, Apply(c, s, a), since) && since <= Apply(c, s, a).now
  {
  }

  lemma {:induction false} WaitingAfter(c: Config, s: System, run: seq<Action>, since: int)
    requires OpenOrWaited(c, s, since) && since <= s.now && Legal(c, s, run)
    ensures OpenOrWaited(c, After(c, s, run), since)
    decreases |run|
  {
    if run != [] {
      WaitingKept(c, s, run[0], since);
      WaitingAfter(c, Apply(c, s, run[0]), run[1..], since);
    }
  }

  /** However a run goes on from the step that opens the circuit, it is not out of the open state, and so
      executes nothing, until the clock has advanced by more than the wait. */
  lemma OpenLastsTheWait(c: Config, s: System, a: Action, run: seq<Action>)
    requires Enabled(c, s, a) && !s.b.state.Open? && Apply(c, s, a).b.state.Open?
    requires Legal(c, Apply(c, s, a), run)
    ensures var t := After(c, Apply(c, s, a), run);
            && (!t.b.state.Open? ==> t.now - s.now > c.waitDurationInOpenState)
            && (t.phase.Decided? && t.now - s.now <= c.waitDurationInOpenState ==>
                  forall fails :: Apply(c, t, Exec(fails)).history == t.history + [Refused(t.now)])
  {
    WaitingAfter(c, Apply(c, s, a), run, s.now);
  }

  // The circuit is open at every moment of the run.
  ghost predicate StaysOpen(c: Config, s: System, run: seq<Action>)
    requires Legal(c, s, run)
    decreases |run|
  {
    s.b.state.Open? && (run == [] || StaysOpen(c, Apply(c, s, run[0]), run[1..]))
  }

  lemma OpenKeepsTime(c: Config, s: System, a: Action)
    requires Enabled(c, s, a) && s.b.state.Open? && Apply(c, s, a).b.state.Open?
    ensures Apply(c, s, a).b.stateStarted == s.b.stateStarted
  {
  }

  lemma {:induction false} OpenSince(c: Config, s: System, run: seq<Action>)
    requires Legal(c, s, run) && StaysOpen(c, s, run)
    ensures After(c, s, run).b.state.Open? && After(c, s, run).b.stateStarted == s.b.stateStarted
    decreases |run|
  {
    if run != [] {
      OpenKeepsTime(c, s, run[0]);
      OpenSince(c, Apply(c, s, run[0]), run[1..]);
    }
  }

  /** And the first call after the wait is let through to a half-open circuit: while the circuit has stayed
      open since the step that opened it, a call finds it half-open exactly if more than the wait has passed. */
  lemma OpenEndsExactly(c: Config, s: System, a: Action, run: seq<Action>)
    requires Enabled(c, s, a) && !s.b.state.Open? && Apply(c, s, a).b.state.Open?
    requires Legal(c, Apply(c, s, a), run) && StaysOpen(c, Apply(c, s, a), run)
    ensures var t := After(c, Apply(c, s, a), run);
            t.phase.Idle? ==>
              Apply(c, t, Pre).b.state == if t.now - s.now > c.waitDurationInOpenState then HalfOpen else Open
  {
    OpenSince(c, Apply(c, s, a), run);
  }

  lemma RatioAtLeast(errs: nat, total: nat, percent: int)
    ensures AtLeast(Ratio(errs, total), percent as real / 100.0) <==> total > 0 && 100 * errs >= percent * total
  {
    if total > 0 {
      var rate := errs as real / total as real;
      assert rate * total as real == errs as real;
      var bound := percent as real / 100.0;
      assert bound * 100.0 == percent as real;
      if rate >= bound {
        Times(rate, bound, total as real);
        assert 100.0 * (errs as real) >= 100.0 * (bound * (total as real));
        assert 100.0 * (bound * (total as real)) == (percent as real) * (total as real);
      } else {
        TimesStrict(bound, rate, total as real);
        assert 100.0 * (bound * (total as real)) == (percent as real) * (total as real);
      }
      assert (percent as real) * (total as real) == (percent * total) as real;
    }
  }

  lemma Times(a: real, b: real, c: real)
    requires a >= b && c > 0.0
    ensures a * c >= b * c
  {
  }

  lemma TimesStrict(a: real, b: real, c: real)
    requires a > b && c > 0.0
    ensures a * c > b * c
  {
  }

  lemma RatioAtMostZero(errs: nat, total: nat)
    ensures AtMost(Ratio(errs, total), 0.0) <==> total > 0 && errs == 0
  {
    if total > 0 && errs > 0 {
      assert (errs as real / total as real) * total as real == errs as real;
    }
  }

  /** When, and where to, each phase changes the state; nothing else ever changes it. `enough` is what
      the first reading found, the totals are those of the second. */
  lemma TransitionsExactly(c: Config, s: System, a: Action)
    requires Enabled(c, s, a)
    ensures var next := Apply(c, s, a).b.state;
            var (total, errs) := (WindowTotal(c, s.b), WindowErrors(c, s.b));
            && (s.b.state.Open? ==>
                  next == if a.Pre? && s.now - s.b.stateStarted > c.waitDurationInOpenState then HalfOpen else Open)
            && (s.b.state.Closed? ==>
                  next == if a.Post? && s.phase.enough && total > 0
                             && 100 * errs >= c.errorPercentThresholdToOpen * total then Open else Closed)
            && (s.b.state.HalfOpen? ==>
                  next == if !a.Post? || !s.phase.enough then HalfOpen
                  else if total > 0 && errs == 0 then Closed else Open)
  {
    RatioAtLeast(WindowErrors(c, s.b), WindowTotal(c, s.b), c.errorPercentThresholdToOpen);
    RatioAtMostZero(WindowErrors(c, s.b), WindowTotal(c, s.b));
  }

  /** A half-open visit crossed by fewer ticks than the window has buckets runs exactly K functions
      before it ends, and closes the circuit exactly when all K succeeded. */
  lemma HalfOpenVisitIsExact(c: Config, s: System)
    requires Reachable(c, s) && s.b.state.HalfOpen? && s.phase.Counted?
    requires c.successfulRequiredOnHalfOpen >= 1 && SlideCount(Visit(s)) < WindowSize(c)
    ensures RunsThisVisit(s.history) <= c.successfulRequiredOnHalfOpen && RefusedThisVisit(s.history) == 0
    ensures var next := Apply(c, s, Post).b.state;
            && (next != HalfOpen <==> RunsThisVisit(s.history) == c.successfulRequiredOnHalfOpen)
            && (next == Closed <==> next != HalfOpen && FailuresThisVisit(s.history) == 0)
  {
    ReachableInv(c, s);
    RecentIsVisit(WindowSize(c), s.b.log, false);
    RecentIsVisit(WindowSize(c), s.b.log, true);
    TransitionsExactly(c, s, Post);
  }

  // ---- from one reading to the other ----

  // What k ticks do to the log: every result is k older, and nothing else counts.
  lemma {:induction false} SlidAges(b: Breaker, ticks: nat, errorsOnly: bool)
    ensures var log := Slid(b, ticks).log;
            && |log| == |b.log| + ticks
            && (forall i | 0 <= i < |b.log| :: Age(log, i) == Age(b.log, i) + ticks)
            && (forall i | 0 <= i < |b.log| :: Counts(log, i, errorsOnly) <==> Counts(b.log, i, errorsOnly))
            && (forall i | |b.log| <= i < |log| :: !Counts(log, i, errorsOnly))
  {
    if ticks > 0 {
      SlidAges(b, ticks - 1, errorsOnly);
      AgesAppend(Slid(b, ticks - 1).log, Slide, errorsOnly);
    }
  }

  // How much of the window is left after so many ticks.
  function Remaining(n: nat, ticks: nat): nat {
    if ticks < n then n - ticks else 0
  }

  lemma SlidRecent(n: nat, b: Breaker, ticks: nat, errorsOnly: bool)
    ensures Recent(n, Slid(b, ticks).log, errorsOnly) == Recent(Remaining(n, ticks), b.log, errorsOnly)
  {
    SlidAges(b, ticks, errorsOnly);
  }

  // The documented decision, for ticks that have come since the first reading: the count is that of the
  // whole window then, the rate that of the part of it that is left.
  ghost predicate Decides(c: Config, b: Breaker, ticks: nat, next: BreakerState) {
    var left := Remaining(WindowSize(c), ticks);
    var (total, errs) := (|Recent(left, b.log, false)|, |Recent(left, b.log, true)|);
    var count := |Recent(WindowSize(c), b.log, false)|;
    match b.state
    case Open => next == Open
    case Closed =>
      next == if count >= c.minimumRequestToOpen && total > 0 && 100 * errs >= c.errorPercentThresholdToOpen * total
              then Open else Closed
    case HalfOpen =>
      next == if count < c.successfulRequiredOnHalfOpen then HalfOpen
              else if total > 0 && errs == 0 then Closed else Open
  }

  /** The whole decision after an execution, for any ticks between its two readings, in terms of the
      results when it starts. Without ticks in between both readings are the same, as documented; with
      N of them the rate is not a number: a closed circuit stays closed and a half-open one opens. */
  lemma DecisionExactly(c: Config, b: Breaker, ticks: nat, now: int)
    ensures Decides(c, b, ticks, PostDecide(c, Slid(b, ticks), Enough(c, b), now).state)
  {
    SlidRecent(WindowSize(c), b, ticks, false);
    SlidRecent(WindowSize(c), b, ticks, true);
    var slid := Slid(b, ticks);
    RatioAtLeast(WindowErrors(c, slid), WindowTotal(c, slid), c.errorPercentThresholdToOpen);
    RatioAtMostZero(WindowErrors(c, slid), WindowTotal(c, slid));
  }

  // ---- the decision in every run ----

  // Between two readings only ticks and time can come.
  ghost predicate Waits(run: seq<Action>) {
    forall i | 0 <= i < |run| :: run[i].Tick? || run[i].Elapse?
  }

  function TicksIn(run: seq<Action>): nat {
    if run == [] then 0 else TicksIn(run[..|run| - 1]) + if run[|run| - 1].Tick? then 1 else 0
  }

  // The run makes its last Count after `before`, and then waits as `after` says.
  ghost predicate ReadAfter(c: Config, s: System, run: seq<Action>, before: seq<Action>, after: seq<Action>) {
    run == before + [Count] + after && Waits(after) && Legal(c, s, before)
  }

  // What that Count read has only slid since.
  ghost predicate ReadOf(c: Config, s: System, read: System, after: seq<Action>) {
    s.phase == Counted(Enough(c, read.b)) && s.b == Slid(read.b, TicksIn(after))
  }

  lemma {:induction false} LastStep(c: Config, s: System, run: seq<Action>)
    requires run != [] && Legal(c, s, run)
    ensures var init := run[..|run| - 1];
            && Legal(c, s, init) && Enabled(c, After(c, s, init), run[|run| - 1])
            && After(c, s, run) == Apply(c, After(c, s, init), run[|run| - 1])
    decreases |run|
  {
    if |run| > 1 {
      LastStep(c, Apply(c, s, run[0]), run[1..]);
      assert run[1..][..|run| - 2] == run[..|run| - 1][1..];
    }
  }

  lemma WaitLonger(after: seq<Action>, a: Action)
    requires Waits(after) && (a.Tick? || a.Elapse?)
    ensures Waits(after + [a]) && TicksIn(after + [a]) == TicksIn(after) + if a.Tick? then 1 else 0
  {
    assert (after + [a])[..|after|] == after;
  }

  // A run that has made its first reading has made it at a Count, and only waited since.
  lemma {:induction false} SplitAtCount(c: Config, s: System, run: seq<Action>)
    returns (before: seq<Action>, after: seq<Action>)
    requires Legal(c, s, run) && !s.phase.Counted? && After(c, s, run).phase.Counted?
    ensures ReadAfter(c, s, run, before, after) && ReadOf(c, After(c, s, run), After(c, s, before), after)
    decreases |run|
  {
    LastStep(c, s, run);
    var init, a := run[..|run| - 1], run[|run| - 1];
    assert run == init + [a];
    if a.Count? {
      before, after := init, [];
      assert run == before + [Count] + [];
    } else {
      before, after := SplitAtCount(c, s, init);
      WaitLonger(after, a);
      assert run == before + [Count] + (after + [a]);
      after := after + [a];
    }
  }

  /** Every decision of every run is the documented one, on the window that its own first reading was made
      of and the ticks that have come since. */
  lemma EveryDecision(c: Config, start: int, run: seq<Action>) returns (before: seq<Action>, after: seq<Action>)
    requires Legal(c, Init(start), run) && Enabled(c, After(c, Init(start), run), Post)
    ensures ReadAfter(c, Init(start), run, before, after)
    ensures var (s, read) := (After(c, Init(start), run), After(c, Init(start), before));
            ReadOf(c, s, read, after) && Decides(c, read.b, TicksIn(after), Apply(c, s, Post).b.state)
  {
    before, after := SplitAtCount(c, Init(start), run);
    var s := After(c, Init(start), run);
    DecisionExactly(c, After(c, Init(start), before).b, TicksIn(after), s.now);
  }

  // When the history last tells of a change.
  function LastMoveAt(history: seq<Entry>): int {
    if history == [] then 0
    else if history[|history| - 1].Moved? then history[|history| - 1].at
    else LastMoveAt(history[..|history| - 1])
  }

  ghost predicate OpeningDated(s: System) {
    s.b.state.Open? ==> s.b.stateStarted == LastMoveAt(s.history)
  }

  lemma MoveAtAppend(history: seq<Entry>, e: Entry)
    ensures LastMoveAt(history + [e]) == if e.Moved? then e.at else LastMoveAt(history)
  {
    assert (history + [e])[..|history|] == history;
  }

  lemma OpeningDatedKept(c: Config, s: System, a: Action)
    requires OpeningDated(s) && Enabled(c, s, a)
    ensures OpeningDated(Apply(c, s, a))
  {
    var t := Apply(c, s, a);
    if a.Exec? {
      MoveAtAppend(s.history, if s.b.state.Open? then Refused(s.now) else Ran(s.now, a.fails));
    } else if t.b.state != s.b.state {
      MoveAtAppend(s.history, Moved(t.b.state, s.now));
    } else {
      assert s.history + [] == s.history;
    }
  }

  lemma {:induction false} OpeningDatedAfter(c: Config, s: System, run: seq<Action>)
    requires OpeningDated(s) && Legal(c, s, run)
    ensures OpeningDated(After(c, s, run))
    decreases |run|
  {
    if run != [] {
      OpeningDatedKept(c, s, run[0]);
      OpeningDatedAfter(c, Apply(c, s, run[0]), run[1..]);
    }
  }

  ghost predicate DecidedBy(c: Config, start: System, run: seq<Action>, next: BreakerState,
                            before: seq<Action>, after: seq<Action>)
  {
    ReadAfter(c, start, run, before, after) && Decides(c, After(c, start, before).b, TicksIn(after), next)
  }

  /** When, and where to, the state changes in every run: before an execution exactly from open to
      half-open, once more than the wait has passed since the history's last change; after one exactly as
      the results decide that the run's last Count has read; and at no other step. */
  lemma EveryTransition(c: Config, start: int, run: seq<Action>, a: Action)
    requires Legal(c, Init(start), run) && Enabled(c, After(c, Init(start), run), a)
    ensures var s := After(c, Init(start), run);
            var next := Apply(c, s, a).b.state;
            match a
            case Pre =>
              next == if s.b.state.Open? && s.now - LastMoveAt(s.history) > c.waitDurationInOpenState then HalfOpen
                      else s.b.state
            case Post => exists before, after :: DecidedBy(c, Init(start), run, next, before, after)
            case _ => next == s.b.state
    ensures After(c, Init(start), run).b.state == Last(After(c, Init(start), run).history)
  {
    assert Reachable(c, After(c, Init(start), run));
    ReachableInv(c, After(c, Init(start), run));
    OpeningDatedAfter(c, Init(start), run);
    if a.Post? {
      var before, after := EveryDecision(c, start, run);
      assert DecidedBy(c, Init(start), run, Apply(c, After(c, Init(start), run), Post).b.state, before, after);
    }
  }

  // ---- reachability, one step or one call at a time ----

  lemma {:induction false} OneMore(c: Config, s: System, run: seq<Action>, a: Action)
    requires Legal(c, s, run) && Enabled(c, After(c, s, run), a)
    ensures Legal(c, s, run + [a]) && After(c, s, run + [a]) == Apply(c, After(c, s, run), a)
    decreases |run|
  {
    if run == [] {
      assert After(c, Apply(c, s, a), []) == Apply(c, s, a);
    } else {
      assert (run + [a])[1..] == run[1..] + [a];
      OneMore(c, Apply(c, s, run[0]), run[1..], a);
    }
  }

  lemma ReachableStep(c: Config, s: System, a: Action)
    requires Reachable(c, s) && Enabled(c, s, a)
    ensures Reachable(c, Apply(c, s, a))
  {
    var start, run :| Legal(c, Init(start), run) && After(c, Init(start), run) == s;
    OneMore(c, Init(start), run, a);
  }

  // ---- a call of the object is a run of the machine ----

  ghost predicate Leads(c: Config, s: System, run: seq<Action>, t: System) {
    Legal(c, s, run) && After(c, s, run) == t
  }

  lemma LeadsOn(c: Config, s: System, run: seq<Action>, t: System, a: Action)
    requires Leads(c, s, run, t) && Enabled(c, t, a)
    ensures Leads(c, s, run + [a], Apply(c, t, a))
  {
    OneMore(c, s, run, a);
  }

  lemma {:induction false} LeadsReachable(c: Config, s: System, run: seq<Action>)
    requires Reachable(c, s) && Legal(c, s, run)
    ensures Reachable(c, After(c, s, run))
    decreases |run|
  {
    if run != [] {
      ReachableStep(c, s, run[0]);
      LeadsReachable(c, Apply(c, s, run[0]), run[1..]);
    }
  }

  function Ticks(n: nat): seq<Action> {
    if n == 0 then [] else Ticks(n - 1) + [Tick]
  }

  lemma {:induction false} LeadsTicks(c: Config, s: System, run: seq<Action>, t: System, n: nat)
    requires Leads(c, s, run, t) && (n > 0 ==> WindowSize(c) >= 2)
    ensures Leads(c, s, run + Ticks(n), t.(b := Slid(t.b, n)))
  {
    if n == 0 {
      assert run + Ticks(0) == run;
    } else {
      LeadsTicks(c, s, run, t, n - 1);
      LeadsOn(c, s, run + Ticks(n - 1), t.(b := Slid(t.b, n - 1)), Tick);
      assert run + Ticks(n) == run + Ticks(n - 1) + [Tick];
    }
  }

  // What the history tells of a call.
  function CallEntry(ran: bool, fails: bool, at: int): Entry {
    if ran then Ran(at, fails) else Refused(at)
  }

  // The phases of one call, with ticks and waits in between.
  function ExecRun(fails: bool, ticks: seq<nat>, preWait: nat): seq<Action>
    requires |ticks| == 4
  {
    [Elapse(preWait)] + [Pre] + Ticks(ticks[0]) + [Exec(fails)] + Ticks(ticks[1]) + [Inc]
  }

  function CallRun(fails: bool, ticks: seq<nat>, preWait: nat, postWait: nat): seq<Action>
    requires |ticks| == 4
  {
    ExecRun(fails, ticks, preWait) + Ticks(ticks[2]) + [Count] + Ticks(ticks[3]) + [Elapse(postWait)] + [Post]
  }

  lemma ExecIsRun(c: Config, s: System, fails: bool, ticks: seq<nat>, preWait: nat) returns (t: System)
    requires s.phase.Idle? && |ticks| == 4 && (ticks != [0, 0, 0, 0] ==> WindowSize(c) >= 2)
    ensures Leads(c, s, ExecRun(fails, ticks, preWait), t) && t.phase.Recorded? && t.now == s.now + preWait
    ensures var pre := PreDecide(c, s.b, s.now + preWait);
            var decided := Slid(pre, ticks[0]);
            && t.b == Record(Slid(decided, ticks[1]), Outcome(decided.state.Open? || fails))
            && t.history == s.history + Moves(s.b, pre, t.now)
                            + [CallEntry(!decided.state.Open?, fails, t.now)]
  {
    assert Leads(c, s, [], s);
    assert [] + [Elapse(preWait)] == [Elapse(preWait)];
    LeadsOn(c, s, [], s, Elapse(preWait));
    var waited := Apply(c, s, Elapse(preWait));
    var run := [Elapse(preWait)];
    LeadsOn(c, s, run, waited, Pre);
    var pre := Apply(c, waited, Pre);
    run := run + [Pre];
    LeadsTicks(c, s, run, pre, ticks[0]);
    var decided := pre.(b := Slid(pre.b, ticks[0]));
    run := run + Ticks(ticks[0]);
    LeadsOn(c, s, run, decided, Exec(fails));
    var executed := Apply(c, decided, Exec(fails));
    run := run + [Exec(fails)];
    LeadsTicks(c, s, run, executed, ticks[1]);
    var slid := executed.(b := Slid(executed.b, ticks[1]));
    run := run + Ticks(ticks[1]);
    LeadsOn(c, s, run, slid, Inc);
    t := Apply(c, slid, Inc);
  }

  lemma DecideIsRun(c: Config, s: System, run: seq<Action>, inced: System, t2: nat, t3: nat, wait: nat)
    returns (t: System)
    requires Leads(c, s, run, inced) && inced.phase.Recorded? && (t2 > 0 || t3 > 0 ==> WindowSize(c) >= 2)
    ensures Leads(c, s, run + Ticks(t2) + [Count] + Ticks(t3) + [Elapse(wait)] + [Post], t) && t.phase.Idle?
    ensures var recorded := Slid(inced.b, t2);
            && t.now == inced.now + wait
            && t.b == PostDecide(c, Slid(recorded, t3), Enough(c, recorded), t.now)
            && t.history == inced.history + Moves(recorded, t.b, t.now)
  {
    LeadsTicks(c, s, run, inced, t2);
    var recorded := inced.(b := Slid(inced.b, t2));
    var on := run + Ticks(t2);
    LeadsOn(c, s, on, recorded, Count);
    var counted := Apply(c, recorded, Count);
    on := on + [Count];
    LeadsTicks(c, s, on, counted, t3);
    var slid := counted.(b := Slid(counted.b, t3));
    on := on + Ticks(t3);
    LeadsOn(c, s, on, slid, Elapse(wait));
    var later := Apply(c, slid, Elapse(wait));
    on := on + [Elapse(wait)];
    LeadsOn(c, s, on, later, Post);
    t := Apply(c, later, Post);
  }

  // One call of a plan: what f would return, the ticks and the waits between the phases.
  datatype Call = Call(fails: bool, ticks: seq<nat>, preWait: nat, postWait: nat)

  function PreNow(call: Call, now: int): int {
    now + call.preWait
  }

  function PostNow(call: Call, now: int): int {
    now + call.preWait + call.postWait
  }

  function RunOf(call: Call): seq<Action>
    requires |call.ticks| == 4
  {
    CallRun(call.fails, call.ticks, call.preWait, call.postWait)
  }

  // What a call makes of the breaker, and what the history tells of it.
  function Made(c: Config, b: Breaker, call: Call, now: int): Breaker
    requires |call.ticks| == 4
  {
    AfterCall(c, b, call.fails, call.ticks, PreNow(call, now), PostNow(call, now))
  }

  function Told(c: Config, b: Breaker, call: Call, now: int): seq<Entry>
    requires |call.ticks| == 4
  {
    var recorded := AfterExecution(c, b, call.fails, call.ticks, PreNow(call, now));
    Moves(b, PreDecide(c, b, PreNow(call, now)), PreNow(call, now))
    + [CallEntry(Executes(c, b, call.ticks, PreNow(call, now)), call.fails, PreNow(call, now))]
    + Moves(recorded, Made(c, b, call, now), PostNow(call, now))
  }

  /** A call of the object is a run of the machine: Pre, Exec, Inc, Count and Post in this order, with the
      same ticks and clock readings, lead to the state that CircuitBreaker.Run promises, and the history
      tells what its results say. */
  lemma CallIsRun(c: Config, s: System, call: Call) returns (t: System)
    requires s.phase.Idle? && CanCall(c, call)
    ensures Leads(c, s, RunOf(call), t) && t.phase.Idle? && t.now == PostNow(call, s.now)
    ensures t.b == Made(c, s.b, call, s.now) && t.history == s.history + Told(c, s.b, call, s.now)
    ensures Reachable(c, s) ==> Reachable(c, t)
  {
    var inced := ExecIsRun(c, s, call.fails, call.ticks, call.preWait);
    t := DecideIsRun(c, s, ExecRun(call.fails, call.ticks, call.preWait), inced, call.ticks[2], call.ticks[3],
                     call.postWait);
    ThreeParts(s.history, Moves(s.b, PreDecide(c, s.b, inced.now), inced.now),
               [CallEntry(Executes(c, s.b, call.ticks, inced.now), call.fails, inced.now)],
               Moves(Slid(inced.b, call.ticks[2]), t.b, t.now));
    if Reachable(c, s) {
      LeadsReachable(c, s, RunOf(call));
    }
  }

  lemma ThreeParts(history: seq<Entry>, pre: seq<Entry>, e: seq<Entry>, post: seq<Entry>)
    ensures history + pre + e + post == history + (pre + e + post)
  {
  }

  predicate CanCall(c: Config, call: Call) {
    |call.ticks| == 4 && (call.ticks != [0, 0, 0, 0] ==> WindowSize(c) >= 2)
  }

  // Which calls ran their function, as the history tells.
  function Executions(history: seq<Entry>): seq<bool> {
    if history == [] then []
    else
      var last := history[|history| - 1];
      Executions(history[..|history| - 1]) +
      if last.Ran? then [true] else if last.Refused? then [false] else []
  }

  lemma {:induction false} ExecutionsJoin(first: seq<Entry>, second: seq<Entry>)
    ensures Executions(first + second) == Executions(first) + Executions(second)
    decreases |second|
  {
    if second == [] {
      assert first + second == first;
    } else {
      var init := second[..|second| - 1];
      assert (first + second)[..|first + second| - 1] == first + init;
      ExecutionsJoin(first, init);
    }
  }

  lemma MovesExecuteNothing(b: Breaker, next: Breaker, now: int)
    ensures Executions(Moves(b, next, now)) == []
  {
    if b.state != next.state {
      assert [Moved(next.state, now)][..0] == [];
    }
  }

  lemma ExecutionsAppend(history: seq<Entry>, ran: bool, fails: bool, at: int)
    ensures Executions(history + [CallEntry(ran, fails, at)]) == Executions(history) + [ran]
  {
    var e := CallEntry(ran, fails, at);
    assert (history + [e])[..|history|] == history;
  }

  lemma ExecutionsSame(history: seq<Entry>, more: seq<Entry>)
    requires Executions(more) == []
    ensures Executions(history + more) == Executions(history)
  {
    ExecutionsJoin(history, more);
    assert Executions(history) + [] == Executions(history);
  }

  lemma PartsTell(pre: seq<Entry>, ran: bool, fails: bool, at: int, post: seq<Entry>)
    requires Executions(pre) == [] && Executions(post) == []
    ensures Executions(pre + [CallEntry(ran, fails, at)] + post) == [ran]
  {
    ExecutionsAppend(pre, ran, fails, at);
    ExecutionsSame(pre + [CallEntry(ran, fails, at)], post);
  }

  lemma HistoryTells(c: Config, b: Breaker, call: Call, now: int)
    requires |call.ticks| == 4
    ensures Executions(Told(c, b, call, now)) == [Executes(c, b, call.ticks, PreNow(call, now))]
  {
    var (pre, post) := (PreNow(call, now), PostNow(call, now));
    var recorded := AfterExecution(c, b, call.fails, call.ticks, pre);
    MovesExecuteNothing(b, PreDecide(c, b, pre), pre);
    MovesExecuteNothing(recorded, Made(c, b, call, now), post);
    PartsTell(Moves(b, PreDecide(c, b, pre), pre), Executes(c, b, call.ticks, pre), call.fails, pre,
              Moves(recorded, Made(c, b, call, now), post));
  }

  lemma CallTold(c: Config, s: System, call: Call) returns (t: System)
    requires s.phase.Idle? && CanCall(c, call)
    ensures Leads(c, s, RunOf(call), t) && t.phase.Idle? && t.now == PostNow(call, s.now)
    ensures t.b == Made(c, s.b, call, s.now)
    ensures Executions(t.history) == Executions(s.history) + [Executes(c, s.b, call.ticks, PreNow(call, s.now))]
  {
    t := CallIsRun(c, s, call);
    HistoryTells(c, s.b, call, s.now);
    ExecutionsJoin(s.history, Told(c, s.b, call, s.now));
  }

  // One call of the object.
  method MakeCall(cb: CircuitBreaker, call: Call, now: int) returns (executed: bool)
    requires cb.Valid() && CanCall(cb.cfg, call)
    modifies cb, cb.recorder, cb.recorder.window, cb.recorder.Repr()
    ensures cb.Valid() && fresh(cb.recorder.Repr() - old(cb.recorder.Repr()))
    ensures executed == Executes(cb.cfg, old(cb.View()), call.ticks, PreNow(call, now))
    ensures cb.View() == Made(cb.cfg, old(cb.View()), call, now)
  {
    var err;
    executed, err := cb.Run(call.fails, call.ticks, PreNow(call, now), PostNow(call, now));
  }

  predicate FourTicks(calls: seq<Call>) {
    forall i | 0 <= i < |calls| :: |calls[i].ticks| == 4
  }

  // The run that a sequence of calls makes.
  function CallsRun(calls: seq<Call>): seq<Action>
    requires FourTicks(calls)
  {
    if calls == [] then []
    else CallsRun(calls[..|calls| - 1]) + RunOf(calls[|calls| - 1])
  }

  lemma {:induction false} LeadsJoin(c: Config, s: System, first: seq<Action>, t: System,
                                     second: seq<Action>, u: System)
    requires Leads(c, s, first, t) && Leads(c, t, second, u)
    ensures Leads(c, s, first + second, u)
    decreases |second|
  {
    if second == [] {
      assert first + second == first;
    } else {
      var init, a := second[..|second| - 1], second[|second| - 1];
      LastStep(c, t, second);
      LeadsJoin(c, s, first, t, init, After(c, t, init));
      LeadsOn(c, s, first + init, After(c, t, init), a);
      assert first + second == first + init + [a];
    }
  }

  lemma OneMoreCall(c: Config, s: System, calls: seq<Call>, i: nat, t: System, u: System)
    requires FourTicks(calls) && i < |calls| && Leads(c, s, CallsRun(calls[..i]), t)
    requires Leads(c, t, RunOf(calls[i]), u)
    ensures Leads(c, s, CallsRun(calls[..i + 1]), u)
  {
    LeadsJoin(c, s, CallsRun(calls[..i]), t, RunOf(calls[i]), u);
    assert calls[..i + 1][..i] == calls[..i];
  }

  // s is where the machine is after the calls, and the history tells who ran.
  ghost predicate Follows(c: Config, start: int, calls: seq<Call>, s: System, executed: seq<bool>) {
    && FourTicks(calls)
    && Leads(c, Init(start), CallsRun(calls), s) && s.phase.Idle?
    && executed == Executions(s.history) && |executed| == |calls|
  }

  lemma FollowsNone(c: Config, start: int, calls: seq<Call>)
    ensures Follows(c, start, calls[..0], Init(start), [])
  {
  }

  lemma FollowsOn(c: Config, start: int, calls: seq<Call>, i: nat, s: System, executed: seq<bool>) returns (t: System)
    requires FourTicks(calls) && i < |calls| && CanCall(c, calls[i]) && Follows(c, start, calls[..i], s, executed)
    ensures var ran := Executes(c, s.b, calls[i].ticks, PreNow(calls[i], s.now));
            Follows(c, start, calls[..i + 1], t, executed + [ran])
    ensures t.b == Made(c, s.b, calls[i], s.now) && t.now == PostNow(calls[i], s.now)
  {
    t := CallTold(c, s, calls[i]);
    OneMoreCall(c, Init(start), calls, i, s, t);
  }

  // The next of the calls, of the object and of the machine.
  method MakeNext(cb: CircuitBreaker, calls: seq<Call>, i: nat, executed: seq<bool>,
                  ghost start: int, ghost s: System, now: int)
    returns (ran: bool, ghost t: System)
    requires cb.Valid() && FourTicks(calls) && i < |calls| && CanCall(cb.cfg, calls[i])
    requires Follows(cb.cfg, start, calls[..i], s, executed) && s.b == cb.View() && s.now == now
    modifies cb, cb.recorder, cb.recorder.window, cb.recorder.Repr()
    ensures cb.Valid() && fresh(cb.recorder.Repr() - old(cb.recorder.Repr()))
    ensures Follows(cb.cfg, start, calls[..i + 1], t, executed + [ran]) && t.b == cb.View()
    ensures t.now == PostNow(calls[i], now)
  {
    t := FollowsOn(cb.cfg, start, calls, i, s, executed);
    ran := MakeCall(cb, calls[i], now);
  }

  /** Any sequence of calls of a breaker is the run of the machine with the same calls, so what is proved
      of every run here holds of the object; which calls ran their function is what its history tells. */
  method MakeCalls(cb: CircuitBreaker, start: int, calls: seq<Call>) returns (executed: seq<bool>, ghost s: System)
    requires cb.Valid() && cb.View() == Init(start).b
    requires FourTicks(calls) && forall i | 0 <= i < |calls| :: CanCall(cb.cfg, calls[i])
    modifies cb, cb.recorder, cb.recorder.window, cb.recorder.Repr()
    ensures cb.Valid() && Follows(cb.cfg, start, calls, s, executed) && s.b == cb.View()
  {
    s := Init(start);
    executed := [];
    var now := start;
    FollowsNone(cb.cfg, start, calls);
    for i := 0 to |calls|
      invariant cb.Valid() && fresh(cb.recorder.Repr() - old(cb.recorder.Repr()))
      invariant Follows(cb.cfg, start, calls[..i], s, executed)
      invariant s.b == cb.View() && s.now == now
    {
      var ran;
      ran, s := MakeNext(cb, calls, i, executed, start, s, now);
      executed := executed + [ran];
      now := PostNow(calls[i], now);
    }
    assert calls[..|calls|] == calls;
  }

  lemma {:induction false} ReachableTicks(c: Config, s: System, ticks: nat)
    requires Reachable(c, s) && WindowSize(c) >= 2
    ensures Reachable(c, s.(b := Slid(s.b, ticks)))
  {
    if ticks > 0 {
      ReachableTicks(c, s, ticks - 1);
      ReachableStep(c, s.(b := Slid(s.b, ticks - 1)), Tick);
    }
  }

  // What a visit has seen, whatever the window has forgotten.
  datatype Tally = Tally(results: nat, errs: nat, slides: nat)

  function TallyOf(s: System): Tally {
    Tally(ResultCount(Visit(s), false), ResultCount(Visit(s), true), SlideCount(Visit(s)))
  }

  function Bound(c: Config, state: BreakerState): int {
    if state.HalfOpen? then c.successfulRequiredOnHalfOpen else c.minimumRequestToOpen
  }

  function Failed(n: nat, fails: bool): nat {
    if fails then n else 0
  }

  lemma RecordCounts(c: Config, b: Breaker, failed: bool)
    ensures WindowTotal(c, Record(b, Outcome(failed))) == WindowTotal(c, b) + 1
    ensures WindowErrors(c, Record(b, Outcome(failed))) == WindowErrors(c, b) + Failed(1, failed)
  {
    RecentAppend(WindowSize(c), b.log, Outcome(failed), false);
    RecentAppend(WindowSize(c), b.log, Outcome(failed), true);
    assert |b.log| !in Recent(WindowSize(c), b.log, false);
    assert |b.log| !in Recent(WindowSize(c), b.log, true);
  }

  lemma TallyAppend(s: System, t: System, e: Event)
    requires t.b.log == s.b.log + [e] && !e.Reset?
    ensures TallyOf(t).slides == TallyOf(s).slides + Slides(e)
    ensures TallyOf(t).results == TallyOf(s).results + (if e.Outcome? then 1 else 0)
    ensures TallyOf(t).errs == TallyOf(s).errs + (if e.Outcome? && e.failed then 1 else 0)
  {
    SinceResetAppend(s.b.log, e);
    VisitAppend(Visit(s), e, false);
    VisitAppend(Visit(s), e, true);
  }

  lemma {:induction false} TallyTicks(s: System, ticks: nat)
    ensures TallyOf(s.(b := Slid(s.b, ticks))) == TallyOf(s).(slides := TallyOf(s).slides + ticks)
  {
    if ticks > 0 {
      TallyTicks(s, ticks - 1);
      TallyTick(s.(b := Slid(s.b, ticks - 1)), s.(b := Slid(s.b, ticks)));
    }
  }

  lemma TallyTick(s: System, t: System)
    requires t.b.log == s.b.log + [Slide]
    ensures TallyOf(t) == TallyOf(s).(slides := TallyOf(s).slides + 1)
  {
    TallyAppend(s, t, Slide);
  }

  // From s to t a function is run, and its result recorded and counted.
  ghost predicate CalledOnce(c: Config, s: System, t: System, fails: bool) {
    && t.b == Record(s.b, Outcome(fails)) && t.now == s.now
    && t.phase == Counted(Enough(c, t.b))
  }

  lemma OneCall(c: Config, s: System, fails: bool) returns (t: System)
    requires Reachable(c, s) && s.phase.Decided? && !s.b.state.Open?
    ensures Reachable(c, t) && CalledOnce(c, s, t, fails)
  {
    ReachableStep(c, s, Exec(fails));
    var executed := Apply(c, s, Exec(fails));
    ReachableStep(c, executed, Inc);
    var recorded := Apply(c, executed, Inc);
    ReachableStep(c, recorded, Count);
    t := Apply(c, recorded, Count);
  }

  // While the first reading does not find enough, the next call follows in the same state.
  lemma NextCall(c: Config, s: System) returns (t: System)
    requires Reachable(c, s) && s.phase == Counted(false) && !s.b.state.Open?
    ensures Reachable(c, t) && t.b == s.b && t.now == s.now && t.phase.Decided?
  {
    ReachableStep(c, s, Post);
    var idle := Apply(c, s, Post);
    ReachableStep(c, idle, Pre);
    t := Apply(c, idle, Pre);
  }

  // n calls with the same outcome, only the last of which may find enough results.
  ghost predicate Called(c: Config, s: System, t: System, n: nat, fails: bool) {
    && t.b.state == s.b.state && t.now == s.now
    && WindowTotal(c, t.b) == WindowTotal(c, s.b) + n
    && WindowErrors(c, t.b) == WindowErrors(c, s.b) + Failed(n, fails)
    && TallyOf(t) == Tally(TallyOf(s).results + n, TallyOf(s).errs + Failed(n, fails), TallyOf(s).slides)
  }

  lemma CallCounted(c: Config, s: System, fails: bool) returns (t: System)
    requires Reachable(c, s) && s.phase.Decided? && !s.b.state.Open?
    ensures Reachable(c, t) && Called(c, s, t, 1, fails)
    ensures t.phase == Counted(WindowTotal(c, s.b) + 1 >= Bound(c, s.b.state))
  {
    t := OneCall(c, s, fails);
    RecordCounts(c, s.b, fails);
    TallyAppend(s, t, Outcome(fails));
  }

  lemma CallAndGoOn(c: Config, s: System, fails: bool) returns (t: System)
    requires Reachable(c, s) && s.phase.Decided? && !s.b.state.Open?
    requires WindowTotal(c, s.b) + 1 < Bound(c, s.b.state)
    ensures Reachable(c, t) && Called(c, s, t, 1, fails) && t.phase.Decided?
  {
    var counted := CallCounted(c, s, fails);
    t := NextCall(c, counted);
    assert TallyOf(t) == TallyOf(counted);
  }

  lemma {:induction false} Calls(c: Config, s: System, n: nat, fails: bool) returns (t: System)
    requires Reachable(c, s) && s.phase.Decided? && !s.b.state.Open? && n >= 1
    requires n > 1 ==> WindowTotal(c, s.b) + n - 1 < Bound(c, s.b.state)
    ensures Reachable(c, t) && Called(c, s, t, n, fails)
    ensures t.phase == Counted(WindowTotal(c, s.b) + n >= Bound(c, s.b.state))
    decreases n
  {
    if n == 1 {
      t := CallCounted(c, s, fails);
    } else {
      var again := CallAndGoOn(c, s, fails);
      t := Calls(c, again, n - 1, fails);
      CalledJoins(c, s, again, t, n, fails);
    }
  }

  lemma CalledJoins(c: Config, s: System, u: System, t: System, n: nat, fails: bool)
    requires n >= 1 && Called(c, s, u, 1, fails) && Called(c, u, t, n - 1, fails)
    ensures Called(c, s, t, n, fails)
  {
  }

  // ---- which configurations can open ----

  lemma FirstDecided(c: Config) returns (t: System)
    ensures Reachable(c, t) && t.phase.Decided? && t.b.state.Closed?
    ensures WindowTotal(c, t.b) == 0 && WindowErrors(c, t.b) == 0
  {
    var start := Init(0);
    assert Legal(c, start, []) && After(c, start, []) == start;
    ReachableStep(c, start, Pre);
    t := Apply(c, start, Pre);
    AgesAppend([], Reset, false);
    FewerErrors(c, t.b);
  }

  // Calls that fail, from the start: as many as have to be counted.
  lemma FailToOpen(c: Config) returns (t: System)
    requires c.errorPercentThresholdToOpen <= 100
    ensures Reachable(c, t) && t.b.state.Open? && t.phase.Idle?
  {
    var decided := FirstDecided(c);
    var counted := Calls(c, decided, if c.minimumRequestToOpen >= 1 then c.minimumRequestToOpen else 1, true);
    ReachableStep(c, counted, Post);
    t := Apply(c, counted, Post);
    FewerErrors(c, decided.b);
    TransitionsExactly(c, counted, Post);
    PercentOfAll(c.errorPercentThresholdToOpen, WindowTotal(c, counted.b));
  }

  lemma PercentOfAll(percent: int, total: nat)
    ensures percent <= 100 ==> 100 * total >= percent * total
    ensures percent > 100 && total > 0 ==> 100 * total < percent * total
  {
    if percent <= 100 {
      TimesInt(percent, 100, total);
    } else {
      TimesInt(101, percent, total);
    }
  }

  lemma TimesInt(x: int, y: int, n: nat)
    requires x <= y
    ensures x * n <= y * n
  {
  }

  lemma FewerErrors(c: Config, b: Breaker)
    ensures WindowErrors(c, b) <= WindowTotal(c, b)
  {
    var errs, all := Recent(WindowSize(c), b.log, true), Recent(WindowSize(c), b.log, false);
    assert errs <= all;
    assert all == errs + (all - errs);
  }

  lemma {:induction false} StaysClosed(c: Config, s: System, run: seq<Action>)
    requires c.errorPercentThresholdToOpen > 100 && s.b.state.Closed? && Legal(c, s, run)
    ensures After(c, s, run).b.state.Closed?
    decreases |run|
  {
    if run != [] {
      var (total, errs) := (WindowTotal(c, s.b), WindowErrors(c, s.b));
      TransitionsExactly(c, s, run[0]);
      FewerErrors(c, s.b);
      PercentOfAll(c.errorPercentThresholdToOpen, total);
      StaysClosed(c, Apply(c, s, run[0]), run[1..]);
    }
  }

  /** A circuit can open exactly when its threshold is at most 100 percent. */
  lemma CanOpenExactly(c: Config)
    ensures (exists s :: Reachable(c, s) && s.b.state.Open?) <==> c.errorPercentThresholdToOpen <= 100
  {
    if c.errorPercentThresholdToOpen <= 100 {
      var open := FailToOpen(c);
    } else {
      forall s | Reachable(c, s) ensures s.b.state.Closed? {
        var start, run :| Legal(c, Init(start), run) && After(c, Init(start), run) == s;
        StaysClosed(c, Init(start), run);
      }
    }
  }

  // ---- when a new breaker opens, in terms of what was configured ----

  // The window never holds more than the visit.
  lemma {:induction false} RecentWithinVisit(n: nat, log: seq<Event>)
    requires n >= 1
    ensures |Recent(n, log, false)| <= ResultCount(SinceReset(log), false)
  {
    if log != [] {
      var init, e := log[..|log| - 1], log[|log| - 1];
      assert log == init + [e];
      SinceResetAppend(init, e);
      VisitAppend(SinceReset(init), e, false);
      RecentAppend(n, init, e, false);
      RecentWithinVisit(n, init);
      if e.Slide? {
        SubsetSize(Recent(n, log, false), Recent(n, init, false));
      }
    }
  }

  lemma SubsetSize(a: set<nat>, b: set<nat>)
    requires a <= b
    ensures |a| <= |b|
  {
    assert b == a + (b - a);
  }

  /** A closed circuit does not open before the configured minimum of functions has run since it closed,
      twenty if none is configured, whatever ticks and waits there are. */
  lemma OpensNoEarlier(raw: Config, start: int, run: seq<Action>)
    requires var c := Defaults(raw); Legal(c, Init(start), run) && Enabled(c, After(c, Init(start), run), Post)
    ensures var c := Defaults(raw);
            var s := After(c, Init(start), run);
            s.b.state.Closed? && Apply(c, s, Post).b.state.Open? ==>
              RunsThisVisit(s.history) >= if raw.minimumRequestToOpen == 0 then 20 else raw.minimumRequestToOpen
  {
    var c := Defaults(raw);
    var s := After(c, Init(start), run);
    assert Reachable(c, s);
    ReachableInv(c, s);
    var before, after := EveryDecision(c, start, run);
    var read := After(c, Init(start), before);
    RecentWithinVisit(WindowSize(c), read.b.log);
    TallyTicks(read, TicksIn(after));
  }

  // A breaker that has only seen failures, without ticks.
  ghost predicate OnlyFailed(c: Config, s: System, n: nat) {
    && s.phase.Idle? && s.b.state.Closed?
    && WindowTotal(c, s.b) == n && WindowErrors(c, s.b) == n
  }

  predicate FailsAtOnce(call: Call) {
    call.fails && call.ticks == [0, 0, 0, 0]
  }

  lemma AnotherFailure(c: Config, s: System, n: nat, call: Call) returns (t: System)
    requires OnlyFailed(c, s, n) && FailsAtOnce(call) && c.errorPercentThresholdToOpen <= 100
    ensures Leads(c, s, RunOf(call), t)
    ensures n + 1 >= c.minimumRequestToOpen ==> t.b.state.Open?
    ensures n + 1 < c.minimumRequestToOpen ==> OnlyFailed(c, t, n + 1)
  {
    t := CallIsRun(c, s, call);
    var b := Record(s.b, Outcome(true));
    assert Slid(s.b, 0) == s.b && Slid(b, 0) == b;
    assert AfterExecution(c, s.b, true, call.ticks, PreNow(call, s.now)) == b;
    RecordCounts(c, s.b, true);
    RatioAtLeast(n + 1, n + 1, c.errorPercentThresholdToOpen);
    PercentOfAll(c.errorPercentThresholdToOpen, n + 1);
  }

  /** A new breaker whose calls all fail, with no tick in between, opens with exactly the configured
      minimum of calls, twenty if none is configured; provided that its threshold, fifty if none is
      configured, can be reached at all. */
  lemma {:induction false} OpensAtMinimum(raw: Config, start: int, calls: seq<Call>) returns (t: System)
    requires raw.errorPercentThresholdToOpen <= 100 && forall i | 0 <= i < |calls| :: FailsAtOnce(calls[i])
    requires |calls| <= if raw.minimumRequestToOpen == 0 then 20
                        else if raw.minimumRequestToOpen >= 1 then raw.minimumRequestToOpen else 1
    ensures FourTicks(calls) && Leads(Defaults(raw), Init(start), CallsRun(calls), t)
    ensures t.b.state == if |calls| == (if raw.minimumRequestToOpen == 0 then 20
                                        else if raw.minimumRequestToOpen >= 1 then raw.minimumRequestToOpen else 1)
                         then Open else Closed
    ensures t.b.state.Closed? ==> OnlyFailed(Defaults(raw), t, |calls|)
  {
    var c := Defaults(raw);
    if calls == [] {
      t := Init(start);
      AgesAppend([], Reset, false);
      FewerErrors(c, t.b);
    } else {
      var init, last := calls[..|calls| - 1], calls[|calls| - 1];
      var u := OpensAtMinimum(raw, start, init);
      t := AnotherFailure(c, u, |init|, last);
      OneMoreCall(c, Init(start), calls, |init|, u, t);
      assert calls[..|init| + 1] == calls;
    }
  }

  // ---- at the threshold itself ----

  // The rate is exactly the threshold.
  ghost predicate AtThreshold(c: Config, s: System) {
    && s.b.state.Closed? && Enabled(c, s, Post)
    && 100 * WindowErrors(c, s.b) == c.errorPercentThresholdToOpen * WindowTotal(c, s.b)
  }

  predicate Below(c: Config, total: nat, errs: nat) {
    total > 0 && 100 * errs < c.errorPercentThresholdToOpen * total
  }

  // Below it after each of n more results.
  ghost predicate BelowFor(c: Config, total: nat, errs: nat, n: nat, fails: bool) {
    forall i: nat | 1 <= i <= n :: Below(c, total + i, errs + Failed(i, fails))
  }

  // Below the threshold a closed circuit takes the next call, whether or not there were results enough.
  lemma CallBelow(c: Config, s: System, fails: bool) returns (t: System)
    requires Reachable(c, s) && s.phase.Decided? && s.b.state.Closed?
    requires Below(c, WindowTotal(c, s.b) + 1, WindowErrors(c, s.b) + Failed(1, fails))
    ensures Reachable(c, t) && Called(c, s, t, 1, fails) && t.phase.Decided?
  {
    var counted := CallCounted(c, s, fails);
    TransitionsExactly(c, counted, Post);
    ReachableStep(c, counted, Post);
    var idle := Apply(c, counted, Post);
    ReachableStep(c, idle, Pre);
    t := Apply(c, idle, Pre);
    assert TallyOf(t) == TallyOf(counted);
  }

  lemma NoCalls(c: Config, s: System, fails: bool)
    ensures Called(c, s, s, 0, fails)
  {
  }

  lemma {:induction false} CallsBelow(c: Config, s: System, n: nat, fails: bool) returns (t: System)
    requires Reachable(c, s) && s.phase.Decided? && s.b.state.Closed?
    requires BelowFor(c, WindowTotal(c, s.b), WindowErrors(c, s.b), n, fails)
    ensures Reachable(c, t) && Called(c, s, t, n, fails) && t.phase.Decided?
    decreases n
  {
    if n == 0 {
      t := s;
      NoCalls(c, s, fails);
    } else {
      assert Below(c, WindowTotal(c, s.b) + 1, WindowErrors(c, s.b) + Failed(1, fails));
      var next := CallBelow(c, s, fails);
      StillBelow(c, s, next, n, fails);
      t := CallsBelow(c, next, n - 1, fails);
      if n == 1 {
        NoCalls(c, next, fails);
      }
      CalledJoins(c, s, next, t, n, fails);
    }
  }

  lemma StillBelow(c: Config, s: System, t: System, n: nat, fails: bool)
    requires n >= 1 && Called(c, s, t, 1, fails)
    requires BelowFor(c, WindowTotal(c, s.b), WindowErrors(c, s.b), n, fails)
    ensures BelowFor(c, WindowTotal(c, t.b), WindowErrors(c, t.b), n - 1, fails)
  {
    forall i: nat | 1 <= i <= n - 1
      ensures Below(c, WindowTotal(c, t.b) + i, WindowErrors(c, t.b) + Failed(i, fails))
    {
      assert Below(c, WindowTotal(c, s.b) + (i + 1), WindowErrors(c, s.b) + Failed(i + 1, fails));
    }
  }

  // Of 100 * k results p * k are failures, the last ones: until then the rate is below p percent.
  lemma FailuresBelow(c: Config, ok: nat, errs: nat)
    requires 1 <= c.errorPercentThresholdToOpen < 100 && errs >= 1
    requires 100 * errs == c.errorPercentThresholdToOpen * (ok + errs)
    ensures BelowFor(c, ok, 0, errs - 1, true)
  {
    forall i: nat | 1 <= i <= errs - 1 ensures Below(c, ok + i, 0 + Failed(i, true)) {
      BelowBefore(c.errorPercentThresholdToOpen, ok + i, i, errs - i);
    }
  }

  // Less than a hundred percent of d more results is less than d failures.
  lemma BelowBefore(p: int, total: nat, errs: nat, d: nat)
    requires p < 100 && d >= 1 && 100 * (errs + d) == p * (total + d)
    ensures 100 * errs < p * total
  {
    TimesStrictInt(d, p, 100);
    Distribute(p, total, d);
  }

  lemma Distribute(p: int, x: int, y: int)
    ensures p * (x + y) == p * x + p * y && p * y == y * p
  {
  }

  lemma SuccessesBelow(c: Config, ok: nat)
    requires c.errorPercentThresholdToOpen >= 1
    ensures BelowFor(c, 0, 0, ok, false)
  {
    forall i: nat | 1 <= i <= ok ensures Below(c, 0 + i, 0 + Failed(i, false)) {
      TimesStrictInt(c.errorPercentThresholdToOpen, 0, i);
    }
  }

  lemma TimesStrictInt(n: int, x: int, y: int)
    requires n >= 1 && x < y
    ensures n * x < n * y
  {
  }

  // Successes first, then failures up to the threshold.
  lemma ReachThreshold(c: Config, ok: nat, errs: nat) returns (t: System)
    requires 1 <= c.errorPercentThresholdToOpen < 100 && errs >= 1 && ok + errs >= c.minimumRequestToOpen
    requires 100 * errs == c.errorPercentThresholdToOpen * (ok + errs)
    ensures Reachable(c, t) && AtThreshold(c, t) && t.phase.enough && WindowTotal(c, t.b) > 0
  {
    var first := FirstDecided(c);
    SuccessesBelow(c, ok);
    var succeeded := CallsBelow(c, first, ok, false);
    FailuresBelow(c, ok, errs);
    var almost := CallsBelow(c, succeeded, errs - 1, true);
    t := CallCounted(c, almost, true);
  }

  // The failures and successes among 100 * k results.
  lemma Shares(p: int, k: nat)
    requires 1 <= p < 100 && k >= 1
    ensures p * k >= 1 && (100 - p) * k >= 0 && (100 - p) * k + p * k == 100 * k
    ensures 100 * (p * k) == p * ((100 - p) * k + p * k)
  {
    assert (100 - p) * k == 100 * k - p * k;
    TimesInt(1, p, k);
    TimesInt(p, 100, k);
    assert p * (100 * k) == 100 * (p * k);
  }

  /** The documentation has a closed circuit open when the error percent is greater than the threshold. It
      opens at the threshold too: once the defaults are filled in there is a run to a decision at it, and
      the circuit opens, for exactly the thresholds that are percents from 1 to 100. */
  lemma OpensAtThresholdExactly(raw: Config)
    ensures var c := Defaults(raw);
            (exists s :: Reachable(c, s) && AtThreshold(c, s) && Apply(c, s, Post).b.state.Open?)
            <==> 1 <= c.errorPercentThresholdToOpen <= 100
  {
    var c := Defaults(raw);
    var p := c.errorPercentThresholdToOpen;
    if 1 <= p < 100 {
      var k := if c.minimumRequestToOpen >= 1 then c.minimumRequestToOpen else 1;
      Shares(p, k);
      var s := ReachThreshold(c, (100 - p) * k, p * k);
      TransitionsExactly(c, s, Post);
    } else if p == 100 {
      var first := FirstDecided(c);
      var s := Calls(c, first, if c.minimumRequestToOpen >= 1 then c.minimumRequestToOpen else 1, true);
      TransitionsExactly(c, s, Post);
    } else {
      forall s | AtThreshold(c, s) ensures !Apply(c, s, Post).b.state.Open? {
        NeverAtThreshold(p, WindowTotal(c, s.b), WindowErrors(c, s.b));
        FewerErrors(c, s.b);
        TransitionsExactly(c, s, Post);
      }
    }
  }

  lemma NeverAtThreshold(p: int, total: nat, errs: nat)
    requires p != 0 && !(1 <= p <= 100)
    ensures total > 0 && errs <= total ==> 100 * errs != p * total
  {
    if total > 0 && errs <= total {
      if p < 0 {
        TimesInt(p, -1, total);
      } else {
        TimesInt(101, p, total);
      }
    }
  }

  // The rule as documented.
  ghost predicate StrictlyExceeds(c: Config, s: System)
    requires s.phase.Counted?
  {
    var (total, errs) := (WindowTotal(c, s.b), WindowErrors(c, s.b));
    s.phase.enough && total > 0 && 100 * errs > c.errorPercentThresholdToOpen * total
  }

  /** Code and documentation agree on a decision exactly when it is not made at the threshold itself. */
  lemma StrictRuleAgreesExactly(c: Config, s: System)
    requires s.b.state.Closed? && Enabled(c, s, Post) && s.phase.enough && WindowTotal(c, s.b) > 0
    ensures (Apply(c, s, Post).b.state.Open? <==> StrictlyExceeds(c, s))
            <==> 100 * WindowErrors(c, s.b) != c.errorPercentThresholdToOpen * WindowTotal(c, s.b)
  {
    TransitionsExactly(c, s, Post);
  }

  // ---- exactly when a half-open visit keeps what is documented ----

  lemma StartVisit(c: Config) returns (t: System)
    requires c.errorPercentThresholdToOpen <= 100
    ensures Reachable(c, t) && t.b.state.HalfOpen? && t.phase.Decided?
    ensures TallyOf(t) == Tally(0, 0, 0) && WindowTotal(c, t.b) == 0 && WindowErrors(c, t.b) == 0
  {
    var open := FailToOpen(c);
    var wait: nat := if c.waitDurationInOpenState >= 0 then c.waitDurationInOpenState + 1 else 0;
    ReachableInv(c, open);
    ReachableStep(c, open, Elapse(wait));
    var later := Apply(c, open, Elapse(wait));
    ReachableStep(c, later, Pre);
    t := Apply(c, later, Pre);
    SinceResetAppend(open.b.log, Reset);
    RecentAppend(WindowSize(c), open.b.log, Reset, false);
    RecentAppend(WindowSize(c), open.b.log, Reset, true);
  }

  // In every visit that at most n ticks cross, closing means that no function failed.
  ghost predicate ClosesOnlyOnSuccess(c: Config, n: nat) {
    forall s | Reachable(c, s) && s.b.state.HalfOpen? && Enabled(c, s, Post) && TallyOf(s).slides <= n ::
      Apply(c, s, Post).b.state.Closed? ==> FailuresThisVisit(s.history) == 0
  }

  // And in every such visit opening means that some function failed.
  ghost predicate OpensOnlyOnFailure(c: Config, n: nat) {
    forall s | Reachable(c, s) && s.b.state.HalfOpen? && Enabled(c, s, Post) && TallyOf(s).slides <= n ::
      Apply(c, s, Post).b.state.Open? ==> FailuresThisVisit(s.history) > 0
  }

  // As many ticks as the window has buckets empty it; the visit remembers.
  lemma EmptyWindow(c: Config, s: System) returns (t: System)
    requires Reachable(c, s) && WindowSize(c) >= 2
    ensures Reachable(c, t) && t == s.(b := t.b) && t.b == s.b.(log := t.b.log)
    ensures WindowTotal(c, t.b) == 0 && WindowErrors(c, t.b) == 0
    ensures TallyOf(t) == TallyOf(s).(slides := TallyOf(s).slides + WindowSize(c))
  {
    t := s.(b := Slid(s.b, WindowSize(c)));
    ReachableTicks(c, s, WindowSize(c));
    TallyTicks(s, WindowSize(c));
    SlidRecent(WindowSize(c), s.b, WindowSize(c), false);
    SlidRecent(WindowSize(c), s.b, WindowSize(c), true);
  }

  lemma FailOnce(c: Config, s: System) returns (t: System)
    requires Reachable(c, s) && s.phase.Decided? && s.b.state.HalfOpen?
    ensures Reachable(c, t) && t.phase.Recorded? && t.b.state.HalfOpen?
    ensures TallyOf(t) == TallyOf(s).(results := TallyOf(s).results + 1, errs := TallyOf(s).errs + 1)
  {
    ReachableStep(c, s, Exec(true));
    var executed := Apply(c, s, Exec(true));
    ReachableStep(c, executed, Inc);
    t := Apply(c, executed, Inc);
    TallyAppend(s, t, Outcome(true));
  }

  // The first function fails, the window forgets it, and the visit goes on.
  lemma FailAndForget(c: Config) returns (t: System)
    requires c.errorPercentThresholdToOpen <= 100 && c.successfulRequiredOnHalfOpen >= 1 && WindowSize(c) >= 2
    ensures Reachable(c, t) && t.b.state.HalfOpen? && t.phase.Decided?
    ensures TallyOf(t) == Tally(1, 1, WindowSize(c)) && WindowTotal(c, t.b) == 0 && WindowErrors(c, t.b) == 0
  {
    var visit := StartVisit(c);
    var failed := FailOnce(c, visit);
    var slid := EmptyWindow(c, failed);
    ReachableStep(c, slid, Count);
    t := NextCall(c, Apply(c, slid, Count));
    assert TallyOf(t) == TallyOf(slid);
  }

  // K more succeed.
  lemma ForgottenFailure(c: Config) returns (s: System)
    requires c.errorPercentThresholdToOpen <= 100 && c.successfulRequiredOnHalfOpen >= 1 && WindowSize(c) >= 2
    ensures Reachable(c, s) && s.b.state.HalfOpen? && Enabled(c, s, Post) && Apply(c, s, Post).b.state.Closed?
    ensures TallyOf(s) == Tally(c.successfulRequiredOnHalfOpen + 1, 1, WindowSize(c))
    ensures RunsThisVisit(s.history) == c.successfulRequiredOnHalfOpen + 1 && FailuresThisVisit(s.history) == 1
  {
    var again := FailAndForget(c);
    s := Calls(c, again, c.successfulRequiredOnHalfOpen, false);
    TransitionsExactly(c, s, Post);
    ReachableInv(c, s);
  }

  // All K functions succeed, but the window is emptied between the two readings.
  lemma ForgottenSuccess(c: Config) returns (s: System)
    requires c.errorPercentThresholdToOpen <= 100 && c.successfulRequiredOnHalfOpen >= 1 && WindowSize(c) >= 2
    ensures Reachable(c, s) && s.b.state.HalfOpen? && Enabled(c, s, Post) && Apply(c, s, Post).b.state.Open?
    ensures TallyOf(s) == Tally(c.successfulRequiredOnHalfOpen, 0, WindowSize(c))
    ensures RunsThisVisit(s.history) == c.successfulRequiredOnHalfOpen && FailuresThisVisit(s.history) == 0
  {
    var visit := StartVisit(c);
    var counted := Calls(c, visit, c.successfulRequiredOnHalfOpen, false);
    s := EmptyWindow(c, counted);
    TransitionsExactly(c, s, Post);
    ReachableInv(c, s);
  }

  /** A half-open circuit is documented to close if all its executions succeeded and to open if not. For
      any circuit that can open, each half of that holds over all runs exactly when fewer ticks cross
      the visit than the window has buckets. */
  lemma HalfOpenHonestExactly(c: Config, n: nat)
    requires c.errorPercentThresholdToOpen <= 100 && c.successfulRequiredOnHalfOpen >= 1 && WindowSize(c) >= 2
    ensures ClosesOnlyOnSuccess(c, n) <==> n < WindowSize(c)
    ensures OpensOnlyOnFailure(c, n) <==> n < WindowSize(c)
  {
    if n < WindowSize(c) {
      forall s | Reachable(c, s) && s.b.state.HalfOpen? && Enabled(c, s, Post) && TallyOf(s).slides <= n
        ensures var next := Apply(c, s, Post).b.state;
                (next.Closed? ==> FailuresThisVisit(s.history) == 0)
                && (next.Open? ==> FailuresThisVisit(s.history) > 0)
      {
        HalfOpenVisitIsExact(c, s);
      }
    } else {
      var failure := ForgottenFailure(c);
      var success := ForgottenSuccess(c);
    }
  }
}
