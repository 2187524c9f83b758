/** The circuit breaker: an object over the bucket ring, and the log-based machine it refines. */
module CircuitBreaker {
  import opened BucketWindow

  datatype BreakerState = Closed | Open | HalfOpen

  datatype Config = Config(
    errorPercentThresholdToOpen: int,
    minimumRequestToOpen: int,
    successfulRequiredOnHalfOpen: int,
    waitDurationInOpenState: int,
    bucketQuantity: nat
  )

  const SECOND := 1_000_000_000

  function Defaults(c: Config): Config {
    Config(
      if c.errorPercentThresholdToOpen == 0 then 50 else c.errorPercentThresholdToOpen,
      if c.minimumRequestToOpen == 0 then 20 else c.minimumRequestToOpen,
      if c.successfulRequiredOnHalfOpen == 0 then 1 else c.successfulRequiredOnHalfOpen,
      if c.waitDurationInOpenState == 0 then 5 * SECOND else c.waitDurationInOpenState,
      if c.bucketQuantity == 0 then 10 else c.bucketQuantity)
  }

  // ---- the log-based machine ----

  datatype Breaker = Breaker(state: BreakerState, stateStarted: int, log: seq<Event>)

  function WindowSize(c: Config): nat {
    if c.bucketQuantity == 0 then 1 else c.bucketQuantity
  }

  function WindowTotal(c: Config, b: Breaker): nat {
    |Recent(WindowSize(c), b.log, false)|
  }

  function WindowErrors(c: Config, b: Breaker): nat {
    |Recent(WindowSize(c), b.log, true)|
  }

  function Move(b: Breaker, next: BreakerState, now: int): Breaker {
    if b.state != next then Breaker(next, now, b.log + [Reset]) else b
  }

  function PreDecide(c: Config, b: Breaker, now: int): Breaker {
    if b.state.Open? && now - b.stateStarted > c.waitDurationInOpenState then Move(b, HalfOpen, now) else b
  }

  // The float comparisons of the source: nothing compares with NaN.
  predicate AtMost(rate: Rate, bound: real) {
    rate.Rate? && rate.value <= bound
  }

  predicate AtLeast(rate: Rate, bound: real) {
    rate.Rate? && rate.value >= bound
  }

  // The first reading after an execution: are there results enough to decide on?
  predicate Enough(c: Config, b: Breaker) {
    match b.state
    case HalfOpen => WindowTotal(c, b) >= c.successfulRequiredOnHalfOpen
    case Closed => WindowTotal(c, b) >= c.minimumRequestToOpen
    case Open => false
  }

  // The second: the error rate, read under a lock of its own, so that ticks may have come between.
  function PostDecide(c: Config, b: Breaker, enough: bool, now: int): Breaker {
    var rate := Ratio(WindowErrors(c, b), WindowTotal(c, b));
    if !enough then b
    else
      match b.state
      case HalfOpen => Move(b, if AtMost(rate, 0.0) then Closed else Open, now)
      case Closed => if AtLeast(rate, c.errorPercentThresholdToOpen as real / 100.0) then Move(b, Open, now) else b
      case Open => b
  }

  function Record(b: Breaker, e: Event): Breaker {
    b.(log := b.log + [e])
  }

  function Slid(b: Breaker, times: nat): (r: Breaker)
    ensures r == b.(log := r.log)
  {
    if times == 0 then b else Record(Slid(b, times - 1), Slide)
  }

  // ---- one call, with the ticks that fall between its phases ----

  function BeforeExecution(c: Config, b: Breaker, ticks: seq<nat>, preNow: int): Breaker
    requires |ticks| == 4
  {
    Slid(PreDecide(c, b, preNow), ticks[0])
  }

  predicate Executes(c: Config, b: Breaker, ticks: seq<nat>, preNow: int)
    requires |ticks| == 4
  {
    !BeforeExecution(c, b, ticks, preNow).state.Open?
  }

  // A refusal is an error, and recorded as one.
  function AfterExecution(c: Config, b: Breaker, fails: bool, ticks: seq<nat>, preNow: int): Breaker
    requires |ticks| == 4
  {
    var err := !Executes(c, b, ticks, preNow) || fails;
    Slid(Record(Slid(BeforeExecution(c, b, ticks, preNow), ticks[1]), Outcome(err)), ticks[2])
  }

  function AfterCall(c: Config, b: Breaker, fails: bool, ticks: seq<nat>, preNow: int, postNow: int): Breaker
    requires |ticks| == 4
  {
    var recorded := AfterExecution(c, b, fails, ticks, preNow);
    PostDecide(c, Slid(recorded, ticks[3]), Enough(c, recorded), postNow)
  }

  // ---- the object ----

  class CircuitBreaker {
    const cfg: Config
    const recorder: Window
    var state: BreakerState
    var stateStarted: int

    ghost predicate Valid()
      reads this, recorder, recorder.window, recorder.Repr()
    {
      this !in recorder.Repr() && recorder.Valid() && recorder.windowSize == WindowSize(cfg)
    }

    ghost function View(): Breaker
      reads this, recorder
    {
      Breaker(state, stateStarted, recorder.log)
    }

    constructor (c: Config, now: int)
      ensures Valid() && fresh(recorder.Repr()) && cfg == Defaults(c)
      ensures View() == Breaker(Closed, now, [Reset])
      ensures cfg.errorPercentThresholdToOpen ==
              if c.errorPercentThresholdToOpen == 0 then 50 else c.errorPercentThresholdToOpen
      ensures cfg.minimumRequestToOpen == if c.minimumRequestToOpen == 0 then 20 else c.minimumRequestToOpen
      ensures cfg.successfulRequiredOnHalfOpen ==
              if c.successfulRequiredOnHalfOpen == 0 then 1 else c.successfulRequiredOnHalfOpen
      ensures cfg.waitDurationInOpenState ==
              if c.waitDurationInOpenState == 0 then 5_000_000_000 else c.waitDurationInOpenState
      ensures recorder.windowSize == if c.bucketQuantity == 0 then 10 else c.bucketQuantity
    {
      cfg := Defaults(c);
      var window := new Window(Defaults(c).bucketQuantity);
      recorder := window;
      state, stateStarted := Closed, now;
    }

    method MoveState(next: BreakerState, now: int)
      requires Valid()
      modifies this, recorder
      ensures Valid() && fresh(recorder.Repr() - old(recorder.Repr()))
      ensures View() == Move(old(View()), next, now)
    {
      // Only change if the state changed.
      if state != next {
        state := next;
        stateStarted := now;
        recorder.ResetBuckets();
      }
    }

    method PreDecideState(now: int)
      requires Valid()
      modifies this, recorder
      ensures Valid() && fresh(recorder.Repr() - old(recorder.Repr()))
      ensures View() == PreDecide(cfg, old(View()), now)
    {
      if state == Open {
        if now - stateStarted > cfg.waitDurationInOpenState {
          MoveState(HalfOpen, now);
        }
      }
    }

    method EnoughResults() returns (enough: bool)
      requires Valid()
      ensures enough == Enough(cfg, View())
    {
      match state {
        case HalfOpen =>
          var total := recorder.TotalRequests();
          enough := total >= cfg.successfulRequiredOnHalfOpen;
        case Closed =>
          var total := recorder.TotalRequests();
          enough := total >= cfg.minimumRequestToOpen;
        case Open =>
          enough := false;
      }
    }

    method DecideByRate(now: int)
      requires Valid()
      modifies this, recorder
      ensures Valid() && fresh(recorder.Repr() - old(recorder.Repr()))
      ensures View() == PostDecide(cfg, old(View()), true, now)
    {
      var rate := recorder.ErrorRate();
      match state {
        case HalfOpen =>
          var next := Open;
          if AtMost(rate, 0.0) {
            next := Closed;
          }
          MoveState(next, now);
        case Closed =>
          if AtLeast(rate, cfg.errorPercentThresholdToOpen as real / 100.0) {
            MoveState(Open, now);
          }
        case Open =>
      }
    }

    method PostDecideState(ticks: nat, now: int)
      requires Valid() && (ticks > 0 ==> recorder.windowSize >= 2)
      modifies this, recorder, recorder.window
      ensures Valid() && fresh(recorder.Repr() - old(recorder.Repr()))
      ensures View() == PostDecide(cfg, Slid(old(View()), ticks), Enough(cfg, old(View())), now)
    {
      var enough := EnoughResults();
      Tick(ticks);
      if enough {
        DecideByRate(now);
      }
    }

    method DecideBefore(ticks: nat, now: int) returns (execute: bool)
      requires Valid() && (ticks > 0 ==> recorder.windowSize >= 2)
      modifies this, recorder, recorder.window
      ensures Valid() && fresh(recorder.Repr() - old(recorder.Repr()))
      ensures View() == Slid(PreDecide(cfg, old(View()), now), ticks) && execute == !View().state.Open?
    {
      PreDecideState(now);
      Tick(ticks);
      execute := state != Open;
    }

    method RecordResult(failed: bool, before: nat, after: nat)
      requires Valid() && (before > 0 || after > 0 ==> recorder.windowSize >= 2)
      modifies recorder, recorder.window, recorder.Repr()
      ensures Valid() && fresh(recorder.Repr() - old(recorder.Repr()))
      ensures View() == Slid(Record(Slid(old(View()), before), Outcome(failed)), after)
    {
      Tick(before);
      recorder.Inc(failed);
      Tick(after);
    }

    // The first half of a call: decide, execute or refuse, record.
    method ExecuteAndRecord(fails: bool, ticks: seq<nat>, now: int) returns (executed: bool, err: bool)
      requires Valid() && |ticks| == 4 && (ticks != [0, 0, 0, 0] ==> recorder.windowSize >= 2)
      modifies this, recorder, recorder.window, recorder.Repr()
      ensures Valid() && fresh(recorder.Repr() - old(recorder.Repr()))
      ensures executed == Executes(cfg, old(View()), ticks, now) && err == (!executed || fails)
      ensures View() == AfterExecution(cfg, old(View()), fails, ticks, now)
    {
      executed := DecideBefore(ticks[0], now);
      err := !executed || fails;
      RecordResult(err, ticks[1], ticks[2]);
    }

    /** One call of Run by the only caller, with the ticks of the window slider and the clock readings
        that fall between its phases. `fails` is what f would return. */
    method Run(fails: bool, ticks: seq<nat>, preNow: int, postNow: int) returns (executed: bool, err: bool)
      requires Valid() && |ticks| == 4 && (ticks != [0, 0, 0, 0] ==> recorder.windowSize >= 2)
      modifies this, recorder, recorder.window, recorder.Repr()
      ensures Valid() && fresh(recorder.Repr() - old(recorder.Repr()))
      ensures executed == Executes(cfg, old(View()), ticks, preNow) && err == (!executed || fails)
      ensures View() == AfterCall(cfg, old(View()), fails, ticks, preNow, postNow)
    {
      executed, err := ExecuteAndRecord(fails, ticks, preNow);
      PostDecideState(ticks[3], postNow);
    }

    method Tick(times: nat)
      requires Valid() && (times > 0 ==> recorder.windowSize >= 2)
      modifies recorder, recorder.window
      ensures Valid() && fresh(recorder.Repr() - old(recorder.Repr()))
      ensures View() == Slid(old(View()), times)
    {
      for i := 0 to times
        invariant Valid() && fresh(recorder.Repr() - old(recorder.Repr()))
        invariant View() == Slid(old(View()), i)
        invariant recorder.window == old(recorder.window)
      {
        var ok := recorder.SlideWindow();
      }
    }
  }
}
