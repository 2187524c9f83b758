/** The additive-increase / multiplicative-decrease limiter. */
module Aimd {
  const SECOND := 1_000_000_000

  datatype Config = Config(
    minimumLimit: int,
    slowStartThreshold: int,
    rttTimeout: int,
    backoffRatio: real,
    inflightFactor: int
  )

  function Defaults(c: Config): Config {
    Config(
      if c.minimumLimit == 0 then 10 else c.minimumLimit,
      c.slowStartThreshold,
      if c.rttTimeout == 0 then 2 * SECOND else c.rttTimeout,
      if c.backoffRatio < 0.5 || c.backoffRatio > 1.0 then 0.9 else c.backoffRatio,
      if c.inflightFactor == 0 then 1 else c.inflightFactor)
  }

  /** Field by field: what is set is kept, and what is not becomes 10, no threshold, two seconds, 0.9 (also
      for a ratio outside one half to one) and 1. */
  lemma DefaultsExactly(c: Config)
    ensures var d := Defaults(c);
            && (c.minimumLimit != 0 ==> d.minimumLimit == c.minimumLimit)
            && (c.minimumLimit == 0 ==> d.minimumLimit == 10)
            && d.slowStartThreshold == c.slowStartThreshold
            && (c.rttTimeout != 0 ==> d.rttTimeout == c.rttTimeout)
            && (c.rttTimeout == 0 ==> d.rttTimeout == 2_000_000_000)
            && (0.5 <= c.backoffRatio <= 1.0 ==> d.backoffRatio == c.backoffRatio)
            && (c.backoffRatio < 0.5 || c.backoffRatio > 1.0 ==> d.backoffRatio == 0.9)
            && (c.inflightFactor != 0 ==> d.inflightFactor == c.inflightFactor)
            && (c.inflightFactor == 0 ==> d.inflightFactor == 1)
  {
  }

  // What the defaults leave for the limiter to work with.
  predicate Sound(c: Config) {
    c.minimumLimit >= 1 && 0.5 <= c.backoffRatio <= 1.0 && c.inflightFactor >= 1
  }

  lemma DefaultsAreSound(c: Config)
    requires c.minimumLimit >= 0 && c.inflightFactor >= 0
    ensures Sound(Defaults(c))
  {
  }

  datatype Result = Success | Failure | Ignore

  // One call of MeasureSample: the time since the start, the in-flight executions, the result.
  datatype Sample = Sample(elapsed: int, inflight: int, result: Result)

  // int(x) of a float: truncation toward zero.
  function Truncate(x: real): int {
    if x >= 0.0 then x.Floor else -((-x).Floor)
  }

  function Max(x: real, y: real): real {
    if x <= y then y else x
  }

  function Decreased(c: Config, limit: real): real {
    var lower := limit * c.backoffRatio;
    if lower <= c.minimumLimit as real then c.minimumLimit as real else lower
  }

  predicate SlowStart(c: Config, limit: real) {
    Truncate(limit) < c.slowStartThreshold || c.slowStartThreshold == 0
  }

  function Increased(c: Config, limit: real): real
    requires limit > 0.0
  {
    if SlowStart(c, limit) then limit + 1.0 else limit + 1.0 * (1.0 / limit)
  }

  predicate Congestion(c: Config, s: Sample) {
    s.result.Failure? || (s.result.Success? && s.elapsed > c.rttTimeout)
  }

  predicate Accepted(c: Config, limit: real, s: Sample) {
    s.result.Success? && s.elapsed <= c.rttTimeout && s.inflight > Truncate(limit) * c.inflightFactor
  }

  function Next(c: Config, limit: real, s: Sample): real
    requires limit > 0.0
  {
    if Congestion(c, s) then Decreased(c, limit)
    else if Accepted(c, limit, s) then Increased(c, limit)
    else limit
  }

  /** One sample, in its own fields: see MeasureSample. */
  lemma NextExactly(c: Config, limit: real, s: Sample)
    requires Sound(c) && limit >= c.minimumLimit as real
    ensures s.result.Failure? || (s.result.Success? && s.elapsed > c.rttTimeout) ==>
              Next(c, limit, s) == Max(c.minimumLimit as real, limit * c.backoffRatio)
    ensures s.result.Success? && s.elapsed <= c.rttTimeout ==>
              Next(c, limit, s) == if s.inflight <= limit.Floor * c.inflightFactor then limit
                                   else if c.slowStartThreshold == 0 || limit.Floor < c.slowStartThreshold
                                   then limit + 1.0
                                   else limit + 1.0 / limit
    ensures s.result.Ignore? ==> Next(c, limit, s) == limit
  {
    var inverse := 1.0 / limit;
    assert 1.0 * inverse == inverse;
  }

  class Limiter {
    const cfg: Config
    var limit: real

    ghost predicate Valid()
      reads this
    {
      Sound(cfg) && limit >= cfg.minimumLimit as real
    }

    constructor (c: Config)
      requires c.minimumLimit >= 0 && c.inflightFactor >= 0
      ensures Valid() && cfg == Defaults(c)
      ensures limit == (if c.minimumLimit == 0 then 10 else c.minimumLimit) as real
      ensures cfg.slowStartThreshold == c.slowStartThreshold
      ensures cfg.rttTimeout == if c.rttTimeout == 0 then 2_000_000_000 else c.rttTimeout
      ensures cfg.backoffRatio == if 0.5 <= c.backoffRatio <= 1.0 then c.backoffRatio else 0.9
      ensures cfg.inflightFactor == if c.inflightFactor == 0 then 1 else c.inflightFactor
    {
      cfg := Defaults(c);
      limit := Defaults(c).minimumLimit as real;
    }

    /** A failure and a success after the timeout cut the limit by the ratio, not below the minimum; a
        success in time that finds more executions in flight than the limit allows raises it; anything
        else leaves it. The answer is the whole part of the limit. */
    method MeasureSample(s: Sample) returns (next: int)
      requires Valid()
      modifies this
      ensures Valid() && limit == Next(cfg, old(limit), s)
      ensures s.result.Failure? || (s.result.Success? && s.elapsed > cfg.rttTimeout) ==>
                limit == Max(cfg.minimumLimit as real, old(limit) * cfg.backoffRatio)
      ensures s.result.Success? && s.elapsed <= cfg.rttTimeout ==>
                limit == if s.inflight <= old(limit).Floor * cfg.inflightFactor then old(limit)
                         else if cfg.slowStartThreshold == 0 || old(limit).Floor < cfg.slowStartThreshold
                         then old(limit) + 1.0
                         else old(limit) + 1.0 / old(limit)
      ensures s.result.Ignore? ==> limit == old(limit)
      ensures next == limit.Floor && next as real <= limit < next as real + 1.0
    {
      var currentLimit := Truncate(limit);
      match s.result {
        case Success =>
          if s.elapsed > cfg.rttTimeout {
            next := DecreaseLimit();
            return;
          }
          if s.inflight > currentLimit * cfg.inflightFactor {
            next := IncreaseLimit();
            return;
          }
        case Failure =>
          next := DecreaseLimit();
          return;
        case Ignore =>
      }
      next := currentLimit;
    }

    method DecreaseLimit() returns (next: int)
      requires Valid()
      modifies this
      ensures Valid() && limit == Decreased(cfg, old(limit)) && next == Truncate(limit)
    {
      limit := limit * cfg.backoffRatio;
      var min := cfg.minimumLimit as real;
      if limit <= min {
        limit := min;
      }
      next := Truncate(limit);
    }

    method IncreaseLimit() returns (next: int)
      requires Valid()
      modifies this
      ensures Valid() && limit == Increased(cfg, old(limit)) && next == Truncate(limit)
    {
      if Truncate(limit) < cfg.slowStartThreshold || cfg.slowStartThreshold == 0 {
        limit := limit + 1.0;
      } else {
        limit := limit + (1.0 * (1.0 / limit));
      }
      next := Truncate(limit);
    }
  }

  // ---- arithmetic ----

  lemma Scale(f: real, x: real, y: real)
    requires f >= 0.0 && x <= y
    ensures f * x <= f * y
  {
  }

  lemma ProductSign(x: real, y: real)
    requires x >= 0.0 && y >= 0.0
    ensures x * y >= 0.0
    ensures x > 0.0 && y > 0.0 ==> x * y > 0.0
  {
  }

  lemma Shrink(x: real, r: real)
    requires x >= 0.0 && 0.0 < r <= 1.0
    ensures 0.0 <= x * r <= x
    ensures x > 0.0 ==> x * r > 0.0
  {
  }

  lemma Cancel(x: real, y: real, f: real)
    requires f > 0.0 && x * f <= y * f
    ensures x <= y
  {
    var g := 1.0 / f;
    assert g * f == 1.0;
    Scale(g, x * f, y * f);
    Regroup(g, x, f);
    Regroup(g, y, f);
  }

  lemma Regroup(g: real, x: real, f: real)
    requires g * f == 1.0
    ensures g * (x * f) == x
  {
    assert g * (x * f) == x * (g * f);
  }

  lemma TruncateOrder(x: real, y: real)
    requires 0.0 <= x <= y
    ensures Truncate(x) <= Truncate(y) && Truncate(x + 1.0) == Truncate(x) + 1
  {
  }

  lemma FactorOrder(x: int, f: int)
    requires x >= 0 && f >= 1
    ensures x * f >= x
  {
  }

  // ---- one sample ----

  lemma InverseBounds(x: real)
    requires x >= 1.0
    ensures 0.0 < 1.0 / x <= 1.0 && x * (1.0 / x) == 1.0 && 1.0 * (1.0 / x) == 1.0 / x
  {
  }

  // The limit never leaves its floor, and its integer part gains at most one.
  lemma NextBounds(c: Config, limit: real, s: Sample)
    requires Sound(c) && limit >= c.minimumLimit as real
    ensures Next(c, limit, s) >= c.minimumLimit as real
    ensures Truncate(Next(c, limit, s)) <= Truncate(limit) + 1
    ensures Truncate(Next(c, limit, s)) > Truncate(limit) ==> s.inflight > Truncate(limit)
  {
    if Congestion(c, s) {
      DecreaseBounds(c, limit);
    } else if Accepted(c, limit, s) {
      IncreaseBounds(c, limit);
      TruncateOrder(limit, limit);
      FactorOrder(Truncate(limit), c.inflightFactor);
    }
  }

  lemma DecreaseBounds(c: Config, limit: real)
    requires Sound(c) && limit >= c.minimumLimit as real
    ensures c.minimumLimit as real <= Decreased(c, limit) <= limit
    ensures Truncate(Decreased(c, limit)) <= Truncate(limit)
  {
    var lower := limit * c.backoffRatio;
    Shrink(limit, c.backoffRatio);
    assert Decreased(c, limit) == Max(lower, c.minimumLimit as real);
    TruncateOrder(Decreased(c, limit), limit);
  }

  lemma IncreaseBounds(c: Config, limit: real)
    requires limit >= 1.0
    ensures limit < Increased(c, limit) <= limit + 1.0
    ensures Truncate(Increased(c, limit)) <= Truncate(limit) + 1
  {
    InverseBounds(limit);
    TruncateOrder(Increased(c, limit), limit + 1.0);
    TruncateOrder(limit, limit);
  }

  // ---- any number of samples ----

  function After(c: Config, limit: real, samples: seq<Sample>): real
    requires Sound(c) && limit >= c.minimumLimit as real
    ensures After(c, limit, samples) >= c.minimumLimit as real
  {
    if samples == [] then limit
    else
      NextBounds(c, After(c, limit, samples[..|samples| - 1]), samples[|samples| - 1]);
      Next(c, After(c, limit, samples[..|samples| - 1]), samples[|samples| - 1])
  }

  // x * r^k, one factor at a time.
  function Cut(x: real, r: real, k: nat): real {
    if k == 0 then x else Cut(x, r, k - 1) * r
  }

  lemma {:induction false} CutBounds(x: real, r: real, k: nat)
    requires x > 0.0 && 0.0 < r <= 1.0
    ensures 0.0 < Cut(x, r, k) <= x
  {
    if k > 0 {
      CutBounds(x, r, k - 1);
      BoundsStep(x, Cut(x, r, k - 1), r);
    }
  }

  lemma BoundsStep(x: real, p: real, r: real)
    requires 0.0 < p <= x && 0.0 < r <= 1.0
    ensures 0.0 < p * r <= x
  {
    Shrink(p, r);
  }

  /** k congestion signals in a row leave exactly max(Min, limit * r^k): cutting at the floor on the way
      loses nothing. */
  lemma {:induction false} BackOffClosedForm(c: Config, limit: real, samples: seq<Sample>)
    requires Sound(c) && limit >= c.minimumLimit as real
    requires forall i | 0 <= i < |samples| ::
               samples[i].result.Failure? || (samples[i].result.Success? && samples[i].elapsed > c.rttTimeout)
    ensures After(c, limit, samples) == Max(c.minimumLimit as real, Cut(limit, c.backoffRatio, |samples|))
  {
    if samples != [] {
      var init := samples[..|samples| - 1];
      BackOffClosedForm(c, limit, init);
      AfterCongestion(c, limit, samples);
      DecreaseOfCut(c, limit, |init|);
    }
  }

  lemma AfterCongestion(c: Config, limit: real, samples: seq<Sample>)
    requires Sound(c) && limit >= c.minimumLimit as real && samples != [] && Congestion(c, samples[|samples| - 1])
    ensures After(c, limit, samples) == Decreased(c, After(c, limit, samples[..|samples| - 1]))
  {
  }

  lemma DecreaseOfCut(c: Config, limit: real, n: nat)
    requires Sound(c) && limit >= c.minimumLimit as real
    ensures Decreased(c, Max(c.minimumLimit as real, Cut(limit, c.backoffRatio, n))) ==
            Max(c.minimumLimit as real, Cut(limit, c.backoffRatio, n + 1))
  {
    CutBounds(limit, c.backoffRatio, n);
    DecreaseOfMax(c, Cut(limit, c.backoffRatio, n));
  }

  lemma DecreaseOfMax(c: Config, x: real)
    requires Sound(c) && x > 0.0
    ensures Decreased(c, Max(c.minimumLimit as real, x)) == Max(c.minimumLimit as real, x * c.backoffRatio)
  {
    var (min, r) := (c.minimumLimit as real, c.backoffRatio);
    if x <= min {
      StaysBelow(min, r, min);
      StaysBelow(x, r, min);
      assert Max(min, x) == min;
      assert Decreased(c, min) == Max(min * r, min);
    } else {
      assert Max(min, x) == x;
      assert Decreased(c, x) == Max(x * r, min);
    }
  }

  lemma StaysBelow(x: real, r: real, min: real)
    requires 0.0 < r <= 1.0 && 0.0 < x <= min
    ensures x * r <= min
  {
    Shrink(x, r);
  }

  // Bernoulli's inequality for x * r^k, multiplied out.
  lemma {:induction false} Bernoulli(x: real, r: real, k: nat)
    requires x > 0.0 && 0.0 < r <= 1.0
    ensures Cut(x, r, k) * (r + k as real * (1.0 - r)) <= x * r
  {
    if k == 0 {
      assert 0.0 * (1.0 - r) == 0.0;
    } else {
      Bernoulli(x, r, k - 1);
      CutBounds(x, r, k - 1);
      assert k as real == (k - 1) as real + 1.0;
      BernoulliStep(x, r, Cut(x, r, k - 1), (k - 1) as real);
    }
  }

  lemma BernoulliStep(x: real, r: real, p: real, m: real)
    requires 0.0 < r <= 1.0 && 0.0 < p <= x && p * (r + m * (1.0 - r)) <= x * r
    ensures (p * r) * (r + (m + 1.0) * (1.0 - r)) <= x * r
  {
    var q := 1.0 - r;
    var b := r + m * q;
    var (xr, rq) := (x * r, r * q);
    assert r + (m + 1.0) * q == b + q;
    ProductSign(r, q);
    Scale(r, p * b, xr);
    Scale(rq, p, x);
    Expand(p, r, b, q);
    Collect(x, r, q);
  }

  lemma Expand(p: real, r: real, b: real, q: real)
    ensures (p * r) * (b + q) == r * (p * b) + (r * q) * p
  {
  }

  lemma Collect(x: real, r: real, q: real)
    requires r + q == 1.0
    ensures r * (x * r) + (r * q) * x == x * r
  {
    assert r * (x * r) + (r * q) * x == (x * r) * (r + q);
  }

  /** With a ratio below one the floor is reached, after at most (limit/Min - 1) * r/(1 - r) signals. */
  lemma BackOffReachesMinimum(c: Config, limit: real, samples: seq<Sample>)
    requires Sound(c) && limit >= c.minimumLimit as real && c.backoffRatio < 1.0
    requires forall i | 0 <= i < |samples| ::
               samples[i].result.Failure? || (samples[i].result.Success? && samples[i].elapsed > c.rttTimeout)
    requires |samples| as real >= (limit / c.minimumLimit as real - 1.0) * (c.backoffRatio / (1.0 - c.backoffRatio))
    ensures After(c, limit, samples) == c.minimumLimit as real
  {
    BackOffClosedForm(c, limit, samples);
    CutReaches(limit, c.minimumLimit as real, c.backoffRatio, |samples|);
  }

  lemma CutReaches(limit: real, min: real, r: real, k: nat)
    requires limit > 0.0 && min > 0.0 && 0.0 < r < 1.0
    requires k as real >= (limit / min - 1.0) * (r / (1.0 - r))
    ensures Cut(limit, r, k) <= min
  {
    CutBounds(limit, r, k);
    Bernoulli(limit, r, k);
    EnoughSignals(limit, min, r, k as real);
    FloorReached(limit * r, min, r + k as real * (1.0 - r), Cut(limit, r, k));
  }

  lemma Positive(min: real, b: real)
    requires min > 0.0 && min * b > 0.0
    ensures b > 0.0
  {
  }

  lemma FloorReached(lr: real, min: real, b: real, p: real)
    requires lr > 0.0 && min > 0.0 && p > 0.0 && p * b <= lr <= min * b
    ensures p <= min
  {
    Positive(min, b);
    Cancel(p, min, b);
  }

  lemma EnoughSignals(limit: real, min: real, r: real, k: real)
    requires min > 0.0 && 0.0 < r < 1.0
    requires k >= (limit / min - 1.0) * (r / (1.0 - r))
    ensures limit * r <= min * (r + k * (1.0 - r))
  {
    var ratio, odds := limit / min, r / (1.0 - r);
    assert ratio * min == limit;
    assert odds * (1.0 - r) == r;
    Scale(1.0 - r, (ratio - 1.0) * odds, k);
    assert (1.0 - r) * ((ratio - 1.0) * odds) == (ratio - 1.0) * (odds * (1.0 - r));
    Scale(min, (ratio - 1.0) * r, k * (1.0 - r));
    assert min * ((ratio - 1.0) * r) == (ratio * min) * r - min * r;
  }

  // ---- growth ----

  // Every sample of the sequence finds more executions in flight than the limit allows, and in time.
  ghost predicate AllAccepted(c: Config, limit: real, samples: seq<Sample>)
    requires Sound(c) && limit >= c.minimumLimit as real
  {
    forall i | 0 <= i < |samples| :: Accepted(c, After(c, limit, samples[..i]), samples[i])
  }

  lemma AcceptedPrefix(c: Config, limit: real, samples: seq<Sample>, n: nat)
    requires Sound(c) && limit >= c.minimumLimit as real && n <= |samples| && AllAccepted(c, limit, samples)
    ensures AllAccepted(c, limit, samples[..n])
  {
    forall i | 0 <= i < n ensures Accepted(c, After(c, limit, samples[..n][..i]), samples[..n][i]) {
      assert samples[..n][..i] == samples[..i];
    }
  }

  function Square(x: real): real {
    x * x
  }

  lemma SquareStep(x: real)
    requires x >= 1.0
    ensures Square(x + 1.0 * (1.0 / x)) == Square(x) + 2.0 + 1.0 / Square(x)
  {
    InverseBounds(x);
    var y := 1.0 / x;
    assert Square(x + y) == Square(x) + 2.0 * (x * y) + y * y;
    assert (y * y) * Square(x) == (x * y) * (x * y) == 1.0;
  }

  lemma InverseOrder(x: real, y: real)
    requires 0.0 < x <= y
    ensures 1.0 / y <= 1.0 / x
  {
    assert (1.0 / x) * x == 1.0 && (1.0 / y) * y == 1.0;
    Scale(1.0 / x, x, y);
    Cancel(1.0 / y, 1.0 / x, y);
  }

  // start^2 + 2n <= last^2 <= start^2 + 2n + n/start^2
  ghost predicate SquareRootBand(start: real, n: real, last: real)
    requires start >= 1.0
  {
    Squares(1.0, start);
    Square(start) + 2.0 * n <= Square(last) <= Square(start) + 2.0 * n + n * (1.0 / Square(start))
  }

  // Beyond the threshold every accepted sample stays in the band.
  lemma {:induction false} RootBand(c: Config, limit: real, samples: seq<Sample>)
    requires Sound(c) && limit >= c.minimumLimit as real && !SlowStart(c, limit)
    requires AllAccepted(c, limit, samples)
    ensures var last := After(c, limit, samples);
            !SlowStart(c, last) && last >= limit && SquareRootBand(limit, |samples| as real, last)
  {
    if samples != [] {
      var init := samples[..|samples| - 1];
      AcceptedPrefix(c, limit, samples, |init|);
      RootBand(c, limit, init);
      AfterAccepted(c, limit, samples);
      OneIncrease(c, limit, After(c, limit, init), |init| as real);
    }
  }

  lemma AfterAccepted(c: Config, limit: real, samples: seq<Sample>)
    requires Sound(c) && limit >= c.minimumLimit as real && samples != [] && AllAccepted(c, limit, samples)
    ensures After(c, limit, samples) == Increased(c, After(c, limit, samples[..|samples| - 1]))
  {
    assert Accepted(c, After(c, limit, samples[..|samples| - 1]), samples[|samples| - 1]);
  }

  lemma OneIncrease(c: Config, start: real, before: real, n: real)
    requires 1.0 <= start <= before && n >= 0.0 && !SlowStart(c, before)
    requires SquareRootBand(start, n, before)
    ensures var after := Increased(c, before);
            after >= before && !SlowStart(c, after) && SquareRootBand(start, n + 1.0, after)
  {
    InverseBounds(before);
    SquareStep(before);
    Squares(1.0, start);
    Squares(start, before);
    GrowthStep(Square(start), Square(before), n);
    TruncateOrder(before, Increased(c, before));
  }

  lemma Squares(x: real, y: real)
    requires 1.0 <= x <= y
    ensures 1.0 <= Square(x) <= Square(y)
  {
    Scale(x, 1.0, x);
    Scale(x, x, y);
    Scale(y, x, y);
  }

  lemma GrowthStep(start: real, before: real, n: real)
    requires start >= 1.0 && n >= 0.0
    requires start + 2.0 * n <= before <= start + 2.0 * n + n * (1.0 / start)
    ensures var after := before + 2.0 + 1.0 / before;
            start + 2.0 * (n + 1.0) <= after <= start + 2.0 * (n + 1.0) + (n + 1.0) * (1.0 / start)
  {
    InverseOrder(start, before);
    InverseBounds(before);
  }

  // How many unit steps slow start still takes.
  function SlowSteps(c: Config, limit: real): nat {
    if c.slowStartThreshold == 0 || Truncate(limit) >= c.slowStartThreshold then 0
    else c.slowStartThreshold - Truncate(limit)
  }

  lemma {:induction false} SlowStartGrowth(c: Config, limit: real, samples: seq<Sample>)
    requires Sound(c) && limit >= c.minimumLimit as real
    requires AllAccepted(c, limit, samples)
    requires c.slowStartThreshold == 0 || |samples| <= SlowSteps(c, limit)
    ensures After(c, limit, samples) == limit + |samples| as real
  {
    if samples != [] {
      var init := samples[..|samples| - 1];
      AcceptedPrefix(c, limit, samples, |init|);
      SlowStartGrowth(c, limit, init);
      assert Accepted(c, After(c, limit, init), samples[|init|]);
      assert Truncate(limit + |init| as real) == Truncate(limit) + |init|;
    }
  }

  // ---- the two phases together ----

  lemma {:induction false} AfterSplit(c: Config, limit: real, first: seq<Sample>, second: seq<Sample>)
    requires Sound(c) && limit >= c.minimumLimit as real
    ensures After(c, limit, first + second) == After(c, After(c, limit, first), second)
    decreases |second|
  {
    if second == [] {
      assert first + second == first;
    } else {
      var init := second[..|second| - 1];
      assert (first + second)[..|first + second| - 1] == first + init;
      AfterSplit(c, limit, first, init);
    }
  }

  lemma AfterPrefix(c: Config, limit: real, samples: seq<Sample>, n: nat, i: nat)
    requires Sound(c) && limit >= c.minimumLimit as real && n + i <= |samples|
    ensures After(c, After(c, limit, samples[..n]), samples[n..][..i]) == After(c, limit, samples[..n + i])
  {
    AfterSplit(c, limit, samples[..n], samples[n..][..i]);
    assert samples[..n] + samples[n..][..i] == samples[..n + i];
  }

  lemma AcceptedSuffix(c: Config, limit: real, samples: seq<Sample>, n: nat)
    requires Sound(c) && limit >= c.minimumLimit as real && n <= |samples| && AllAccepted(c, limit, samples)
    ensures AllAccepted(c, After(c, limit, samples[..n]), samples[n..])
  {
    var middle := After(c, limit, samples[..n]);
    forall i | 0 <= i < |samples| - n ensures Accepted(c, After(c, middle, samples[n..][..i]), samples[n..][i]) {
      AfterPrefix(c, limit, samples, n, i);
      assert Accepted(c, After(c, limit, samples[..n + i]), samples[n + i]);
    }
  }

  // The first m samples were unit steps; the others follow the square-root band from there.
  ghost predicate GrownPast(c: Config, limit: real, samples: seq<Sample>, m: nat)
    requires Sound(c) && limit >= c.minimumLimit as real && m <= |samples|
  {
    var threshold := After(c, limit, samples[..m]);
    threshold == limit + m as real && SquareRootBand(threshold, |samples[m..]| as real, After(c, limit, samples))
  }

  lemma SlowStartEnds(c: Config, limit: real, samples: seq<Sample>)
    requires Sound(c) && limit >= c.minimumLimit as real && c.slowStartThreshold != 0
    requires AllAccepted(c, limit, samples) && |samples| == SlowSteps(c, limit)
    ensures After(c, limit, samples) == limit + |samples| as real && !SlowStart(c, After(c, limit, samples))
  {
    SlowStartGrowth(c, limit, samples);
    assert Truncate(limit + |samples| as real) == Truncate(limit) + |samples|;
  }

  lemma GrowthPastThreshold(c: Config, limit: real, samples: seq<Sample>)
    requires Sound(c) && limit >= c.minimumLimit as real && c.slowStartThreshold != 0
    requires AllAccepted(c, limit, samples) && |samples| > SlowSteps(c, limit)
    ensures GrownPast(c, limit, samples, SlowSteps(c, limit))
  {
    var m := SlowSteps(c, limit);
    AcceptedPrefix(c, limit, samples, m);
    SlowStartEnds(c, limit, samples[..m]);
    AcceptedSuffix(c, limit, samples, m);
    AfterSplit(c, limit, samples[..m], samples[m..]);
    assert samples[..m] + samples[m..] == samples;
    RootBand(c, After(c, limit, samples[..m]), samples[m..]);
  }

  // Every sample is a success in time that finds more executions in flight than the limit then allows.
  ghost predicate AllRaise(c: Config, limit: real, samples: seq<Sample>)
    requires Sound(c) && limit >= c.minimumLimit as real
  {
    forall i | 0 <= i < |samples| ::
      && samples[i].result.Success? && samples[i].elapsed <= c.rttTimeout
      && samples[i].inflight > After(c, limit, samples[..i]).Floor * c.inflightFactor
  }

  lemma RaisedIsAccepted(c: Config, limit: real, samples: seq<Sample>)
    requires Sound(c) && limit >= c.minimumLimit as real && AllRaise(c, limit, samples)
    ensures AllAccepted(c, limit, samples)
  {
    forall i | 0 <= i < |samples| ensures Accepted(c, After(c, limit, samples[..i]), samples[i]) {
      assert samples[i].inflight > After(c, limit, samples[..i]).Floor * c.inflightFactor;
    }
  }

  /** Beyond the threshold the limit grows like a square root: after n such samples
      limit^2 + 2n <= L^2 <= limit^2 + 2n + n/limit^2. */
  lemma SquareRootGrowth(c: Config, limit: real, samples: seq<Sample>)
    requires Sound(c) && limit >= c.minimumLimit as real && c.slowStartThreshold != 0
    requires limit.Floor >= c.slowStartThreshold && AllRaise(c, limit, samples)
    ensures After(c, limit, samples) >= limit
    ensures SquareRootBand(limit, |samples| as real, After(c, limit, samples))
  {
    RaisedIsAccepted(c, limit, samples);
    RootBand(c, limit, samples);
  }

  /** With slow start: such samples are unit steps up to the threshold, and beyond it the square-root band
      begins where those ended. */
  lemma AcceptedGrowth(c: Config, limit: real, samples: seq<Sample>)
    requires Sound(c) && limit >= c.minimumLimit as real && c.slowStartThreshold != 0 && AllRaise(c, limit, samples)
    ensures var steps := if limit.Floor >= c.slowStartThreshold then 0 else c.slowStartThreshold - limit.Floor;
            if |samples| <= steps then After(c, limit, samples) == limit + |samples| as real
            else GrownPast(c, limit, samples, steps)
  {
    RaisedIsAccepted(c, limit, samples);
    if |samples| <= SlowSteps(c, limit) {
      SlowStartGrowth(c, limit, samples);
    } else {
      GrowthPastThreshold(c, limit, samples);
    }
  }

  /** Without a threshold every such sample is a unit step. */
  lemma EndlessSlowStart(c: Config, limit: real, samples: seq<Sample>)
    requires Sound(c) && limit >= c.minimumLimit as real && c.slowStartThreshold == 0 && AllRaise(c, limit, samples)
    ensures After(c, limit, samples) == limit + |samples| as real
  {
    RaisedIsAccepted(c, limit, samples);
    SlowStartGrowth(c, limit, samples);
  }
}
