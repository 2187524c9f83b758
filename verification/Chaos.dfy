/** The failure injector: a feedback loop that keeps the share of failed runs at a configured percent. */
module Chaos {
  datatype Status = Accepted | InvalidPercent

  class Injector {
    var latency: int
    var errorPercent: int

    ghost predicate Valid()
      reads this
    {
      0 <= errorPercent <= 100
    }

    constructor ()
      ensures Valid() && errorPercent == 0 && latency == 100_000_000
    {
      latency, errorPercent := 100_000_000, 0;
    }

    method SetErrorPercent(percent: int) returns (status: Status)
      requires Valid()
      modifies this`errorPercent
      ensures Valid()
      ensures if 0 <= percent <= 100 then status == Accepted && errorPercent == percent
              else status == InvalidPercent && errorPercent == old(errorPercent)
    {
      if percent > 100 || percent < 0 {
        return InvalidPercent;
      }
      errorPercent := percent;
      status := Accepted;
    }
  }

  datatype Counters = Counters(errs: nat, total: nat)

  /** What a run does not decide itself: whether the inner runner fails, whether the float percentage comes
      out just below an exact integer, and what int(NaN) is on the very first run. The shares 0 and 1 are
      exact as floats, and so are their percentages. */
  datatype Circumstance = Circumstance(innerFails: bool, roundsDown: bool, nan: int)

  // int((errs / total) * 100)
  function ErrorPercent(s: Counters, w: Circumstance): int {
    if s.total == 0 then w.nan
    else
      var exact := 100 * s.errs / s.total;
      if 0 < s.errs < s.total && 100 * s.errs % s.total == 0 && w.roundsDown then exact - 1 else exact
  }

  predicate Injects(percent: int, s: Counters, w: Circumstance) {
    ErrorPercent(s, w) < percent
  }

  function Next(percent: int, s: Counters, w: Circumstance): Counters {
    Counters(s.errs + (if Injects(percent, s, w) || w.innerFails then 1 else 0), s.total + 1)
  }

  function After(percent: int, s: Counters, runs: seq<Circumstance>): Counters {
    if runs == [] then s else Next(percent, After(percent, s, runs[..|runs| - 1]), runs[|runs| - 1])
  }

  class FailureInjector {
    const injector: Injector
    var total: nat
    var errs: nat

    constructor (injector: Injector)
      requires injector.Valid()
      ensures Valid() && this.injector == injector && View() == Counters(0, 0)
    {
      this.injector := injector;
      total, errs := 0, 0;
    }

    ghost function View(): Counters
      reads this
    {
      Counters(errs, total)
    }

    ghost predicate Valid()
      reads this, injector
    {
      injector.Valid() && errs <= total
    }

    method CurrentErrPerc(w: Circumstance) returns (percent: int)
      ensures percent == ErrorPercent(View(), w)
    {
      percent := w.nan;
      if total != 0 {
        percent := 100 * errs / total;
        if 0 < errs < total && 100 * errs % total == 0 && w.roundsDown {
          percent := percent - 1;
        }
      }
    }

    /** Each run pulls the share of failures towards the configured percent: the deficit shrinks by at
        least 100 - p until it is within p, and the surplus by at least p until it is within 100 - p
        unless the inner runner fails too. */
    method Run(w: Circumstance) returns (injected: bool, failed: bool)
      requires Valid()
      modifies this`total, this`errs
      ensures Valid() && total == old(total) + 1
      ensures var (p, before, after) := (injector.errorPercent, old(OwnDeficit()), OwnDeficit());
              && after <= Max(p, before - (100 - p))
              && (!w.innerFails ==> -after <= Max(100 - p, -before - p))
      ensures injected == Injects(injector.errorPercent, old(View()), w)
      ensures failed == (injected || w.innerFails)
      ensures View() == Next(injector.errorPercent, old(View()), w)
    {
      var currentErrPerc := CurrentErrPerc(w);
      injected := currentErrPerc < injector.errorPercent;
      failed := injected || w.innerFails;
      total := total + 1;
      if failed {
        errs := errs + 1;
      }
      OneMoreRun(injector.errorPercent, old(View()), w);
    }

    ghost function OwnDeficit(): int
      reads this, injector
    {
      Deficit(injector.errorPercent, View())
    }
  }

  // ---- the discrepancy from the configured share, in hundredths of a run ----

  function Max(x: int, y: int): int {
    if x <= y then y else x
  }

  function Deficit(percent: int, s: Counters): int {
    percent * s.total - 100 * s.errs
  }

  // Below the share a run always injects, above it never does; on it, rounding decides.
  lemma InjectsBelow(percent: int, s: Counters, w: Circumstance)
    requires s.total > 0
    ensures Deficit(percent, s) > 0 ==> Injects(percent, s, w)
    ensures Deficit(percent, s) < 0 ==> !Injects(percent, s, w)
  {
    Quotient(100 * s.errs, s.total, percent);
  }

  lemma Quotient(a: int, n: int, p: int)
    requires n > 0
    ensures a < p * n ==> a / n < p
    ensures a > p * n ==> a / n >= p && (a % n == 0 ==> a / n > p)
  {
    var q, r := a / n, a % n;
    assert a == q * n + r;
    if q >= p {
      Scale(n, p, q);
    }
    if q <= p {
      Scale(n, q, p);
    }
    if q <= p - 1 {
      Scale(n, q, p - 1);
      assert n * (p - 1) == p * n - n;
    }
  }

  lemma Scale(n: int, x: int, y: int)
    requires n >= 0 && x <= y
    ensures n * x <= n * y && n * x == x * n && n * y == y * n
  {
  }

  // One run pulls the deficit back into [p - 100, p], or towards it.
  lemma OneMoreRun(percent: int, s: Counters, w: Circumstance)
    requires 0 <= percent <= 100 && s.errs <= s.total
    ensures var (before, after) := (Deficit(percent, s), Deficit(percent, Next(percent, s, w)));
            && after <= Max(percent, before - (100 - percent))
            && (!w.innerFails ==> -after <= Max(100 - percent, -before - percent))
  {
    DeficitStep(percent, s, w);
    if s.total > 0 {
      InjectsBelow(percent, s, w);
    } else {
      assert percent * 0 == 0;
    }
  }

  lemma Grows(k: nat, f: int)
    ensures (k + 1) * f == k * f + f
  {
  }

  lemma DeficitStep(percent: int, s: Counters, w: Circumstance)
    ensures Deficit(percent, Next(percent, s, w)) ==
            Deficit(percent, s) + percent - if Injects(percent, s, w) || w.innerFails then 100 else 0
  {
    assert percent * (s.total + 1) == percent * s.total + percent;
  }

  /** From any counters, after k runs at a constant percent the deficit is at most
      max(p, deficit - k * (100 - p)), whatever the inner runner returns: it shrinks at full speed and
      then stays within p. */
  lemma {:induction false} DeficitCatchesUp(percent: int, s: Counters, runs: seq<Circumstance>)
    requires 0 <= percent <= 100 && s.errs <= s.total
    ensures Deficit(percent, After(percent, s, runs)) <= Max(percent, Deficit(percent, s) - |runs| * (100 - percent))
  {
    if runs != [] {
      var init := runs[..|runs| - 1];
      var before, w := After(percent, s, init), runs[|runs| - 1];
      DeficitCatchesUp(percent, s, init);
      FreshCounters(percent, s, init);
      OneMoreRun(percent, before, w);
      Grows(|init|, 100 - percent);
    }
  }

  lemma {:induction false} FreshCounters(percent: int, s: Counters, runs: seq<Circumstance>)
    requires s.errs <= s.total
    ensures var t := After(percent, s, runs); t.errs <= t.total && t.total == s.total + |runs|
  {
    if runs != [] {
      FreshCounters(percent, s, runs[..|runs| - 1]);
    }
  }

  /** The surplus, when the inner runner never fails: at most max(100 - p, surplus - k * p). */
  lemma {:induction false} SurplusDecays(percent: int, s: Counters, runs: seq<Circumstance>)
    requires 0 <= percent <= 100 && s.errs <= s.total
    requires forall i | 0 <= i < |runs| :: !runs[i].innerFails
    ensures -Deficit(percent, After(percent, s, runs)) <= Max(100 - percent, -Deficit(percent, s) - |runs| * percent)
  {
    if runs != [] {
      var init := runs[..|runs| - 1];
      var before, w := After(percent, s, init), runs[|runs| - 1];
      SurplusDecays(percent, s, init);
      FreshCounters(percent, s, init);
      OneMoreRun(percent, before, w);
      Grows(|init|, percent);
    }
  }

  /** A new injector never strays: after n >= 1 runs with e failures p*n - p <= 100*e always, and
      100*e <= p*n + 100 - p if only the injector fails. */
  lemma Discrepancy(percent: int, runs: seq<Circumstance>)
    requires 0 <= percent <= 100 && |runs| >= 1
    ensures var t := After(percent, Counters(0, 0), runs);
            && t.total == |runs|
            && 100 * t.errs >= percent * |runs| - percent
            && ((forall i | 0 <= i < |runs| :: !runs[i].innerFails) ==>
                  100 * t.errs <= percent * |runs| + 100 - percent)
  {
    FreshCounters(percent, Counters(0, 0), runs);
    DeficitCatchesUp(percent, Counters(0, 0), runs);
    Scale(100 - percent, 0, |runs|);
    if forall i | 0 <= i < |runs| :: !runs[i].innerFails {
      SurplusDecays(percent, Counters(0, 0), runs);
      Scale(percent, 0, |runs|);
    }
  }

  // At the exact share rounding alone decides the next run.
  lemma OnTarget(percent: int, k: nat, w: Circumstance)
    requires 0 < percent < 100 && k >= 1
    ensures Injects(percent, Counters(percent * k, 100 * k), w) <==> w.roundsDown
  {
    var (errs, total) := (percent * k, 100 * k);
    Scale(k, 1, percent);
    Scale(k, percent, 99);
    assert 100 * errs == percent * total;
    assert 100 * errs / total == percent && 100 * errs % total == 0 by {
      Exact(percent, total);
    }
  }

  lemma Exact(q: int, n: int)
    requires n > 0
    ensures q * n / n == q && q * n % n == 0
  {
    Unique(q, n, q * n / n, q * n % n);
  }

  lemma Unique(q: int, n: int, d: int, r: int)
    requires n > 0 && q * n == d * n + r && 0 <= r < n
    ensures d == q && r == 0
  {
    if d < q {
      Scale(n, d + 1, q);
    } else if d > q {
      Scale(n, q + 1, d);
    }
  }

  // Only one number of failures is within the bounds after every hundred runs.
  lemma ShareIsExact(percent: int, k: nat, runs: seq<Circumstance>)
    requires 0 < percent < 100 && |runs| == 100 * k && k >= 1
    requires forall i | 0 <= i < |runs| :: !runs[i].innerFails
    ensures After(percent, Counters(0, 0), runs) == Counters(percent * k, 100 * k)
  {
    var t := After(percent, Counters(0, 0), runs);
    Discrepancy(percent, runs);
    TimesHundred(percent, k);
    OnlyOne(percent, percent * k, t.errs);
  }

  lemma TimesHundred(percent: int, k: int)
    ensures percent * (100 * k) == 100 * (percent * k)
  {
  }

  lemma OnlyOne(percent: int, share: int, errs: int)
    requires 0 < percent < 100 && 100 * share - percent <= 100 * errs <= 100 * share + 100 - percent
    ensures errs == share
  {
  }

  /** The bounds are sharp for ever: after every hundred runs the share is exact, whatever the rounding and
      int(NaN) were, and the next run meets the lower bound if the share is not rounded down and the upper
      one if it is. */
  lemma DiscrepancyIsSharp(percent: int, k: nat, runs: seq<Circumstance>, w: Circumstance)
    requires 0 < percent < 100 && k >= 1 && |runs| == 100 * k
    requires !w.innerFails && forall i | 0 <= i < |runs| :: !runs[i].innerFails
    ensures After(percent, Counters(0, 0), runs) == Counters(percent * k, 100 * k)
    ensures var t := After(percent, Counters(0, 0), runs + [w]);
            && t.total == |runs| + 1
            && 100 * t.errs == percent * t.total + if w.roundsDown then 100 - percent else -percent
  {
    ShareIsExact(percent, k, runs);
    OnTarget(percent, k, w);
    assert (runs + [w])[..|runs|] == runs;
    DeficitStep(percent, Counters(percent * k, 100 * k), w);
    NoDeficit(percent, k);
  }

  lemma NoDeficit(percent: int, k: nat)
    ensures percent * k >= 0 ==> Deficit(percent, Counters(percent * k, 100 * k)) == 0
  {
  }

  // ---- the extreme percents, when only the injector fails ----

  // From the second run on, zero percent never injects and a hundred injects unless every run has failed.
  lemma ExtremesInject(s: Counters, w: Circumstance)
    requires s.errs <= s.total && s.total > 0
    ensures !Injects(0, s, w)
    ensures Injects(100, s, w) <==> s.errs < s.total
  {
    var exact := 100 * s.errs / s.total;
    if 100 * s.errs % s.total == 0 && s.errs > 0 {
      assert exact != 0;
    }
    if s.errs < s.total {
      Quotient(100 * s.errs, s.total, 100);
    } else {
      Quotient(100 * s.errs, s.total, 99);
    }
  }

  /** Zero percent fails a run exactly if the first one is failed, which takes a negative int(NaN); no
      later run is ever failed. */
  lemma {:induction false} ZeroPercentExactly(runs: seq<Circumstance>)
    requires forall i | 0 <= i < |runs| :: !runs[i].innerFails
    ensures After(0, Counters(0, 0), runs).errs == if runs != [] && runs[0].nan < 0 then 1 else 0
  {
    if |runs| > 1 {
      var init := runs[..|runs| - 1];
      ZeroPercentExactly(init);
      FreshCounters(0, Counters(0, 0), init);
      ExtremesInject(After(0, Counters(0, 0), init), runs[|runs| - 1]);
    } else if |runs| == 1 {
      assert After(0, Counters(0, 0), runs[..0]) == Counters(0, 0);
    }
  }

  /** A hundred percent lets exactly one run through: the first if int(NaN) is a hundred or more, and
      otherwise the second. */
  lemma {:induction false} HundredPercentExactly(runs: seq<Circumstance>)
    requires forall i | 0 <= i < |runs| :: !runs[i].innerFails
    ensures var t := After(100, Counters(0, 0), runs);
            t.total - t.errs == if |runs| >= 2 || (|runs| == 1 && runs[0].nan >= 100) then 1 else 0
  {
    if |runs| > 1 {
      var init := runs[..|runs| - 1];
      HundredPercentExactly(init);
      FreshCounters(100, Counters(0, 0), init);
      ExtremesInject(After(100, Counters(0, 0), init), runs[|runs| - 1]);
    } else if |runs| == 1 {
      assert After(100, Counters(0, 0), runs[..0]) == Counters(0, 0);
    }
  }
}
