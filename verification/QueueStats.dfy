/** The size and busy-time statistic of the dynamic queue, kept under its own lock. */
module QueueStats {
  datatype Stats = Stats(size: int, lastTimeEmpty: int)

  function Inc(q: Stats, now: int): Stats {
    Stats(q.size + 1, if q.size <= 0 then now else q.lastTimeEmpty)
  }

  function Decr(q: Stats, now: int): Stats {
    Stats(q.size - 1, if q.size - 1 <= 0 then now else q.lastTimeEmpty)
  }

  // SinceLastEmpty also writes: asking an empty queue moves lastTimeEmpty.
  function SinceLastEmpty(q: Stats, now: int): (Stats, int) {
    var last := if q.size <= 0 then now else q.lastTimeEmpty;
    (q.(lastTimeEmpty := last), now - last)
  }

  // ---- the reference: the history of every size the queue has had ----

  datatype Sample = Sample(at: int, size: int)

  ghost predicate Chronological(history: seq<Sample>) {
    forall i, k | 0 <= i < k < |history| :: history[i].at <= history[k].at
  }

  // The queue was already non-empty before `from` and has had no other size than a positive one since.
  ghost predicate BusyThroughout(history: seq<Sample>, from: int) {
    exists k | 0 <= k < |history| :: history[k].at < from && PositiveFrom(history, k)
  }

  ghost predicate PositiveFrom(history: seq<Sample>, k: nat) {
    forall i | k <= i < |history| :: history[i].size > 0
  }

  // Where the current busy period starts: everything since `start` is positive, what precedes it is not.
  ghost predicate BusyPeriodStart(history: seq<Sample>, start: nat) {
    0 < start < |history| && PositiveFrom(history, start) && history[start - 1].size <= 0
  }

  // The statistic agrees with the history.
  ghost predicate Refines(q: Stats, history: seq<Sample>, now: int) {
    && Chronological(history)
    && |history| > 0
    && history[0].size == 0
    && history[|history| - 1].size == q.size
    && history[|history| - 1].at <= now
    && (q.size > 0 ==> exists start: nat :: BusyPeriodStart(history, start) && history[start].at == q.lastTimeEmpty)
  }

  lemma IncRefines(q: Stats, history: seq<Sample>, now: int)
    requires Refines(q, history, now)
    ensures Refines(Inc(q, now), history + [Sample(now, q.size + 1)], now)
  {
    var next := history + [Sample(now, q.size + 1)];
    if q.size > 0 {
      var start: nat :| BusyPeriodStart(history, start) && history[start].at == q.lastTimeEmpty;
      assert BusyPeriodStart(next, start);
    } else if q.size == 0 {
      assert BusyPeriodStart(next, |history|);
    }
  }

  lemma DecrRefines(q: Stats, history: seq<Sample>, now: int)
    requires Refines(q, history, now)
    ensures Refines(Decr(q, now), history + [Sample(now, q.size - 1)], now)
  {
    var next := history + [Sample(now, q.size - 1)];
    if q.size - 1 > 0 {
      var start: nat :| BusyPeriodStart(history, start) && history[start].at == q.lastTimeEmpty;
      assert BusyPeriodStart(next, start);
    }
  }

  /** What the CoDel test means: more than `interval` since the last empty moment exactly when the
      queue has never been empty at any instant of the last `interval`, ends included. */
  lemma CongestedIffBusyThroughout(q: Stats, history: seq<Sample>, now: int, interval: int)
    requires Refines(q, history, now) && interval >= 0
    ensures SinceLastEmpty(q, now).1 > interval <==> BusyThroughout(history, now - interval)
  {
    if q.size > 0 {
      var start: nat :| BusyPeriodStart(history, start) && history[start].at == q.lastTimeEmpty;
      if q.lastTimeEmpty < now - interval {
        assert history[start].at < now - interval && PositiveFrom(history, start);
      }
      if k :| 0 <= k < |history| && history[k].at < now - interval && PositiveFrom(history, k) {
        assert start <= k;
      }
    } else {
      assert history[|history| - 1].size <= 0;
    }
  }

  // ---- the object ----

  /** The object, with the history of its sizes as ghost state: its methods keep the two in agreement. */
  class StatsCounter {
    var lastTimeEmpty: int
    var size: int
    ghost var history: seq<Sample>

    ghost function View(): Stats
      reads this
    {
      Stats(size, lastTimeEmpty)
    }

    // The clock does not run backwards: `now` is no earlier than the last change.
    ghost predicate Valid(now: int)
      reads this
    {
      Refines(View(), history, now)
    }

    constructor (zeroTime: int)
      ensures Valid(zeroTime)
      ensures View() == Stats(0, zeroTime) && history == [Sample(zeroTime, 0)]
    {
      lastTimeEmpty, size := zeroTime, 0;
      history := [Sample(zeroTime, 0)];
    }

    method IncAt(now: int)
      requires Valid(now)
      modifies this
      ensures Valid(now) && View() == Inc(old(View()), now)
      ensures history == old(history) + [Sample(now, old(size) + 1)]
    {
      IncRefines(View(), history, now);
      if size <= 0 {
        lastTimeEmpty := now;
      }
      size := size + 1;
      history := history + [Sample(now, size)];
    }

    method DecrAt(now: int)
      requires Valid(now)
      modifies this
      ensures Valid(now) && View() == Decr(old(View()), now)
      ensures history == old(history) + [Sample(now, old(size) - 1)]
    {
      DecrRefines(View(), history, now);
      size := size - 1;
      if size <= 0 {
        lastTimeEmpty := now;
      }
      history := history + [Sample(now, size)];
    }

    /** The answer reaches back beyond a moment exactly if the size has been positive ever since before it. */
    method SinceLastEmptyAt(now: int) returns (since: int)
      requires Valid(now)
      modifies this
      ensures Valid(now) && history == old(history) && (View(), since) == SinceLastEmpty(old(View()), now)
      ensures forall from | from <= now :: since > now - from <==> BusyThroughout(history, from)
    {
      ghost var before := View();
      if size <= 0 {
        lastTimeEmpty := now;
      }
      since := now - lastTimeEmpty;
      forall from | from <= now ensures since > now - from <==> BusyThroughout(history, from) {
        CongestedIffBusyThroughout(before, history, now, now - from);
      }
    }
  }
}
