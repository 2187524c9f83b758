/** The sliding window of result buckets of the circuit breaker, and the history it stands for. */
module BucketWindow {
  datatype Event = Outcome(failed: bool) | Slide | Reset

  // ---- the reference: which results of a history are still in the window ----

  function Slides(e: Event): nat {
    if e.Slide? then 1 else 0
  }

  // How many times the window has slid since entry i.
  function Age(log: seq<Event>, i: nat): nat
    requires i < |log|
  {
    if i == |log| - 1 then 0 else Age(log[..|log| - 1], i) + Slides(log[|log| - 1])
  }

  // No reset since entry i.
  predicate Kept(log: seq<Event>, i: nat)
    requires i < |log|
  {
    forall k | i < k < |log| :: !log[k].Reset?
  }

  predicate Counts(log: seq<Event>, i: nat, errorsOnly: bool)
    requires i < |log|
  {
    log[i].Outcome? && (errorsOnly ==> log[i].failed) && Kept(log, i)
  }

  // The results (or the failures) logged since the last reset that are exactly `age` slides old.
  function Aged(log: seq<Event>, age: nat, errorsOnly: bool): set<nat> {
    set i | 0 <= i < |log| && Counts(log, i, errorsOnly) && Age(log, i) == age
  }

  // Those that fewer than n slides have passed over.
  function Recent(n: nat, log: seq<Event>, errorsOnly: bool): set<nat> {
    set i | 0 <= i < |log| && Counts(log, i, errorsOnly) && Age(log, i) < n
  }

  lemma AgeAppend(log: seq<Event>, e: Event, i: nat)
    requires i < |log|
    ensures Age(log + [e], i) == Age(log, i) + Slides(e)
  {
    assert (log + [e])[..|log|] == log;
  }

  lemma CountsAppend(log: seq<Event>, e: Event, i: nat, errorsOnly: bool)
    requires i < |log|
    ensures Counts(log + [e], i, errorsOnly) <==> Counts(log, i, errorsOnly) && !e.Reset?
  {
    var next := log + [e];
    assert next[|log|] == e;
    assert forall k | i < k < |log| :: next[k] == log[k];
  }

  // The entries of log + [e] that count, with their ages.
  lemma AgesAppend(log: seq<Event>, e: Event, errorsOnly: bool)
    ensures forall i | 0 <= i < |log| :: Age(log + [e], i) == Age(log, i) + Slides(e)
    ensures forall i | 0 <= i < |log| :: Counts(log + [e], i, errorsOnly) <==> Counts(log, i, errorsOnly) && !e.Reset?
    ensures Counts(log + [e], |log|, errorsOnly) <==> e.Outcome? && (errorsOnly ==> e.failed)
    ensures Age(log + [e], |log|) == 0
  {
    forall i | 0 <= i < |log| ensures Age(log + [e], i) == Age(log, i) + Slides(e) {
      AgeAppend(log, e, i);
    }
    forall i | 0 <= i < |log|
      ensures Counts(log + [e], i, errorsOnly) <==> Counts(log, i, errorsOnly) && !e.Reset?
    {
      CountsAppend(log, e, i, errorsOnly);
    }
  }

  lemma AgedAppend(log: seq<Event>, e: Event, age: nat, errorsOnly: bool)
    ensures e.Reset? ==> Aged(log + [e], age, errorsOnly) == {}
    ensures e.Slide? ==> Aged(log + [e], age, errorsOnly) == if age == 0 then {} else Aged(log, age - 1, errorsOnly)
    ensures e.Outcome? ==>
              Aged(log + [e], age, errorsOnly) ==
              Aged(log, age, errorsOnly) + if age == 0 && (errorsOnly ==> e.failed) then {|log|} else {}
  {
    AgesAppend(log, e, errorsOnly);
  }

  lemma AgedSize(log: seq<Event>, e: Event, age: nat, errorsOnly: bool)
    ensures e.Reset? ==> |Aged(log + [e], age, errorsOnly)| == 0
    ensures e.Slide? ==> |Aged(log + [e], age, errorsOnly)| == if age == 0 then 0 else |Aged(log, age - 1, errorsOnly)|
    ensures e.Outcome? ==>
              |Aged(log + [e], age, errorsOnly)| ==
              |Aged(log, age, errorsOnly)| + if age == 0 && (errorsOnly ==> e.failed) then 1 else 0
  {
    AgedAppend(log, e, age, errorsOnly);
    assert |log| !in Aged(log, age, errorsOnly);
  }

  // ---- the results of one visit: everything since the last reset ----

  function SinceReset(log: seq<Event>): seq<Event> {
    if log == [] || log[|log| - 1].Reset? then [] else SinceReset(log[..|log| - 1]) + [log[|log| - 1]]
  }

  function SlideCount(visit: seq<Event>): nat {
    if visit == [] then 0 else SlideCount(visit[..|visit| - 1]) + Slides(visit[|visit| - 1])
  }

  function ResultCount(visit: seq<Event>, errorsOnly: bool): nat {
    if visit == [] then 0
    else
      var last := visit[|visit| - 1];
      ResultCount(visit[..|visit| - 1], errorsOnly) + if last.Outcome? && (errorsOnly ==> last.failed) then 1 else 0
  }

  lemma SinceResetAppend(log: seq<Event>, e: Event)
    ensures SinceReset(log + [e]) == if e.Reset? then [] else SinceReset(log) + [e]
  {
    assert (log + [e])[..|log|] == log;
  }

  lemma VisitAppend(visit: seq<Event>, e: Event, errorsOnly: bool)
    ensures SlideCount(visit + [e]) == SlideCount(visit) + Slides(e)
    ensures ResultCount(visit + [e], errorsOnly) ==
            ResultCount(visit, errorsOnly) + if e.Outcome? && (errorsOnly ==> e.failed) then 1 else 0
  {
    assert (visit + [e])[..|visit|] == visit;
  }

  lemma RecentAppend(n: nat, log: seq<Event>, e: Event, errorsOnly: bool)
    requires n >= 1
    ensures e.Reset? ==> Recent(n, log + [e], errorsOnly) == {}
    ensures e.Slide? ==> Recent(n, log + [e], errorsOnly) == Recent(n, log, errorsOnly) - Aged(log, n - 1, errorsOnly)
    ensures e.Outcome? ==>
              Recent(n, log + [e], errorsOnly) ==
              Recent(n, log, errorsOnly) + if errorsOnly ==> e.failed then {|log|} else {}
  {
    AgesAppend(log, e, errorsOnly);
  }

  // Nothing that counts is older than the visit has slides.
  lemma {:induction false} AgeBound(log: seq<Event>, errorsOnly: bool)
    ensures forall i | 0 <= i < |log| && Counts(log, i, errorsOnly) :: Age(log, i) <= SlideCount(SinceReset(log))
  {
    if log != [] {
      var init, e := log[..|log| - 1], log[|log| - 1];
      assert log == init + [e];
      AgeBound(init, errorsOnly);
      AgesAppend(init, e, errorsOnly);
      SinceResetAppend(init, e);
      VisitAppend(SinceReset(init), e, errorsOnly);
    }
  }

  /** While fewer than n slides have crossed a visit, the window holds exactly the results of the visit. */
  lemma {:induction false} RecentIsVisit(n: nat, log: seq<Event>, errorsOnly: bool)
    requires SlideCount(SinceReset(log)) < n
    ensures |Recent(n, log, errorsOnly)| == ResultCount(SinceReset(log), errorsOnly)
  {
    if log != [] {
      var init, e := log[..|log| - 1], log[|log| - 1];
      assert log == init + [e];
      SinceResetAppend(init, e);
      VisitAppend(SinceReset(init), e, errorsOnly);
      RecentAppend(n, init, e, errorsOnly);
      if !e.Reset? {
        RecentIsVisit(n, init, errorsOnly);
        AgeBound(init, errorsOnly);
        assert e.Slide? ==> Aged(init, n - 1, errorsOnly) == {};
        assert |init| !in Recent(n, init, errorsOnly);
      }
    }
  }

  // ---- the ring ----

  // The slot whose results are `age` slides old when slot `current` is the one being written.
  function SlotAge(n: nat, current: nat, slot: nat): nat
    requires current < n && slot < n
  {
    if slot <= current then current - slot else current + n - slot
  }

  // The recent results that sit in the slots below `bound`.
  function InSlots(n: nat, current: nat, log: seq<Event>, bound: nat, errorsOnly: bool): set<nat>
    requires current < n && bound <= n
  {
    set i | 0 <= i < |log| && Counts(log, i, errorsOnly) && Age(log, i) < n &&
            SlotAge(n, current, Age(log, i)) < bound
  }

  lemma NextSlot(n: nat, current: nat, log: seq<Event>, slot: nat, errorsOnly: bool)
    requires current < n && slot < n
    ensures |InSlots(n, current, log, slot + 1, errorsOnly)| ==
            |InSlots(n, current, log, slot, errorsOnly)| + |Aged(log, SlotAge(n, current, slot), errorsOnly)|
  {
    var below := InSlots(n, current, log, slot, errorsOnly);
    var here := Aged(log, SlotAge(n, current, slot), errorsOnly);
    assert InSlots(n, current, log, slot + 1, errorsOnly) == below + here;
    assert below !! here;
  }

  lemma AllSlots(n: nat, current: nat, log: seq<Event>, errorsOnly: bool)
    requires current < n
    ensures InSlots(n, current, log, 0, errorsOnly) == {}
    ensures InSlots(n, current, log, n, errorsOnly) == Recent(n, log, errorsOnly)
  {
  }

  // float64 division: 0/0 is not a number.
  datatype Rate = NaN | Rate(value: real)

  function Ratio(errs: nat, total: nat): Rate {
    if total == 0 then NaN else Rate(errs as real / total as real)
  }

  class Bucket {
    var total: nat
    var errs: nat

    constructor ()
      ensures total == 0 && errs == 0
    {
      total, errs := 0, 0;
    }
  }

  class Window {
    var nextIndexToReplace: nat
    const windowSize: nat
    var window: array<Bucket>
    var currentBucket: Bucket
    ghost var current: nat         // the slot currentBucket is in
    ghost var log: seq<Event>      // everything that has happened to the window

    ghost function Repr(): set<object>
      reads this, window
    {
      {this, window} + set i | 0 <= i < window.Length :: window[i]
    }

    ghost predicate Valid()
      reads this, window, Repr()
    {
      && windowSize >= 1
      && window.Length == windowSize
      && current < windowSize
      && (forall i, k | 0 <= i < k < windowSize :: window[i] != window[k])
      && currentBucket == window[current]
      && nextIndexToReplace == (if current + 1 < windowSize || windowSize == 1 then current + 1 else 0)
      && (forall i | 0 <= i < windowSize :: SlotOk(i))
    }

    ghost predicate SlotOk(slot: nat)
      reads this, window, if slot < window.Length then {window[slot]} else {}
      requires slot < window.Length == windowSize && current < windowSize
    {
      var age := SlotAge(windowSize, current, slot);
      window[slot].total == |Aged(log, age, false)| && window[slot].errs == |Aged(log, age, true)|
    }

    // No bucket quantity means one bucket.
    constructor (bucketQuantity: nat)
      ensures Valid() && fresh(Repr())
      ensures windowSize == (if bucketQuantity == 0 then 1 else bucketQuantity)
      ensures log == [Reset]
    {
      windowSize := if bucketQuantity == 0 then 1 else bucketQuantity;
      var first := new Bucket();
      currentBucket := first;
      window := new Bucket[1](_ => first);
      nextIndexToReplace, current, log := 0, 0, [];
      new;
      ResetBuckets();
    }

    method ResetBuckets()
      requires windowSize >= 1
      modifies this
      ensures Valid() && fresh(Repr() - {this})
      ensures log == old(log) + [Reset]
    {
      var first := new Bucket();
      var buckets := new Bucket[windowSize](_ => first);
      for i := 0 to windowSize
        modifies buckets
        invariant fresh(buckets) && buckets.Length == windowSize
        invariant forall k | 0 <= k < i :: fresh(buckets[k]) && buckets[k].total == 0 && buckets[k].errs == 0
        invariant forall k, m | 0 <= k < m < i :: buckets[k] != buckets[m]
      {
        buckets[i] := new Bucket();
      }
      window := buckets;
      currentBucket := buckets[0];
      nextIndexToReplace := 1;
      current := 0;
      log := log + [Reset];
      forall age: nat ensures |Aged(log, age, false)| == 0 && |Aged(log, age, true)| == 0 {
        AgedSize(old(log), Reset, age, false);
        AgedSize(old(log), Reset, age, true);
      }
    }

    method Inc(failed: bool)
      requires Valid()
      modifies this`log, currentBucket
      ensures Valid() && Repr() == old(Repr())
      ensures log == old(log) + [Outcome(failed)]
    {
      currentBucket.total := currentBucket.total + 1;
      if failed {
        currentBucket.errs := currentBucket.errs + 1;
      }
      log := log + [Outcome(failed)];
      forall slot | 0 <= slot < windowSize ensures SlotOk(slot) {
        assert old(SlotOk(slot));
        AgedSize(old(log), Outcome(failed), SlotAge(windowSize, current, slot), false);
        AgedSize(old(log), Outcome(failed), SlotAge(windowSize, current, slot), true);
      }
    }

    /** One tick of the window slider. The ring is indexed before the index wraps, so the tick of a
        window of one bucket fails (index out of range); it succeeds exactly for two buckets or more. */
    method SlideWindow() returns (ok: bool)
      requires Valid()
      modifies this, window
      ensures Valid() && fresh(Repr() - old(Repr()))
      ensures window == old(window)
      ensures ok <==> windowSize >= 2
      ensures log == if ok then old(log) + [Slide] else old(log)
    {
      if nextIndexToReplace >= window.Length {
        return false;
      }
      var bucket := new Bucket();
      window[nextIndexToReplace] := bucket;
      currentBucket := bucket;
      current := nextIndexToReplace;
      nextIndexToReplace := nextIndexToReplace + 1;
      if nextIndexToReplace >= window.Length {
        nextIndexToReplace := 0;
      }
      log := log + [Slide];
      forall slot | 0 <= slot < windowSize ensures SlotOk(slot) {
        assert old(SlotOk(slot));
        AgedSize(old(log), Slide, SlotAge(windowSize, current, slot), false);
        AgedSize(old(log), Slide, SlotAge(windowSize, current, slot), true);
      }
      ok := true;
    }

    /** The buckets of the whole window add up to the results of the last windowSize periods. */
    method TotalRequests() returns (total: nat)
      requires Valid()
      ensures total == |Recent(windowSize, log, false)|
    {
      total := 0;
      for i := 0 to window.Length
        invariant Valid() && total == |InSlots(windowSize, current, log, i, false)|
      {
        assert SlotOk(i);
        total := total + window[i].total;
        NextSlot(windowSize, current, log, i, false);
      }
      AllSlots(windowSize, current, log, false);
    }

    method ErrorRate() returns (rate: Rate)
      requires Valid()
      ensures rate == Ratio(|Recent(windowSize, log, true)|, |Recent(windowSize, log, false)|)
    {
      var total, errs := 0, 0;
      AllSlots(windowSize, current, log, false);
      AllSlots(windowSize, current, log, true);
      for i := 0 to window.Length
        invariant total == |InSlots(windowSize, current, log, i, false)|
        invariant errs == |InSlots(windowSize, current, log, i, true)|
      {
        assert SlotOk(i);
        total := total + window[i].total;
        errs := errs + window[i].errs;
        NextSlot(windowSize, current, log, i, false);
        NextSlot(windowSize, current, log, i, true);
      }
      rate := Ratio(errs, total);
    }
  }
}
