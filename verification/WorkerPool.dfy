/** The resizable worker pool of the executors. */
module WorkerPool {
  import opened Common

  type JobId = nat
  type WorkerId = nat

  // Workers are numbered in the order they start. The pool always retires the oldest ones,
  // so the workers it still counts are retired, ..., started - 1.
  datatype Pool = Pool(
    retired: nat,
    started: nat,
    exited: set<WorkerId>,         // workers that have left their loop
    busy: map<WorkerId, JobId>     // workers that are running a job
  )

  const NoWorkers := Pool(0, 0, {}, map[])

  predicate NeverStarted(p: Pool) {
    p.started == 0 && p.retired == 0 && |p.busy| == 0
  }

  predicate Live(p: Pool, w: WorkerId) {
    w < p.started && w !in p.exited
  }

  function Quantity(p: Pool): int {
    p.started - p.retired
  }

  function Resized(p: Pool, quantity: int): Pool {
    if quantity < 0 || Quantity(p) == quantity then p
    else if Quantity(p) < quantity then p.(started := p.started + (quantity - Quantity(p)))
    else p.(retired := p.retired + (Quantity(p) - quantity))
  }

  ghost predicate PoolOk(p: Pool) {
    && p.retired <= p.started
    && (forall w | w in p.exited :: w < p.retired)
    && (forall w | w in p.busy :: Live(p, w))
  }

  lemma ResizedOk(p: Pool, quantity: int)
    requires PoolOk(p)
    ensures PoolOk(Resized(p, quantity))
    ensures quantity >= 0 ==> Quantity(Resized(p, quantity)) == quantity
    ensures quantity < 0 ==> Resized(p, quantity) == p
    ensures forall w | Live(p, w) :: Live(Resized(p, quantity), w)
  {
  }

  /** Growing retires nobody and starts exactly the difference; shrinking starts nobody and retires exactly
      the difference; neither touches who has left or who works. */
  lemma ResizedMeans(p: Pool, quantity: nat)
    requires PoolOk(p)
    ensures var t := Resized(p, quantity);
            && t.exited == p.exited && t.busy == p.busy
            && (quantity >= Quantity(p) ==> t.retired == p.retired && t.started == p.started + quantity - Quantity(p))
            && (quantity < Quantity(p) ==> t.started == p.started && t.retired == p.retired + Quantity(p) - quantity)
  {
  }

  // ---- accounting ----

  function LiveWorkers(p: Pool): set<WorkerId> {
    set w | 0 <= w < p.started && w !in p.exited
  }

  // Stopped, but not out of the loop yet.
  function Retiring(p: Pool): set<WorkerId> {
    set w | 0 <= w < p.retired && w !in p.exited
  }

  function Range(lo: nat, hi: nat): (r: set<nat>)
    requires lo <= hi
    ensures forall w: nat :: w in r <==> lo <= w < hi
    ensures |r| == hi - lo
    decreases hi - lo
  {
    if lo == hi then {} else Range(lo, hi - 1) + {hi - 1}
  }

  lemma SubsetSize<T>(a: set<T>, b: set<T>)
    requires a <= b
    ensures |a| <= |b|
  {
    assert b == a + (b - a);
  }

  lemma {:induction false} ValuesSize(m: map<WorkerId, JobId>)
    ensures |m.Values| <= |m.Keys|
    decreases |m|
  {
    if m.Keys != {} {
      var w :| w in m.Keys;
      var rest := m - {w};
      ValuesSize(rest);
      assert m.Values <= rest.Values + {m[w]} by {
        forall v | v in m.Values ensures v in rest.Values + {m[w]} {
          var x :| x in m && m[x] == v;
          assert x == w || (x in rest && rest[x] == v);
        }
      }
      SubsetSize(m.Values, rest.Values + {m[w]});
      assert m.Keys == rest.Keys + {w};
    } else {
      assert m.Values == {};
    }
  }

  /** Live workers are the configured quantity plus the retired ones still in their loop, and only
      live workers run jobs; so the quantity is respected once the retired workers have left. */
  lemma Accounting(p: Pool)
    requires PoolOk(p)
    ensures |LiveWorkers(p)| == Quantity(p) + |Retiring(p)|
    ensures |p.busy.Keys| <= |LiveWorkers(p)|
    ensures Retiring(p) == {} ==> |p.busy.Keys| <= Quantity(p)
  {
    assert LiveWorkers(p) == Range(p.retired, p.started) + Retiring(p);
    assert Range(p.retired, p.started) !! Retiring(p);
    SubsetSize(p.busy.Keys, LiveWorkers(p));
  }

  // ---- the object ----

  class StopChannel {
    var closed: bool

    constructor ()
      ensures !closed
    {
      closed := false;
    }

    // Closing a closed channel panics.
    method Close()
      requires !closed
      modifies this
      ensures closed
    {
      closed := true;
    }
  }

  // Among distinct channels, those in a stretch are those at its positions.
  lemma StoppedAre(launched: seq<StopChannel>, stretch: seq<StopChannel>, first: nat, count: nat, k: nat)
    requires Distinct(launched) && k < |launched| && first + count <= |launched|
    requires stretch == launched[first..first + count]
    ensures launched[k] in stretch <==> first <= k < first + count
  {
    if first <= k < first + count {
      assert stretch[k - first] == launched[k];
    }
  }

  class Workers {
    var workerStoppers: seq<StopChannel>
    // What the goroutines hold: the stop channel of every worker ever started, who has left and who runs a job.
    var launched: seq<StopChannel>
    var exited: set<WorkerId>
    var busy: map<WorkerId, JobId>

    ghost function Retired(): int
      reads this
    {
      |launched| - |workerStoppers|
    }

    ghost predicate Valid()
      reads this, launched
    {
      && Distinct(launched)
      && 0 <= Retired()
      && workerStoppers == launched[Retired()..]
      && (forall i | 0 <= i < |launched| :: launched[i].closed <==> i < Retired())
      && PoolOk(Pool(Retired(), |launched|, exited, busy))
    }

    ghost function View(): Pool
      reads this, launched
      requires Valid()
    {
      Pool(Retired(), |launched|, exited, busy)
    }

    constructor ()
      ensures Valid() && View() == NoWorkers
    {
      workerStoppers, launched, exited, busy := [], [], {}, map[];
    }

    /** A negative quantity changes nothing. Growing keeps every worker, with its channel as it is, and
        starts exactly the missing ones. Shrinking starts nobody and closes exactly the channels that it
        drops, those of the oldest workers. So a stop channel is closed once at most. */
    method SetWorkerQuantity(quantity: int)
      requires Valid()
      modifies this, workerStoppers
      ensures Valid() && View() == Resized(old(View()), quantity)
      ensures old(launched) <= launched && forall i | |old(launched)| <= i < |launched| :: fresh(launched[i])
      ensures quantity < 0 ==> unchanged(this) && unchanged(old(workerStoppers))
      ensures quantity >= 0 ==> |workerStoppers| == quantity
      ensures quantity >= old(|workerStoppers|) ==>
                && old(workerStoppers) <= workerStoppers
                && |launched| == old(|launched|) + quantity - old(|workerStoppers|)
                && unchanged(old(launched))
      ensures 0 <= quantity < old(|workerStoppers|) ==>
                && workerStoppers == old(workerStoppers)[old(|workerStoppers|) - quantity..]
                && launched == old(launched)
                && (forall ch | ch in launched ::
                      ch.closed <==> old(ch.closed) || ch in old(workerStoppers)[..old(|workerStoppers|) - quantity])
    {
      if quantity < 0 {
        return;
      }
      if |workerStoppers| == quantity {
        return;
      }
      if |workerStoppers| < quantity {
        IncreaseWorkers(quantity - |workerStoppers|);
        return;
      }
      DecreaseWorkers(|workerStoppers| - quantity);
    }

    method DecreaseWorkers(workers: nat)
      requires Valid() && workers <= |workerStoppers|
      modifies this, workerStoppers
      ensures Valid() && View() == old(View()).(retired := old(View()).retired + workers)
      ensures launched == old(launched) && workerStoppers == old(workerStoppers)[workers..]
      ensures forall ch | ch in launched :: ch.closed <==> old(ch.closed) || ch in old(workerStoppers)[..workers]
    {
      var toStop := workerStoppers[..workers];
      ghost var first := Retired();
      for i := 0 to workers
        invariant unchanged(this)
        invariant forall k | 0 <= k < |launched| :: launched[k].closed <==> k < first + i
      {
        assert toStop[i] == launched[first + i];
        toStop[i].Close();
      }
      workerStoppers := workerStoppers[workers..];
      forall ch | ch in launched
        ensures ch.closed <==> old(ch.closed) || ch in old(workerStoppers)[..workers]
      {
        var k :| 0 <= k < |launched| && launched[k] == ch;
        StoppedAre(launched, toStop, first, workers, k);
      }
    }

    method IncreaseWorkers(workers: nat)
      requires Valid()
      modifies this
      ensures Valid() && View() == old(View()).(started := old(View()).started + workers)
      ensures old(launched) <= launched && forall i | |old(launched)| <= i < |launched| :: fresh(launched[i])
      ensures |launched| == old(|launched|) + workers
      ensures old(workerStoppers) <= workerStoppers && unchanged(old(launched))
    {
      for i := 0 to workers
        invariant Valid() && View() == old(View()).(started := old(View()).started + i)
        invariant old(launched) <= launched && forall k | |old(launched)| <= k < |launched| :: fresh(launched[k])
        invariant |launched| == old(|launched|) + i && old(workerStoppers) <= workerStoppers
      {
        var stopC := new StopChannel();
        launched := launched + [stopC];
        workerStoppers := workerStoppers + [stopC];
      }
    }

    method Do(step: PoolStep)
      requires Valid()
      modifies this, workerStoppers
      ensures Valid() && View() == Stepped(old(View()), step)
      ensures step.TakeOne? && CanStep(old(View()), step) ==> busy == old(busy)[step.worker := step.job]
      ensures step.FinishOne? && CanStep(old(View()), step) ==> busy == old(busy) - {step.worker}
      ensures step.LookAtStop? && CanStep(old(View()), step) ==>
                exited == old(exited) + if step.worker < old(Retired()) then {step.worker} else {}
      ensures old(launched) <= launched && forall i | |old(launched)| <= i < |launched| :: fresh(launched[i])
    {
      match step {
        case SetQuantity(quantity) => SetWorkerQuantity(quantity);
        case TakeOne(w, job) =>
          if w < |launched| && w !in exited && w !in busy {
            TakeJob(w, job);
          }
        case FinishOne(w) =>
          if w in busy {
            FinishJob(w);
          }
        case LookAtStop(w) =>
          if w < |launched| && w !in exited && w !in busy {
            var left := LookAtStopChannel(w);
          }
      }
    }

    // ---- newWorker: what worker w does in its loop, at any time after a resize ----

    method TakeJob(w: WorkerId, job: JobId)
      requires Valid() && Live(View(), w) && w !in busy
      modifies this`busy
      ensures Valid() && View() == old(View()).(busy := old(View()).busy[w := job])
    {
      busy := busy[w := job];
    }

    method FinishJob(w: WorkerId)
      requires Valid() && w in busy
      modifies this`busy
      ensures Valid() && View() == old(View()).(busy := old(View()).busy - {w})
    {
      busy := busy - {w};
    }

    /** A worker leaves when it looks at its stop channel between two jobs and finds it closed: that is
        never one of the configured workers. */
    method LookAtStopChannel(w: WorkerId) returns (left: bool)
      requires Valid() && Live(View(), w) && w !in busy
      modifies this`exited
      ensures Valid() && (left <==> w < View().retired)
      ensures View() == if left then old(View()).(exited := old(View()).exited + {w}) else old(View())
    {
      left := launched[w].closed;
      if left {
        exited := exited + {w};
      }
    }
  }

  // ---- any sequence of resizes and worker steps ----

  datatype PoolStep =
    | SetQuantity(quantity: int)
    | TakeOne(worker: WorkerId, job: JobId)
    | FinishOne(worker: WorkerId)
    | LookAtStop(worker: WorkerId)

  // A worker takes or looks only between two jobs, while it lives.
  predicate CanStep(p: Pool, step: PoolStep) {
    match step
    case SetQuantity(_) => true
    case TakeOne(w, _) => Live(p, w) && w !in p.busy
    case FinishOne(w) => w in p.busy
    case LookAtStop(w) => Live(p, w) && w !in p.busy
  }

  function Stepped(p: Pool, step: PoolStep): Pool {
    if !CanStep(p, step) then p
    else
      match step
      case SetQuantity(quantity) => Resized(p, quantity)
      case TakeOne(w, job) => p.(busy := p.busy[w := job])
      case FinishOne(w) => p.(busy := p.busy - {w})
      case LookAtStop(w) => if w < p.retired then p.(exited := p.exited + {w}) else p
  }

  function AllStepped(p: Pool, steps: seq<PoolStep>): Pool {
    if steps == [] then p else Stepped(AllStepped(p, steps[..|steps| - 1]), steps[|steps| - 1])
  }

  /** Any sequence of resizes and worker steps can be made: no stop channel is closed twice, and the
      accounting holds wherever it ends. */
  method DrivePool(pool: Workers, steps: seq<PoolStep>)
    requires pool.Valid()
    modifies pool, pool.launched
    ensures pool.Valid() && pool.View() == AllStepped(old(pool.View()), steps)
    ensures |LiveWorkers(pool.View())| == |pool.workerStoppers| + |Retiring(pool.View())|
    ensures |pool.busy.Keys| <= |LiveWorkers(pool.View())|
  {
    ghost var start := pool.View();
    for i := 0 to |steps|
      invariant pool.Valid() && pool.View() == AllStepped(start, steps[..i])
      invariant forall k | 0 <= k < |pool.launched| :: pool.launched[k] in old(pool.launched) || fresh(pool.launched[k])
    {
      assert steps[..i + 1][..i] == steps[..i];
      pool.Do(steps[i]);
    }
    assert steps[..|steps|] == steps;
    Accounting(pool.View());
  }

  // Every retired worker looks at its stop channel.
  function Looks(workers: nat): seq<PoolStep> {
    if workers == 0 then [] else Looks(workers - 1) + [LookAtStop(workers - 1)]
  }

  lemma {:induction false} LooksLeave(p: Pool, workers: nat)
    requires PoolOk(p) && workers <= p.retired && p.busy == map[]
    ensures var t := AllStepped(p, Looks(workers));
            PoolOk(t) && t == p.(exited := t.exited) && forall w: WorkerId | w < workers :: w in t.exited
  {
    if workers > 0 {
      LooksLeave(p, workers - 1);
      assert Looks(workers)[..|Looks(workers)| - 1] == Looks(workers - 1);
    }
  }

  /** Retired workers do leave: when all of them have looked, between two jobs, exactly the configured
      quantity is alive. */
  lemma RetiredWorkersLeave(p: Pool)
    requires PoolOk(p) && p.busy == map[]
    ensures var t := AllStepped(p, Looks(p.retired)); Retiring(t) == {} && |LiveWorkers(t)| == Quantity(p)
  {
    LooksLeave(p, p.retired);
    Accounting(AllStepped(p, Looks(p.retired)));
  }

  /** Once the retired workers have looked and left, the quantity last asked for is the number alive. */
  lemma {:induction false} LastResizeHolds(p: Pool, quantity: nat, steps: seq<PoolStep>)
    requires PoolOk(p) && forall i | 0 <= i < |steps| :: !steps[i].SetQuantity?
    ensures var t := AllStepped(Resized(p, quantity), steps);
            PoolOk(t) && Quantity(t) == quantity && (Retiring(t) == {} ==> |LiveWorkers(t)| == quantity)
  {
    ResizedOk(p, quantity);
    if steps != [] {
      LastResizeHolds(p, quantity, steps[..|steps| - 1]);
    }
    Accounting(AllStepped(Resized(p, quantity), steps));
  }
}
