/** The dynamic queue as an object: each method is what one goroutine does under a lock. The pipeline
    model takes the same functions as its steps. */
module DynamicQueue {
  import opened Common
  import opened JobQueue
  import opened QueueStats

  datatype View<J> = View(queue: seq<J>, policy: Policy, wakeUp: bool, stats: Stats)

  class Queue<J> {
    const jobs: JobSlice<J>
    const stats: StatsCounter
    var dequeuePolicy: Policy
    var wakeUpDequeuer: bool     // the one-slot channel holds a signal

    ghost predicate Valid()
      reads this, jobs
    {
      jobs.Valid()
    }

    ghost function Look(): View<J>
      reads this, jobs, jobs.data, stats
      requires Valid()
    {
      View(jobs.Contents(), dequeuePolicy, wakeUpDequeuer, stats.View())
    }

    constructor (policy: Policy, zeroTime: int)
      ensures Valid() && fresh(jobs) && fresh(jobs.data) && fresh(stats)
      ensures Look() == View([], policy, false, Stats(0, zeroTime)) && stats.Valid(zeroTime)
    {
      jobs := new JobSlice();
      stats := new StatsCounter(zeroTime);
      dequeuePolicy, wakeUpDequeuer := policy, false;
    }

    method SetDequeuePolicy(policy: Policy)
      requires Valid()
      modifies this
      ensures Valid() && Look() == old(Look()).(policy := policy)
    {
      dequeuePolicy := policy;
    }

    // One turn of the enqueuer's loop, with the job it has received.
    method Enqueue(job: J, now: int, spare: nat)
      requires Valid() && stats.Valid(now)
      modifies this, jobs, jobs.data, stats
      ensures Valid() && stats.Valid(now) && (jobs.data == old(jobs.data) || fresh(jobs.data))
      ensures Look() ==
              View(EnqueueAtEnd(job, old(Look().queue)), old(Look().policy), true, Inc(old(Look().stats), now))
    {
      stats.IncAt(now);
      jobs.Append(job, spare);
      // A full channel already holds the signal.
      wakeUpDequeuer := true;
    }

    method QueueIsEmpty() returns (empty: bool)
      requires Valid()
      ensures empty <==> Look().queue == []
    {
      empty := jobs.len < 1;
    }

    // The dequeuer's pop and count, with the policy in force.
    method TakeJob(now: int) returns (job: Option<J>)
      requires Valid() && stats.Valid(now)
      modifies this, jobs, stats
      ensures Valid() && stats.Valid(now) && (jobs.data == old(jobs.data) || fresh(jobs.data))
      ensures (job, Look().queue) == Dequeue(old(Look().policy), old(Look().queue))
      ensures Look().stats == Decr(old(Look().stats), now)
      ensures Look().policy == old(Look().policy) && Look().wakeUp == old(Look().wakeUp)
    {
      match dequeuePolicy {
        case FifoPolicy => job := jobs.TakeFifo();
        case LifoPolicy => job := jobs.TakeLifo();
      }
      stats.DecrAt(now);
    }

    /** The dequeuer's turn once it is awake: it looks again before it pops, so a stale signal is no harm. */
    method Wake(now: int) returns (job: Option<J>)
      requires Valid() && stats.Valid(now) && wakeUpDequeuer
      modifies this, jobs, stats
      ensures Valid() && stats.Valid(now) && (jobs.data == old(jobs.data) || fresh(jobs.data))
      ensures Look().wakeUp == false && Look().policy == old(Look().policy)
      ensures old(Look().queue) == [] ==> job == None && Look().queue == [] && Look().stats == old(Look().stats)
      ensures old(Look().queue) != [] ==>
                && job.Some?
                && (job, Look().queue) == Dequeue(old(Look().policy), old(Look().queue))
                && Look().stats == Decr(old(Look().stats), now)
    {
      wakeUpDequeuer := false;
      var empty := QueueIsEmpty();
      if empty {
        return None;
      }
      job := TakeJob(now);
    }
  }

  // ---- any sequence of turns ----

  datatype Turn<J> = Put(job: J, spare: nat) | Take | Switch(policy: Policy)

  // What a turn does to the jobs; a dequeuer takes its turn only when there is a job.
  function JobsAfter<J>(v: (seq<J>, Policy), turn: Turn<J>): (seq<J>, Policy) {
    match turn
    case Put(job, _) => (EnqueueAtEnd(job, v.0), v.1)
    case Take => (Dequeue(v.1, v.0).1, v.1)
    case Switch(policy) => (v.0, policy)
  }

  function TakenBy<J>(v: (seq<J>, Policy), turn: Turn<J>): seq<J> {
    if turn.Take? && v.0 != [] then [Dequeue(v.1, v.0).0.value] else []
  }

  // The jobs after all the turns, and those taken in order.
  function Played<J>(v: (seq<J>, Policy), turns: seq<Turn<J>>): (seq<J>, Policy) {
    if turns == [] then v else JobsAfter(Played(v, turns[..|turns| - 1]), turns[|turns| - 1])
  }

  function Taken<J>(v: (seq<J>, Policy), turns: seq<Turn<J>>): seq<J> {
    if turns == [] then []
    else Taken(v, turns[..|turns| - 1]) + TakenBy(Played(v, turns[..|turns| - 1]), turns[|turns| - 1])
  }

  function PutIn<J>(turns: seq<Turn<J>>): seq<J> {
    if turns == [] then []
    else PutIn(turns[..|turns| - 1]) + Arrived(turns[|turns| - 1])
  }

  function Arrived<J>(turn: Turn<J>): seq<J> {
    if turn.Put? then [turn.job] else []
  }

  ghost function Jobs<J>(q: Queue<J>): (seq<J>, Policy)
    reads q, q.jobs, q.jobs.data, q.stats
    requires q.Valid()
  {
    (q.Look().queue, q.Look().policy)
  }

  method PlayOne<J>(q: Queue<J>, turn: Turn<J>, now: int) returns (taken: seq<J>)
    requires q.Valid() && q.stats.Valid(now)
    modifies q, q.jobs, q.jobs.data, q.stats
    ensures q.Valid() && q.stats.Valid(now) && (q.jobs.data == old(q.jobs.data) || fresh(q.jobs.data))
    ensures taken == TakenBy(old(Jobs(q)), turn) && Jobs(q) == JobsAfter(old(Jobs(q)), turn)
  {
    taken := [];
    match turn {
      case Put(job, spare) => q.Enqueue(job, now, spare);
      case Take =>
        var empty := q.QueueIsEmpty();
        if !empty {
          var job := q.TakeJob(now);
          taken := [job.value];
        }
      case Switch(policy) => q.SetDequeuePolicy(policy);
    }
  }

  /** Whatever turns enqueuer, dequeuer and callers take, the slices cut from one another and the arrays
      they share or outgrow hold the jobs of the mathematical sequence. */
  method Play<J>(q: Queue<J>, turns: seq<Turn<J>>, now: int) returns (taken: seq<J>)
    requires q.Valid() && q.stats.Valid(now)
    modifies q, q.jobs, q.jobs.data, q.stats
    ensures q.Valid() && q.stats.Valid(now)
    ensures taken == Taken(old(Jobs(q)), turns) && Jobs(q) == Played(old(Jobs(q)), turns)
  {
    taken := [];
    ghost var start := Jobs(q);
    for i := 0 to |turns|
      invariant q.Valid() && q.stats.Valid(now) && (q.jobs.data == old(q.jobs.data) || fresh(q.jobs.data))
      invariant taken == Taken(start, turns[..i]) && Jobs(q) == Played(start, turns[..i])
    {
      assert turns[..i + 1][..i] == turns[..i];
      var job := PlayOne(q, turns[i], now);
      taken := taken + job;
    }
    assert turns[..|turns|] == turns;
  }

  /** No job is lost or invented, in whatever order the policy takes them. */
  lemma {:induction false} PlayConserves<J>(v: (seq<J>, Policy), turns: seq<Turn<J>>)
    ensures multiset(Taken(v, turns)) + multiset(Played(v, turns).0) == multiset(v.0) + multiset(PutIn(turns))
  {
    if turns != [] {
      var init, turn := turns[..|turns| - 1], turns[|turns| - 1];
      PlayConserves(v, init);
      var before := Played(v, init);
      TurnConserves(before, turn);
      JoinCounts(Taken(v, init), TakenBy(before, turn), Played(v, turns).0, before.0, v.0, PutIn(init), Arrived(turn));
    }
  }

  lemma JoinCounts<J>(taken: seq<J>, took: seq<J>, left: seq<J>, before: seq<J>,
                      start: seq<J>, put: seq<J>, arrived: seq<J>)
    requires multiset(taken) + multiset(before) == multiset(start) + multiset(put)
    requires multiset(took) + multiset(left) == multiset(before) + multiset(arrived)
    ensures multiset(taken + took) + multiset(left) == multiset(start) + multiset(put + arrived)
  {
    var (was, all) := (multiset(taken) + multiset(before), multiset(taken) + (multiset(took) + multiset(left)));
    assert multiset(taken + took) + multiset(left) == all;
    assert was + multiset(arrived) == multiset(taken) + (multiset(before) + multiset(arrived));
    assert multiset(start) + multiset(put + arrived) == multiset(start) + multiset(put) + multiset(arrived);
  }

  lemma TurnConserves<J>(v: (seq<J>, Policy), turn: Turn<J>)
    ensures multiset(TakenBy(v, turn)) + multiset(JobsAfter(v, turn).0) ==
            multiset(v.0) + multiset(Arrived(turn))
  {
    if turn.Take? && v.0 != [] {
      var last := |v.0| - 1;
      assert v.0 == v.0[..last] + [v.0[last]];
      assert v.0 == [v.0[0]] + v.0[1..];
    }
  }

  /** Under the FIFO policy what was taken, and then what is left, is what there was and then came, in order. */
  lemma {:induction false} PlayFifo<J>(v: (seq<J>, Policy), turns: seq<Turn<J>>)
    requires v.1.FifoPolicy? && forall i | 0 <= i < |turns| :: turns[i].Switch? ==> turns[i].policy.FifoPolicy?
    ensures Played(v, turns).1.FifoPolicy? && Taken(v, turns) + Played(v, turns).0 == v.0 + PutIn(turns)
  {
    if turns != [] {
      var init, turn := turns[..|turns| - 1], turns[|turns| - 1];
      PlayFifo(v, init);
      var before := Played(v, init);
      TurnFifo(before, turn);
      JoinInOrder(Taken(v, init), TakenBy(before, turn), Played(v, turns).0, before.0, v.0, PutIn(init), Arrived(turn));
    } else {
      assert v.0 + [] == v.0;
    }
  }

  lemma JoinInOrder<J>(taken: seq<J>, took: seq<J>, left: seq<J>, before: seq<J>,
                       start: seq<J>, put: seq<J>, arrived: seq<J>)
    requires taken + before == start + put && took + left == before + arrived
    ensures (taken + took) + left == start + (put + arrived)
  {
    assert (taken + took) + left == taken + (took + left);
    assert taken + (before + arrived) == (taken + before) + arrived;
    assert (start + put) + arrived == start + (put + arrived);
  }

  lemma TurnFifo<J>(v: (seq<J>, Policy), turn: Turn<J>)
    requires v.1.FifoPolicy?
    ensures TakenBy(v, turn) + JobsAfter(v, turn).0 == v.0 + Arrived(turn)
  {
  }
}
