/** One call to Execute of the LIFO or the CoDel executor, and the job closure it
    hands to the queue: the dequeued / cancelled / result handshake.

    Each function below is one step of one goroutine: the caller (with its timer)
    or the worker that runs the closure. The steps are interleaved arbitrarily by
    the pipeline model. */
module Handshake {
  import opened Common

  // The error value returned by a user function; Nil is success.
  datatype Outcome = Nil | Failed(code: int)

  // Which executor the call belongs to.
  datatype Kind = Lifo | Codel

  // canceledJob: closed by the LIFO executor, a one-slot buffer in the CoDel one.
  datatype CancelChannel = Empty | Buffered | Closed

  datatype Caller =
    | Entered
    | Measured(congested: bool)
    | PolicySet(timeout: int)
    | Waiting(deadline: int)
    | TimedOut
    | AwaitResult
    | Returned(result: Outcome)
    | Rejected

  datatype JobPc = Fresh | Announced | Running | Ran(outcome: Outcome) | Skipped | Delivered

  // What happened to a call, in order.
  datatype Event = Dequeued | Started | Completed | Discarded | Cancelled | Received

  datatype Call = Call(
    caller: Caller,
    job: JobPc,
    dequeued: bool,          // dequeuedJob is closed
    cancel: CancelChannel,
    res: Option<Outcome>,    // the one-slot result channel
    panicked: bool,          // a channel was closed twice
    ran: seq<Outcome>,       // history: what every run of f returned
    log: seq<Event>          // history
  )

  const NewCall := Call(Entered, Fresh, false, Empty, None, false, [], [])

  predicate BeforeLaunch(c: Call) {
    c.caller.Entered? || c.caller.Measured? || c.caller.PolicySet?
  }

  predicate CallerDone(c: Call) {
    c.caller.Returned? || c.caller.Rejected?
  }

  predicate JobDone(c: Call) {
    c.job.Skipped? || c.job.Delivered?
  }

  // ---- steps of the caller ----

  predicate CanCancel(kind: Kind, c: Call) {
    c.caller.TimedOut? && (kind.Codel? ==> c.cancel.Empty?)
  }

  function Cancel(kind: Kind, c: Call): Call {
    c.(caller := Rejected,
    panicked := c.panicked || (kind.Lifo? && c.cancel.Closed?),
                cancel := if kind.Lifo? then Closed else Buffered,
                log := c.log + [Cancelled])
  }

  predicate CanTakeResult(c: Call) {
    c.caller.AwaitResult? && c.res.Some?
  }

  function TakeResult(c: Call): Call
    requires CanTakeResult(c)
  {
    c.(caller := Returned(c.res.value), res := None, log := c.log + [Received])
  }

  // ---- steps of the worker that runs the closure ----

  function CloseDequeued(c: Call): Call {
    c.(job := Announced, panicked := c.panicked || c.dequeued, dequeued := true, log := c.log + [Dequeued])
  }

  function CheckCancel(c: Call): Call {
    if c.cancel.Empty? then
      c.(job := Running, log := c.log + [Started])
    else
      c.(job := Skipped, cancel := if c.cancel.Buffered? then Empty else c.cancel, log := c.log + [Discarded])
  }

  function Complete(c: Call, outcome: Outcome): Call {
    c.(job := Ran(outcome), ran := c.ran + [outcome], log := c.log + [Completed])
  }

  predicate CanDeliver(c: Call) {
    c.job.Ran? && c.res.None?
  }

  function Deliver(c: Call): Call
    requires CanDeliver(c)
  {
    c.(job := Delivered, res := Some(c.job.outcome))
  }

  // ---- what every interleaving keeps ----

  // No occurrence of a comes after an occurrence of b.
  ghost predicate NeverAfter(log: seq<Event>, a: Event, b: Event) {
    forall i, k | 0 <= i < |log| && 0 <= k < |log| && log[i] == a && log[k] == b :: i < k
  }

  // Both sides of the handshake agree on what has happened.
  ghost predicate Agreed(c: Call) {
    && !c.panicked
    && (c.job.Fresh? <==> !c.dequeued)
    && (BeforeLaunch(c) ==> c.job.Fresh?)
    && (c.caller.AwaitResult? || c.caller.Returned? ==> c.dequeued)
    && (!c.cancel.Empty? ==> c.caller.Rejected?)
    && (c.caller.Rejected? && c.cancel.Empty? ==> c.job.Skipped?)
    && (c.job.Skipped? ==> c.caller.Rejected?)
    && (c.res.Some? ==> c.job.Delivered? && !c.caller.Returned? && c.ran == [c.res.value])
    && (c.job.Delivered? && !c.caller.Returned? ==> c.res.Some?)
    && (c.caller.Returned? ==> c.job.Delivered? && c.ran == [c.caller.result])
    && (c.job.Ran? ==> c.ran == [c.job.outcome])
    && (!c.job.Ran? && !c.job.Delivered? ==> c.ran == [])
  }

  ghost predicate Logged(c: Call) {
    && Distinct(c.log)
    && (Dequeued in c.log <==> c.dequeued)
    && (Started in c.log <==> c.job.Running? || c.job.Ran? || c.job.Delivered?)
    && (Completed in c.log <==> c.job.Ran? || c.job.Delivered?)
    && (Discarded in c.log <==> c.job.Skipped?)
    && (Cancelled in c.log <==> c.caller.Rejected?)
    && (Received in c.log <==> c.caller.Returned?)
  }

  ghost predicate Ordered(log: seq<Event>) {
    && NeverAfter(log, Dequeued, Started)
    && NeverAfter(log, Started, Completed)
    && NeverAfter(log, Completed, Received)
    && NeverAfter(log, Cancelled, Discarded)
    && NeverAfter(log, Started, Cancelled)
  }

  ghost predicate CallOk(c: Call) {
    Agreed(c) && Logged(c) && Ordered(c.log)
  }

  // Appending a new event keeps the log in order if nothing that must follow it is already there.
  lemma Record(log: seq<Event>, e: Event)
    requires Distinct(log) && Ordered(log) && e !in log
    requires e == Dequeued ==> Started !in log
    requires e == Started ==> Completed !in log && Cancelled !in log
    requires e == Completed ==> Received !in log
    requires e == Cancelled ==> Discarded !in log
    ensures Distinct(log + [e]) && Ordered(log + [e])
    ensures forall x :: x in log + [e] <==> x in log || x == e
  {
    RecordPair(log, Dequeued, Started, e);
    RecordPair(log, Started, Completed, e);
    RecordPair(log, Completed, Received, e);
    RecordPair(log, Cancelled, Discarded, e);
    RecordPair(log, Started, Cancelled, e);
  }

  lemma RecordPair(log: seq<Event>, a: Event, b: Event, e: Event)
    requires NeverAfter(log, a, b) && a != b && (e == a ==> b !in log)
    ensures NeverAfter(log + [e], a, b)
  {
  }

  // Any other step of the caller only changes its program counter.
  lemma CallerKeeps(c: Call, next: Caller)
    requires CallOk(c) && !CallerDone(c) && !c.caller.AwaitResult?
    requires next.AwaitResult? ==> c.dequeued
    requires BeforeLaunch(c.(caller := next)) ==> BeforeLaunch(c)
    requires !CallerDone(c.(caller := next))
    ensures CallOk(c.(caller := next))
  {
  }

  lemma CancelKeeps(kind: Kind, c: Call)
    requires CallOk(c) && CanCancel(kind, c)
    ensures CallOk(Cancel(kind, c))
  {
    Record(c.log, Cancelled);
  }

  lemma TakeResultKeeps(c: Call)
    requires CallOk(c) && CanTakeResult(c)
    ensures CallOk(TakeResult(c))
  {
    Record(c.log, Received);
  }

  lemma CloseDequeuedKeeps(c: Call)
    requires CallOk(c) && c.job.Fresh? && !BeforeLaunch(c)
    ensures CallOk(CloseDequeued(c))
  {
    Record(c.log, Dequeued);
  }

  lemma CheckCancelKeeps(c: Call)
    requires CallOk(c) && c.job.Announced?
    ensures CallOk(CheckCancel(c))
  {
    Record(c.log, if c.cancel.Empty? then Started else Discarded);
  }

  lemma CompleteKeeps(c: Call, outcome: Outcome)
    requires CallOk(c) && c.job.Running?
    ensures CallOk(Complete(c, outcome))
  {
    Record(c.log, Completed);
  }

  lemma DeliverKeeps(c: Call)
    requires CallOk(c) && CanDeliver(c)
    ensures CallOk(Deliver(c))
  {
  }
}
