/** The policies of the dynamic queue and the Go slice they work on. */
module JobQueue {
  import opened Common

  datatype Policy = FifoPolicy | LifoPolicy

  // ---- the policies, as functions from a queue to a queue ----

  function EnqueueAtEnd<J>(job: J, queue: seq<J>): seq<J> {
    queue + [job]
  }

  function LifoDequeue<J>(queue: seq<J>): (Option<J>, seq<J>) {
    if |queue| == 0 then (None, [])
    else if |queue| == 1 then (Some(queue[0]), [])
    else (Some(queue[|queue| - 1]), queue[..|queue| - 1])
  }

  function FifoDequeue<J>(queue: seq<J>): (Option<J>, seq<J>) {
    if |queue| == 0 then (None, []) else (Some(queue[0]), queue[1..])
  }

  function Dequeue<J>(policy: Policy, queue: seq<J>): (Option<J>, seq<J>) {
    match policy
    case FifoPolicy => FifoDequeue(queue)
    case LifoPolicy => LifoDequeue(queue)
  }

  /** A Go slice: a window of an array shared by every slice cut from it. */
  class JobSlice<J> {
    var data: array<J>
    var off: nat
    var len: nat

    ghost predicate Valid()
      reads this
    {
      off + len <= data.Length
    }

    ghost function Contents(): seq<J>
      reads this, data
      requires Valid()
    {
      data[off..off + len]
    }

    constructor ()
      ensures Valid() && fresh(data) && Contents() == []
    {
      data := new J[0];
      off, len := 0, 0;
    }

    /** enqueueAtEndPolicy: append writes in place while the array has room after the window, and
        moves to a new array (with spare room chosen by the runtime) when it has not. */
    method Append(job: J, spare: nat)
      requires Valid()
      modifies this, data
      ensures Valid() && Contents() == EnqueueAtEnd(job, old(Contents()))
      ensures if old(off + len) < old(data).Length
              then data == old(data) && off == old(off)
              else fresh(data) && old(data)[..] == old(data[..])
      ensures old(data)[..old(off + len)] == old(data[..off + len])
    {
      if off + len < data.Length {
        data[off + len] := job;
      } else {
        var grown := new J[len + 1 + spare](_ => job);
        for i := 0 to len
          modifies grown
          invariant grown[..i] == data[off..off + i]
          invariant forall k | len <= k < grown.Length :: grown[k] == job
        {
          grown[i] := data[off + i];
        }
        data, off := grown, 0;
      }
      len := len + 1;
    }

    method TakeLifo() returns (job: Option<J>)
      requires Valid()
      modifies this
      ensures Valid() && (data == old(data) || fresh(data))
      ensures (job, Contents()) == LifoDequeue(old(Contents()))
    {
      match len {
        case 0 =>
          job := None;
          data := new J[0];
          off, len := 0, 0;
        case 1 =>
          job := Some(data[off]);
          data := new J[0];
          off, len := 0, 0;
        case _ =>
          job := Some(data[off + len - 1]);
          len := len - 1;
          assert Contents() == old(Contents())[..len];
      }
    }

    method TakeFifo() returns (job: Option<J>)
      requires Valid()
      modifies this
      ensures Valid() && (data == old(data) || fresh(data))
      ensures (job, Contents()) == FifoDequeue(old(Contents()))
    {
      match len {
        case 0 =>
          job := None;
          data := new J[0];
          off, len := 0, 0;
        case _ =>
          job := Some(data[off]);
          off, len := off + 1, len - 1;
      }
    }
  }
}
