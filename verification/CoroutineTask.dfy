/** The observable outcome of a coroutine, which settles at most once. */
module CoroutineTask {

  datatype TaskStatus = Pending | Succeeded | Cancelled | Failed

  /** The status after an attempt to settle with `outcome`: only a pending task changes. */
  function Settle(status: TaskStatus, outcome: TaskStatus): (r: TaskStatus)
    ensures status != Pending ==> r == status
  {
    if status == Pending then outcome else status
  }

  /** What an observer that called `get` sees. */
  datatype Observation = Returned | ThrewCancelled | Rethrew(exception: nat)

  /** The state shared by a coroutine's promise, its observers and the scheduler that owns its frame. */
  class TaskState {
    var status: TaskStatus
    var exception: int   // identity of the captured exception, -1 when there is none

    ghost predicate Valid()
      reads this
    {
      -1 <= exception && (status == Failed <==> exception != -1)
    }

    constructor ()
      ensures Valid() && status == Pending
    {
      status := Pending;
      exception := -1;
    }

    method Finish(outcome: TaskStatus, thrown: int)
      requires Valid() && outcome != Pending
      requires -1 <= thrown && (outcome == Failed <==> thrown != -1)
      modifies this
      ensures Valid() && status != Pending
      ensures status == Settle(old(status), outcome) == if old(status) == Pending then outcome else old(status)
      ensures old(status) != Pending ==> exception == old(exception)
      ensures old(status) == Pending ==> exception == thrown
    {
      if status != Pending {
        return;
      }
      status := outcome;
      exception := thrown;
    }

    method Succeed()
      requires Valid()
      modifies this
      ensures Valid() && status == if old(status) == Pending then Succeeded else old(status)
      ensures old(status) != Pending ==> exception == old(exception)
    {
      Finish(Succeeded, -1);
    }

    method Fail(thrown: nat)
      requires Valid()
      modifies this
      ensures Valid() && status == if old(status) == Pending then Failed else old(status)
      ensures exception == if old(status) == Pending then thrown else old(exception)
    {
      Finish(Failed, thrown);
    }

    method Cancel()
      requires Valid()
      modifies this
      ensures Valid() && status == if old(status) == Pending then Cancelled else old(status)
      ensures old(status) != Pending ==> exception == old(exception)
    {
      Finish(Cancelled, -1);
    }

    /** `get` after `wait` has returned, so the task is no longer pending. */
    method Get() returns (seen: Observation)
      requires Valid() && status != Pending
      ensures seen.Returned? <==> status == Succeeded
      ensures seen.ThrewCancelled? <==> status == Cancelled
      ensures seen.Rethrew? ==> seen.exception == exception
    {
      if status == Cancelled {
        return ThrewCancelled;
      }
      if exception != -1 {
        return Rethrew(exception);
      }
      return Returned;
    }
  }
}
