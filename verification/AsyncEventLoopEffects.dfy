/**
 What single steps of a run do, said about the clock, the queues, the tasks and the resumptions themselves: what
 is queued and until when, what an event makes ready, how a body's end settles its task, and that an open loop
 whose worker is free takes what is due.
 */
module AsyncEventLoopEffects {
  import opened Common
  import opened CoroutineTask
  import opened AsyncEventLoop
  import opened AsyncEventLoopPlaces
  import opened AsyncEventLoopSafety

  // ---------------------------------------------------------------- offering a frame

  predicate IsIn(s: State, t: Thread, op: Op) {
    t in s.threads && s.threads[t].op == op
  }

  /** Step k is the critical section in which thread t offers frame f. */
  ghost predicate OffersAt(run: seq<State>, steps: seq<Step>, k: nat, t: Thread, f: Frame, how: Await) {
    IsRunBy(run, steps) && k < |steps| && steps[k] == Act(t, EnqueueSection) && IsIn(run[k], t, Offering(f, how))
  }

  lemma {:induction false} InsertAdds(d: seq<DelayedTask>, e: DelayedTask)
    ensures AddsOne(d, InsertDelayed(d, e), e)
  {
    var k := InsertSplits(d, e);
    assert d == d[..k] + d[k..];
  }

  /** The clock at which a delay that begins now is over; a negative delay is over at once. */
  function Until(now: Time, delay: Time): Time {
    if delay < 0 then now else now + delay
  }

  /** The second queue has one entry more than the first. */
  ghost predicate AddsOne(d: seq<DelayedTask>, d': seq<DelayedTask>, e: DelayedTask) {
    multiset(d') == multiset(d) + multiset{e}
  }

  /** What an accepted delay adds to the queue. */
  lemma {:induction false} EnqueueAdds(q: Queues, now: Time, delay: Time, f: Frame)
    ensures var q' := Enqueue(q, now, DelayAwait(delay), f);
            AddsOne(q.delayed, q'.delayed, DelayedTask(if delay < 0 then now else now + delay, q.nextSequence, f))
  {
    InsertAdds(q.delayed, DelayedTask(Until(now, delay), q.nextSequence, f));
  }

  lemma {:induction false} DelaySection(s: State, t: Thread, f: Frame, delay: Time)
    requires IsIn(s, t, Offering(f, DelayAwait(delay))) && s.q.accepting
    ensures var s' := DoEnqueue(s, t);
            && multiset(s'.q.delayed)
               == multiset(s.q.delayed) + multiset{DelayedTask(Until(s.now, delay), s.q.nextSequence, f)}
            && s'.q.nextSequence == (s.q.nextSequence + 1) % 0x1_0000_0000_0000_0000
            && s'.q.ready == s.q.ready && s'.q.waiters == s.q.waiters && IsIn(s', t, Notifying)
  {
    EnqueueAdds(s.q, s.now, delay, f);
  }

  /**
   An accepted delay queues the frame once more than before, until the clock of that moment and the delay, a
   negative one counting as none; the other queues stay.
   */
  lemma {:induction false} DelayIsQueued(run: seq<State>, steps: seq<Step>, k: nat, t: Thread, f: Frame, delay: Time)
    requires OffersAt(run, steps, k, t, f, DelayAwait(delay)) && run[k].q.accepting
    ensures var until := if delay < 0 then run[k].now else run[k].now + delay;
            multiset(run[k + 1].q.delayed)
            == multiset(run[k].q.delayed) + multiset{DelayedTask(until, run[k].q.nextSequence, f)}
    ensures run[k + 1].q.nextSequence == (run[k].q.nextSequence + 1) % 0x1_0000_0000_0000_0000
    ensures run[k + 1].q.ready == run[k].q.ready && run[k + 1].q.waiters == run[k].q.waiters
    ensures IsIn(run[k + 1], t, Notifying)
  {
    assert TakenAt(run, steps, k);
    DelaySection(run[k], t, f, delay);
  }

  /** An accepted frame that wants to run at once is on top of the ready stack, and a notification is owed. */
  lemma {:induction false} ReadyIsQueued(run: seq<State>, steps: seq<Step>, k: nat, t: Thread, f: Frame)
    requires OffersAt(run, steps, k, t, f, ReadyAwait) && run[k].q.accepting
    ensures run[k + 1].q == run[k].q.(ready := run[k].q.ready + [f]) && IsIn(run[k + 1], t, Notifying)
  {
    assert TakenAt(run, steps, k);
  }

  /** An accepted frame that waits for an event is last among the waiters of that name, and nobody is notified. */
  lemma {:induction false} WaiterIsQueued(
    run: seq<State>, steps: seq<Step>, k: nat, t: Thread, f: Frame, name: string)
    requires OffersAt(run, steps, k, t, f, EventAwait(name)) && run[k].q.accepting
    ensures var before := if name in run[k].q.waiters then run[k].q.waiters[name] else [];
            run[k + 1].q == run[k].q.(waiters := run[k].q.waiters[name := before + [f]])
    ensures IsIn(run[k + 1], t, Idle)
  {
    assert TakenAt(run, steps, k);
  }

  /** A closed loop takes nothing; the offering thread is left to cancel the frame. */
  lemma {:induction false} OfferIsRefused(run: seq<State>, steps: seq<Step>, k: nat, t: Thread, f: Frame, how: Await)
    requires OffersAt(run, steps, k, t, f, how) && !run[k].q.accepting
    ensures run[k + 1].q == run[k].q && IsIn(run[k + 1], t, Rejected(f))
  {
    assert TakenAt(run, steps, k);
  }

  function Without(waiters: map<string, seq<Frame>>, name: string): map<string, seq<Frame>> {
    map n | n in waiters && n != name :: waiters[n]
  }

  /**
   An event makes exactly the waiters of its name ready, on top of what was ready, the first to wait lowest; a
   closed loop, or a name nobody waits for, changes nothing.
   */
  lemma {:induction false} EventReadiesWaiters(run: seq<State>, steps: seq<Step>, k: nat, t: Thread, name: string)
    requires IsRunBy(run, steps) && k < |steps| && steps[k] == Act(t, EmitSection) && IsIn(run[k], t, Emitting(name))
    ensures var q, q' := run[k].q, run[k + 1].q;
            if q.accepting && name in q.waiters
            then q' == q.(ready := q.ready + q.waiters[name], waiters := Without(q.waiters, name))
                 && IsIn(run[k + 1], t, Notifying)
            else q' == q && IsIn(run[k + 1], t, Idle)
  {
    assert TakenAt(run, steps, k);
    assert run[k].q.waiters - {name} == Without(run[k].q.waiters, name);
  }

  // ---------------------------------------------------------------- settling a task

  /** A body that ends settles its task for good: as failed exactly when it threw, else as succeeded. */
  lemma {:induction false} EndSettles(run: seq<State>, steps: seq<Step>, k: nat, j: nat, t: Thread, threw: bool)
    requires IsRunBy(run, steps) && k < |steps| && k < j < |run| && steps[k] == Act(t, Finish(threw))
    requires t in run[k].threads && run[k].threads[t].stack != []
    ensures var f := Innermost(run[k], t);
            f in run[j].tasks && run[j].tasks[f].status == if threw then Failed else Succeeded
  {
    RunByIsRun(run, steps);
    RunInv(run, k);
    assert TakenAt(run, steps, k);
    Actor(run[k], t, Finish(threw));
    SettlesOnce(run, k + 1, j, Innermost(run[k], t));
  }

  /** The frame that a step cancels, if it cancels one. */
  function CancelledBy(s: State, step: Step): Option<Frame> {
    match step
    case Act(t, act) =>
      if t !in s.threads then None
      else if act.CancelRejected? && s.threads[t].op.Rejected? then Some(s.threads[t].op.frame)
      else if act.CancelNext? && s.threads[t].op.Cancelling? && s.threads[t].op.left != []
      then Some(s.threads[t].op.left[0])
      else None
    case Run(work) => if work.WorkerCancel? && s.worker.WillCancel? then Some(s.worker.frame) else None
    case Tick(_) => None
  }

  /**
   A refused frame, a frame of a stop's list and a frame in the hand of a stopping worker end up cancelled for
   good.
   */
  lemma {:induction false} CancelSettles(run: seq<State>, steps: seq<Step>, k: nat, j: nat, f: Frame)
    requires IsRunBy(run, steps) && k < |steps| && k < j < |run| && CancelledBy(run[k], steps[k]) == Some(f)
    ensures f in run[j].tasks && run[j].tasks[f].status == Cancelled
  {
    RunByIsRun(run, steps);
    RunInv(run, k);
    assert TakenAt(run, steps, k);
    if steps[k].Act? {
      Actor(run[k], steps[k].t, steps[k].act);
    } else {
      InHand(run[k]);
    }
    SettlesOnce(run, k + 1, j, f);
  }

  // ---------------------------------------------------------------- resuming a delayed frame

  /** Frame f is suspended until the given time, and no thread is offering it again. */
  ghost predicate WaitsUntil(s: State, f: Frame, until: Time) {
    && f in s.tasks && s.tasks[f].suspended && s.tasks[f].notBefore == until
    && forall t :: t in s.threads ==> !(s.threads[t].op.Offering? && s.threads[t].op.frame == f)
  }

  lemma {:induction false} QueuedIsNotOffered(s: State, f: Frame, t: Thread)
    requires Placed(s) && f in FramesOf(s.q.delayed) && t in s.threads
    ensures !(s.threads[t].op.Offering? && s.threads[t].op.frame == f)
  {
    var at :| PlacedAt(s, at);
    assert Holds(Contents(s, DelayedQueue), at, DelayedQueue);
    assert Holds(Contents(s, CarriedBy(t)), at, CarriedBy(t));
    assert s.threads[t].op.Offering? ==> s.threads[t].op.frame in Contents(s, CarriedBy(t));
  }

  lemma {:induction false} StartsWaiting(run: seq<State>, steps: seq<Step>, k: nat, t: Thread, f: Frame, delay: Time)
    requires OffersAt(run, steps, k, t, f, DelayAwait(delay)) && run[k].q.accepting
    ensures WaitsUntil(run[k + 1], f, if delay < 0 then run[k].now else run[k].now + delay)
  {
    RunByIsRun(run, steps);
    RunInv(run, k);
    RunInv(run, k + 1);
    assert TakenAt(run, steps, k);
    Actor(run[k], t, EnqueueSection);
    DelayIsQueued(run, steps, k, t, f, delay);
    var s := run[k + 1];
    var e := DelayedTask(if delay < 0 then run[k].now else run[k].now + delay, run[k].q.nextSequence, f);
    assert e in multiset(s.q.delayed);
    var i :| 0 <= i < |s.q.delayed| && s.q.delayed[i] == e;
    assert FramesOf(s.q.delayed)[i] == f;
    forall u | u in s.threads ensures !(s.threads[u].op.Offering? && s.threads[u].op.frame == f) {
      QueuedIsNotOffered(s, f, u);
    }
  }

  lemma {:induction false} ActKeepsWaiting(s: State, t: Thread, act: Action, f: Frame, until: Time)
    requires Placed(s) && CanAct(s, t, act) && WaitsUntil(s, f, until)
    ensures WaitsUntil(DoAct(s, t, act), f, until)
  {
    var s' := DoAct(s, t, act);
    Actor(s, t, act);
    if !TouchesTask(act) {
      Untouched(s, t, act);
    }
    assert f in s'.tasks && s'.tasks[f].suspended && s'.tasks[f].notBefore == until;
    forall u | u in s'.threads ensures !(s'.threads[u].op.Offering? && s'.threads[u].op.frame == f) {
      if u != t {
        ActMovesOne(s, t, act, u);
      } else {
        OfferingStarts(s, t, act);
      }
    }
  }

  /** A thread offers a frame only once its body has suspended there. */
  lemma {:induction false} OfferingStarts(s: State, t: Thread, act: Action)
    requires CanAct(s, t, act)
    ensures t in DoAct(s, t, act).threads
    ensures DoAct(s, t, act).threads[t].op.Offering? ==>
              || (act.Suspend? && HasBody(s, t) && DoAct(s, t, act).threads[t].op.frame == Innermost(s, t))
              || DoAct(s, t, act).threads[t].op == s.threads[t].op
  {
  }

  lemma {:induction false} WorkKeepsWaiting(s: State, work: Work, f: Frame, until: Time)
    requires Placed(s) && CanWork(s, work) && WaitsUntil(s, f, until)
    requires DoWork(s, work).resumed != s.resumed + [f]
    ensures WaitsUntil(DoWork(s, work), f, until)
  {
  }

  lemma {:induction false} KeepsWaiting(s: State, step: Step, s': State, f: Frame, until: Time)
    requires Placed(s) && Taken(s, step, s') && WaitsUntil(s, f, until) && s'.resumed != s.resumed + [f]
    ensures WaitsUntil(s', f, until)
  {
    match step {
      case Act(t, act) => ActKeepsWaiting(s, t, act, f, until);
      case Run(work) => WorkKeepsWaiting(s, work, f, until);
      case Tick(_) =>
    }
  }

  /** Frame f is resumed between the states i and i + 1. */
  predicate ResumesAt(run: seq<State>, i: nat, f: Frame)
    requires i + 1 < |run|
  {
    run[i + 1].resumed == run[i].resumed + [f]
  }

  lemma {:induction false} WaitsFrom(
    run: seq<State>, steps: seq<Step>, k: nat, j: nat, t: Thread, f: Frame, delay: Time)
    requires OffersAt(run, steps, k, t, f, DelayAwait(delay)) && run[k].q.accepting && k < j < |run|
    requires forall i :: k < i < j ==> !ResumesAt(run, i, f)
    ensures WaitsUntil(run[j], f, if delay < 0 then run[k].now else run[k].now + delay)
  {
    if j == k + 1 {
      StartsWaiting(run, steps, k, t, f, delay);
    } else {
      WaitsFrom(run, steps, k, j - 1, t, f, delay);
      RunByIsRun(run, steps);
      RunInv(run, j - 1);
      assert TakenAt(run, steps, j - 1) && !ResumesAt(run, j - 1, f);
      KeepsWaiting(run[j - 1], steps[j - 1], run[j], f, if delay < 0 then run[k].now else run[k].now + delay);
    }
  }

  /**
   The delay is kept: a frame offered with a delay and accepted is resumed for the first time at a clock that has
   moved on by at least that delay.
   */
  lemma {:induction false} DelayIsKept(
    run: seq<State>, steps: seq<Step>, k: nat, j: nat, t: Thread, f: Frame, delay: Time)
    requires OffersAt(run, steps, k, t, f, DelayAwait(delay)) && run[k].q.accepting && k < j < |steps|
    requires ResumesAt(run, j, f) && forall i :: k < i < j ==> !ResumesAt(run, i, f)
    ensures run[j].now >= run[k].now && run[j].now >= run[k].now + delay
  {
    WaitsFrom(run, steps, k, j, t, f, delay);
    RunByIsRun(run, steps);
    assert run[j + 1].resumed[|run[j].resumed|] == f;
    assert run[j + 1].resumed != run[j].resumed;
    NeverResumesEarly(run, j);
    assert run[j + 1].resumed[|run[j].resumed|] == run[j].worker.frame;
  }

  // ---------------------------------------------------------------- the open loop makes progress

  /** What a worker that is not in a callback does next, when a sleeping one is woken or times out. */
  function NextWork(s: State): Work {
    match s.worker
    case Top => Check
    case Asleep => SpuriousWake
    case TimedAsleep(deadline) => if deadline <= s.now then Timeout else SpuriousWake
    case Recheck(_, _) => CheckAgain
    case _ => StartRun
  }

  /** The worker alone makes up to n steps, until it holds a frame. */
  function Drive(s: State, n: nat): State
    decreases n
  {
    if n == 0 || s.worker.Holding? || !CanWork(s, NextWork(s)) then s else Drive(DoWork(s, NextWork(s)), n - 1)
  }

  predicate Looking(s: State) {
    s.worker == Top || s.worker == Asleep || s.worker.TimedAsleep? || s.worker.Recheck?
  }

  /** Among the queued entries, e is due, and none is before it by deadline and then by number. */
  ghost predicate LeastDue(e: DelayedTask, delayed: seq<DelayedTask>, now: Time) {
    && e in delayed && e.time <= now
    && forall x :: x in delayed ==> e.time < x.time || (e.time == x.time && e.sequence <= x.sequence)
  }

  lemma {:induction false} DriveFromTop(s: State)
    requires s.worker == Top && !s.q.stopping
    ensures s.q.ready != [] ==>
              Drive(s, 1) == s.(worker := Holding(s.q.ready[|s.q.ready| - 1]),
                                q := s.q.(ready := s.q.ready[..|s.q.ready| - 1]))
    ensures s.q.ready == [] && s.q.delayed != [] && s.q.delayed[0].time <= s.now ==>
              Drive(s, 3) == s.(worker := Holding(s.q.delayed[0].frame), q := s.q.(delayed := s.q.delayed[1..]))
  {
    if s.q.ready != [] {
      assert Drive(s, 1) == Drive(DoWork(s, Check), 0);
    } else if s.q.delayed != [] && s.q.delayed[0].time <= s.now {
      var s1 := DoWork(s, Check);
      var s2 := DoWork(s1, Timeout);
      assert Drive(s, 3) == Drive(s1, 2) == Drive(s2, 1) == Drive(DoWork(s2, CheckAgain), 0);
    }
  }

  /** Once a frame is held, more steps change nothing. */
  lemma {:induction false} DriveStops(s: State, n: nat, m: nat)
    requires n <= m && Drive(s, n).worker.Holding?
    ensures Drive(s, m) == Drive(s, n)
    decreases n
  {
    if n > 0 && !s.worker.Holding? {
      DriveStops(DoWork(s, NextWork(s)), n - 1, m - 1);
    }
  }

  /** What the worker comes to hold, and what is left. */
  function Takes(s: State): State
    requires s.q.ready != [] || s.q.delayed != []
  {
    if s.q.ready != []
    then s.(worker := Holding(s.q.ready[|s.q.ready| - 1]), q := s.q.(ready := s.q.ready[..|s.q.ready| - 1]))
    else s.(worker := Holding(s.q.delayed[0].frame), q := s.q.(delayed := s.q.delayed[1..]))
  }

  lemma {:induction false} DriveTop(s: State)
    requires s.worker == Top && !s.q.stopping
    requires s.q.ready != [] || (s.q.delayed != [] && s.q.delayed[0].time <= s.now)
    ensures Drive(s, 3) == Takes(s)
  {
    DriveFromTop(s);
    if s.q.ready != [] {
      DriveStops(s, 1, 3);
    }
  }

  lemma {:induction false} DriveRecheck(s: State)
    requires s.worker.Recheck? && !s.q.stopping
    requires s.q.ready != [] || (s.q.delayed != [] && s.q.delayed[0].time <= s.now)
    ensures Drive(s, 4) == Takes(s)
  {
    var s1 := DoWork(s, CheckAgain);
    assert Drive(s, 4) == Drive(s1, 3);
    if s1.worker == Top {
      DriveTop(s1);
    } else if s1.worker.TimedAsleep? {
      var s2 := DoWork(s1, Timeout);
      assert Drive(s1, 3) == Drive(s2, 2) == Drive(DoWork(s2, CheckAgain), 1);
    }
  }

  lemma {:induction false} DriveLooking(s: State)
    requires Looking(s) && !s.q.stopping
    requires s.q.ready != [] || (s.q.delayed != [] && s.q.delayed[0].time <= s.now)
    ensures Drive(s, 5) == Takes(s)
  {
    if s.worker == Top {
      DriveTop(s);
      DriveStops(s, 3, 5);
    } else if s.worker.Recheck? {
      DriveRecheck(s);
      DriveStops(s, 4, 5);
    } else {
      var s1 := DoWork(s, NextWork(s));
      assert Drive(s, 5) == Drive(s1, 4);
      if s1.worker == Top {
        DriveTop(s1);
        DriveStops(s1, 3, 4);
      } else {
        DriveRecheck(s1);
      }
    }
  }

  lemma {:induction false} FirstIsLeastDue(delayed: seq<DelayedTask>, e: DelayedTask, now: Time)
    requires SortedQueue(delayed) && e in delayed && e.time <= now
    ensures LeastDue(delayed[0], delayed, now)
  {
    var i :| 0 <= i < |delayed| && delayed[i] == e;
    assert i > 0 ==> NotLater(delayed[0], delayed[i]);
    forall x | x in delayed
      ensures delayed[0].time < x.time || (delayed[0].time == x.time && delayed[0].sequence <= x.sequence)
    {
      var j :| 0 <= j < |delayed| && delayed[j] == x;
      assert j > 0 ==> NotLater(delayed[0], delayed[j]);
    }
  }

  ghost predicate SomethingDue(s: State) {
    s.q.ready != [] || exists e :: e in s.q.delayed && e.time <= s.now
  }

  /** The worker has taken frame f, and nothing else has changed. */
  ghost predicate Took(s: State, s': State, f: Frame) {
    && s'.worker == Holding(f)
    && s' == s.(worker := s'.worker, q := s.q.(ready := s'.q.ready, delayed := s'.q.delayed))
    && (s.q.ready != [] ==> s.q.ready == s'.q.ready + [f] && s'.q.delayed == s.q.delayed)
    && (s.q.ready == [] ==>
          && s'.q.ready == []
          && exists e :: && LeastDue(e, s.q.delayed, s.now) && e.frame == f
                         && multiset(s.q.delayed) == multiset(s'.q.delayed) + multiset{e})
  }

  /**
   The open loop makes progress. In any state of any run in which the loop is not stopping, the worker is not busy
   with a frame, and something is ready or due, the worker by itself, with the clock and everybody else standing
   still, holds a frame after at most five steps: the top of the ready stack, or when nothing is ready the due entry
   with the least deadline and number.
   */
  lemma {:induction false} OpenLoopTakesWhatIsDue(run: seq<State>, i: nat)
    requires IsRun(run) && i < |run| && !run[i].q.stopping && Looking(run[i]) && SomethingDue(run[i])
    ensures exists f :: Took(run[i], Drive(run[i], 5), f)
  {
    RunInv(run, i);
    var s := run[i];
    var f := DueFrame(s);
    assert Took(s, Drive(s, 5), f);
  }

  lemma {:induction false} DueFrame(s: State) returns (f: Frame)
    requires SortedQueue(s.q.delayed) && !s.q.stopping && Looking(s) && SomethingDue(s)
    ensures Took(s, Drive(s, 5), f)
  {
    if s.q.ready == [] {
      var e :| e in s.q.delayed && e.time <= s.now;
      FirstIsLeastDue(s.q.delayed, e, s.now);
      assert s.q.delayed == [s.q.delayed[0]] + s.q.delayed[1..];
    }
    DriveLooking(s);
    f := Drive(s, 5).worker.frame;
  }

  /** And it resumes what it holds: with the gate free, three more steps of the worker run the frame's body. */
  lemma {:induction false} OpenLoopResumesWhatItHolds(run: seq<State>, i: nat, f: Frame)
    requires IsRun(run) && i < |run| && !run[i].q.stopping && run[i].worker == Holding(f)
    requires GateFree(run[i], run[i].workerThread)
    ensures var s' := DoWork(DoWork(DoWork(run[i], WorkerGate), ReadFlag), Resume);
            && s'.worker == Resuming && s'.resumed == run[i].resumed + [f]
            && s'.workerThread in s'.threads && s'.threads[s'.workerThread] == ThreadState([f], Idle)
            && s'.gateOwner == Some(s'.workerThread) && f in s'.tasks && !s'.tasks[f].suspended
  {
    RunInv(run, i);
    HeldIsPending(run[i], f);
  }

  lemma {:induction false} HeldIsPending(s: State, f: Frame)
    requires Placed(s) && s.worker == Holding(f)
    ensures f in s.tasks && s.tasks[f].status == Pending
  {
    var at :| PlacedAt(s, at);
    assert Holds(Contents(s, WorkerHand), at, WorkerHand);
    assert f in Contents(s, WorkerHand);
  }
}
