/**
 The delay-only scheduler. Its critical sections are written here as its own code has them, without a
 ready list and without waiters; every run of it is shown to be a run of the larger scheduler, so that
 every theorem about those runs is one about this loop too.
 */
module EventLoopCoroutine {
  import opened Common
  import opened AsyncEventLoop
  import AsyncEventLoopSafety
  import AsyncEventLoopEffects

  // ---------------------------------------------------------------- its own sections

  /** The first wait of `run`: only delayed tasks can end it. */
  function FirstSection(s: State): State {
    if !s.q.stopping && s.q.delayed == [] then s.(worker := Asleep)
    else if s.q.stopping then s.(worker := Exited)
    else s.(worker := TimedAsleep(s.q.delayed[0].time))
  }

  /** What follows a wake-up from the timed wait. */
  function SecondSection(s: State, deadline: Time, timedOut: bool): State {
    if s.q.stopping || s.q.delayed == [] || s.q.delayed[0].time < deadline then s.(worker := Top)
    else if !timedOut then s.(worker := TimedAsleep(deadline))
    else if s.q.delayed[0].time <= s.now then
      s.(worker := Holding(s.q.delayed[0].frame), q := s.q.(delayed := s.q.delayed[1..]))
    else s.(worker := Top)
  }

  function StopSectionOf(s: State, t: Thread): State
    requires t in s.threads
  {
    if !s.q.accepting then Release(WithOp(s, t, Idle))
    else
      WithOp(s.(q := s.q.(delayed := [], accepting := false, stopping := true)), t, Cancelling(FramesOf(s.q.delayed)))
  }

  /** The steps this loop has: its only task is `schedule_after`, and there are no events. */
  ghost predicate DelayTaken(s: State, step: Step, s': State) {
    match step
    case Act(t, act) =>
      && CanAct(s, t, act)
      && (match act
          case Create(_, oneShot) => oneShot && s' == DoAct(s, t, act)
          case Suspend(how) => how.DelayAwait? && s' == DoAct(s, t, act)
          case CallEmit(_) => false
          case EmitSection => false
          case StopSection(order) => order == [] && s' == StopSectionOf(s, t)
          case _ => s' == DoAct(s, t, act))
    case Run(work) =>
      && CanWork(s, work)
      && (match work
          case Check => s' == FirstSection(s)
          case CheckAgain => s' == SecondSection(s, s.worker.deadline, s.worker.timedOut)
          case _ => s' == DoWork(s, work))
    case Tick(elapsed) => s' == s.(now := s.now + elapsed)
  }

  ghost predicate DelayNext(s: State, s': State) {
    exists step :: DelayTaken(s, step, s')
  }

  ghost predicate DelayLinked(run: seq<State>, i: nat)
    requires i + 1 < |run|
  {
    DelayNext(run[i], run[i + 1])
  }

  ghost predicate IsDelayRun(run: seq<State>) {
    run != [] && Init(run[0]) && forall i: nat :: i + 1 < |run| ==> DelayLinked(run, i)
  }

  // ---------------------------------------------------------------- it refines the larger loop

  predicate DelayOp(op: Op) {
    !op.Emitting? && (op.Offering? ==> op.how.DelayAwait?)
  }

  /** Nothing is ever ready at once, and nobody waits for an event. */
  ghost predicate DelaysOnly(s: State) {
    s.q.ready == [] && s.q.waiters == map[] && forall t <- s.threads :: DelayOp(s.threads[t].op)
  }

  lemma {:induction false} ActRefines(s: State, t: Thread, act: Action, s': State)
    requires DelaysOnly(s) && DelayTaken(s, Act(t, act), s')
    ensures Taken(s, Act(t, act), s') && DelaysOnly(s')
  {
    assert DelayOp(s.threads[t].op);
    if act.StopSection? {
      assert Drained(s.q, []) == FramesOf(s.q.delayed);
      assert s.q.waiters.Keys == {};
    }
    forall u | u in s'.threads ensures DelayOp(s'.threads[u].op) {
      assert u in s.threads ==> DelayOp(s.threads[u].op);
    }
  }

  lemma {:induction false} WorkRefines(s: State, work: Work, s': State)
    requires DelaysOnly(s) && DelayTaken(s, Run(work), s')
    ensures Taken(s, Run(work), s') && DelaysOnly(s')
  {
    forall u | u in s'.threads ensures DelayOp(s'.threads[u].op) {
      assert u in s.threads ==> DelayOp(s.threads[u].op);
    }
  }

  lemma {:induction false} StepRefines(s: State, s': State, step: Step)
    requires DelaysOnly(s) && DelayTaken(s, step, s')
    ensures Taken(s, step, s') && DelaysOnly(s')
  {
    match step {
      case Act(t, act) => ActRefines(s, t, act, s');
      case Run(work) => WorkRefines(s, work, s');
      case Tick(_) =>
    }
  }

  lemma {:induction false} StaysDelaysOnly(run: seq<State>, i: nat)
    requires IsDelayRun(run) && i < |run|
    ensures DelaysOnly(run[i])
  {
    if i > 0 {
      StaysDelaysOnly(run, i - 1);
      assert DelayLinked(run, i - 1);
      var step :| DelayTaken(run[i - 1], step, run[i]);
      StepRefines(run[i - 1], run[i], step);
    }
  }

  /**
   Every run of the delay-only loop is a run of the larger one in which nothing is ever ready at once or waits
   for an event.
   */
  lemma {:induction false} DelayRunIsRun(run: seq<State>)
    requires IsDelayRun(run)
    ensures IsRun(run) && forall i :: 0 <= i < |run| ==> DelaysOnly(run[i])
  {
    forall i: nat | i + 1 < |run| ensures Linked(run, i) {
      StaysDelaysOnly(run, i);
      assert DelayLinked(run, i);
      var step :| DelayTaken(run[i], step, run[i + 1]);
      StepRefines(run[i], run[i + 1], step);
    }
    forall i | 0 <= i < |run| ensures DelaysOnly(run[i]) {
      StaysDelaysOnly(run, i);
    }
  }

  ghost predicate NothingOwed(s: State) {
    forall t :: t in s.threads ==> !AsyncEventLoopSafety.OwesNotification(s.threads[t].op)
  }

  /**
   So, for instance, a sleeping worker with no notification under way has an empty queue or wakes no later
   than the earliest deadline, and once `stop` has closed the loop nothing is resumed.
   */
  lemma {:induction false} DelayLoopGuarantees(run: seq<State>, i: nat, j: nat)
    requires IsDelayRun(run) && i <= j < |run|
    ensures run[i].worker.Asleep? && NothingOwed(run[i]) ==> run[i].q.delayed == []
    ensures run[i].worker.TimedAsleep? && NothingOwed(run[i]) ==>
              forall e :: e in run[i].q.delayed ==> run[i].worker.deadline <= e.time
    ensures run[i].q.stopping ==> run[j].resumed == run[i].resumed
  {
    DelayRunIsRun(run);
    if (run[i].worker.Asleep? || run[i].worker.TimedAsleep?) && NothingOwed(run[i]) {
      AsyncEventLoopSafety.NeverOversleeps(run, i);
    }
    if run[i].q.stopping {
      AsyncEventLoopSafety.StopIsABarrier(run, i, j);
    }
  }

  // ---------------------------------------------------------------- it makes progress

  /** A step of the worker, with this loop's own sections. */
  function DelayWork(s: State, work: Work): State
    requires CanWork(s, work)
  {
    match work
    case Check => FirstSection(s)
    case CheckAgain => SecondSection(s, s.worker.deadline, s.worker.timedOut)
    case _ => DoWork(s, work)
  }

  /** The worker alone makes up to n steps, until it holds a frame. */
  function DelayDrive(s: State, n: nat): State
    decreases n
  {
    var work := AsyncEventLoopEffects.NextWork(s);
    if n == 0 || s.worker.Holding? || !CanWork(s, work) then s else DelayDrive(DelayWork(s, work), n - 1)
  }

  lemma {:induction false} SectionsAgree(s: State, work: Work)
    requires s.q.ready == [] && CanWork(s, work)
    ensures DelayWork(s, work) == DoWork(s, work) && DoWork(s, work).q.ready == []
  {
  }

  lemma {:induction false} DrivesAgree(s: State, n: nat)
    requires s.q.ready == []
    ensures DelayDrive(s, n) == AsyncEventLoopEffects.Drive(s, n)
    decreases n
  {
    var work := AsyncEventLoopEffects.NextWork(s);
    if n > 0 && !s.worker.Holding? && CanWork(s, work) {
      SectionsAgree(s, work);
      DrivesAgree(DoWork(s, work), n - 1);
    }
  }

  /**
   The open delay-only loop makes progress: when it is not stopping, its worker is free and some deadline has
   passed, the worker by itself holds, after at most five steps, the due frame with the least deadline and number.
   */
  lemma {:induction false} DelayLoopTakesWhatIsDue(run: seq<State>, i: nat, e: DelayedTask)
    requires IsDelayRun(run) && i < |run| && !run[i].q.stopping && AsyncEventLoopEffects.Looking(run[i])
    requires e in run[i].q.delayed && e.time <= run[i].now
    ensures exists f :: AsyncEventLoopEffects.Took(run[i], DelayDrive(run[i], 5), f)
  {
    DelayRunIsRun(run);
    AsyncEventLoopEffects.OpenLoopTakesWhatIsDue(run, i);
    DrivesAgree(run[i], 5);
  }

  // ---------------------------------------------------------------- the object

  /** The fields `mutex_` guards; each method is one critical section. */
  class DelayQueue {
    var delayed: seq<DelayedTask>
    var nextSequence: nat
    var accepting: bool
    var stopping: bool

    ghost function Data(): Queues
      reads this
    {
      Queues(delayed, [], map[], nextSequence, accepting, stopping)
    }

    constructor ()
      ensures Data() == Queues([], [], map[], 0, true, false)
    {
      delayed, nextSequence, accepting, stopping := [], 0, true, false;
    }

    method EnqueueAfter(now: Time, delay: Time, f: Frame) returns (accepted: bool)
      modifies this`delayed, this`nextSequence
      ensures accepted == old(accepting)
      ensures Data() == if accepted then Enqueue(old(Data()), now, DelayAwait(delay), f) else old(Data())
      ensures accepted ==>
                var until := if delay < 0 then now else now + delay;
                AsyncEventLoopEffects.AddsOne(old(delayed), delayed, DelayedTask(until, old(nextSequence), f))
    {
      if !accepting {
        return false;
      }
      var deadline := if delay < 0 then now else now + delay;
      var e := DelayedTask(deadline, nextSequence, f);
      AsyncEventLoopEffects.InsertAdds(delayed, e);
      delayed := InsertDelayed(delayed, e);
      nextSequence := (nextSequence + 1) % SEQUENCE_MODULUS;
      return true;
    }

    /** Closes the loop and hands over what was queued, the earliest first. */
    method Close() returns (cancelled: seq<Frame>)
      modifies this
      ensures old(accepting) ==> cancelled == FramesOf(old(delayed)) && Data() == Closed(old(Data()))
      ensures !old(accepting) ==> cancelled == [] && Data() == old(Data())
    {
      cancelled := [];
      if !accepting {
        return;
      }
      accepting, stopping := false, true;
      while delayed != []
        invariant cancelled + FramesOf(delayed) == FramesOf(old(delayed))
        invariant nextSequence == old(nextSequence) && !accepting && stopping
        decreases |delayed|
      {
        assert FramesOf(delayed) == [delayed[0].frame] + FramesOf(delayed[1..]);
        cancelled, delayed := cancelled + [delayed[0].frame], delayed[1..];
      }
    }

    /** The end of the timed wait: the least entry, if it is due. */
    method TakeDue(now: Time) returns (frame: Option<Frame>)
      modifies this
      ensures frame.Some? <==> old(delayed) != [] && old(delayed)[0].time <= now
      ensures frame.Some? ==> frame.value == old(delayed)[0].frame && delayed == old(delayed)[1..]
      ensures Data() == old(Data()).(delayed := delayed) && (frame.None? ==> delayed == old(delayed))
      ensures frame.Some? && !stopping ==>
                forall s: State, deadline ::
                  s.q == old(Data()) && s.now == now && deadline <= old(delayed)[0].time ==>
                    SecondSection(s, deadline, true) == s.(worker := Holding(frame.value), q := Data())
    {
      if delayed != [] && delayed[0].time <= now {
        frame := Some(delayed[0].frame);
        delayed := delayed[1..];
      } else {
        frame := None;
      }
    }
  }
}
