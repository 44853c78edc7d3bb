/** What every step of the loop keeps, and what holds over whole runs. */
module AsyncEventLoopSafety {
  import opened Common
  import opened CoroutineTask
  import opened AsyncEventLoop
  import opened AsyncEventLoopPlaces

  // ---------------------------------------------------------------- invariants

  /** How many of the gate's nested acquisitions belong to thread t. */
  function Holdings(s: State, t: Thread): nat {
    var byRun := if t == s.workerThread && (s.worker.Gated? || s.worker.WillCancel? || s.worker.WillResume?
                                            || s.worker.Resuming?) then 1 else 0;
    var byStop := if t in s.threads && (s.threads[t].op.StopGated? || s.threads[t].op.Cancelling?
                                        || s.threads[t].op.StopNotified?) then 1 else 0;
    byRun + byStop
  }

  ghost predicate GateOk(s: State) {
    match s.gateOwner
    case None => s.gateDepth == 0 && forall t :: Holdings(s, t) == 0
    case Some(owner) =>
      s.gateDepth == Holdings(s, owner) > 0 && forall t :: t != owner ==> Holdings(s, t) == 0
  }

  /** Operations that are reached only once admission is closed. */
  predicate AfterClosing(op: Op) {
    op.Cancelling? || op.StopNotified? || op.Rejected?
  }

  ghost predicate FlagsOk(s: State) {
    && s.q.accepting == !s.q.stopping
    && (s.q.stopping ==> s.q.delayed == [] && s.q.ready == [] && s.q.waiters == map[] && !s.worker.WillResume?)
    && (s.worker == Exited ==> s.q.stopping)
    && (forall t :: t in s.threads && AfterClosing(s.threads[t].op) ==> s.q.stopping)
  }

  predicate OwesNotification(op: Op) {
    op.Notifying? || op.Cancelling?
  }

  ghost predicate NotificationInFlight(s: State) {
    exists t :: t in s.threads && OwesNotification(s.threads[t].op)
  }

  /** The worker would go back to sleep if it looked now. */
  ghost predicate NothingDue(s: State) {
    match s.worker
    case Asleep => !s.q.stopping && s.q.ready == [] && s.q.delayed == []
    case TimedAsleep(d) => !s.q.stopping && s.q.ready == [] && s.q.delayed != [] && d <= s.q.delayed[0].time
    case _ => true
  }

  ghost predicate WakeOk(s: State) {
    NotificationInFlight(s) || NothingDue(s)
  }

  ghost predicate SortedQueue(d: seq<DelayedTask>) {
    forall i, j :: 0 <= i < j < |d| ==> NotLater(d[i], d[j])
  }

  ghost predicate TimeOk(s: State) {
    && SortedQueue(s.q.delayed)
    && (forall i :: 0 <= i < |s.q.delayed| ==>
          var e := s.q.delayed[i]; e.frame in s.tasks && s.tasks[e.frame].notBefore == e.time)
    && (forall f :: f in s.tasks ==>
          || s.tasks[f].notBefore <= s.now
          || f in FramesOf(s.q.delayed)
          || (s.q.stopping && s.tasks[f].suspended))
  }

  ghost predicate TaskOk(t: Task) {
    && t.awaits == t.resumes + (if t.suspended then 1 else 0)
    && (t.oneShot ==>
          && t.awaits <= 1
          && (t.resumes == 0 <==> t.callback == NotStarted)
          && (t.status == Succeeded <==> t.callback == Completed)
          && (t.status == Failed <==> t.callback == Threw)
          && (t.status == Cancelled ==> t.callback == NotStarted))
  }

  ghost predicate TasksOk(s: State) {
    forall f :: f in s.tasks ==> TaskOk(s.tasks[f])
  }

  ghost predicate Inv(s: State) {
    Placed(s) && WorkerBusyOnlyResuming(s) && GateOk(s) && FlagsOk(s) && WakeOk(s) && TimeOk(s) && TasksOk(s)
  }

  // ---------------------------------------------------------------- preservation, invariant by invariant

  /** A queued frame, a frame in an operation's hands and a frame in the worker's hand are pending and suspended. */
  ghost predicate PendingOutside(s: State, f: Frame) {
    f in s.tasks && s.tasks[f].status == Pending && f !in FramesOf(s.q.delayed)
  }

  /** What the invariants say of the frame an action is about to touch. */
  lemma {:induction false} Actor(s: State, t: Thread, act: Action)
    requires Placed(s) && CanAct(s, t, act)
    ensures act.Suspend? || act.Finish? ==>
              PendingOutside(s, Innermost(s, t)) && !s.tasks[Innermost(s, t)].suspended
    ensures act.EnqueueSection? || act.CancelRejected? ==>
              PendingOutside(s, s.threads[t].op.frame) && s.tasks[s.threads[t].op.frame].suspended
    ensures act.CancelNext? ==>
              PendingOutside(s, s.threads[t].op.left[0]) && s.tasks[s.threads[t].op.left[0]].suspended
  {
    var at :| PlacedAt(s, at);
    assert Holds(Contents(s, DelayedQueue), at, DelayedQueue);
    assert Holds(Contents(s, RunningOn(t)), at, RunningOn(t));
    assert Holds(Contents(s, CarriedBy(t)), at, CarriedBy(t));
    if act.Suspend? || act.Finish? {
      assert Innermost(s, t) in Contents(s, RunningOn(t));
    } else if act.EnqueueSection? || act.CancelRejected? {
      assert s.threads[t].op.frame in Contents(s, CarriedBy(t));
    } else if act.CancelNext? {
      assert s.threads[t].op.left[0] in Contents(s, CarriedBy(t));
    }
  }

  /** The same for the frame in the worker's hand. */
  lemma {:induction false} InHand(s: State)
    requires Placed(s) && (s.worker.WillCancel? || s.worker.WillResume?)
    ensures PendingOutside(s, s.worker.frame) && s.tasks[s.worker.frame].suspended
  {
    var at :| PlacedAt(s, at);
    assert Holds(Contents(s, DelayedQueue), at, DelayedQueue);
    assert Holds(Contents(s, WorkerHand), at, WorkerHand);
    assert s.worker.frame in Contents(s, WorkerHand);
  }

  lemma {:induction false} GateMoves(s: State, s': State, t: Thread)
    requires GateOk(s)
    requires forall u :: u != t ==> Holdings(s', u) == Holdings(s, u)
    requires
      || (s'.gateOwner == s.gateOwner && s'.gateDepth == s.gateDepth && Holdings(s', t) == Holdings(s, t))
      || (GateFree(s, t) && Holdings(s', t) == Holdings(s, t) + 1
          && s'.gateOwner == Acquire(s, t).gateOwner && s'.gateDepth == Acquire(s, t).gateDepth)
      || (Holdings(s', t) == Holdings(s, t) - 1
          && s'.gateOwner == Release(s).gateOwner && s'.gateDepth == Release(s).gateDepth)
    ensures GateOk(s')
  {
    assert forall u :: u != t ==> Holdings(s', u) == Holdings(s, u);
  }

  predicate PartOfStop(act: Action) {
    act.StopGate? || act.StopSection? || act.CancelNext? || act.StopNotifyAll? || act.StopReturn?
  }

  lemma {:induction false} StopActGate(s: State, t: Thread, act: Action)
    requires GateOk(s) && CanAct(s, t, act) && PartOfStop(act)
    ensures GateOk(DoAct(s, t, act))
  {
    GateMoves(s, DoAct(s, t, act), t);
  }

  /** Any other action leaves the gate alone and neither enters nor leaves a stop. */
  lemma {:induction false} OtherActHoldings(s: State, t: Thread, act: Action)
    requires CanAct(s, t, act) && !PartOfStop(act)
    ensures var s' := DoAct(s, t, act);
            && s'.gateOwner == s.gateOwner && s'.gateDepth == s.gateDepth
            && forall u :: Holdings(s', u) == Holdings(s, u)
  {
  }

  lemma {:induction false} ActGate(s: State, t: Thread, act: Action)
    requires GateOk(s) && CanAct(s, t, act)
    ensures GateOk(DoAct(s, t, act))
  {
    if PartOfStop(act) {
      StopActGate(s, t, act);
    } else {
      OtherActHoldings(s, t, act);
    }
  }

  lemma {:induction false} WorkGate(s: State, work: Work)
    requires GateOk(s) && WorkerBusyOnlyResuming(s) && CanWork(s, work)
    ensures GateOk(DoWork(s, work))
  {
    forall u | u != s.workerThread ensures Holdings(DoWork(s, work), u) == Holdings(s, u) {
      OthersHoldings(s, work, u);
    }
    GateMoves(s, DoWork(s, work), s.workerThread);
  }

  lemma {:induction false} OthersHoldings(s: State, work: Work, u: Thread)
    requires CanWork(s, work) && u != s.workerThread
    ensures Holdings(DoWork(s, work), u) == Holdings(s, u)
  {
  }

  /** Closing admission needs the gate, so it cannot fall between the worker's flag check and its resume. */
  lemma {:induction false} StopExcludesResume(s: State, t: Thread)
    requires GateOk(s) && WorkerBusyOnlyResuming(s) && t in s.threads && s.threads[t].op.StopGated?
    ensures !s.worker.WillResume?
  {
    assert Holdings(s, t) >= 1;
    assert s.worker.WillResume? ==> Holdings(s, s.workerThread) >= 1;
  }

  lemma {:induction false} ActFlags(s: State, t: Thread, act: Action)
    requires FlagsOk(s) && GateOk(s) && WorkerBusyOnlyResuming(s) && CanAct(s, t, act)
    ensures FlagsOk(DoAct(s, t, act))
  {
    if act.StopSection? {
      StopExcludesResume(s, t);
    }
  }

  lemma {:induction false} WorkFlags(s: State, work: Work)
    requires FlagsOk(s) && CanWork(s, work)
    ensures FlagsOk(DoWork(s, work))
  {
  }

  /** A debt of notification stays with its thread until that thread pays it, which wakes the worker. */
  lemma {:induction false} DebtKept(s: State, u: Thread, act: Action, t: Thread)
    requires CanAct(s, u, act) && t in s.threads && OwesNotification(s.threads[t].op)
    requires !act.NotifyOne? && !act.StopNotifyAll?
    ensures t in DoAct(s, u, act).threads && OwesNotification(DoAct(s, u, act).threads[t].op)
  {
  }

  /** Whatever gives a sleeping worker something to do leaves its author owing a notification. */
  lemma {:induction false} SleepKept(s: State, t: Thread, act: Action)
    requires CanAct(s, t, act) && NothingDue(s)
    ensures WakeOk(DoAct(s, t, act))
  {
    var s' := DoAct(s, t, act);
    assert t in s'.threads && (NothingDue(s') || OwesNotification(s'.threads[t].op));
  }

  lemma {:induction false} ActWake(s: State, t: Thread, act: Action)
    requires WakeOk(s) && CanAct(s, t, act)
    ensures WakeOk(DoAct(s, t, act))
  {
    if act.NotifyOne? || act.StopNotifyAll? {
      assert NothingDue(DoAct(s, t, act));
    } else if NotificationInFlight(s) {
      var u :| u in s.threads && OwesNotification(s.threads[u].op);
      DebtKept(s, t, act, u);
    } else {
      SleepKept(s, t, act);
    }
  }

  lemma {:induction false} WorkWake(s: State, work: Work)
    requires WakeOk(s) && WorkerBusyOnlyResuming(s) && CanWork(s, work)
    ensures WakeOk(DoWork(s, work))
  {
    var s' := DoWork(s, work);
    if NotificationInFlight(s) {
      var u :| u in s.threads && OwesNotification(s.threads[u].op);
      assert u in s'.threads && OwesNotification(s'.threads[u].op);
    } else {
      assert NothingDue(s');
    }
  }

  predicate TouchesTask(act: Action) {
    || act.Create? || act.Suspend? || act.Finish? || act.EnqueueSection? || act.CancelRejected?
    || act.CancelNext?
  }

  lemma {:induction false} Untouched(s: State, t: Thread, act: Action)
    requires CanAct(s, t, act) && !TouchesTask(act)
    ensures DoAct(s, t, act).tasks == s.tasks && DoAct(s, t, act).now == s.now
  {
  }

  lemma {:induction false} ActTasks(s: State, t: Thread, act: Action)
    requires TasksOk(s) && Placed(s) && CanAct(s, t, act)
    ensures TasksOk(DoAct(s, t, act))
  {
    Actor(s, t, act);
    if !TouchesTask(act) {
      Untouched(s, t, act);
    }
  }

  lemma {:induction false} WorkTasks(s: State, work: Work)
    requires TasksOk(s) && Placed(s) && CanWork(s, work)
    ensures TasksOk(DoWork(s, work))
  {
    if work.WorkerCancel? || work.Resume? {
      InHand(s);
    }
  }

  lemma {:induction false} InsertSorted(d: seq<DelayedTask>, e: DelayedTask)
    requires SortedQueue(d)
    ensures SortedQueue(InsertDelayed(d, e))
    ensures forall x :: x in InsertDelayed(d, e) <==> x == e || x in d
  {
    if d != [] {
      assert d == [d[0]] + d[1..];
      if NotLater(d[0], e) {
        InsertSorted(d[1..], e);
        var r := InsertDelayed(d[1..], e);
        assert forall i :: 0 <= i < |r| ==> r[i] in r;
      }
    }
  }

  /** Time passes, tasks may appear, and the delayed queue stays as it is. */
  lemma {:induction false} TimeFrame(s: State, s': State)
    requires TimeOk(s) && s'.q.delayed == s.q.delayed && s'.q.stopping == s.q.stopping && s.now <= s'.now
    requires s.tasks.Keys <= s'.tasks.Keys
    requires forall f :: f in s.tasks ==>
               && s'.tasks[f].notBefore == s.tasks[f].notBefore
               && (s.tasks[f].suspended ==> s'.tasks[f].suspended || s.tasks[f].notBefore <= s.now)
    requires forall f :: f in s'.tasks && f !in s.tasks ==> s'.tasks[f].notBefore <= s'.now
    ensures TimeOk(s')
  {
  }

  lemma {:induction false} EnqueueTime(s: State, t: Thread)
    requires TimeOk(s) && FlagsOk(s) && Placed(s) && CanAct(s, t, EnqueueSection)
    ensures TimeOk(DoAct(s, t, EnqueueSection))
  {
    Actor(s, t, EnqueueSection);
    var s', f, how := DoEnqueue(s, t), s.threads[t].op.frame, s.threads[t].op.how;
    if s.q.accepting && how.DelayAwait? {
      var e := DelayedTask(Deadline(s.now, how.delay), s.q.nextSequence, f);
      InsertSorted(s.q.delayed, e);
      assert f !in FramesOf(s.q.delayed);
      forall i | 0 <= i < |s'.q.delayed|
        ensures s'.q.delayed[i].frame in s'.tasks && s'.tasks[s'.q.delayed[i].frame].notBefore == s'.q.delayed[i].time
      {
        var x := s'.q.delayed[i];
        assert x in s'.q.delayed;
        if x != e {
          var k :| 0 <= k < |s.q.delayed| && s.q.delayed[k] == x;
          assert FramesOf(s.q.delayed)[k] == x.frame;
        }
      }
      forall g | g in FramesOf(s.q.delayed) || g == f ensures g in FramesOf(s'.q.delayed) {
        var x :| x in s'.q.delayed && x.frame == g;
        var k :| 0 <= k < |s'.q.delayed| && s'.q.delayed[k] == x;
        assert FramesOf(s'.q.delayed)[k] == g;
      }
    } else {
      TimeFrame(s, s');
    }
  }

  lemma {:induction false} CheckSecondTime(s: State)
    requires TimeOk(s) && CanWork(s, CheckAgain)
    ensures TimeOk(DoWork(s, CheckAgain))
  {
    var s' := CheckSecond(s, s.worker.deadline, s.worker.timedOut);
    if s'.q.delayed != s.q.delayed {
      assert FramesOf(s.q.delayed) == [s.q.delayed[0].frame] + FramesOf(s'.q.delayed);
    }
  }

  lemma {:induction false} StopTime(s: State, t: Thread, order: seq<string>)
    requires TimeOk(s) && Placed(s) && FlagsOk(s) && CanAct(s, t, StopSection(order))
    ensures TimeOk(DoAct(s, t, StopSection(order)))
  {
    var at :| PlacedAt(s, at);
    assert Holds(Contents(s, DelayedQueue), at, DelayedQueue);
  }

  lemma {:induction false} ActTime(s: State, t: Thread, act: Action)
    requires TimeOk(s) && FlagsOk(s) && Placed(s) && CanAct(s, t, act)
    ensures TimeOk(DoAct(s, t, act))
  {
    if act.EnqueueSection? {
      EnqueueTime(s, t);
    } else if act.StopSection? {
      StopTime(s, t, act.order);
    } else {
      OtherTime(s, t, act);
    }
  }

  lemma {:induction false} OtherTime(s: State, t: Thread, act: Action)
    requires TimeOk(s) && Placed(s) && CanAct(s, t, act) && !act.EnqueueSection? && !act.StopSection?
    ensures TimeOk(DoAct(s, t, act))
  {
    Actor(s, t, act);
    if !TouchesTask(act) {
      Untouched(s, t, act);
    }
    TimeFrame(s, DoAct(s, t, act));
  }

  lemma {:induction false} WorkTime(s: State, work: Work)
    requires TimeOk(s) && FlagsOk(s) && Placed(s) && CanWork(s, work)
    ensures TimeOk(DoWork(s, work))
  {
    if work.CheckAgain? {
      CheckSecondTime(s);
    } else {
      if work.WorkerCancel? || work.Resume? {
        InHand(s);
      }
      TimeFrame(s, DoWork(s, work));
    }
  }

  // ---------------------------------------------------------------- every reachable state

  lemma {:induction false} InitInv(s: State)
    requires Init(s)
    ensures Inv(s)
  {
    assert PlacedAt(s, map[]);
  }

  lemma {:induction false} ActInv(s: State, t: Thread, act: Action)
    requires Inv(s) && CanAct(s, t, act) && (act.StopSection? ==> IsOrderOf(act.order, s.q.waiters.Keys))
    ensures Inv(DoAct(s, t, act))
  {
    StepPlaced(s, Act(t, act), DoAct(s, t, act));
    ActBusy(s, t, act);
    ActGate(s, t, act);
    ActFlags(s, t, act);
    ActWake(s, t, act);
    ActTime(s, t, act);
    ActTasks(s, t, act);
  }

  lemma {:induction false} WorkInv(s: State, work: Work)
    requires Inv(s) && CanWork(s, work)
    ensures Inv(DoWork(s, work))
  {
    StepPlaced(s, Run(work), DoWork(s, work));
    WorkBusy(s, work);
    WorkGate(s, work);
    WorkFlags(s, work);
    WorkWake(s, work);
    WorkTime(s, work);
    WorkTasks(s, work);
  }

  lemma {:induction false} TickInv(s: State, elapsed: nat)
    requires Inv(s)
    ensures Inv(s.(now := s.now + elapsed))
  {
    var s' := s.(now := s.now + elapsed);
    StepPlaced(s, Tick(elapsed), s');
    GateMoves(s, s', s.workerThread);
    TimeFrame(s, s');
  }

  lemma {:induction false} StepInv(s: State, s': State)
    requires Inv(s) && Next(s, s')
    ensures Inv(s')
  {
    var step :| Taken(s, step, s');
    match step {
      case Act(t, act) => ActInv(s, t, act);
      case Run(work) => WorkInv(s, work);
      case Tick(elapsed) => TickInv(s, elapsed);
    }
  }

  lemma {:induction false} RunInv(run: seq<State>, i: nat)
    requires IsRun(run) && i < |run|
    ensures Inv(run[i])
  {
    if i == 0 {
      InitInv(run[0]);
    } else {
      RunInv(run, i - 1);
      assert Linked(run, i - 1);
      StepInv(run[i - 1], run[i]);
    }
  }

  /** A run and the steps it took. */
  ghost predicate IsRunBy(run: seq<State>, steps: seq<Step>) {
    |run| == |steps| + 1 && Init(run[0]) && forall k :: 0 <= k < |steps| ==> TakenAt(run, steps, k)
  }

  ghost predicate TakenAt(run: seq<State>, steps: seq<Step>, k: int)
    requires 0 <= k < |steps| == |run| - 1
  {
    Taken(run[k], steps[k], run[k + 1])
  }

  lemma {:induction false} RunByIsRun(run: seq<State>, steps: seq<Step>)
    requires IsRunBy(run, steps)
    ensures IsRun(run)
  {
    forall i: nat | i + 1 < |run| ensures Linked(run, i) {
      assert TakenAt(run, steps, i);
    }
  }

  // ---------------------------------------------------------------- theorems over runs

  /**
   In every state of every run, a suspended and unsettled frame is found exactly once in exactly one of
   the delayed queue, the ready stack, the waiter lists, the worker's hand and the operations in
   progress; a running frame is in none of these; a settled frame is nowhere at all. So no frame is lost,
   none is duplicated, and each suspension is answered by at most one resumption.
   */
  lemma {:induction false} EveryFrameInOnePlace(run: seq<State>, i: nat, f: Frame)
    requires IsRun(run) && i < |run| && f in run[i].tasks
    ensures var s := run[i];
            s.tasks[f].status == Pending ==>
              exists p :: && p != Nowhere && Occurrences(s, f, p) == 1
                          && (p.RunningOn? <==> !s.tasks[f].suspended)
                          && forall r :: r != p ==> Occurrences(s, f, r) == 0
    ensures var s := run[i];
            s.tasks[f].status != Pending ==> forall p :: Occurrences(s, f, p) == 0
    ensures var t := run[i].tasks[f]; t.awaits == t.resumes + (if t.suspended then 1 else 0)
  {
    RunInv(run, i);
    var s := run[i];
    var at :| PlacedAt(s, at);
    forall p ensures Occurrences(s, f, p) == if p != Nowhere && at[f] == p then 1 else 0 {
      if p != Nowhere {
        PlacedExactlyOnce(s, at, f, p);
      }
    }
    assert s.tasks[f].status == Pending ==> Occurrences(s, f, at[f]) == 1;
    assert TaskOk(s.tasks[f]);
  }

  lemma {:induction false} StopStays(s: State, step: Step, s': State)
    requires FlagsOk(s) && Taken(s, step, s') && s.q.stopping
    ensures s'.q.stopping && s'.resumed == s.resumed
  {
  }

  /** The step between two neighbouring states of a run, with what holds before it. */
  lemma {:induction false} RunStep(run: seq<State>, i: nat) returns (step: Step)
    requires IsRun(run) && i + 1 < |run|
    ensures Taken(run[i], step, run[i + 1])
    ensures Placed(run[i]) && WorkerBusyOnlyResuming(run[i]) && GateOk(run[i]) && FlagsOk(run[i]) && TimeOk(run[i])
  {
    RunInv(run, i);
    assert Linked(run, i);
    step :| Taken(run[i], step, run[i + 1]);
  }

  /** Once `stop` has closed the loop, nothing is ever resumed again. */
  lemma {:induction false} StopIsABarrier(run: seq<State>, i: nat, j: nat)
    requires IsRun(run) && i <= j < |run| && run[i].q.stopping
    ensures run[j].q.stopping && run[j].resumed == run[i].resumed
  {
    if i < j {
      StopIsABarrier(run, i, j - 1);
      StopStaysAt(run, j - 1);
    }
  }

  lemma {:induction false} StopStaysAt(run: seq<State>, k: nat)
    requires IsRun(run) && k + 1 < |run| && run[k].q.stopping
    ensures run[k + 1].q.stopping && run[k + 1].resumed == run[k].resumed
  {
    var step := RunStep(run, k);
    StopStays(run[k], step, run[k + 1]);
  }

  /** Thread t is inside `stop` in state s and outside it in the next state. */
  predicate StopReturns(s: State, s': State, t: Thread) {
    && t in s.threads && t in s'.threads
    && (s.threads[t].op.StopGated? || s.threads[t].op.StopNotified?) && s'.threads[t].op == Idle
  }

  /**
   When `stop` returns to thread t, the loop is closed, t has nothing left to cancel, and the worker is not
   inside any callback, unless t is the worker's own thread and the callback is the one that called `stop`.
   */
  lemma {:induction false} StopReturnsQuiescent(run: seq<State>, i: nat, t: Thread)
    requires IsRun(run) && i + 1 < |run| && StopReturns(run[i], run[i + 1], t)
    ensures run[i + 1].q.stopping
    ensures t != run[i].workerThread ==> !run[i].worker.Resuming? && !run[i].worker.WillResume?
    ensures forall u :: u in run[i].threads && u != t ==> !run[i].threads[u].op.Cancelling?
  {
    var step := RunStep(run, i);
    GateExcludesOthers(run[i], t);
    StopClosed(run[i], step, run[i + 1], t);
  }

  lemma {:induction false} GateExcludesOthers(s: State, t: Thread)
    requires GateOk(s) && t in s.threads && (s.threads[t].op.StopGated? || s.threads[t].op.StopNotified?)
    ensures t != s.workerThread ==> !s.worker.Resuming? && !s.worker.WillResume?
    ensures forall u :: u in s.threads && u != t ==> !s.threads[u].op.Cancelling?
  {
    assert Holdings(s, t) >= 1;
    assert t != s.workerThread ==> Holdings(s, s.workerThread) == 0;
    forall u | u in s.threads && u != t ensures !s.threads[u].op.Cancelling? {
      assert Holdings(s, u) == 0;
    }
  }

  /** An action changes the operation of its own thread only; a step of the worker makes at most its own thread idle. */
  lemma {:induction false} ActMovesOne(s: State, t: Thread, act: Action, u: Thread)
    requires CanAct(s, t, act) && u != t
    ensures u in DoAct(s, t, act).threads <==> u in s.threads
    ensures u in s.threads ==> DoAct(s, t, act).threads[u] == s.threads[u]
  {
  }

  lemma {:induction false} OneThreadMoves(s: State, step: Step, s': State, u: Thread)
    requires Taken(s, step, s') && u in s'.threads
    requires step.Act? ==> u != step.t
    ensures (u in s.threads && s'.threads[u] == s.threads[u]) || s'.threads[u].op == Idle
  {
    if step.Act? {
      ActMovesOne(s, step.t, step.act, u);
    }
  }

  lemma {:induction false} StopClosed(s: State, step: Step, s': State, t: Thread)
    requires FlagsOk(s) && WorkerBusyOnlyResuming(s) && Taken(s, step, s') && StopReturns(s, s', t)
    ensures s'.q.stopping
  {
    if step.Act? && step.t != t {
      ActMovesOne(s, step.t, step.act, t);
    }
  }

  /**
   While the worker sleeps and nobody owes it a notification, nothing is ready, the loop is not stopping,
   and its wake-up time, if any, is not after the earliest queued deadline; with no wake-up time the
   delayed queue is empty.
   */
  lemma {:induction false} NeverOversleeps(run: seq<State>, i: nat)
    requires IsRun(run) && i < |run| && (run[i].worker.Asleep? || run[i].worker.TimedAsleep?)
    requires forall t :: t in run[i].threads ==> !OwesNotification(run[i].threads[t].op)
    ensures !run[i].q.stopping && run[i].q.ready == []
    ensures run[i].worker.Asleep? ==> run[i].q.delayed == []
    ensures run[i].worker.TimedAsleep? ==>
              forall e :: e in run[i].q.delayed ==> run[i].worker.deadline <= e.time
  {
    RunInv(run, i);
    var d := run[i].q.delayed;
    forall e | e in d ensures d[0].time <= e.time {
      var k :| 0 <= k < |d| && d[k] == e;
      assert k > 0 ==> NotLater(d[0], d[k]);
    }
  }

  /** A frame leaves the delayed queue for the worker's hand only as its least entry, and only when it is due. */
  lemma {:induction false} TakesTheEarliestDue(run: seq<State>, i: nat)
    requires IsRun(run) && i + 1 < |run| && run[i + 1].worker.Holding? && !run[i].worker.Holding?
    requires run[i + 1].q.delayed != run[i].q.delayed
    ensures exists e :: && e in run[i].q.delayed && e.frame == run[i + 1].worker.frame && e.time <= run[i].now
                        && run[i + 1].q.delayed == run[i].q.delayed[1..] && e == run[i].q.delayed[0]
                        && forall x :: x in run[i].q.delayed ==> NotLater(e, x)
  {
    var step := RunStep(run, i);
    OnlyCheckAgainTakes(run[i], step, run[i + 1]);
    var d := run[i].q.delayed;
    assert d[0] in d;
    forall x | x in d ensures NotLater(d[0], x) {
      var k :| 0 <= k < |d| && d[k] == x;
    }
  }

  lemma {:induction false} OnlyCheckAgainTakes(s: State, step: Step, s': State)
    requires Taken(s, step, s') && s'.worker.Holding? && !s.worker.Holding? && s'.q.delayed != s.q.delayed
    ensures s.q.delayed != [] && s.q.delayed[0].time <= s.now
    ensures s'.worker.frame == s.q.delayed[0].frame && s'.q.delayed == s.q.delayed[1..]
  {
  }

  /** No resumption happens before the deadline the frame was last queued with. */
  lemma {:induction false} NeverResumesEarly(run: seq<State>, i: nat)
    requires IsRun(run) && i + 1 < |run| && run[i + 1].resumed != run[i].resumed
    ensures run[i].worker.WillResume? && run[i + 1].resumed == run[i].resumed + [run[i].worker.frame]
    ensures run[i].worker.frame in run[i].tasks
    ensures run[i].tasks[run[i].worker.frame].notBefore <= run[i].now
    ensures run[i].tasks[run[i].worker.frame].status == Pending && run[i].tasks[run[i].worker.frame].suspended
  {
    var step := RunStep(run, i);
    OnlyResumeResumes(run[i], step, run[i + 1]);
    InHand(run[i]);
  }

  lemma {:induction false} OnlyResumeResumes(s: State, step: Step, s': State)
    requires Taken(s, step, s') && s'.resumed != s.resumed
    ensures s.worker.WillResume? && s'.resumed == s.resumed + [s.worker.frame]
  {
  }

  /**
   A task made by `schedule` or `schedule_after` agrees with its callback: it succeeded exactly when the
   callback ran once to completion, failed exactly when it ran once and threw, and was cancelled only if
   the callback never started; the callback starts at most once.
   */
  lemma {:induction false} OutcomeAgreesWithCallback(run: seq<State>, i: nat, f: Frame)
    requires IsRun(run) && i < |run| && f in run[i].tasks && run[i].tasks[f].oneShot
    ensures var t := run[i].tasks[f];
            && (t.status == Succeeded <==> t.callback == Completed)
            && (t.status == Failed <==> t.callback == Threw)
            && (t.status == Cancelled ==> t.callback == NotStarted && t.resumes == 0)
            && t.resumes <= 1 && (t.resumes == 1 <==> t.callback != NotStarted)
  {
    RunInv(run, i);
    assert TaskOk(run[i].tasks[f]);
  }

  lemma {:induction false} ActLeavesSettled(s: State, t: Thread, act: Action, f: Frame)
    requires Placed(s) && CanAct(s, t, act) && f in s.tasks && s.tasks[f].status != Pending
    ensures f in DoAct(s, t, act).tasks && DoAct(s, t, act).tasks[f] == s.tasks[f]
  {
    Actor(s, t, act);
    if !TouchesTask(act) {
      Untouched(s, t, act);
    }
  }

  lemma {:induction false} WorkLeavesSettled(s: State, work: Work, f: Frame)
    requires Placed(s) && CanWork(s, work) && f in s.tasks && s.tasks[f].status != Pending
    ensures f in DoWork(s, work).tasks && DoWork(s, work).tasks[f] == s.tasks[f]
  {
    if work.WorkerCancel? || work.Resume? {
      InHand(s);
    }
  }

  lemma {:induction false} SettledStays(s: State, step: Step, s': State, f: Frame)
    requires Placed(s) && Taken(s, step, s') && f in s.tasks && s.tasks[f].status != Pending
    ensures f in s'.tasks && s'.tasks[f] == s.tasks[f]
  {
    match step {
      case Act(t, act) => ActLeavesSettled(s, t, act, f);
      case Run(work) => WorkLeavesSettled(s, work, f);
      case Tick(_) =>
    }
  }

  /** A settled task never changes again. */
  lemma {:induction false} SettlesOnce(run: seq<State>, i: nat, j: nat, f: Frame)
    requires IsRun(run) && i <= j < |run| && f in run[i].tasks && run[i].tasks[f].status != Pending
    ensures f in run[j].tasks && run[j].tasks[f] == run[i].tasks[f]
  {
    if i < j {
      SettlesOnce(run, i, j - 1, f);
      SettledStaysAt(run, j - 1, f);
    }
  }

  lemma {:induction false} SettledStaysAt(run: seq<State>, k: nat, f: Frame)
    requires IsRun(run) && k + 1 < |run| && f in run[k].tasks && run[k].tasks[f].status != Pending
    ensures f in run[k + 1].tasks && run[k + 1].tasks[f] == run[k].tasks[f]
  {
    var step := RunStep(run, k);
    SettledStays(run[k], step, run[k + 1], f);
  }
}
