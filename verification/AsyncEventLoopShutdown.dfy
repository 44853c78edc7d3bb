/**
 The join of the loop's destructor ends. Once the loop is closed, everything but a new call into it brings
 the worker closer to leaving `run`, and until it has left some such step is possible. New calls are the
 user's: creating a task, emitting an event, calling `stop`.
 */
module AsyncEventLoopShutdown {
  import opened Common
  import opened CoroutineTask
  import opened AsyncEventLoop
  import opened AsyncEventLoopPlaces
  import opened AsyncEventLoopSafety

  /** A call into the loop, or a new body on a thread. */
  predicate NewCall(step: Step) {
    step.Act? && (step.act.Create? || step.act.CallEmit? || step.act.CallStop?)
  }

  /** A step that gets something done: not a new call, and not just time passing. */
  predicate Productive(step: Step) {
    !NewCall(step) && !step.Tick?
  }

  /** A productive step that needs neither luck nor the clock. */
  predicate Certain(step: Step) {
    Productive(step) && !(step.Run? && (step.work.SpuriousWake? || step.work.Timeout?))
  }

  // ---------------------------------------------------------------- the measure

  /** How many steps an operation has left in a closed loop. */
  function OpRank(op: Op): nat {
    match op
    case Idle => 0
    case Offering(_, _) => 2
    case Rejected(_) => 1
    case Emitting(_) => 1
    case Notifying => 1
    case StopWaiting => 2
    case StopGated => 1
    case Cancelling(left) => |left| + 2
    case StopNotified => 1
  }

  function ThreadRank(t: ThreadState): nat {
    3 * |t.stack| + OpRank(t.op)
  }

  function WorkerRank(w: Worker): nat {
    match w
    case Unstarted => 2
    case Top => 1
    case Asleep => 2
    case TimedAsleep(_) => 3
    case Recheck(_, _) => 2
    case Holding(_) => 4
    case Gated(_) => 3
    case WillCancel(_) => 2
    case WillResume(_) => 2
    case Resuming => 2
    case Exited => 0
  }

  function RankSum(threads: map<Thread, ThreadState>, order: seq<Thread>): nat {
    if order == [] then 0
    else (if order[0] in threads then ThreadRank(threads[order[0]]) else 0) + RankSum(threads, order[1..])
  }

  /** What is left to do, over a list of all threads. */
  function Remaining(s: State, order: seq<Thread>): nat {
    WorkerRank(s.worker) + RankSum(s.threads, order)
  }

  /** A list of the threads of the loop, each once. */
  ghost predicate ListsThreads(order: seq<Thread>, s: State) {
    Distinct(order) && forall t :: t in order <==> t in s.threads
  }

  lemma {:induction false} SameRank(threads: map<Thread, ThreadState>, t: Thread, x: ThreadState, order: seq<Thread>)
    requires t !in order
    ensures RankSum(threads[t := x], order) == RankSum(threads, order)
  {
    if order != [] {
      SameRank(threads, t, x, order[1..]);
    }
  }

  lemma {:induction false} UpdateRank(threads: map<Thread, ThreadState>, t: Thread, x: ThreadState, order: seq<Thread>)
    requires Distinct(order) && t in order && t in threads
    ensures RankSum(threads[t := x], order) + ThreadRank(threads[t]) == RankSum(threads, order) + ThreadRank(x)
  {
    assert order == [order[0]] + order[1..];
    DistinctTail(order[0], order[1..]);
    if order[0] == t {
      SameRank(threads, t, x, order[1..]);
    } else {
      UpdateRank(threads, t, x, order[1..]);
    }
  }

  // ---------------------------------------------------------------- progress

  /** An action changes its own thread only, which gets less to do unless it makes a new call. */
  lemma {:induction false} ActRank(s: State, t: Thread, act: Action)
    requires FlagsOk(s) && s.q.stopping && CanAct(s, t, act)
    ensures var s' := DoAct(s, t, act);
            && t in s'.threads && s'.threads == s.threads[t := s'.threads[t]]
            && WorkerRank(s'.worker) <= WorkerRank(s.worker)
            && (Productive(Act(t, act)) ==> ThreadRank(s'.threads[t]) < ThreadRank(s.threads[t]))
            && ThreadRank(s'.threads[t]) <= ThreadRank(s.threads[t]) + 3
  {
  }

  lemma {:induction false} WorkRank(s: State, work: Work)
    requires FlagsOk(s) && s.q.stopping && CanWork(s, work)
    ensures DoWork(s, work).threads == s.threads
    ensures WorkerRank(DoWork(s, work).worker) < WorkerRank(s.worker)
  {
  }

  /** In a closed loop every productive step leaves less to do, and a new call adds at most three steps. */
  lemma {:induction false} ClosingMakesProgress(s: State, step: Step, s': State, order: seq<Thread>)
    requires FlagsOk(s) && s.q.stopping && Taken(s, step, s') && ListsThreads(order, s)
    ensures s'.q.stopping && ListsThreads(order, s')
    ensures Productive(step) ==> Remaining(s', order) < Remaining(s, order)
    ensures Remaining(s', order) <= Remaining(s, order) + if NewCall(step) then 3 else 0
  {
    StopStays(s, step, s');
    match step {
      case Act(t, act) =>
        ActRank(s, t, act);
        UpdateRank(s.threads, t, s'.threads[t], order);
      case Run(work) => WorkRank(s, work);
      case Tick(_) =>
    }
  }

  /**
   From the moment the loop is closed, the productive steps of any run are bounded by what remained at that
   moment and three for each new call made since.
   */
  lemma {:induction false} ClosingIsBounded(run: seq<State>, steps: seq<Step>, i: nat, j: nat, order: seq<Thread>)
    requires IsRunBy(run, steps) && i <= j < |run| && run[i].q.stopping && ListsThreads(order, run[i])
    ensures run[j].q.stopping && ListsThreads(order, run[j])
    ensures Count(steps, i, j, Productive) + Remaining(run[j], order)
         <= Remaining(run[i], order) + 3 * Count(steps, i, j, NewCall)
  {
    if i < j {
      ClosingIsBounded(run, steps, i, j - 1, order);
      RunByIsRun(run, steps);
      RunInv(run, j - 1);
      assert TakenAt(run, steps, j - 1);
      ClosingMakesProgress(run[j - 1], steps[j - 1], run[j], order);
    }
  }

  // ---------------------------------------------------------------- no deadlock

  /**
   A thread inside a loop operation of a closed loop can go on, once it gets the gate if that is what it waits
   for.
   */
  lemma {:induction false} OperationGoesOn(s: State, t: Thread) returns (act: Action)
    requires FlagsOk(s) && s.q.stopping && t in s.threads && s.threads[t].op != Idle
    requires s.threads[t].op.StopWaiting? ==> GateFree(s, t)
    ensures CanAct(s, t, act) && Certain(Act(t, act))
    ensures act.StopSection? ==> IsOrderOf(act.order, s.q.waiters.Keys)
  {
    match s.threads[t].op {
      case Offering(_, _) => act := EnqueueSection;
      case Rejected(_) => act := CancelRejected;
      case Emitting(_) => act := EmitSection;
      case Notifying => act := NotifyOne;
      case StopWaiting => act := StopGate;
      case StopGated => act := StopSection([]);
      case Cancelling(left) => act := if left == [] then StopNotifyAll else CancelNext;
      case StopNotified => act := StopReturn;
    }
  }

  /** A body running on a thread can end: by returning, or by the one co_await it still has before it. */
  lemma {:induction false} BodyGoesOn(s: State, t: Thread) returns (act: Action)
    requires Placed(s) && TasksOk(s) && Running(s, t) && HasBody(s, t)
    ensures CanAct(s, t, act) && Certain(Act(t, act)) && !act.StopSection?
  {
    var f := Innermost(s, t);
    var at :| PlacedAt(s, at);
    assert Holds(Contents(s, RunningOn(t)), at, RunningOn(t));
    assert f in Contents(s, RunningOn(t));
    assert TaskOk(s.tasks[f]);
    act := if BeforeAwait(s, t) then Suspend(ReadyAwait) else Finish(false);
  }

  /** The thread that keeps the worker from the gate is inside `stop`. */
  lemma {:induction false} GateKeeper(s: State) returns (t: Thread)
    requires GateOk(s) && WorkerBusyOnlyResuming(s) && s.worker.Holding? && !GateFree(s, s.workerThread)
    ensures t in s.threads
    ensures s.threads[t].op.StopGated? || s.threads[t].op.Cancelling? || s.threads[t].op.StopNotified?
  {
    t := s.gateOwner.value;
    assert Holdings(s, t) > 0;
  }

  lemma {:induction false} WorkerThreadGoesOn(s: State) returns (step: Step)
    requires Inv(s) && s.q.stopping && s.worker == Resuming
    ensures Certain(step) && exists s' :: Taken(s, step, s')
  {
    var w := s.workerThread;
    if s.threads[w].op != Idle {
      assert Holdings(s, w) > 0;
      var act := OperationGoesOn(s, w);
      step := Act(w, act);
      assert Taken(s, step, DoAct(s, w, act));
    } else if s.threads[w].stack != [] {
      var act := BodyGoesOn(s, w);
      step := Act(w, act);
      assert Taken(s, step, DoAct(s, w, act));
    } else {
      step := Run(ResumeReturned);
      assert Taken(s, step, DoWork(s, ResumeReturned));
    }
  }

  /**
   Until the worker of a closed loop has left `run`, some productive step is possible without luck or waiting for
   the clock.
   */
  lemma {:induction false} ClosingNeverStuck(run: seq<State>, i: nat) returns (step: Step)
    requires IsRun(run) && i < |run| && run[i].q.stopping && run[i].worker != Exited
    ensures Certain(step) && exists s' :: Taken(run[i], step, s')
  {
    RunInv(run, i);
    var s := run[i];
    if s.worker.Asleep? || s.worker.TimedAsleep? {
      var t :| t in s.threads && OwesNotification(s.threads[t].op);
      var act := OperationGoesOn(s, t);
      step := Act(t, act);
      assert Taken(s, step, DoAct(s, t, act));
    } else if s.worker.Holding? && !GateFree(s, s.workerThread) {
      var t := GateKeeper(s);
      var act := OperationGoesOn(s, t);
      step := Act(t, act);
      assert Taken(s, step, DoAct(s, t, act));
    } else if s.worker == Resuming {
      step := WorkerThreadGoesOn(s);
    } else {
      var work := WorkerGoesOn(s);
      step := Run(work);
      assert Taken(s, step, DoWork(s, work));
    }
  }

  lemma {:induction false} WorkerGoesOn(s: State) returns (work: Work)
    requires s.worker != Exited && s.worker != Resuming && !s.worker.Asleep? && !s.worker.TimedAsleep?
    requires s.worker.Holding? ==> GateFree(s, s.workerThread)
    ensures CanWork(s, work) && !work.SpuriousWake? && !work.Timeout?
  {
    match s.worker {
      case Unstarted => work := StartRun;
      case Top => work := Check;
      case Recheck(_, _) => work := CheckAgain;
      case Holding(_) => work := WorkerGate;
      case Gated(_) => work := ReadFlag;
      case WillCancel(_) => work := WorkerCancel;
      case WillResume(_) => work := Resume;
    }
  }

  /**
   So the join of the destructor ends: a run of the closed loop in which no certain step is left has brought the
   worker out of `run`, after no more productive steps than remained when the loop was closed and three for each
   new call made since.
   */
  lemma {:induction false} ClosingEnds(run: seq<State>, steps: seq<Step>, i: nat, j: nat, order: seq<Thread>)
    requires IsRunBy(run, steps) && i <= j < |run| && run[i].q.stopping && ListsThreads(order, run[i])
    requires forall step, s' :: Taken(run[j], step, s') ==> !Certain(step)
    ensures run[j].worker == Exited
    ensures Count(steps, i, j, Productive) <= Remaining(run[i], order) + 3 * Count(steps, i, j, NewCall)
  {
    ClosingIsBounded(run, steps, i, j, order);
    RunByIsRun(run, steps);
    if run[j].worker != Exited {
      var step := ClosingNeverStuck(run, j);
    }
  }
}
