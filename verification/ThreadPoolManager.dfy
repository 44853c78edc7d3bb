/**
 The draining thread pool. Each `queueMutex_` critical section is one step; a `notify_one` or `notify_all`
 that still has to be sent is part of the state, and a wake-up may also be spurious.
 */
module ThreadPoolManager {
  import opened Common

  type TaskId = nat

  datatype Worker =
    | Awake                    // idle, about to lock and evaluate the wait predicate
    | Asleep
    | Executing(task: TaskId)
    | Exited

  datatype Pool = Pool(
    tasks: seq<TaskId>,
    stop: bool,
    workers: seq<Worker>,
    inFlight: nat,             // notify_one calls owed by enqueuing threads
    owesAll: bool,             // the stopping thread still has to call notify_all
    accepted: seq<TaskId>,     // every task ever pushed, in order
    started: seq<TaskId>,
    finished: seq<TaskId>)

  // ---------------------------------------------------------------- construction

  /** The explicit constructor's argument check. */
  function ValidateExplicitThreadCount(threadCount: nat): (r: Result<nat, string>)
    ensures r.Ok? <==> threadCount >= 1
    ensures r.Ok? ==> r.value == threadCount
  {
    if threadCount == 0 then Err("ThreadPoolManager requires at least one worker") else Ok(threadCount)
  }

  function NormalizeDefaultThreadCount(hardwareConcurrency: nat): (n: nat)
    ensures n >= 1 && (hardwareConcurrency >= 1 ==> n == hardwareConcurrency) && (hardwareConcurrency == 0 ==> n == 1)
  {
    if hardwareConcurrency == 0 then 1 else hardwareConcurrency
  }

  ghost predicate Init(p: Pool) {
    && p.tasks == [] && !p.stop && p.inFlight == 0 && !p.owesAll
    && p.accepted == [] && p.started == [] && p.finished == []
    && |p.workers| >= 1 && forall i :: 0 <= i < |p.workers| ==> p.workers[i] == Awake
  }

  /** The pool a constructor makes with this many workers. */
  function Constructed(workers: nat): Pool {
    Pool([], false, seq(workers, i => Awake), 0, false, [], [], [])
  }

  /**
   The explicit constructor goes on exactly when the count asked for gives a pool that can run something, and
   then makes that many workers; the default one always makes such a pool, with a worker for each hardware
   thread or a single one when their number is not known.
   */
  lemma {:induction false} ConstructorsMakeUsablePools(threadCount: nat, hardwareConcurrency: nat)
    ensures ValidateExplicitThreadCount(threadCount).Ok? <==> Init(Constructed(threadCount))
    ensures ValidateExplicitThreadCount(threadCount).Ok? ==>
              |Constructed(ValidateExplicitThreadCount(threadCount).value).workers| == threadCount
    ensures Init(Constructed(NormalizeDefaultThreadCount(hardwareConcurrency)))
    ensures |Constructed(NormalizeDefaultThreadCount(hardwareConcurrency)).workers|
         == if hardwareConcurrency == 0 then 1 else hardwareConcurrency
  {
    var n := NormalizeDefaultThreadCount(hardwareConcurrency);
    assert forall i :: 0 <= i < n ==> Constructed(n).workers[i] == Awake;
  }

  /** Why zero is refused: without workers, whatever happens, accepted tasks only pile up. */
  lemma {:induction false} NoWorkersNoProgress(p: Pool, step: Step)
    requires p.workers == [] && p.started == [] && p.tasks == p.accepted && Enabled(p, step)
    ensures var p' := Do(p, step);
            p'.workers == [] && p'.started == [] && p'.tasks == p'.accepted && p.tasks <= p'.tasks
  {
  }

  // ---------------------------------------------------------------- steps

  datatype Step =
    | Enqueue(task: TaskId)
    | NotifyOne(woken: nat)     // the worker that receives it, when any sleeps
    | Stop
    | NotifyAll
    | Check(w: nat)             // the critical section of WorkerThread
    | SpuriousWake(w: nat)
    | Finish(w: nat)

  predicate Sleeping(p: Pool, w: nat) {
    w < |p.workers| && p.workers[w] == Asleep
  }

  ghost predicate SomeoneSleeps(p: Pool) {
    exists w :: Sleeping(p, w)
  }

  ghost predicate Enabled(p: Pool, step: Step) {
    match step
    case Enqueue(task) => task !in p.accepted
    case NotifyOne(woken) => p.inFlight > 0 && (SomeoneSleeps(p) ==> Sleeping(p, woken))
    case Stop => !p.stop
    case NotifyAll => p.owesAll
    case Check(w) => w < |p.workers| && p.workers[w] == Awake
    case SpuriousWake(w) => Sleeping(p, w)
    case Finish(w) => w < |p.workers| && p.workers[w].Executing?
  }

  function WithWorker(p: Pool, w: nat, s: Worker): Pool
    requires w < |p.workers|
  {
    p.(workers := p.workers[w := s])
  }

  function WakeAll(ws: seq<Worker>): seq<Worker> {
    seq(|ws|, i requires 0 <= i < |ws| => if ws[i] == Asleep then Awake else ws[i])
  }

  /** `enqueue`: a stopped pool throws, so nothing changes. */
  function DoEnqueue(p: Pool, task: TaskId): Pool {
    if p.stop then p
    else p.(tasks := p.tasks + [task], accepted := p.accepted + [task], inFlight := p.inFlight + 1)
  }

  function DoCheck(p: Pool, w: nat): Pool
    requires w < |p.workers|
  {
    if !p.stop && p.tasks == [] then WithWorker(p, w, Asleep)
    else if p.tasks == [] then WithWorker(p, w, Exited)
    else WithWorker(p, w, Executing(p.tasks[0])).(tasks := p.tasks[1..], started := p.started + [p.tasks[0]])
  }

  function DoFinish(p: Pool, w: nat): Pool
    requires w < |p.workers| && p.workers[w].Executing?
  {
    WithWorker(p, w, Awake).(finished := p.finished + [p.workers[w].task])
  }

  ghost function Do(p: Pool, step: Step): Pool
    requires Enabled(p, step)
  {
    match step
    case Enqueue(task) => DoEnqueue(p, task)
    case NotifyOne(woken) =>
      var q := p.(inFlight := p.inFlight - 1);
      if Sleeping(p, woken) then WithWorker(q, woken, Awake) else q
    case Stop => p.(stop := true, owesAll := true)
    case NotifyAll => p.(workers := WakeAll(p.workers), owesAll := false)
    case Check(w) => DoCheck(p, w)
    case SpuriousWake(w) => WithWorker(p, w, Awake)
    case Finish(w) => DoFinish(p, w)
  }

  ghost predicate Next(p: Pool, p': Pool) {
    exists step :: Enabled(p, step) && p' == Do(p, step)
  }

  ghost predicate Linked(run: seq<Pool>, i: nat)
    requires i + 1 < |run|
  {
    Next(run[i], run[i + 1])
  }

  ghost predicate IsRun(run: seq<Pool>) {
    run != [] && Init(run[0]) && forall i: nat :: i + 1 < |run| ==> Linked(run, i)
  }

  // ---------------------------------------------------------------- counting over the workers

  function AwakeCount(ws: seq<Worker>): nat {
    if ws == [] then 0 else (if ws[0] == Awake then 1 else 0) + AwakeCount(ws[1..])
  }

  /** How many workers are executing task t. */
  function InHand(ws: seq<Worker>, t: TaskId): nat {
    if ws == [] then 0 else (if ws[0] == Executing(t) then 1 else 0) + InHand(ws[1..], t)
  }

  /** How many more steps a worker can make without taking a task. */
  function Rank(w: Worker): nat {
    match w
    case Awake => 1
    case Asleep => 2
    case Executing(_) => 2
    case Exited => 0
  }

  function RankSum(ws: seq<Worker>): nat {
    if ws == [] then 0 else Rank(ws[0]) + RankSum(ws[1..])
  }

  lemma {:induction false} UpdateWorker(ws: seq<Worker>, w: nat, s: Worker)
    requires w < |ws|
    ensures AwakeCount(ws[w := s]) + (if ws[w] == Awake then 1 else 0)
         == AwakeCount(ws) + (if s == Awake then 1 else 0)
    ensures RankSum(ws[w := s]) + Rank(ws[w]) == RankSum(ws) + Rank(s)
  {
    if w == 0 {
      assert ws[w := s][1..] == ws[1..];
    } else {
      UpdateWorker(ws[1..], w - 1, s);
      assert ws[w := s][1..] == ws[1..][w - 1 := s];
    }
  }

  lemma {:induction false} UpdateInHand(ws: seq<Worker>, w: nat, s: Worker, t: TaskId)
    requires w < |ws|
    ensures InHand(ws[w := s], t) + (if ws[w] == Executing(t) then 1 else 0)
         == InHand(ws, t) + (if s == Executing(t) then 1 else 0)
  {
    if w == 0 {
      assert ws[w := s][1..] == ws[1..];
    } else {
      UpdateInHand(ws[1..], w - 1, s, t);
      assert ws[w := s][1..] == ws[1..][w - 1 := s];
    }
  }

  lemma {:induction false} WakeAllCounts(ws: seq<Worker>)
    ensures AwakeCount(WakeAll(ws)) >= AwakeCount(ws) && RankSum(WakeAll(ws)) <= RankSum(ws)
    ensures forall t :: InHand(WakeAll(ws), t) == InHand(ws, t)
  {
    if ws != [] {
      WakeAllCounts(ws[1..]);
      assert WakeAll(ws)[1..] == WakeAll(ws[1..]);
    }
  }

  lemma {:induction false} NoneInHand(ws: seq<Worker>, t: TaskId)
    requires forall i :: 0 <= i < |ws| ==> !ws[i].Executing?
    ensures InHand(ws, t) == 0
  {
    if ws != [] {
      NoneInHand(ws[1..], t);
    }
  }

  // ---------------------------------------------------------------- invariant

  /** With a sleeper, every queued task is matched by an awake idle worker or a notification in flight. */
  ghost predicate NoLostWakeup(p: Pool) {
    SomeoneSleeps(p) ==> |p.tasks| <= AwakeCount(p.workers) + p.inFlight
  }

  /** Every start of task t has either finished or is in some worker's hands. */
  ghost predicate Accounted(p: Pool, t: TaskId) {
    multiset(p.started)[t] == multiset(p.finished)[t] + InHand(p.workers, t)
  }

  ghost predicate Inv(p: Pool) {
    && NoLostWakeup(p)
    && |p.workers| >= 1
    && Distinct(p.accepted)
    && p.accepted == p.started + p.tasks
    && (forall t :: Accounted(p, t))
    && (p.stop && SomeoneSleeps(p) ==> p.owesAll)
    && (p.owesAll ==> p.stop)
    && (forall i :: 0 <= i < |p.workers| && p.workers[i] == Exited ==> p.stop && p.tasks == [])
  }

  /** A change of one worker keeps the books when what it starts or finishes is recorded. */
  lemma {:induction false} WorkerAccounts(p: Pool, w: nat, p': Pool)
    requires w < |p.workers| == |p'.workers| && p'.workers == p.workers[w := p'.workers[w]]
    requires forall t :: Accounted(p, t)
    requires p'.started == p.started + if p'.workers[w].Executing? then [p'.workers[w].task] else []
    requires p'.finished == p.finished + if p.workers[w].Executing? then [p.workers[w].task] else []
    ensures forall t :: Accounted(p', t)
  {
    forall t ensures Accounted(p', t) {
      assert Accounted(p, t);
      UpdateInHand(p.workers, w, p'.workers[w], t);
      assert multiset(p'.started)[t] == multiset(p.started)[t] + if p'.workers[w] == Executing(t) then 1 else 0;
      assert multiset(p'.finished)[t] == multiset(p.finished)[t] + if p.workers[w] == Executing(t) then 1 else 0;
    }
  }

  /** Who sleeps afterwards slept before. */
  lemma {:induction false} NoNewSleepers(p: Pool, p': Pool)
    requires |p'.workers| == |p.workers|
    requires forall w :: 0 <= w < |p.workers| && p'.workers[w] == Asleep ==> p.workers[w] == Asleep
    ensures SomeoneSleeps(p') ==> SomeoneSleeps(p)
  {
    if SomeoneSleeps(p') {
      var u :| Sleeping(p', u);
      assert Sleeping(p, u);
    }
  }

  lemma {:induction false} WakeInv(p: Pool, w: nat, p': Pool)
    requires Inv(p) && Sleeping(p, w)
    requires
      || p' == WithWorker(p, w, Awake)
      || (p.inFlight > 0 && p' == WithWorker(p, w, Awake).(inFlight := p.inFlight - 1))
    ensures Inv(p')
  {
    UpdateWorker(p.workers, w, Awake);
    WorkerAccounts(p, w, p');
    NoNewSleepers(p, p');
  }

  lemma {:induction false} CheckInv(p: Pool, w: nat)
    requires Inv(p) && Enabled(p, Check(w))
    ensures Inv(DoCheck(p, w))
  {
    var p' := DoCheck(p, w);
    UpdateWorker(p.workers, w, p'.workers[w]);
    WorkerAccounts(p, w, p');
    if p'.workers[w] != Asleep {
      NoNewSleepers(p, p');
    }
    if p.tasks != [] {
      assert p.tasks == [p.tasks[0]] + p.tasks[1..];
    }
  }

  lemma {:induction false} FinishInv(p: Pool, w: nat)
    requires Inv(p) && Enabled(p, Finish(w))
    ensures Inv(DoFinish(p, w))
  {
    UpdateWorker(p.workers, w, Awake);
    WorkerAccounts(p, w, DoFinish(p, w));
    NoNewSleepers(p, DoFinish(p, w));
  }

  lemma {:induction false} EnqueueInv(p: Pool, task: TaskId)
    requires Inv(p) && Enabled(p, Enqueue(task))
    ensures Inv(DoEnqueue(p, task))
  {
    var p' := DoEnqueue(p, task);
    assert forall t :: Accounted(p, t) ==> Accounted(p', t);
    NoNewSleepers(p, p');
  }

  lemma {:induction false} StepInv(p: Pool, step: Step)
    requires Inv(p) && Enabled(p, step)
    ensures Inv(Do(p, step))
  {
    match step {
      case Enqueue(task) => EnqueueInv(p, task);
      case NotifyOne(woken) => NotifyOneInv(p, woken);
      case Stop => FlagInv(p, step);
      case NotifyAll => FlagInv(p, step);
      case Check(w) => CheckInv(p, w);
      case SpuriousWake(w) => WakeInv(p, w, Do(p, step));
      case Finish(w) => FinishInv(p, w);
    }
  }

  lemma {:induction false} NotifyOneInv(p: Pool, woken: nat)
    requires Inv(p) && Enabled(p, NotifyOne(woken))
    ensures Inv(Do(p, NotifyOne(woken)))
  {
    var p' := Do(p, NotifyOne(woken));
    if Sleeping(p, woken) {
      WakeInv(p, woken, p');
    } else {
      assert forall t :: Accounted(p, t) ==> Accounted(p', t);
      NoNewSleepers(p, p');
    }
  }

  lemma {:induction false} FlagInv(p: Pool, step: Step)
    requires Inv(p) && Enabled(p, step) && (step.Stop? || step.NotifyAll?)
    ensures Inv(Do(p, step))
  {
    var p' := Do(p, step);
    WakeAllCounts(p.workers);
    assert forall t :: Accounted(p, t) ==> Accounted(p', t);
    NoNewSleepers(p, p');
  }

  lemma {:induction false} RunInv(run: seq<Pool>, i: nat)
    requires IsRun(run) && i < |run|
    ensures Inv(run[i])
  {
    if i == 0 {
      var p := run[0];
      forall t ensures Accounted(p, t) {
        NoneInHand(p.workers, t);
      }
    } else {
      RunInv(run, i - 1);
      assert Linked(run, i - 1);
      var step :| Enabled(run[i - 1], step) && run[i] == Do(run[i - 1], step);
      StepInv(run[i - 1], step);
    }
  }

  // ---------------------------------------------------------------- theorems

  /**
   In every state of every run with a sleeping worker, the queued tasks are no more than the awake idle
   workers plus the notifications in flight. So when no notification is in flight, a queued task always
   has some worker that is not asleep.
   */
  lemma {:induction false} NeverLosesAWakeup(run: seq<Pool>, i: nat)
    requires IsRun(run) && i < |run|
    ensures NoLostWakeup(run[i])
    ensures run[i].tasks != [] && run[i].inFlight == 0 ==>
              exists w :: 0 <= w < |run[i].workers| && run[i].workers[w] != Asleep
  {
    RunInv(run, i);
    var p := run[i];
    if p.tasks != [] && p.inFlight == 0 && forall w :: 0 <= w < |p.workers| ==> p.workers[w] == Asleep {
      AllAsleep(p.workers);
      assert Sleeping(p, 0);
      assert false;
    }
  }

  lemma {:induction false} AllAsleep(ws: seq<Worker>)
    requires forall i :: 0 <= i < |ws| ==> ws[i] == Asleep
    ensures AwakeCount(ws) == 0
  {
    if ws != [] {
      AllAsleep(ws[1..]);
    }
  }

  /** Tasks start in the order they were accepted, and what has not started is exactly the queue. */
  lemma {:induction false} StartsInOrder(run: seq<Pool>, i: nat)
    requires IsRun(run) && i < |run|
    ensures run[i].accepted == run[i].started + run[i].tasks
    ensures run[i].started <= run[i].accepted
  {
    RunInv(run, i);
  }

  ghost predicate AllExited(p: Pool) {
    forall w :: 0 <= w < |p.workers| ==> p.workers[w] == Exited
  }

  lemma {:induction false} Drained(p: Pool)
    requires Inv(p) && AllExited(p)
    ensures p.stop && p.tasks == []
    ensures forall t :: multiset(p.finished)[t] == if t in p.accepted then 1 else 0
  {
    assert p.workers[0] == Exited;
    assert p.accepted == p.started;
    forall t ensures multiset(p.finished)[t] == if t in p.accepted then 1 else 0 {
      NoneInHand(p.workers, t);
      assert Accounted(p, t);
      DistinctCount(p.accepted, t);
    }
  }

  /** When every worker has exited, each accepted task has run to its end exactly once, and nothing else has. */
  lemma {:induction false} DrainsExactlyOnce(run: seq<Pool>, i: nat)
    requires IsRun(run) && i < |run| && AllExited(run[i])
    ensures run[i].stop && run[i].tasks == []
    ensures forall t :: multiset(run[i].finished)[t] == if t in run[i].accepted then 1 else 0
  {
    RunInv(run, i);
    Drained(run[i]);
  }

  /** What is left to do once the pool is stopping. */
  function Remaining(p: Pool): nat {
    3 * |p.tasks| + RankSum(p.workers) + p.inFlight + if p.owesAll then 1 else 0
  }

  /** A rejected submission is the only step of a stopping pool that gets nothing done. */
  predicate Productive(step: Step) {
    !step.Enqueue?
  }

  /** Joining terminates: in a stopping pool every productive step makes `Remaining` smaller. */
  lemma {:induction false} StoppingMakesProgress(p: Pool, step: Step)
    requires Inv(p) && p.stop && Enabled(p, step)
    ensures Do(p, step).stop
    ensures Productive(step) ==> Remaining(Do(p, step)) < Remaining(p)
    ensures !Productive(step) ==> Do(p, step) == p
  {
    match step {
      case NotifyOne(woken) =>
        if Sleeping(p, woken) {
          UpdateWorker(p.workers, woken, Awake);
        }
      case NotifyAll => WakeAllCounts(p.workers);
      case Check(w) => UpdateWorker(p.workers, w, Do(p, step).workers[w]);
      case SpuriousWake(w) => UpdateWorker(p.workers, w, Awake);
      case Finish(w) => UpdateWorker(p.workers, w, Awake);
      case _ =>
    }
  }

  /** A run and the steps it took. */
  ghost predicate IsRunBy(run: seq<Pool>, steps: seq<Step>) {
    |run| == |steps| + 1 && Init(run[0]) && forall k :: 0 <= k < |steps| ==> TakenAt(run, steps, k)
  }

  ghost predicate TakenAt(run: seq<Pool>, steps: seq<Step>, k: int)
    requires 0 <= k < |steps| == |run| - 1
  {
    Enabled(run[k], steps[k]) && run[k + 1] == Do(run[k], steps[k])
  }

  lemma {:induction false} RunByIsRun(run: seq<Pool>, steps: seq<Step>)
    requires IsRunBy(run, steps)
    ensures IsRun(run)
  {
    forall i: nat | i + 1 < |run| ensures Linked(run, i) {
      assert TakenAt(run, steps, i);
    }
  }

  /** The productive steps of any run after the pool stopped are at most what remained at that moment. */
  lemma {:induction false} StoppingIsBounded(run: seq<Pool>, steps: seq<Step>, i: nat, j: nat)
    requires IsRunBy(run, steps) && i <= j < |run| && run[i].stop
    ensures run[j].stop && Count(steps, i, j, Productive) + Remaining(run[j]) <= Remaining(run[i])
  {
    if i < j {
      StoppingIsBounded(run, steps, i, j - 1);
      RunByIsRun(run, steps);
      RunInv(run, j - 1);
      assert TakenAt(run, steps, j - 1);
      StoppingMakesProgress(run[j - 1], steps[j - 1]);
    }
  }

  /** And it never gets stuck: while some worker has not exited, some productive step is possible. */
  lemma {:induction false} StoppingNeverStuck(p: Pool, w: nat) returns (step: Step)
    requires Inv(p) && p.stop && w < |p.workers| && p.workers[w] != Exited
    ensures Enabled(p, step) && Productive(step)
  {
    match p.workers[w] {
      case Awake => step := Check(w);
      case Asleep =>
        assert Sleeping(p, w);
        step := NotifyAll;
      case Executing(_) => step := Finish(w);
    }
  }

  /**
   So the joins end: a run of a stopping pool in which no productive step is left has all workers exited, after no
   more productive steps than remained when it stopped.
   */
  lemma {:induction false} StoppingEnds(run: seq<Pool>, steps: seq<Step>, i: nat, j: nat)
    requires IsRunBy(run, steps) && i <= j < |run| && run[i].stop
    requires forall step :: Enabled(run[j], step) ==> !Productive(step)
    ensures AllExited(run[j]) && Count(steps, i, j, Productive) <= Remaining(run[i])
  {
    StoppingIsBounded(run, steps, i, j);
    RunByIsRun(run, steps);
    RunInv(run, j);
    forall w | 0 <= w < |run[j].workers| ensures run[j].workers[w] == Exited {
      if run[j].workers[w] != Exited {
        var step := StoppingNeverStuck(run[j], w);
      }
    }
  }

  // ---------------------------------------------------------------- the object

  /** The fields `queueMutex_` guards; each method is one critical section. */
  class TaskQueue {
    var tasks: seq<TaskId>
    var stop: bool

    constructor ()
      ensures tasks == [] && !stop
    {
      tasks, stop := [], false;
    }

    method Enqueue(task: TaskId) returns (r: Result<(), string>)
      modifies this
      ensures stop == old(stop) && (r.Err? <==> stop)
      ensures tasks == if stop then old(tasks) else old(tasks) + [task]
      ensures forall p: Pool :: p.tasks == old(tasks) && p.stop == old(stop) ==> tasks == DoEnqueue(p, task).tasks
    {
      if stop {
        return Err("ThreadPoolManager is stopped");
      }
      tasks := tasks + [task];
      return Ok(());
    }

    method SetStop()
      modifies this
      ensures stop && tasks == old(tasks)
      ensures forall p: Pool :: p.tasks == old(tasks) && !p.stop ==>
                tasks == Do(p, Stop).tasks && stop == Do(p, Stop).stop
    {
      stop := true;
    }

    /** One pass through the worker's critical section: what the worker becomes. */
    method Take() returns (next: Worker)
      modifies this
      ensures stop == old(stop)
      ensures old(tasks) == [] ==> tasks == [] && next == if stop then Exited else Asleep
      ensures old(tasks) != [] ==> next == Executing(old(tasks)[0]) && tasks == old(tasks)[1..]
      ensures forall p: Pool, w: nat :: p.tasks == old(tasks) && p.stop == old(stop) && w < |p.workers| ==>
                tasks == DoCheck(p, w).tasks && next == DoCheck(p, w).workers[w]
    {
      if !(stop || tasks != []) {
        return Asleep;
      }
      if stop && tasks == [] {
        return Exited;
      }
      next := Executing(tasks[0]);
      tasks := tasks[1..];
    }
  }
}
