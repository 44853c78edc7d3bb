/**
 The single-worker coroutine scheduler as a transition system.

 Every `mutex_` critical section is one step, `execution_gate_` is a recursive lock with an owner and
 a depth, and a notification that a thread still has to send is part of that thread's state. The
 worker is the thread that entered `run`; any number of other threads create tasks, emit events and
 stop the loop.
 */
module AsyncEventLoop {
  import opened Common
  import opened CoroutineTask

  type Frame = nat
  type Thread = nat
  type Time = int

  // ---------------------------------------------------------------- mutex-guarded data

  datatype DelayedTask = DelayedTask(time: Time, sequence: nat, frame: Frame)

  /** The order of the delayed queue: by deadline, then by sequence number (the negation of `Later`). */
  predicate NotLater(a: DelayedTask, b: DelayedTask) {
    if a.time != b.time then a.time < b.time else a.sequence <= b.sequence
  }

  const SEQUENCE_MODULUS: nat := 0x1_0000_0000_0000_0000

  datatype Queues = Queues(
    delayed: seq<DelayedTask>,            // in NotLater order, so the first entry is the top
    ready: seq<Frame>,                    // a stack: the last entry is taken first
    waiters: map<string, seq<Frame>>,
    nextSequence: nat,
    accepting: bool,
    stopping: bool)

  /** What a suspending coroutine awaits. */
  datatype Await = ReadyAwait | DelayAwait(delay: Time) | EventAwait(name: string)

  function InsertDelayed(d: seq<DelayedTask>, e: DelayedTask): seq<DelayedTask> {
    if d == [] || !NotLater(d[0], e) then [e] + d else [d[0]] + InsertDelayed(d[1..], e)
  }

  function Deadline(now: Time, delay: Time): Time {
    now + if delay < 0 then 0 else delay
  }

  /** `enqueue_after`, `enqueue_ready` and `enqueue_event_wait` once `accepting_` has been seen set. */
  function Enqueue(q: Queues, now: Time, how: Await, f: Frame): Queues {
    match how
    case ReadyAwait => q.(ready := q.ready + [f])
    case DelayAwait(delay) =>
      q.(delayed := InsertDelayed(q.delayed, DelayedTask(Deadline(now, delay), q.nextSequence, f)),
         nextSequence := (q.nextSequence + 1) % SEQUENCE_MODULUS)
    case EventAwait(name) =>
      q.(waiters := q.waiters[name := WaitersOf(q, name) + [f]])
  }

  function WaitersOf(q: Queues, name: string): seq<Frame> {
    if name in q.waiters then q.waiters[name] else []
  }

  /** `emit_event` when the loop accepts and the name has waiters: all of them become ready, in order. */
  function Emit(q: Queues, name: string): Queues {
    q.(ready := q.ready + WaitersOf(q, name), waiters := q.waiters - {name})
  }

  function FramesOf(d: seq<DelayedTask>): seq<Frame> {
    seq(|d|, i requires 0 <= i < |d| => d[i].frame)
  }

  function Flatten(waiters: map<string, seq<Frame>>, order: seq<string>): seq<Frame> {
    if order == [] then []
    else (if order[0] in waiters then waiters[order[0]] else []) + Flatten(waiters, order[1..])
  }

  /** The list `stop` moves out of the three queues; `order` is the iteration order of the waiter map. */
  function Drained(q: Queues, order: seq<string>): seq<Frame> {
    FramesOf(q.delayed) + q.ready + Flatten(q.waiters, order)
  }

  function Closed(q: Queues): Queues {
    q.(delayed := [], ready := [], waiters := map[], accepting := false, stopping := true)
  }

  ghost predicate IsOrderOf(order: seq<string>, names: set<string>) {
    Distinct(order) && forall n :: n in order <==> n in names
  }

  // ---------------------------------------------------------------- threads, worker, tasks

  /** How far the callback of a one-shot task (`schedule`, `schedule_after`) has come. */
  datatype Callback = NotStarted | Started | Completed | Threw

  datatype Task = Task(
    oneShot: bool,
    status: TaskStatus,
    suspended: bool,      // the body stands at a co_await
    callback: Callback,
    awaits: nat,          // how often the body has suspended
    resumes: nat,         // how often the worker has resumed it
    notBefore: Time)      // the last deadline it was queued with

  /** The loop operation a thread is in the middle of. */
  datatype Op =
    | Idle
    | Offering(frame: Frame, how: Await)   // in await_suspend, before the critical section
    | Rejected(frame: Frame)               // the section returned false, cancel() still to come
    | Emitting(name: string)
    | Notifying                            // the section is over, notify_one still to come
    | StopWaiting                          // in stop, waiting for the gate
    | StopGated                            // in stop with the gate, before the critical section
    | Cancelling(left: seq<Frame>)         // in stop, cancelling; notify_all still to come
    | StopNotified                         // in stop, only the gate is still to be released

  datatype ThreadState = ThreadState(stack: seq<Frame>, op: Op)   // stack: bodies running, innermost last

  datatype Worker =
    | Unstarted
    | Top                                        // about to lock and evaluate the first predicate
    | Asleep
    | TimedAsleep(deadline: Time)
    | Recheck(deadline: Time, timedOut: bool)    // woken, about to evaluate the second predicate
    | Holding(frame: Frame)                      // a frame in hand, waiting for the gate
    | Gated(frame: Frame)
    | WillCancel(frame: Frame)
    | WillResume(frame: Frame)
    | Resuming                                   // inside handle.resume()
    | Exited

  datatype State = State(
    tasks: map<Frame, Task>,
    q: Queues,
    threads: map<Thread, ThreadState>,
    worker: Worker,
    workerThread: Thread,
    gateOwner: Option<Thread>,
    gateDepth: nat,
    now: Time,
    resumed: seq<Frame>)      // every resumption so far, in order

  function TaskOf(s: State, f: Frame): Task {
    if f in s.tasks then s.tasks[f] else Task(false, Pending, false, NotStarted, 0, 0, s.now)
  }

  function SettleTask(s: State, f: Frame, outcome: TaskStatus): map<Frame, Task> {
    var t := TaskOf(s, f);
    s.tasks[f := t.(status := Settle(t.status, outcome))]
  }

  function Woken(w: Worker): Worker {
    match w
    case Asleep => Top
    case TimedAsleep(d) => Recheck(d, false)
    case _ => w
  }

  function WithOp(s: State, t: Thread, op: Op): State
    requires t in s.threads
  {
    s.(threads := s.threads[t := s.threads[t].(op := op)])
  }

  function Acquire(s: State, t: Thread): State {
    s.(gateOwner := Some(t), gateDepth := s.gateDepth + 1)
  }

  function Release(s: State): State {
    if s.gateDepth <= 1 then s.(gateOwner := None, gateDepth := 0) else s.(gateDepth := s.gateDepth - 1)
  }

  predicate GateFree(s: State, t: Thread) {
    s.gateOwner == None || s.gateOwner == Some(t)
  }

  // ---------------------------------------------------------------- steps

  /** A step of a thread that uses the loop, or of the worker's thread while it runs a callback. */
  datatype Action =
    | Create(f: Frame, oneShot: bool)   // a coroutine is called; its body starts on the caller
    | Suspend(how: Await)
    | EnqueueSection
    | CancelRejected
    | Finish(threw: bool)
    | CallEmit(name: string)
    | EmitSection
    | NotifyOne
    | CallStop
    | StopGate
    | StopSection(order: seq<string>)
    | CancelNext
    | StopNotifyAll
    | StopReturn

  /** A step of the worker inside `run`. */
  datatype Work =
    | StartRun
    | Check
    | SpuriousWake
    | Timeout
    | CheckAgain
    | WorkerGate
    | ReadFlag
    | WorkerCancel
    | Resume
    | ResumeReturned

  datatype Step = Act(t: Thread, act: Action) | Run(work: Work) | Tick(elapsed: nat)

  /** Thread t is running code and is not inside a loop operation. */
  predicate Running(s: State, t: Thread) {
    && t in s.threads && s.threads[t].op == Idle
    && (t == s.workerThread ==> s.worker == Resuming && s.threads[t].stack != [])
  }

  function Innermost(s: State, t: Thread): Frame
    requires t in s.threads && s.threads[t].stack != []
  {
    s.threads[t].stack[|s.threads[t].stack| - 1]
  }

  predicate HasBody(s: State, t: Thread) {
    t in s.threads && s.threads[t].stack != []
  }

  /** The innermost body of t is that of a one-shot task before its only co_await. */
  predicate BeforeAwait(s: State, t: Thread) {
    HasBody(s, t) && TaskOf(s, Innermost(s, t)).oneShot && TaskOf(s, Innermost(s, t)).callback == NotStarted
  }

  /** Code that may call into the loop: anything but a one-shot task before its co_await. */
  predicate MayCall(s: State, t: Thread) {
    Running(s, t) && !BeforeAwait(s, t)
  }

  predicate CanAct(s: State, t: Thread, act: Action) {
    && t in s.threads
    && match act
       case Create(f, oneShot) => MayCall(s, t) && f !in s.tasks
       case Suspend(how) =>
         && Running(s, t) && HasBody(s, t)
         && (TaskOf(s, Innermost(s, t)).oneShot ==> BeforeAwait(s, t) && !how.EventAwait?)
       case Finish(threw) =>
         && Running(s, t) && HasBody(s, t)
         && (TaskOf(s, Innermost(s, t)).oneShot ==> TaskOf(s, Innermost(s, t)).callback == Started)
       case EnqueueSection => s.threads[t].op.Offering?
       case CancelRejected => s.threads[t].op.Rejected?
       case CallEmit(name) => MayCall(s, t)
       case EmitSection => s.threads[t].op.Emitting?
       case NotifyOne => s.threads[t].op.Notifying?
       case CallStop => MayCall(s, t)
       case StopGate => s.threads[t].op.StopWaiting? && GateFree(s, t)
       case StopSection(order) => s.threads[t].op.StopGated?
       case CancelNext => s.threads[t].op.Cancelling? && s.threads[t].op.left != []
       case StopNotifyAll => s.threads[t].op.Cancelling? && s.threads[t].op.left == []
       case StopReturn => s.threads[t].op.StopNotified?
  }

  predicate CanWork(s: State, work: Work) {
    match work
    case StartRun => s.worker == Unstarted
    case Check => s.worker == Top
    case SpuriousWake => s.worker.Asleep? || s.worker.TimedAsleep?
    case Timeout => s.worker.TimedAsleep? && s.worker.deadline <= s.now
    case CheckAgain => s.worker.Recheck?
    case WorkerGate => s.worker.Holding? && GateFree(s, s.workerThread)
    case ReadFlag => s.worker.Gated?
    case WorkerCancel => s.worker.WillCancel?
    case Resume => s.worker.WillResume?
    case ResumeReturned =>
      && s.worker == Resuming && s.workerThread in s.threads
      && s.threads[s.workerThread] == ThreadState([], Idle)
  }

  /** The whole body of the first critical section of `run`. */
  function CheckFirst(s: State): State {
    if !s.q.stopping && s.q.ready == [] && s.q.delayed == [] then s.(worker := Asleep)
    else if s.q.stopping then s.(worker := Exited)
    else if s.q.ready != [] then
      var last := |s.q.ready| - 1;
      s.(worker := Holding(s.q.ready[last]), q := s.q.(ready := s.q.ready[..last]))
    else s.(worker := TimedAsleep(s.q.delayed[0].time))
  }

  /** What follows a wake-up from the timed wait, with the mutex held again. */
  function CheckSecond(s: State, deadline: Time, timedOut: bool): State {
    if s.q.stopping || s.q.ready != [] || s.q.delayed == [] || s.q.delayed[0].time < deadline then
      s.(worker := Top)
    else if !timedOut then s.(worker := TimedAsleep(deadline))
    else if s.q.delayed[0].time <= s.now then
      s.(worker := Holding(s.q.delayed[0].frame), q := s.q.(delayed := s.q.delayed[1..]))
    else s.(worker := Top)
  }

  function Pop(s: State, t: Thread): ThreadState
    requires HasBody(s, t)
  {
    s.threads[t].(stack := s.threads[t].stack[..|s.threads[t].stack| - 1])
  }

  function DoSuspend(s: State, t: Thread, how: Await): State
    requires HasBody(s, t)
  {
    var f := Innermost(s, t);
    s.(tasks := s.tasks[f := TaskOf(s, f).(suspended := true, awaits := TaskOf(s, f).awaits + 1)],
       threads := s.threads[t := Pop(s, t).(op := Offering(f, how))])
  }

  function DoFinish(s: State, t: Thread, threw: bool): State
    requires HasBody(s, t)
  {
    var f := Innermost(s, t);
    var task := TaskOf(s, f);
    var settled := task.(
      status := Settle(task.status, if threw then Failed else Succeeded),
      callback := if task.oneShot then (if threw then Threw else Completed) else task.callback);
    s.(tasks := s.tasks[f := settled], threads := s.threads[t := Pop(s, t)])
  }

  function DoEnqueue(s: State, t: Thread): State
    requires t in s.threads && s.threads[t].op.Offering?
  {
    var f, how := s.threads[t].op.frame, s.threads[t].op.how;
    if !s.q.accepting then WithOp(s, t, Rejected(f))
    else
      var task := TaskOf(s, f);
      WithOp(s.(q := Enqueue(s.q, s.now, how, f),
                tasks := s.tasks[f := task.(notBefore :=
                           if how.DelayAwait? then Deadline(s.now, how.delay) else task.notBefore)]),
             t, if how.EventAwait? then Idle else Notifying)
  }

  function DoEmit(s: State, t: Thread): State
    requires t in s.threads && s.threads[t].op.Emitting?
  {
    var name := s.threads[t].op.name;
    if !s.q.accepting || name !in s.q.waiters then WithOp(s, t, Idle)
    else WithOp(s.(q := Emit(s.q, name)), t, Notifying)
  }

  function DoStopSection(s: State, t: Thread, order: seq<string>): State
    requires t in s.threads
  {
    if !s.q.accepting then Release(WithOp(s, t, Idle))
    else WithOp(s.(q := Closed(s.q)), t, Cancelling(Drained(s.q, order)))
  }

  function DoCancelNext(s: State, t: Thread): State
    requires t in s.threads && s.threads[t].op.Cancelling? && s.threads[t].op.left != []
  {
    var left := s.threads[t].op.left;
    WithOp(s.(tasks := SettleTask(s, left[0], Cancelled)), t, Cancelling(left[1..]))
  }

  function DoResume(s: State): State
    requires s.worker.WillResume?
  {
    var f := s.worker.frame;
    var task := TaskOf(s, f);
    if task.status != Pending then Release(s.(worker := Top))
    else
      s.(worker := Resuming,
         resumed := s.resumed + [f],
         threads := s.threads[s.workerThread := ThreadState([f], Idle)],
         tasks := s.tasks[f := task.(suspended := false, resumes := task.resumes + 1,
                                     callback := if task.oneShot then Started else task.callback)])
  }

  function DoAct(s: State, t: Thread, act: Action): State
    requires CanAct(s, t, act)
  {
    match act
    case Create(f, oneShot) =>
      s.(tasks := s.tasks[f := Task(oneShot, Pending, false, NotStarted, 0, 0, s.now)],
         threads := s.threads[t := s.threads[t].(stack := s.threads[t].stack + [f])])
    case Suspend(how) => DoSuspend(s, t, how)
    case Finish(threw) => DoFinish(s, t, threw)
    case EnqueueSection => DoEnqueue(s, t)
    case CancelRejected =>
      WithOp(s.(tasks := SettleTask(s, s.threads[t].op.frame, Cancelled)), t, Idle)
    case CallEmit(name) => WithOp(s, t, Emitting(name))
    case EmitSection => DoEmit(s, t)
    case NotifyOne => WithOp(s.(worker := Woken(s.worker)), t, Idle)
    case CallStop => WithOp(s, t, StopWaiting)
    case StopGate => Acquire(WithOp(s, t, StopGated), t)
    case StopSection(order) => DoStopSection(s, t, order)
    case CancelNext => DoCancelNext(s, t)
    case StopNotifyAll => WithOp(s.(worker := Woken(s.worker)), t, StopNotified)
    case StopReturn => Release(WithOp(s, t, Idle))
  }

  function DoWork(s: State, work: Work): State
    requires CanWork(s, work)
  {
    match work
    case StartRun => s.(worker := Top)
    case Check => CheckFirst(s)
    case SpuriousWake => s.(worker := Woken(s.worker))
    case Timeout => s.(worker := Recheck(s.worker.deadline, true))
    case CheckAgain => CheckSecond(s, s.worker.deadline, s.worker.timedOut)
    case WorkerGate => Acquire(s.(worker := Gated(s.worker.frame)), s.workerThread)
    case ReadFlag =>
      s.(worker := if s.q.stopping then WillCancel(s.worker.frame) else WillResume(s.worker.frame))
    case WorkerCancel =>
      Release(s.(tasks := SettleTask(s, s.worker.frame, Cancelled), worker := Top))
    case Resume => DoResume(s)
    case ResumeReturned => Release(s.(worker := Top))
  }

  ghost predicate Taken(s: State, step: Step, s': State) {
    match step
    case Act(t, act) =>
      && CanAct(s, t, act) && s' == DoAct(s, t, act)
      && (act.StopSection? ==> IsOrderOf(act.order, s.q.waiters.Keys))   // any iteration order of the map
    case Run(work) => CanWork(s, work) && s' == DoWork(s, work)
    case Tick(elapsed) => s' == s.(now := s.now + elapsed)
  }

  ghost predicate Next(s: State, s': State) {
    exists step :: Taken(s, step, s')
  }

  /** A constructed loop that nobody has used yet, with any set of threads. */
  ghost predicate Init(s: State) {
    && s.tasks == map[] && s.resumed == []
    && s.q == Queues([], [], map[], 0, true, false)
    && s.workerThread in s.threads
    && (forall t :: t in s.threads ==> s.threads[t] == ThreadState([], Idle))
    && s.worker == Unstarted && s.gateOwner == None && s.gateDepth == 0
  }

  ghost predicate Linked(run: seq<State>, i: nat)
    requires i + 1 < |run|
  {
    Next(run[i], run[i + 1])
  }

  ghost predicate IsRun(run: seq<State>) {
    run != [] && Init(run[0]) && forall i: nat :: i + 1 < |run| ==> Linked(run, i)
  }
}
