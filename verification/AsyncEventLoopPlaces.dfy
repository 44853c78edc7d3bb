/** No frame is lost or duplicated: every suspended, unsettled frame is in exactly one place. */
module AsyncEventLoopPlaces {
  import opened Common
  import opened CoroutineTask
  import opened AsyncEventLoop

  datatype Place =
    | DelayedQueue
    | ReadyStack
    | WaiterList(name: string)
    | WorkerHand
    | CarriedBy(t: Thread)     // about to be enqueued, about to be cancelled, or in a stop's cancel list
    | RunningOn(t: Thread)
    | Nowhere

  /** The frames a thread carries through a loop operation. */
  function Carried(op: Op): seq<Frame> {
    match op
    case Offering(f, _) => [f]
    case Rejected(f) => [f]
    case Cancelling(left) => left
    case _ => []
  }

  function Hand(w: Worker): seq<Frame> {
    if w.Holding? || w.Gated? || w.WillCancel? || w.WillResume? then [w.frame] else []
  }

  /** The frames found at a place, with repetitions. */
  function Contents(s: State, p: Place): seq<Frame> {
    match p
    case DelayedQueue => FramesOf(s.q.delayed)
    case ReadyStack => s.q.ready
    case WaiterList(name) => WaitersOf(s.q, name)
    case WorkerHand => Hand(s.worker)
    case CarriedBy(t) => if t in s.threads then Carried(s.threads[t].op) else []
    case RunningOn(t) => if t in s.threads then s.threads[t].stack else []
    case Nowhere => []
  }

  type Map = map<Frame, Place>

  /** `where` tells, for every frame, the only place that holds it. */
  ghost predicate Holds(frames: seq<Frame>, at: Map, p: Place) {
    Distinct(frames) && forall f :: f in frames <==> f in at && at[f] == p
  }

  ghost predicate PlacedAt(s: State, at: Map) {
    && at.Keys == s.tasks.Keys
    && (forall p :: p != Nowhere ==> Holds(Contents(s, p), at, p))
    && (forall f :: f in at ==> (at[f] == Nowhere <==> s.tasks[f].status != Pending))
    && (forall f :: f in at && at[f] != Nowhere ==> (at[f].RunningOn? <==> !s.tasks[f].suspended))
  }

  ghost predicate Placed(s: State) {
    exists at :: PlacedAt(s, at)
  }

  // ---------------------------------------------------------------- helper facts

  lemma {:induction false} InsertSplits(d: seq<DelayedTask>, e: DelayedTask) returns (k: nat)
    ensures k <= |d| && InsertDelayed(d, e) == d[..k] + [e] + d[k..]
  {
    if d == [] || !NotLater(d[0], e) {
      k := 0;
    } else {
      var m := InsertSplits(d[1..], e);
      k := m + 1;
      assert d == [d[0]] + d[1..];
    }
  }

  lemma {:induction false} InsertFrames(d: seq<DelayedTask>, e: DelayedTask)
    requires Distinct(FramesOf(d)) && e.frame !in FramesOf(d)
    ensures Distinct(FramesOf(InsertDelayed(d, e)))
    ensures forall f :: f in FramesOf(InsertDelayed(d, e)) <==> f == e.frame || f in FramesOf(d)
  {
    var k := InsertSplits(d, e);
    var a := FramesOf(d);
    assert FramesOf(InsertDelayed(d, e)) == a[..k] + [e.frame] + a[k..];
    assert a == a[..k] + a[k..];
  }

  lemma {:induction false} FlattenHolds(s: State, at: Map, order: seq<string>)
    requires PlacedAt(s, at) && Distinct(order)
    ensures Distinct(Flatten(s.q.waiters, order))
    ensures forall f :: f in Flatten(s.q.waiters, order) <==>
                          f in at && at[f].WaiterList? && at[f].name in order
  {
    if order != [] {
      FlattenHolds(s, at, order[1..]);
      var n := order[0];
      assert Holds(Contents(s, WaiterList(n)), at, WaiterList(n));
      assert order == [n] + order[1..];
      DistinctTail(n, order[1..]);
      DistinctConcat(WaitersOf(s.q, n), Flatten(s.q.waiters, order[1..]));
    }
  }

  // ---------------------------------------------------------------- preservation

  /** Moving one frame from the place it is at to another leaves every other place as it was. */
  ghost predicate OthersKeep(s: State, s': State, p: Place, p': Place) {
    forall r :: r != p && r != p' ==> Contents(s', r) == Contents(s, r)
  }

  /** What each place holds. */
  type Layout = Place -> seq<Frame>

  ghost predicate Fits(c: Layout, at: Map) {
    forall p :: p != Nowhere ==> Holds(c(p), at, p)
  }

  lemma {:induction false} MoveFits(c: Layout, c': Layout, at: Map, f: Frame, p': Place)
    requires Fits(c, at) && f in at && at[f] != p' && at[f] != Nowhere
    requires forall r :: r != at[f] && r != p' ==> c'(r) == c(r)
    requires forall g :: g in c'(at[f]) <==> g in c(at[f]) && g != f
    requires Distinct(c'(at[f]))
    requires p' != Nowhere ==> Distinct(c'(p')) && forall g :: g in c'(p') <==> g in c(p') || g == f
    ensures Fits(c', at[f := p'])
  {
    forall p | p != Nowhere ensures Holds(c'(p), at[f := p'], p) {
      assert Holds(c(p), at, p);
    }
  }

  lemma {:induction false} Move(s: State, s': State, at: Map, f: Frame, p': Place)
    requires PlacedAt(s, at) && f in at && at[f] != p' && at[f] != Nowhere
    requires OthersKeep(s, s', at[f], p')
    requires forall g :: g in Contents(s', at[f]) <==> g in Contents(s, at[f]) && g != f
    requires Distinct(Contents(s', at[f]))
    requires p' != Nowhere ==>
               && Distinct(Contents(s', p'))
               && forall g :: g in Contents(s', p') <==> g in Contents(s, p') || g == f
    requires s'.tasks.Keys == s.tasks.Keys
    requires forall g :: g in at && g != f ==> s'.tasks[g] == s.tasks[g]
    requires p' == Nowhere <==> s'.tasks[f].status != Pending
    requires p' != Nowhere ==> (p'.RunningOn? <==> !s'.tasks[f].suspended)
    ensures PlacedAt(s', at[f := p'])
  {
    var c, c' := p => Contents(s, p), p => Contents(s', p);
    MoveFits(c, c', at, f, p');
    forall p | p != Nowhere ensures Holds(Contents(s', p), at[f := p'], p) {
      assert Holds(c'(p), at[f := p'], p);
    }
  }

  lemma {:induction false} SuspendPlaced(s: State, t: Thread, how: Await, at: Map)
    requires PlacedAt(s, at) && CanAct(s, t, Suspend(how))
    ensures PlacedAt(DoSuspend(s, t, how), at[Innermost(s, t) := CarriedBy(t)])
  {
    var f := Innermost(s, t);
    var s' := DoSuspend(s, t, how);
    assert Holds(Contents(s, RunningOn(t)), at, RunningOn(t));
    assert f in Contents(s, RunningOn(t));
    Move(s, s', at, f, CarriedBy(t));
  }

  lemma {:induction false} FinishPlaced(s: State, t: Thread, threw: bool, at: Map)
    requires PlacedAt(s, at) && CanAct(s, t, Finish(threw))
    ensures PlacedAt(DoFinish(s, t, threw), at[Innermost(s, t) := Nowhere])
  {
    var f := Innermost(s, t);
    assert Holds(Contents(s, RunningOn(t)), at, RunningOn(t));
    assert f in Contents(s, RunningOn(t));
    Move(s, DoFinish(s, t, threw), at, f, Nowhere);
  }

  function Queue(how: Await): Place {
    match how
    case ReadyAwait => ReadyStack
    case DelayAwait(_) => DelayedQueue
    case EventAwait(name) => WaiterList(name)
  }

  lemma {:induction false} EnqueuePlaced(s: State, t: Thread, at: Map) returns (at': Map)
    requires PlacedAt(s, at) && CanAct(s, t, EnqueueSection)
    ensures PlacedAt(DoEnqueue(s, t), at')
  {
    var s' := DoEnqueue(s, t);
    var f, how := s.threads[t].op.frame, s.threads[t].op.how;
    assert Holds(Contents(s, CarriedBy(t)), at, CarriedBy(t));
    assert f in Contents(s, CarriedBy(t));
    if !s.q.accepting {
      at' := at;
      Same(s, s', at);
    } else {
      at' := at[f := Queue(how)];
      assert Holds(Contents(s, Queue(how)), at, Queue(how));
      if how.DelayAwait? {
        InsertFrames(s.q.delayed, DelayedTask(Deadline(s.now, how.delay), s.q.nextSequence, f));
      }
      Move(s, s', at, f, Queue(how));
    }
  }

  /** A step that moves no frame and settles none. */
  lemma {:induction false} Same(s: State, s': State, at: Map)
    requires PlacedAt(s, at) && s'.tasks == s.tasks
    requires forall p :: Contents(s', p) == Contents(s, p)
    ensures PlacedAt(s', at)
  {
    forall p | p != Nowhere ensures Holds(Contents(s', p), at, p) {
      assert Holds(Contents(s, p), at, p);
    }
  }

  lemma {:induction false} CancelPlaced(s: State, s': State, at: Map, f: Frame)
    requires PlacedAt(s, at) && f in at && at[f] != Nowhere
    requires s'.tasks == SettleTask(s, f, Cancelled)
    requires OthersKeep(s, s', at[f], Nowhere)
    requires Contents(s, at[f]) == [f] + Contents(s', at[f])
    ensures PlacedAt(s', at[f := Nowhere])
  {
    assert Holds(Contents(s, at[f]), at, at[f]);
    DistinctTail(f, Contents(s', at[f]));
    Move(s, s', at, f, Nowhere);
  }

  lemma {:induction false} EmitPlaced(s: State, t: Thread, at: Map) returns (at': Map)
    requires PlacedAt(s, at) && CanAct(s, t, EmitSection)
    ensures PlacedAt(DoEmit(s, t), at')
  {
    var s' := DoEmit(s, t);
    var n := s.threads[t].op.name;
    if !s.q.accepting || n !in s.q.waiters {
      at' := at;
      Same(s, s', at);
    } else {
      at' := map f | f in at :: if at[f] == WaiterList(n) then ReadyStack else at[f];
      assert Holds(Contents(s, ReadyStack), at, ReadyStack);
      assert Holds(Contents(s, WaiterList(n)), at, WaiterList(n));
      DistinctConcat(s.q.ready, WaitersOf(s.q, n));
      forall p | p != Nowhere ensures Holds(Contents(s', p), at', p) {
        assert Holds(Contents(s, p), at, p);
        if p != ReadyStack && p != WaiterList(n) {
          assert Contents(s', p) == Contents(s, p);
        }
      }
    }
  }

  predicate Queued(p: Place) {
    p == DelayedQueue || p == ReadyStack || p.WaiterList?
  }

  /** `stop` moves out every queued frame, once. */
  lemma {:induction false} DrainedHolds(s: State, at: Map, order: seq<string>)
    requires PlacedAt(s, at) && IsOrderOf(order, s.q.waiters.Keys)
    ensures Distinct(Drained(s.q, order))
    ensures forall f :: f in Drained(s.q, order) <==> f in at && Queued(at[f])
  {
    FlattenHolds(s, at, order);
    assert Holds(Contents(s, DelayedQueue), at, DelayedQueue);
    assert Holds(Contents(s, ReadyStack), at, ReadyStack);
    DistinctConcat(FramesOf(s.q.delayed), s.q.ready);
    DistinctConcat(FramesOf(s.q.delayed) + s.q.ready, Flatten(s.q.waiters, order));
    forall f | f in at && at[f].WaiterList? ensures at[f].name in order {
      assert Holds(Contents(s, at[f]), at, at[f]);
    }
  }

  lemma {:induction false} DrainFits(c: Layout, c': Layout, at: Map, at': Map, to: Place)
    requires Fits(c, at) && !Queued(to) && to != Nowhere
    requires at' == map f | f in at :: if Queued(at[f]) then to else at[f]
    requires c(to) == [] && Distinct(c'(to)) && forall f :: f in c'(to) <==> f in at && Queued(at[f])
    requires forall p :: p != to ==> c'(p) == if Queued(p) then [] else c(p)
    ensures Fits(c', at')
  {
    assert Holds(c(to), at, to);
    forall p | p != Nowhere ensures Holds(c'(p), at', p) {
      assert Holds(c(p), at, p);
    }
  }

  lemma {:induction false} MoveQueued(s: State, s': State, t: Thread, at: Map, at': Map)
    requires PlacedAt(s, at) && s'.tasks == s.tasks
    requires at' == map f | f in at :: if Queued(at[f]) then CarriedBy(t) else at[f]
    requires Contents(s, CarriedBy(t)) == [] && Distinct(Contents(s', CarriedBy(t)))
    requires forall f :: f in Contents(s', CarriedBy(t)) <==> f in at && Queued(at[f])
    requires forall p :: p != CarriedBy(t) ==> Contents(s', p) == if Queued(p) then [] else Contents(s, p)
    ensures PlacedAt(s', at')
  {
    var c, c' := p => Contents(s, p), p => Contents(s', p);
    DrainFits(c, c', at, at', CarriedBy(t));
    forall p | p != Nowhere ensures Holds(Contents(s', p), at', p) {
      assert Holds(c'(p), at', p);
    }
  }

  lemma {:induction false} StopPlaced(s: State, t: Thread, order: seq<string>, at: Map) returns (at': Map)
    requires PlacedAt(s, at) && CanAct(s, t, StopSection(order)) && IsOrderOf(order, s.q.waiters.Keys)
    ensures PlacedAt(DoStopSection(s, t, order), at')
  {
    var s' := DoStopSection(s, t, order);
    if !s.q.accepting {
      at' := at;
      Same(s, s', at);
    } else {
      at' := map f | f in at :: if Queued(at[f]) then CarriedBy(t) else at[f];
      DrainedHolds(s, at, order);
      MoveQueued(s, s', t, at, at');
    }
  }

  lemma {:induction false} TakePlaced(s: State, s': State, at: Map, f: Frame, p: Place)
    requires PlacedAt(s, at) && s'.tasks == s.tasks && (p == ReadyStack || p == DelayedQueue)
    requires Hand(s.worker) == [] && s'.worker == Holding(f)
    requires OthersKeep(s, s', p, WorkerHand)
    requires Contents(s, p) == Contents(s', p) + [f] || Contents(s, p) == [f] + Contents(s', p)
    ensures PlacedAt(s', at[f := WorkerHand])
  {
    assert Holds(Contents(s, p), at, p);
    assert Holds(Contents(s, WorkerHand), at, WorkerHand);
    assert f in Contents(s, p);
    if Contents(s, p) == [f] + Contents(s', p) {
      DistinctTail(f, Contents(s', p));
    } else {
      DistinctInit(Contents(s', p), f);
    }
    Move(s, s', at, f, WorkerHand);
  }

  lemma {:induction false} CheckFirstPlaced(s: State, at: Map) returns (at': Map)
    requires PlacedAt(s, at) && CanWork(s, Check)
    ensures PlacedAt(CheckFirst(s), at')
  {
    var s' := CheckFirst(s);
    if s'.worker.Holding? {
      at' := at[s'.worker.frame := WorkerHand];
      assert s.q.ready == s'.q.ready + [s'.worker.frame];
      TakePlaced(s, s', at, s'.worker.frame, ReadyStack);
    } else {
      at' := at;
      Same(s, s', at);
    }
  }

  lemma {:induction false} CheckSecondPlaced(s: State, at: Map) returns (at': Map)
    requires PlacedAt(s, at) && CanWork(s, CheckAgain)
    ensures PlacedAt(CheckSecond(s, s.worker.deadline, s.worker.timedOut), at')
  {
    var s' := CheckSecond(s, s.worker.deadline, s.worker.timedOut);
    if s'.worker.Holding? {
      at' := at[s'.worker.frame := WorkerHand];
      assert FramesOf(s.q.delayed) == [s'.worker.frame] + FramesOf(s'.q.delayed);
      TakePlaced(s, s', at, s'.worker.frame, DelayedQueue);
    } else {
      at' := at;
      Same(s, s', at);
    }
  }

  lemma {:induction false} ResumePlaced(s: State, at: Map) returns (at': Map)
    requires PlacedAt(s, at) && CanWork(s, Resume)
    requires s.workerThread in s.threads && s.threads[s.workerThread] == ThreadState([], Idle)
    ensures PlacedAt(DoResume(s), at')
    ensures TaskOf(s, s.worker.frame).status == Pending && s.worker.frame in s.tasks
  {
    var f := s.worker.frame;
    assert Holds(Contents(s, WorkerHand), at, WorkerHand);
    assert f in Contents(s, WorkerHand);
    assert Holds(Contents(s, RunningOn(s.workerThread)), at, RunningOn(s.workerThread));
    at' := at[f := RunningOn(s.workerThread)];
    Move(s, DoResume(s), at, f, RunningOn(s.workerThread));
  }

  lemma {:induction false} CreatePlaced(s: State, t: Thread, f: Frame, oneShot: bool, at: Map)
    requires PlacedAt(s, at) && CanAct(s, t, Create(f, oneShot))
    ensures PlacedAt(DoAct(s, t, Create(f, oneShot)), at[f := RunningOn(t)])
  {
    var s' := DoAct(s, t, Create(f, oneShot));
    forall p | p != Nowhere ensures Holds(Contents(s', p), at[f := RunningOn(t)], p) {
      assert Holds(Contents(s, p), at, p);
      if p != RunningOn(t) {
        assert Contents(s', p) == Contents(s, p);
      }
    }
  }

  /** The worker's own thread runs loop operations and bodies only inside handle.resume(). */
  ghost predicate WorkerBusyOnlyResuming(s: State) {
    && s.workerThread in s.threads
    && (s.worker != Resuming ==> s.threads[s.workerThread] == ThreadState([], Idle))
  }

  lemma {:induction false} CancelActPlaced(s: State, t: Thread, act: Action, at: Map) returns (at': Map)
    requires PlacedAt(s, at) && CanAct(s, t, act) && (act.CancelRejected? || act.CancelNext?)
    ensures PlacedAt(DoAct(s, t, act), at')
  {
    assert Holds(Contents(s, CarriedBy(t)), at, CarriedBy(t));
    var f := Contents(s, CarriedBy(t))[0];
    assert f in Contents(s, CarriedBy(t));
    at' := at[f := Nowhere];
    CancelPlaced(s, DoAct(s, t, act), at, f);
  }

  lemma {:induction false} WorkerCancelPlaced(s: State, at: Map) returns (at': Map)
    requires PlacedAt(s, at) && CanWork(s, WorkerCancel)
    ensures PlacedAt(DoWork(s, WorkerCancel), at')
  {
    assert Holds(Contents(s, WorkerHand), at, WorkerHand);
    assert s.worker.frame in Contents(s, WorkerHand);
    at' := at[s.worker.frame := Nowhere];
    CancelPlaced(s, DoWork(s, WorkerCancel), at, s.worker.frame);
  }

  /** The actions that move no frame. */
  predicate Quiet(act: Action) {
    act.CallEmit? || act.NotifyOne? || act.CallStop? || act.StopGate? || act.StopNotifyAll? || act.StopReturn?
  }

  lemma {:induction false} QuietPlaced(s: State, t: Thread, act: Action, at: Map)
    requires PlacedAt(s, at) && CanAct(s, t, act) && Quiet(act)
    ensures PlacedAt(DoAct(s, t, act), at)
  {
    Same(s, DoAct(s, t, act), at);
  }

  lemma {:induction false} ActPlaced(s: State, t: Thread, act: Action, at: Map) returns (at': Map)
    requires PlacedAt(s, at) && CanAct(s, t, act)
    requires act.StopSection? ==> IsOrderOf(act.order, s.q.waiters.Keys)
    ensures PlacedAt(DoAct(s, t, act), at')
  {
    match act {
      case Create(f, oneShot) => CreatePlaced(s, t, f, oneShot, at); at' := at[f := RunningOn(t)];
      case Suspend(how) => SuspendPlaced(s, t, how, at); at' := at[Innermost(s, t) := CarriedBy(t)];
      case Finish(threw) => FinishPlaced(s, t, threw, at); at' := at[Innermost(s, t) := Nowhere];
      case EnqueueSection => at' := EnqueuePlaced(s, t, at);
      case EmitSection => at' := EmitPlaced(s, t, at);
      case StopSection(order) => at' := StopPlaced(s, t, order, at);
      case CancelRejected => at' := CancelActPlaced(s, t, act, at);
      case CancelNext => at' := CancelActPlaced(s, t, act, at);
      case _ => QuietPlaced(s, t, act, at); at' := at;
    }
  }

  lemma {:induction false} WorkPlaced(s: State, work: Work, at: Map) returns (at': Map)
    requires PlacedAt(s, at) && WorkerBusyOnlyResuming(s) && CanWork(s, work)
    ensures PlacedAt(DoWork(s, work), at')
  {
    match work {
      case Check => at' := CheckFirstPlaced(s, at);
      case CheckAgain => at' := CheckSecondPlaced(s, at);
      case WorkerCancel => at' := WorkerCancelPlaced(s, at);
      case Resume => at' := ResumePlaced(s, at);
      case _ => Same(s, DoWork(s, work), at); at' := at;
    }
  }

  lemma {:induction false} StepPlaced(s: State, step: Step, s': State)
    requires Placed(s) && WorkerBusyOnlyResuming(s) && Taken(s, step, s')
    ensures Placed(s')
  {
    var at :| PlacedAt(s, at);
    match step {
      case Act(t, act) => var at' := ActPlaced(s, t, act, at);
      case Run(work) => var at' := WorkPlaced(s, work, at);
      case Tick(_) => Same(s, s', at);
    }
  }

  lemma {:induction false} ActBusy(s: State, t: Thread, act: Action)
    requires WorkerBusyOnlyResuming(s) && CanAct(s, t, act)
    ensures WorkerBusyOnlyResuming(DoAct(s, t, act))
  {
  }

  lemma {:induction false} WorkBusy(s: State, work: Work)
    requires WorkerBusyOnlyResuming(s) && CanWork(s, work)
    ensures WorkerBusyOnlyResuming(DoWork(s, work))
  {
  }

  /** The number of times frame f is found at place p. */
  function Occurrences(s: State, f: Frame, p: Place): nat {
    multiset(Contents(s, p))[f]
  }

  lemma {:induction false} PlacedExactlyOnce(s: State, at: Map, f: Frame, p: Place)
    requires PlacedAt(s, at) && f in s.tasks && p != Nowhere
    ensures Occurrences(s, f, p) == if at[f] == p then 1 else 0
  {
    assert Holds(Contents(s, p), at, p);
    DistinctCount(Contents(s, p), f);
  }
}
