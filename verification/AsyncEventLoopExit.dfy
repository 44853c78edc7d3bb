/** What is settled once the worker has left `run`: when it is everything, and a run in which it is not yet. */
module AsyncEventLoopExit {
  import opened Common
  import opened CoroutineTask
  import opened AsyncEventLoop
  import opened AsyncEventLoopPlaces
  import opened AsyncEventLoopSafety

  predicate Unsettled(s: State, f: Frame) {
    f in s.tasks && s.tasks[f].suspended && s.tasks[f].status == Pending
  }

  /** Thread t has the frame in an operation of its own. */
  predicate Carries(s: State, t: Thread, f: Frame) {
    t in s.threads && f in Carried(s.threads[t].op)
  }

  /** Thread t is offering the frame to the loop, or is about to cancel it because the loop refused it. */
  predicate Offers(s: State, t: Thread, f: Frame) {
    t in s.threads && (s.threads[t].op.Offering? || s.threads[t].op.Rejected?) && s.threads[t].op.frame == f
  }

  predicate Cancels(s: State, t: Thread) {
    t in s.threads && s.threads[t].op.Cancelling? && s.threads[t].op.left != []
  }

  /** A frame the loop has accepted and nobody has settled. */
  ghost predicate AcceptedUnsettled(s: State, f: Frame) {
    Unsettled(s, f) && forall t :: !Offers(s, t, f)
  }

  lemma {:induction false} CarriedIsUnsettled(s: State, t: Thread, f: Frame)
    requires Placed(s) && Carries(s, t, f)
    ensures Unsettled(s, f)
  {
    var at :| PlacedAt(s, at);
    assert Holds(Contents(s, CarriedBy(t)), at, CarriedBy(t));
    assert f in Contents(s, CarriedBy(t));
  }

  lemma {:induction false} CarriedByOne(s: State, t: Thread, u: Thread, f: Frame)
    requires Placed(s) && Carries(s, t, f) && Carries(s, u, f)
    ensures t == u
  {
    var at :| PlacedAt(s, at);
    assert Holds(Contents(s, CarriedBy(t)), at, CarriedBy(t)) && f in Contents(s, CarriedBy(t));
    assert Holds(Contents(s, CarriedBy(u)), at, CarriedBy(u)) && f in Contents(s, CarriedBy(u));
  }

  /** Once the worker has left `run`, a suspended frame is pending if and only if some thread carries it. */
  lemma {:induction false} PendingIffCarried(run: seq<State>, i: nat, f: Frame)
    requires IsRun(run) && i < |run| && run[i].worker == Exited
    ensures Unsettled(run[i], f) <==> exists t :: Carries(run[i], t, f)
  {
    RunInv(run, i);
    var s := run[i];
    if Unsettled(s, f) {
      var at: Map :| PlacedAt(s, at);
      assert Holds(Contents(s, at[f]), at, at[f]);
      assert f in Contents(s, at[f]);
      assert Carries(s, at[f].t, f);
    }
    if t :| Carries(s, t, f) {
      CarriedIsUnsettled(s, t, f);
    }
  }

  /**
   So, once the worker has left `run`, every frame the loop had accepted is settled if and only if no
   `stop` is still going through its list.
   */
  lemma {:induction false} AcceptedPendingIffCancelling(run: seq<State>, i: nat)
    requires IsRun(run) && i < |run| && run[i].worker == Exited
    ensures (exists f :: AcceptedUnsettled(run[i], f)) <==> exists t :: Cancels(run[i], t)
  {
    RunInv(run, i);
    var s := run[i];
    if f :| AcceptedUnsettled(s, f) {
      PendingIffCarried(run, i, f);
      var t :| Carries(s, t, f);
      assert !Offers(s, t, f);
      assert Cancels(s, t);
    }
    if t :| Cancels(s, t) {
      var f := s.threads[t].op.left[0];
      assert Carries(s, t, f);
      CarriedIsUnsettled(s, t, f);
      forall u ensures !Offers(s, u, f) {
        if Offers(s, u, f) {
          assert Carries(s, u, f);
          CarriedByOne(s, t, u, f);
        }
      }
      assert AcceptedUnsettled(s, f);
    }
  }

  // ---------------------------------------------------------------- after a stop has returned

  ghost predicate NobodyCancels(s: State) {
    s.q.stopping && forall t :: t in s.threads ==> !s.threads[t].op.Cancelling?
  }

  lemma {:induction false} ReturnEndsCancelling(s: State, step: Step, s': State, t: Thread)
    requires Taken(s, step, s') && StopReturns(s, s', t)
    requires forall u :: u in s.threads && u != t ==> !s.threads[u].op.Cancelling?
    ensures forall u :: u in s'.threads ==> !s'.threads[u].op.Cancelling?
  {
    if step.Act? && step.t != t {
      OneThreadMoves(s, step, s', t);
    }
    forall u | u in s'.threads && u != t ensures !s'.threads[u].op.Cancelling? {
      if step.Act? && step.t == u {
        OnlyStopCancels(s, u, step.act);
      } else {
        OneThreadMoves(s, step, s', u);
      }
    }
  }

  /** An operation becomes a cancelling one only when a gated `stop` closes the loop. */
  lemma {:induction false} OnlyStopCancels(s: State, u: Thread, act: Action)
    requires CanAct(s, u, act) && u in s.threads && !s.threads[u].op.Cancelling?
    ensures u in DoAct(s, u, act).threads
    ensures DoAct(s, u, act).threads[u].op.Cancelling? ==>
              s.threads[u].op.StopGated? && act.StopSection? && s.q.accepting
  {
  }

  lemma {:induction false} NobodyStartsCancelling(s: State, step: Step, s': State)
    requires FlagsOk(s) && Taken(s, step, s') && NobodyCancels(s)
    ensures NobodyCancels(s')
  {
    StopStays(s, step, s');
    forall t | t in s'.threads ensures !s'.threads[t].op.Cancelling? {
      if step.Act? && step.t == t {
        OnlyStopCancels(s, t, step.act);
      } else {
        OneThreadMoves(s, step, s', t);
      }
    }
  }

  lemma {:induction false} NobodyCancelsAfter(run: seq<State>, k: nat, i: nat, t: Thread)
    requires IsRun(run) && k < i < |run| && StopReturns(run[k], run[k + 1], t)
    ensures NobodyCancels(run[i])
  {
    var step := RunStep(run, i - 1);
    if i == k + 1 {
      StopReturnsQuiescent(run, k, t);
      ReturnEndsCancelling(run[k], step, run[i], t);
    } else {
      NobodyCancelsAfter(run, k, i - 1, t);
      NobodyStartsCancelling(run[i - 1], step, run[i]);
    }
  }

  /**
   What a caller can rely on: once some `stop` has returned and the worker has left `run`, every frame the
   loop ever accepted is settled. A frame is pending exactly while some thread still offers it or is about
   to cancel it because the closed loop refused it.
   */
  lemma {:induction false} StoppedAndExitedIsSettled(run: seq<State>, k: nat, i: nat, t: Thread)
    requires IsRun(run) && k < i < |run| && StopReturns(run[k], run[k + 1], t) && run[i].worker == Exited
    ensures forall f :: !AcceptedUnsettled(run[i], f)
    ensures forall f :: Unsettled(run[i], f) <==> exists u :: Offers(run[i], u, f)
  {
    NobodyCancelsAfter(run, k, i, t);
    AcceptedPendingIffCancelling(run, i);
    forall f ensures !AcceptedUnsettled(run[i], f) {
    }
    forall f ensures Unsettled(run[i], f) <==> exists u :: Offers(run[i], u, f) {
      PendingIffCarried(run, i, f);
      if u :| Carries(run[i], u, f) {
        assert Offers(run[i], u, f);
      }
      if u :| Offers(run[i], u, f) {
        assert Carries(run[i], u, f);
      }
    }
  }

  // ---------------------------------------------------------------- leaving early

  /** The states of a run in which thread 1 uses the loop and thread 0 is the worker's. */
  function EarlyState(i: nat): State {
    var tasks := if i == 0 then map[]
                 else map[7 := Task(true, Pending, i >= 2, NotStarted, if i >= 2 then 1 else 0, 0,
                                    if i >= 3 then 5 else 0)];
    var delayed := if 3 <= i <= 6 then [DelayedTask(5, 0, 7)] else [];
    var q := Queues(delayed, [], map[], if i >= 3 then 1 else 0, i <= 6, i >= 7);
    var op := if i == 2 then Offering(7, DelayAwait(5))
              else if i == 3 then Notifying
              else if i == 5 then StopWaiting
              else if i == 6 then StopGated
              else if i >= 7 then Cancelling([7])
              else Idle;
    State(tasks, q, map[0 := ThreadState([], Idle), 1 := ThreadState(if i == 1 then [7] else [], op)],
          if i <= 7 then Unstarted else if i == 8 then Top else Exited,
          0, if i >= 6 then Some(1) else None, if i >= 6 then 1 else 0, 0, [])
  }

  function EarlyStep(i: nat): Step {
    if i == 0 then Act(1, Create(7, true))
    else if i == 1 then Act(1, Suspend(DelayAwait(5)))
    else if i == 2 then Act(1, EnqueueSection)
    else if i == 3 then Act(1, NotifyOne)
    else if i == 4 then Act(1, CallStop)
    else if i == 5 then Act(1, StopGate)
    else if i == 6 then Act(1, StopSection([]))
    else if i == 7 then Run(StartRun)
    else Run(Check)
  }

  lemma {:induction false} EarlyOffer(i: nat)
    requires i < 3
    ensures Taken(EarlyState(i), EarlyStep(i), EarlyState(i + 1))
  {
    var after := DoAct(EarlyState(i), 1, EarlyStep(i).act);
    assert i == 0 ==> after.threads[1].stack == [7];
    assert i == 1 ==> after.threads[1].stack == [];
    assert after.threads == EarlyState(i + 1).threads && after.tasks == EarlyState(i + 1).tasks;
    assert after.q.delayed == EarlyState(i + 1).q.delayed;
  }

  lemma {:induction false} EarlyStop(i: nat)
    requires 3 <= i < 7
    ensures Taken(EarlyState(i), EarlyStep(i), EarlyState(i + 1))
  {
    if i == 6 {
      assert Drained(EarlyState(6).q, []) == [7];
    }
    assert DoAct(EarlyState(i), 1, EarlyStep(i).act).threads == EarlyState(i + 1).threads;
  }

  lemma {:induction false} EarlyTaken(i: nat)
    requires i < 9
    ensures Taken(EarlyState(i), EarlyStep(i), EarlyState(i + 1))
  {
    if i < 3 {
      EarlyOffer(i);
    } else if i < 7 {
      EarlyStop(i);
    }
  }

  /**
   The worker can leave `run` before the `stop` that closed the loop has cancelled its list: here it sees the
   flag while a task is suspended and still pending. So leaving `run` alone settles nothing.
   */
  lemma {:induction false} ExitCanComeFirst() returns (run: seq<State>)
    ensures IsRun(run)
    ensures run[|run| - 1].worker == Exited && AcceptedUnsettled(run[|run| - 1], 7)
  {
    run := seq(10, i requires 0 <= i < 10 => EarlyState(i));
    forall i: nat | i + 1 < |run| ensures Linked(run, i) {
      EarlyTaken(i);
    }
  }
}
