/** What every step of the generator loop keeps, and why its shutdown terminates. */
module EventLoopGeneratorSafety {
  import opened Common
  import opened EventLoopGenerator

  // ---------------------------------------------------------------- preservation

  /** The parts of the state the queue's books are about. */
  predicate SameBooks(s: State, s': State) {
    && s'.first == s.first && s'.last == s.last && s'.executed == s.executed
    && Outstanding(s') == Outstanding(s) && s'.promises == s.promises && s'.issued == s.issued
  }

  lemma {:induction false} BooksFrame(s: State, s': State)
    requires IdsOk(s) && PromisesOk(s) && SameBooks(s, s')
    ensures IdsOk(s') && PromisesOk(s')
  {
    forall k | 0 <= k < |s'.promises| && s'.promises[k] == [] ensures Awaited(s', k) {
      assert Awaited(s, k);
    }
  }

  lemma {:induction false} StillAwaited(s: State, s': State, q: Queued, k: nat)
    requires Outstanding(s') == Outstanding(s) + [q] && (Awaited(s, k) || q.promise == k)
    ensures Awaited(s', k)
  {
    var o, o' := Outstanding(s), Outstanding(s');
    if Awaited(s, k) {
      var i :| 0 <= i < |o| && o[i].promise == k;
      assert o'[i] == o[i];
    } else {
      assert o'[|o|].promise == k;
    }
  }

  lemma {:induction false} AcceptedPromises(s: State)
    requires PromisesOk(s) && WouldAccept(s)
    ensures PromisesOk(Submit(s))
  {
    var s' := Submit(s);
    var o, o', q := Outstanding(s), Outstanding(s'), Queued(s.last + 1, |s.promises|);
    assert o' == o + [q];
    forall i | 0 <= i < |o'| ensures Owed(s', o'[i]) {
      assert i < |o| ==> o'[i] == o[i] && Owed(s, o[i]);
    }
    forall k | 0 <= k < |s'.promises| && s'.promises[k] == [] ensures Awaited(s', k) {
      assert k < |s.promises| ==> Awaited(s, k);
      StillAwaited(s, s', q, k);
    }
    forall k | 0 <= k < |s'.promises| ensures SetRight(s'.promises[k], s'.issued[k]) {
      assert k < |s.promises| ==> SetRight(s.promises[k], s.issued[k]);
    }
  }

  lemma {:induction false} RejectedPromises(s: State)
    requires PromisesOk(s) && !WouldAccept(s) && s.last <= MAX_ID
    ensures PromisesOk(Submit(s))
  {
    var s' := Submit(s);
    assert Outstanding(s') == Outstanding(s);
    forall i | 0 <= i < |Outstanding(s)| ensures Owed(s', Outstanding(s')[i]) {
      assert Owed(s, Outstanding(s)[i]);
    }
    forall k | 0 <= k < |s'.promises| && s'.promises[k] == [] ensures Awaited(s', k) {
      assert Awaited(s, k);
    }
    forall k | 0 <= k < |s'.promises| ensures SetRight(s'.promises[k], s'.issued[k]) {
      assert k < |s.promises| ==> SetRight(s.promises[k], s.issued[k]);
    }
  }

  lemma {:induction false} SubmitIds(s: State)
    requires IdsOk(s)
    ensures IdsOk(Submit(s))
  {
    var o, o' := Outstanding(s), Outstanding(Submit(s));
    assert o' == if WouldAccept(s) then o + [Queued(s.last + 1, |s.promises|)] else o;
  }

  lemma {:induction false} SubmitBooks(s: State)
    requires IdsOk(s) && PromisesOk(s)
    ensures IdsOk(Submit(s)) && PromisesOk(Submit(s)) && Grows(s.promises, Submit(s).promises)
  {
    SubmitIds(s);
    if WouldAccept(s) {
      AcceptedPromises(s);
    } else {
      RejectedPromises(s);
    }
  }

  lemma {:induction false} ExecuteIds(s: State, failed: bool)
    requires IdsOk(s) && s.consumer.Executing?
    ensures IdsOk(DoExecute(s, failed))
  {
    var s' := DoExecute(s, failed);
    assert Outstanding(s)[0].id == s.first + 1 + |s.executed|;
    forall i | 0 <= i < |Outstanding(s')| ensures Outstanding(s')[i].id == s'.first + 1 + |s'.executed| + i {
      assert Outstanding(s')[i] == Outstanding(s)[i + 1];
    }
  }

  /** Different outstanding events have different promises, because their ids differ. */
  lemma {:induction false} OtherPromises(s: State, i: nat)
    requires IdsOk(s) && PromisesOk(s) && 0 < i < |Outstanding(s)|
    ensures Outstanding(s)[i].promise != Outstanding(s)[0].promise
  {
    var a, b := Outstanding(s)[0], Outstanding(s)[i];
    assert Owed(s, a) && Owed(s, b);
  }

  lemma {:induction false} ExecutePromises(s: State, failed: bool)
    requires IdsOk(s) && PromisesOk(s) && s.consumer.Executing?
    ensures PromisesOk(DoExecute(s, failed)) && Grows(s.promises, DoExecute(s, failed).promises)
  {
    var s' := DoExecute(s, failed);
    var e, o := s.consumer.event, Outstanding(s);
    assert o[0] == e && Owed(s, o[0]);
    forall i | 0 <= i < |Outstanding(s')| ensures Owed(s', Outstanding(s')[i]) {
      assert Outstanding(s')[i] == o[i + 1] && Owed(s, o[i + 1]);
      OtherPromises(s, i + 1);
    }
    forall k | 0 <= k < |s'.promises| && s'.promises[k] == [] ensures Awaited(s', k) {
      assert k != e.promise && Awaited(s, k);
      var i :| 0 <= i < |o| && o[i].promise == k;
      assert i > 0 && Outstanding(s')[i - 1] == o[i];
    }
    forall k | 0 <= k < |s'.promises| ensures SetRight(s'.promises[k], s'.issued[k]) {
      assert SetRight(s.promises[k], s.issued[k]);
    }
  }

  lemma {:induction false} CheckBooks(s: State)
    requires s.consumer == Awake
    ensures SameBooks(s, DoCheck(s))
  {
    if s.events != [] {
      assert s.events == [s.events[0]] + s.events[1..];
    }
  }

  /** Promises that were set keep their value, and new ones may appear. */
  ghost predicate Grows(promises: seq<seq<EventResult>>, promises': seq<seq<EventResult>>) {
    && |promises| <= |promises'|
    && forall k :: 0 <= k < |promises| && promises[k] != [] ==> promises'[k] == promises[k]
  }

  lemma {:induction false} ProducerFrame(s: State, s': State, c: Producer)
    requires ProducerOk(s, c) && Grows(s.promises, s'.promises)
    ensures ProducerOk(s', c)
  {
  }

  lemma {:induction false} ProducersFrame(s: State, s': State)
    requires ProducersOk(s) && Grows(s.promises, s'.promises)
    requires s'.producers == s.producers && |s'.stopRequested| == |s.stopRequested|
    ensures ProducersOk(s')
  {
    forall p | 0 <= p < |s'.producers| ensures ProducerOk(s', s'.producers[p]) {
      ProducerFrame(s, s', s.producers[p]);
    }
  }

  lemma {:induction false} ProducerMoves(s: State, s': State, p: nat, c: Producer)
    requires ProducersOk(s) && Grows(s.promises, s'.promises) && p < |s.producers|
    requires s'.producers == s.producers[p := c] && |s'.stopRequested| == |s.stopRequested|
    requires ProducerOk(s', c)
    ensures ProducersOk(s')
  {
    forall q | 0 <= q < |s'.producers| ensures ProducerOk(s', s'.producers[q]) {
      if q != p {
        ProducerFrame(s, s', s.producers[q]);
      }
    }
  }

  /** The actions of producer p. */
  predicate ByProducer(step: Step) {
    step.Yield? || step.Exhausted? || step.Throw? || step.TestStop? || step.SubmitNext? || step.Collect? || step.Settle?
  }

  lemma {:induction false} ProducerStepOk(s: State, step: Step)
    requires ProducersOk(s) && PromisesOk(s) && Enabled(s, step) && ByProducer(step)
    ensures ProducersOk(Do(s, step))
  {
    var s' := Do(s, step);
    var c := s.producers[step.p];
    assert ProducerOk(s, c);
    if step.Collect? {
      var h := c.handles[|c.events|];
      assert SetRight(s.promises[h], s.issued[h]);
      CombineIsWorst(c.status, c.outcome, c.events, s.promises[h][0]);
    }
    ProducerMoves(s, s', step.p, s'.producers[step.p]);
  }

  lemma {:induction false} BooksUntouched(s: State, step: Step)
    requires Enabled(s, step) && !step.Schedule? && !step.SubmitNext? && !step.Execute?
    ensures SameBooks(s, Do(s, step))
  {
    if step.Check? {
      CheckBooks(s);
    }
  }

  lemma {:induction false} BooksKept(s: State, step: Step)
    requires IdsOk(s) && PromisesOk(s) && Enabled(s, step)
    ensures IdsOk(Do(s, step)) && PromisesOk(Do(s, step)) && Grows(s.promises, Do(s, step).promises)
  {
    if step.Schedule? || step.SubmitNext? {
      SubmitBooks(s);
      BooksFrame(Submit(s), Do(s, step));
    } else if step.Execute? {
      ExecuteIds(s, step.failed);
      ExecutePromises(s, step.failed);
    } else {
      BooksUntouched(s, step);
      BooksFrame(s, Do(s, step));
    }
  }

  lemma {:induction false} ProducersKept(s: State, step: Step)
    requires IdsOk(s) && PromisesOk(s) && ProducersOk(s) && Enabled(s, step)
    ensures ProducersOk(Do(s, step))
  {
    var s' := Do(s, step);
    BooksKept(s, step);
    if ByProducer(step) {
      ProducerStepOk(s, step);
    } else if step.AddProducer? && s.accepting {
      forall p | 0 <= p < |s'.producers| ensures ProducerOk(s', s'.producers[p]) {
        if p < |s.producers| {
          ProducerFrame(s, s', s.producers[p]);
        }
      }
    } else {
      ProducersFrame(s, s');
    }
  }

  lemma {:induction false} ShutdownKeptByProducer(s: State, step: Step)
    requires ShutdownOk(s) && Enabled(s, step) && ByProducer(step)
    ensures ShutdownOk(Do(s, step))
  {
    var s' := Do(s, step);
    assert forall p :: 0 <= p < |s.producers| && p != step.p ==> s'.producers[p] == s.producers[p];
    assert !s.producers[step.p].Done?;
  }

  lemma {:induction false} ShutdownKept(s: State, step: Step)
    requires ShutdownOk(s) && |s.stopRequested| == |s.producers| && Enabled(s, step)
    ensures ShutdownOk(Do(s, step))
  {
    if ByProducer(step) {
      ShutdownKeptByProducer(s, step);
    }
  }

  lemma {:induction false} StepInv(s: State, step: Step)
    requires Inv(s) && Enabled(s, step)
    ensures Inv(Do(s, step))
  {
    BooksKept(s, step);
    ProducersKept(s, step);
    ShutdownKept(s, step);
  }

  lemma {:induction false} RunInv(run: seq<State>, i: nat)
    requires IsRun(run) && i < |run|
    ensures Inv(run[i])
  {
    if i > 0 {
      RunInv(run, i - 1);
      assert Linked(run, i - 1);
      var step :| Enabled(run[i - 1], step) && run[i] == Do(run[i - 1], step);
      StepInv(run[i - 1], step);
    }
  }

  // ---------------------------------------------------------------- theorems about ids and results

  /**
   In every run, executed ids, then the one in hand, then the queued ids are the contiguous range from the
   initial id plus one to the last issued one, which never passes 2^64 - 1.
   */
  lemma {:induction false} IdsAreContiguous(run: seq<State>, i: nat, n: nat)
    requires IsRun(run) && i < |run|
    requires n < |run[i].executed| + |Outstanding(run[i])|
    ensures var s := run[i];
            && (if n < |s.executed| then s.executed[n] else Outstanding(s)[n - |s.executed|].id) == s.first + 1 + n
            && |s.executed| + |Outstanding(s)| == s.last - s.first && s.last <= MAX_ID
  {
    RunInv(run, i);
  }

  /**
   Every submission's promise is set exactly once, or not yet while its event is queued or in hand. The value
   carries the id the submission returned, which is 0 exactly for rejections.
   */
  lemma {:induction false} OneResultPerSubmission(run: seq<State>, i: nat, k: nat)
    requires IsRun(run) && i < |run| && k < |run[i].promises|
    ensures |run[i].promises[k]| <= 1 && k < |run[i].issued|
    ensures run[i].promises[k] == [] <==> Awaited(run[i], k)
    ensures run[i].promises[k] != [] ==>
              var r := run[i].promises[k][0];
              && r.id == run[i].issued[k]
              && (r.id == 0 <==> r.status == RejectedStopped || r.status == RejectedIdExhausted)
  {
    RunInv(run, i);
    assert SetRight(run[i].promises[k], run[i].issued[k]);
  }

  /** A settled sequence lists the results of its events in order, and its status is the worst of all outcomes. */
  lemma {:induction false} SequenceStatusIsTheWorst(run: seq<State>, i: nat, p: nat)
    requires IsRun(run) && i < |run| && p < |run[i].producers| && run[i].producers[p].Done?
    ensures var c := run[i].producers[p];
            && |c.events| == |c.handles|
            && (forall j :: 0 <= j < |c.events| ==>
                  c.handles[j] < |run[i].promises| && run[i].promises[c.handles[j]] == [c.events[j]])
            && IsWorst(c.status, c.outcome, c.events)
            && (c.status == Failed <==> c.outcome == Failed || exists e :: e in c.events && e.status == ActionFailed)
            && (c.status == Completed <==> c.outcome == Completed && forall e :: e in c.events ==> e.status == Executed)
  {
    RunInv(run, i);
    var c := run[i].producers[p];
    assert ProducerOk(run[i], c);
    WorstMeans(c.status, c.outcome, c.events);
  }

  // ---------------------------------------------------------------- shutdown

  function ProducerRank(c: Producer): nat {
    match c
    case Generating(h) => |h| + 5
    case Yielded(h) => |h| + 4
    case Submitting(h) => |h| + 3
    case Collecting(h, _, _, e) => (if |e| <= |h| then |h| - |e| else 0) + 1
    case Done(_, _, _, _) => 0
  }

  function RankSum(ps: seq<Producer>): nat {
    if ps == [] then 0 else ProducerRank(ps[0]) + RankSum(ps[1..])
  }

  function ConsumerRank(c: Consumer): nat {
    match c case Awake => 1 case Asleep => 2 case Executing(_) => 2 case Exited => 0
  }

  function ShutdownRank(s: State): nat {
    var n := |s.producers|;
    match s.shutdown
    case NotCalled => 2 * n + 7
    case Closed => 2 * n + 6
    case Requesting(k) => (if k <= n then n - k else 0) + n + 5
    case Joining(k) => (if k <= n then n - k else 0) + 4
    case Joined => 3
    case JoiningConsumer => 2
    case Complete => 0
  }

  /** What is left to do once admission is closed. */
  function Remaining(s: State): nat {
    3 * |s.events| + ConsumerRank(s.consumer) + RankSum(s.producers) + s.inFlight + ShutdownRank(s)
  }

  lemma {:induction false} UpdateRank(ps: seq<Producer>, p: nat, c: Producer)
    requires p < |ps|
    ensures RankSum(ps[p := c]) + ProducerRank(ps[p]) == RankSum(ps) + ProducerRank(c)
  {
    if p == 0 {
      assert ps[p := c][1..] == ps[1..];
    } else {
      UpdateRank(ps[1..], p - 1, c);
      assert ps[p := c][1..] == ps[1..][p - 1 := c];
    }
  }

  /**
   Once admission is closed, a submission is rejected and a new sequence is refused; nothing else comes from
   outside.
   */
  predicate Productive(step: Step) {
    !step.Schedule? && !step.AddProducer?
  }

  /**
   After shutdown has closed admission, every step of the consumer, of a producer or of shutdown makes
   `Remaining` smaller, and calls from outside leave it as it is.
   */
  lemma {:induction false} ShutdownMakesProgress(s: State, step: Step)
    requires Inv(s) && !s.accepting && Enabled(s, step)
    ensures !Do(s, step).accepting
    ensures Remaining(Do(s, step)) <= Remaining(s)
    ensures Productive(step) ==> Remaining(Do(s, step)) < Remaining(s)
  {
    if ByProducer(step) {
      assert ProducerOk(s, s.producers[step.p]);
      ProducerMakesProgress(s, step);
    } else {
      OthersMakeProgress(s, step);
    }
  }

  lemma {:induction false} ProducerMakesProgress(s: State, step: Step)
    requires !s.accepting && Enabled(s, step) && ByProducer(step) && ProducerOk(s, s.producers[step.p])
    ensures !Do(s, step).accepting && Remaining(Do(s, step)) < Remaining(s)
  {
    ProducerAdvances(s, step);
    UpdateRank(s.producers, step.p, Do(s, step).producers[step.p]);
  }

  lemma {:induction false} ProducerAdvances(s: State, step: Step)
    requires !s.accepting && Enabled(s, step) && ByProducer(step) && ProducerOk(s, s.producers[step.p])
    ensures var s' := Do(s, step);
            && |s'.producers| == |s.producers| && s'.producers == s.producers[step.p := s'.producers[step.p]]
            && ProducerRank(s'.producers[step.p]) < ProducerRank(s.producers[step.p])
            && s'.accepting == s.accepting && s'.events == s.events && s'.consumer == s.consumer
            && s'.inFlight == s.inFlight && s'.shutdown == s.shutdown
  {
  }

  lemma {:induction false} OthersMakeProgress(s: State, step: Step)
    requires ShutdownOk(s) && |s.stopRequested| == |s.producers| && !s.accepting
    requires Enabled(s, step) && !ByProducer(step)
    ensures !Do(s, step).accepting && Remaining(Do(s, step)) <= Remaining(s)
    ensures Productive(step) ==> Remaining(Do(s, step)) < Remaining(s)
  {
  }

  /** The consumer can move whenever it has not exited, once admission is closed. */
  lemma {:induction false} ConsumerNeverStuck(s: State) returns (step: Step)
    requires Inv(s) && !s.accepting && s.consumer != Exited
    ensures Enabled(s, step) && Productive(step)
  {
    match s.consumer {
      case Awake => step := Check;
      case Asleep => step := if s.inFlight > 0 then NotifyOne else NotifyClosed;
      case Executing(_) => step := Execute(false);
    }
  }

  lemma {:induction false} ProducerNeverStuck(s: State, p: nat) returns (step: Step)
    requires Inv(s) && !s.accepting && p < |s.producers| && !s.producers[p].Done?
    ensures Enabled(s, step) && Productive(step)
  {
    var c := s.producers[p];
    assert ProducerOk(s, c);
    match c {
      case Generating(_) => step := Yield(p);
      case Yielded(_) => step := TestStop(p);
      case Submitting(_) => step := SubmitNext(p);
      case Collecting(handles, _, _, events) =>
        if |events| == |handles| {
          step := Settle(p);
        } else if s.promises[handles[|events|]] != [] {
          step := Collect(p);
        } else {
          assert Awaited(s, handles[|events|]);
          step := ConsumerNeverStuck(s);
        }
    }
  }

  /** Until shutdown is complete, some step of the consumer, of a producer or of shutdown is possible. */
  lemma {:induction false} ShutdownNeverStuck(s: State) returns (step: Step)
    requires Inv(s) && !s.accepting && s.shutdown != Complete
    ensures Enabled(s, step) && Productive(step)
  {
    match s.shutdown {
      case Closed => step := NotifyClosed;
      case Requesting(_) => step := RequestStop;
      case Joining(k) =>
        if k < |s.producers| && !s.producers[k].Done? {
          step := ProducerNeverStuck(s, k);
        } else {
          step := JoinProducer;
        }
      case Joined => step := NotifyJoined;
      case JoiningConsumer =>
        if s.consumer == Exited {
          step := JoinConsumer;
        } else {
          step := ConsumerNeverStuck(s);
        }
    }
  }

  /** A run and the steps it took. */
  ghost predicate IsRunBy(run: seq<State>, steps: seq<Step>) {
    |run| == |steps| + 1 && Init(run[0]) && forall k :: 0 <= k < |steps| ==> TakenAt(run, steps, k)
  }

  ghost predicate TakenAt(run: seq<State>, steps: seq<Step>, k: int)
    requires 0 <= k < |steps| == |run| - 1
  {
    Enabled(run[k], steps[k]) && run[k + 1] == Do(run[k], steps[k])
  }

  lemma {:induction false} RunByIsRun(run: seq<State>, steps: seq<Step>)
    requires IsRunBy(run, steps)
    ensures IsRun(run)
  {
    forall i: nat | i + 1 < |run| ensures Linked(run, i) {
      assert TakenAt(run, steps, i);
    }
  }

  /** The productive steps of any run after shutdown closed admission are at most what remained then. */
  lemma {:induction false} ShutdownIsBounded(run: seq<State>, steps: seq<Step>, i: nat, j: nat)
    requires IsRunBy(run, steps) && i <= j < |run| && !run[i].accepting
    ensures !run[j].accepting && Count(steps, i, j, Productive) + Remaining(run[j]) <= Remaining(run[i])
  {
    if i < j {
      ShutdownIsBounded(run, steps, i, j - 1);
      AdvanceAt(run, steps, j - 1);
    }
  }

  lemma {:induction false} AdvanceAt(run: seq<State>, steps: seq<Step>, k: nat)
    requires IsRunBy(run, steps) && k < |steps| && !run[k].accepting
    ensures !run[k + 1].accepting
    ensures Remaining(run[k + 1]) + (if Productive(steps[k]) then 1 else 0) <= Remaining(run[k])
  {
    RunByIsRun(run, steps);
    RunInv(run, k);
    assert TakenAt(run, steps, k);
    ShutdownMakesProgress(run[k], steps[k]);
  }

  /**
   So shutdown ends: a run after closing in which no productive step is left has completed it, after no more
   productive steps than remained at closing.
   */
  lemma {:induction false} ShutdownEnds(run: seq<State>, steps: seq<Step>, i: nat, j: nat)
    requires IsRunBy(run, steps) && i <= j < |run| && !run[i].accepting
    requires forall step :: Enabled(run[j], step) ==> !Productive(step)
    ensures run[j].shutdown == Complete && Count(steps, i, j, Productive) <= Remaining(run[i])
  {
    ShutdownIsBounded(run, steps, i, j);
    RunByIsRun(run, steps);
    RunInv(run, j);
    if run[j].shutdown != Complete {
      var step := ShutdownNeverStuck(run[j]);
    }
  }

  /** When shutdown is complete the queue is empty, every promise is set and every producer has settled. */
  lemma {:induction false} ShutdownSettlesEverything(run: seq<State>, i: nat)
    requires IsRun(run) && i < |run| && run[i].shutdown == Complete
    ensures run[i].events == [] && run[i].consumer == Exited
    ensures forall k :: 0 <= k < |run[i].promises| ==> |run[i].promises[k]| == 1
    ensures forall p :: 0 <= p < |run[i].producers| ==> run[i].producers[p].Done?
    ensures |run[i].executed| == run[i].last - run[i].first
  {
    RunInv(run, i);
    var s := run[i];
    assert Outstanding(s) == [] && forall k: nat :: !Awaited(s, k);
    forall k | 0 <= k < |s.promises| ensures |s.promises[k]| == 1 {
      assert SetRight(s.promises[k], s.issued[k]);
    }
  }
}
