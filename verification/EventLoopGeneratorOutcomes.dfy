/** What the results of the generator loop mean: which action, submission or generator each of them reports on. */
module EventLoopGeneratorOutcomes {
  import opened Common
  import opened EventLoopGenerator
  import opened EventLoopGeneratorSafety

  // ---------------------------------------------------------------- actions

  lemma {:induction false} ValueStays(run: seq<State>, steps: seq<Step>, i: nat, j: nat, k: nat)
    requires IsRunBy(run, steps) && i <= j < |run| && k < |run[i].promises| && run[i].promises[k] != []
    ensures k < |run[j].promises| && run[j].promises[k] == run[i].promises[k]
  {
    if i < j {
      ValueStays(run, steps, i, j - 1, k);
      RunByIsRun(run, steps);
      RunInv(run, j - 1);
      assert TakenAt(run, steps, j - 1);
      BooksKept(run[j - 1], steps[j - 1]);
    }
  }

  lemma {:induction false} ActionSection(s: State, failed: bool)
    requires Inv(s) && Enabled(s, Execute(failed))
    ensures var e, s' := s.consumer.event, Do(s, Execute(failed));
            && e.promise < |s.promises| == |s'.promises| && s.promises[e.promise] == []
            && s'.promises[e.promise] == [EventResult(e.id, if failed then ActionFailed else Executed)]
            && s'.executed == s.executed + [e.id]
  {
    assert Outstanding(s)[0] == s.consumer.event;
    assert Owed(s, Outstanding(s)[0]);
  }

  /**
   When the action of an event ends, the event's future gets its only result, with the event's id: failed exactly
   when the action threw, executed when it returned. It keeps that result to the end of the run.
   */
  lemma {:induction false} ActionDecidesResult(run: seq<State>, steps: seq<Step>, k: nat, j: nat, failed: bool)
    requires IsRunBy(run, steps) && k < |steps| && k < j < |run| && steps[k] == Execute(failed)
    requires run[k].consumer.Executing?
    ensures var e := run[k].consumer.event;
            && e.promise < |run[k].promises| && run[k].promises[e.promise] == []
            && e.promise < |run[j].promises|
            && run[j].promises[e.promise] == [EventResult(e.id, if failed then ActionFailed else Executed)]
  {
    RunByIsRun(run, steps);
    RunInv(run, k);
    assert TakenAt(run, steps, k);
    ActionSection(run[k], failed);
    ValueStays(run, steps, k + 1, j, run[k].consumer.event.promise);
  }

  // ---------------------------------------------------------------- submissions

  predicate Submits(step: Step) {
    step.Schedule? || step.SubmitNext?
  }

  lemma {:induction false} SubmissionSection(s: State, step: Step)
    requires Enabled(s, step) && Submits(step)
    ensures var s', n := Do(s, step), |s.promises|;
            && |s'.promises| == n + 1 && s'.promises[..n] == s.promises
            && |s'.issued| == |s.issued| + 1 && s'.issued[..|s.issued|] == s.issued
            && (!s.accepting ==>
                  s'.promises[n] == [EventResult(0, RejectedStopped)] && s'.issued[|s.issued|] == 0
                  && s'.events == s.events && s'.last == s.last)
            && (s.accepting && s.last == 0xFFFF_FFFF_FFFF_FFFF ==>
                  s'.promises[n] == [EventResult(0, RejectedIdExhausted)] && s'.issued[|s.issued|] == 0
                  && s'.events == s.events && s'.last == s.last)
            && (s.accepting && s.last != 0xFFFF_FFFF_FFFF_FFFF ==>
                  s'.promises[n] == [] && s'.issued[|s.issued|] == s.last + 1
                  && s'.events == s.events + [Queued(s.last + 1, n)] && s'.last == s.last + 1)
    ensures step.SubmitNext? ==>
              && step.p < |Do(s, step).producers|
              && Do(s, step).producers[step.p].handles == s.producers[step.p].handles + [|s.promises|]
  {
  }

  /**
   A submission is answered at once when the loop is closed, or when all ids are used up, each with its own status
   and id 0; otherwise its event gets the next id and is queued last, and its future waits. A producer keeps the
   futures of what it submits in order.
   */
  lemma {:induction false} SubmissionIsAnswered(run: seq<State>, steps: seq<Step>, k: nat, j: nat)
    requires IsRunBy(run, steps) && k < |steps| && k < j < |run| && Submits(steps[k])
    ensures var s, n := run[k], |run[k].promises|;
            && n < |run[k + 1].promises| && n < |run[j].promises| && n < |run[k + 1].issued|
            && (!s.accepting ==>
                  run[j].promises[n] == [EventResult(0, RejectedStopped)] && run[k + 1].issued[n] == 0)
            && (s.accepting && s.last == 0xFFFF_FFFF_FFFF_FFFF ==>
                  run[j].promises[n] == [EventResult(0, RejectedIdExhausted)] && run[k + 1].issued[n] == 0)
            && (s.accepting && s.last != 0xFFFF_FFFF_FFFF_FFFF ==>
                  && run[k + 1].promises[n] == [] && run[k + 1].issued[n] == s.last + 1
                  && run[k + 1].events == s.events + [Queued(s.last + 1, n)] && run[k + 1].last == s.last + 1)
  {
    RunByIsRun(run, steps);
    RunInv(run, k);
    assert TakenAt(run, steps, k);
    SubmissionSection(run[k], steps[k]);
    PromisesStay(run, steps, k + 1, j);
    if run[k + 1].promises[|run[k].promises|] != [] {
      ValueStays(run, steps, k + 1, j, |run[k].promises|);
    }
  }

  lemma {:induction false} PromisesStay(run: seq<State>, steps: seq<Step>, i: nat, j: nat)
    requires IsRunBy(run, steps) && i <= j < |run|
    ensures |run[i].promises| <= |run[j].promises|
  {
    if i < j {
      PromisesStay(run, steps, i, j - 1);
      RunByIsRun(run, steps);
      RunInv(run, j - 1);
      assert TakenAt(run, steps, j - 1);
      BooksKept(run[j - 1], steps[j - 1]);
    }
  }

  // ---------------------------------------------------------------- producers

  predicate Ended(c: Producer) {
    c.Collecting? || c.Done?
  }

  /** The step with which producer p stops generating, and what that makes of its sequence. */
  function EndsBy(s: State, step: Step, p: nat): Option<SequenceStatus> {
    if step == Exhausted(p) then Some(Completed)
    else if step == Throw(p) then Some(Failed)
    else if step == TestStop(p) && p < |s.stopRequested| && s.stopRequested[p] then Some(Cancelled)
    else if step == SubmitNext(p) && (!s.accepting || s.last == 0xFFFF_FFFF_FFFF_FFFF) then Some(Cancelled)
    else None
  }

  lemma {:induction false} EndDecides(s: State, step: Step, p: nat)
    requires Enabled(s, step) && s.last <= MAX_ID && EndsBy(s, step, p).Some?
    ensures p < |Do(s, step).producers| && Ended(Do(s, step).producers[p])
    ensures Do(s, step).producers[p].outcome == EndsBy(s, step, p).value
  {
  }

  lemma {:induction false} EndedStays(s: State, step: Step, p: nat)
    requires Enabled(s, step) && p < |s.producers| && Ended(s.producers[p])
    ensures p < |Do(s, step).producers| && Ended(Do(s, step).producers[p])
    ensures Do(s, step).producers[p].outcome == s.producers[p].outcome
  {
  }

  lemma {:induction false} OnlyEndsEnd(s: State, step: Step, p: nat)
    requires Enabled(s, step) && s.last <= MAX_ID && p < |Do(s, step).producers| && Ended(Do(s, step).producers[p])
    requires p < |s.producers| ==> !Ended(s.producers[p])
    ensures EndsBy(s, step, p).Some?
  {
  }

  /**
   The outcome of a producer is that of the step with which it stopped generating: completed when its generator was
   exhausted, failed when it threw, cancelled when it met a stop request or a submission of it was rejected.
   */
  lemma {:induction false} EndDecidesOutcome(run: seq<State>, steps: seq<Step>, k: nat, j: nat, p: nat)
    requires IsRunBy(run, steps) && k < |steps| && k < j < |run| && EndsBy(run[k], steps[k], p).Some?
    ensures p < |run[j].producers| && Ended(run[j].producers[p])
    ensures run[j].producers[p].outcome == EndsBy(run[k], steps[k], p).value
  {
    assert TakenAt(run, steps, j - 1);
    if j == k + 1 {
      RunByIsRun(run, steps);
      RunInv(run, k);
      EndDecides(run[k], steps[k], p);
    } else {
      EndDecidesOutcome(run, steps, k, j - 1, p);
      EndedStays(run[j - 1], steps[j - 1], p);
    }
  }

  /** And a producer that no longer generates has made such a step. */
  lemma {:induction false} EndedHasEnded(run: seq<State>, steps: seq<Step>, j: nat, p: nat) returns (k: nat)
    requires IsRunBy(run, steps) && j < |run| && p < |run[j].producers| && Ended(run[j].producers[p])
    ensures k < j && EndsBy(run[k], steps[k], p) == Some(run[j].producers[p].outcome)
  {
    assert j > 0 ==> TakenAt(run, steps, j - 1);
    if p < |run[j - 1].producers| && Ended(run[j - 1].producers[p]) {
      k := EndedHasEnded(run, steps, j - 1, p);
      EndedStays(run[j - 1], steps[j - 1], p);
    } else {
      k := j - 1;
      EndsThere(run, steps, k, p);
    }
  }

  lemma {:induction false} EndsThere(run: seq<State>, steps: seq<Step>, k: nat, p: nat)
    requires IsRunBy(run, steps) && k < |steps| && p < |run[k + 1].producers| && Ended(run[k + 1].producers[p])
    requires p < |run[k].producers| ==> !Ended(run[k].producers[p])
    ensures EndsBy(run[k], steps[k], p) == Some(run[k + 1].producers[p].outcome)
  {
    assert TakenAt(run, steps, k);
    RunByIsRun(run, steps);
    RunInv(run, k);
    OnlyEndsEnd(run[k], steps[k], p);
    EndDecides(run[k], steps[k], p);
  }

  // ---------------------------------------------------------------- stop requests

  /** Shutdown has asked producer p to stop. */
  predicate Asked(s: State, p: nat) {
    match s.shutdown
    case Requesting(k) => p < k
    case Joining(_) => true
    case Joined => true
    case JoiningConsumer => true
    case Complete => true
    case _ => false
  }

  ghost predicate RequestsOk(s: State) {
    && |s.stopRequested| == |s.producers|
    && forall p :: 0 <= p < |s.stopRequested| ==> (s.stopRequested[p] <==> Asked(s, p))
  }

  lemma {:induction false} StepRequests(s: State, step: Step)
    requires RequestsOk(s) && ShutdownOk(s) && Enabled(s, step)
    ensures RequestsOk(Do(s, step))
  {
  }

  /** A producer is asked to stop by shutdown and by nothing else, one after the other, and none is left out. */
  lemma {:induction false} ShutdownAsksEveryProducer(run: seq<State>, steps: seq<Step>, i: nat)
    requires IsRunBy(run, steps) && i < |run|
    ensures RequestsOk(run[i])
  {
    if i > 0 {
      ShutdownAsksEveryProducer(run, steps, i - 1);
      RunByIsRun(run, steps);
      RunInv(run, i - 1);
      assert TakenAt(run, steps, i - 1);
      StepRequests(run[i - 1], steps[i - 1]);
    }
  }
}
