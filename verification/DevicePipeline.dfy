/**
 The whole device pipeline: the view, the command queue, the storage worker and the results on their way
 back, under every interleaving of user operations, the two critical sections of a pump and worker steps.
 */
module DevicePipeline {
  import opened Common
  import opened DeviceItems
  import opened DeviceMonitor
  import opened DeviceReplica
  import opened DeviceSnapshots

  type Batch = seq<DeviceCommand>

  datatype StorageResult = StorageResult(success: bool, devices: seq<Device>)

  /** What the worker holds between its critical sections. */
  datatype Hand = Idle | Taken(batch: Batch) | Executed(result: StorageResult)

  datatype State = State(
    view: Monitor,
    queue: seq<Batch>,
    hand: Hand,
    results: seq<StorageResult>,
    store: Store,
    stopRequested: bool,
    exited: bool,
    failed: bool,                    // PumpStorage has returned an error
    submitted: seq<Batch>,           // every batch ever submitted, in order
    polled: seq<StorageResult>)      // every result ever polled, in order

  // ---------------------------------------------------------------- operations

  /** Reading the rows back checks each of them again. */
  ghost function ExecuteBatch(st: Store, batch: Batch, valid: Device -> bool): Outcome {
    var out := PerformAll(st, batch, valid);
    if out.error == None && exists id :: id in out.store && !valid(out.store[id])
    then Outcome(out.store, Some(InvalidRow))
    else out
  }

  /** A result reports an execution: its failure, or the id-sorted contents of the store it left. */
  ghost predicate Reports(r: StorageResult, out: Outcome) {
    && (r.success <==> out.error == None)
    && (r.success ==> IsSnapshot(r.devices, out.store))
    && (!r.success ==> r.devices == [])
  }

  /** The loop of `PumpStorage` over polled results: each success replaces the view, the first failure ends it. */
  function Replace(view: Monitor, results: seq<StorageResult>): (Monitor, bool)
    decreases results
  {
    if results == [] then (view, false)
    else if !results[0].success then (view, true)
    else Replace(view.(devices := results[0].devices, error := None), results[1..])
  }

  function SubmitBatch(s: State, batch: Batch): State {
    if batch == [] then s else s.(queue := s.queue + [batch], submitted := s.submitted + [batch])
  }

  /** The first critical section of a pump. */
  function SubmitCommands(s: State): State {
    SubmitBatch(s.(view := s.view.(commands := [])), s.view.commands)
  }

  /** The second one, and the loop over what it polled. */
  function PollAndShow(s: State): State {
    var (view, failed) := Replace(s.view, s.results);
    s.(view := view, failed := s.failed || failed, stopRequested := s.stopRequested || failed,
       polled := s.polled + s.results, results := [])
  }

  datatype Step =
    | User(op: UserOp)
    | Submit
    | Poll
    | Take
    | Execute(result: StorageResult)
    | Push
    | Exit

  ghost predicate Next(s: State, step: Step, s': State, valid: Device -> bool) {
    match step
    case User(op) => s' == s.(view := Apply(s.view, op))
    case Submit => s' == SubmitCommands(s)
    case Poll => s' == PollAndShow(s)
    case Take =>
      && !s.exited && s.hand == Idle && s.queue != []
      && s' == s.(hand := Taken(s.queue[0]), queue := s.queue[1..])
    case Execute(result) =>
      && s.hand.Taken?
      && Reports(result, ExecuteBatch(s.store, s.hand.batch, valid))
      && s' == s.(hand := Executed(result), store := ExecuteBatch(s.store, s.hand.batch, valid).store)
    case Push => s.hand.Executed? && s' == s.(hand := Idle, results := s.results + [s.hand.result])
    case Exit => s.hand == Idle && s.queue == [] && s.stopRequested && s' == s.(exited := true)
  }

  /** A constructed service whose Initialize succeeded: the constructor has submitted one Refresh. */
  ghost predicate Init(s: State) {
    && s.view.commands == [] && s.hand == Idle && s.results == [] && s.polled == []
    && s.queue == [[DeviceCommand(Refresh, "", None)]] && s.submitted == s.queue
    && !s.stopRequested && !s.exited && !s.failed
  }

  ghost predicate Steps(s: State, s': State, valid: Device -> bool) {
    exists step :: Next(s, step, s', valid)
  }

  ghost predicate Linked(run: seq<State>, i: nat, valid: Device -> bool)
    requires i + 1 < |run|
  {
    Steps(run[i], run[i + 1], valid)
  }

  ghost predicate IsRun(run: seq<State>, valid: Device -> bool) {
    run != [] && Init(run[0]) && forall i: nat :: i + 1 < |run| ==> Linked(run, i, valid)
  }

  // ---------------------------------------------------------------- sequential reference

  /** The store after executing batches one after the other. */
  ghost function StoreAfter(st: Store, batches: seq<Batch>, valid: Device -> bool): Store {
    if batches == [] then st
    else ExecuteBatch(StoreAfter(st, batches[..|batches| - 1], valid), batches[|batches| - 1], valid).store
  }

  /** Result k is what executing batch k after the batches before it reports. */
  ghost predicate ReportsInTurn(st: Store, batches: seq<Batch>, k: nat, r: StorageResult, valid: Device -> bool)
    requires k < |batches|
  {
    Reports(r, ExecuteBatch(StoreAfter(st, batches[..k], valid), batches[k], valid))
  }

  // ---------------------------------------------------------------- invariant

  function HandResults(h: Hand): seq<StorageResult> {
    if h.Executed? then [h.result] else []
  }

  function HandBatches(h: Hand): seq<Batch> {
    if h.Taken? then [h.batch] else []
  }

  /** Every result there is, oldest first. */
  function Done(s: State): seq<StorageResult> {
    s.polled + s.results + HandResults(s.hand)
  }

  ghost predicate InOrder(s: State, st: Store, valid: Device -> bool) {
    && |Done(s)| <= |s.submitted|
    && s.submitted[|Done(s)|..] == HandBatches(s.hand) + s.queue
    && s.store == StoreAfter(st, s.submitted[..|Done(s)|], valid)
    && (forall k :: 0 <= k < |Done(s)| ==> ReportsInTurn(st, s.submitted, k, Done(s)[k], valid))
  }

  /** Nothing is on its way in either direction. */
  predicate Quiet(s: State) {
    s.view.commands == [] && s.queue == [] && s.hand == Idle && s.results == []
  }

  ghost predicate Fails(results: seq<StorageResult>) {
    exists k :: 0 <= k < |results| && !results[k].success
  }

  ghost predicate ViewOk(s: State) {
    && (s.failed <==> Fails(s.polled))
    && (Quiet(s) && !s.failed ==> s.polled != [] && s.view.devices == s.polled[|s.polled| - 1].devices)
  }

  // ---------------------------------------------------------------- preservation

  lemma {:induction false} ReplaceShowsLast(view: Monitor, results: seq<StorageResult>)
    ensures var (view', failed) := Replace(view, results);
            && (failed <==> Fails(results))
            && (!failed && results != [] ==> view'.devices == results[|results| - 1].devices)
            && (results == [] ==> view' == view) && view'.commands == view.commands
    decreases results
  {
    if results != [] && results[0].success {
      ReplaceShowsLast(view.(devices := results[0].devices, error := None), results[1..]);
      FailuresJoin(results[..1], results[1..]);
      assert results == results[..1] + results[1..];
    }
  }

  lemma {:induction false} PollView(s: State)
    requires ViewOk(s)
    ensures ViewOk(PollAndShow(s))
  {
    var s' := PollAndShow(s);
    ReplaceShowsLast(s.view, s.results);
    FailuresJoin(s.polled, s.results);
    assert s.results == [] ==> s'.polled == s.polled;
  }

  lemma {:induction false} FailuresJoin(a: seq<StorageResult>, b: seq<StorageResult>)
    ensures Fails(a + b) <==> Fails(a) || Fails(b)
  {
    if k :| 0 <= k < |a| && !a[k].success {
      assert !(a + b)[k].success;
    }
    if k :| 0 <= k < |b| && !b[k].success {
      assert !(a + b)[|a| + k].success;
    }
    if k :| 0 <= k < |a + b| && !(a + b)[k].success {
      assert k < |a| ==> !a[k].success;
      assert k >= |a| ==> !b[k - |a|].success;
    }
  }

  lemma {:induction false} UserView(s: State, op: UserOp)
    requires ViewOk(s)
    ensures ViewOk(s.(view := Apply(s.view, op)))
  {
    ApplyHasEffect(s.view, op);
  }

  lemma {:induction false} StepView(s: State, step: Step, s': State, valid: Device -> bool)
    requires ViewOk(s) && Next(s, step, s', valid)
    ensures ViewOk(s')
  {
    match step {
      case User(op) => UserView(s, op);
      case Poll => PollView(s);
      case _ =>
    }
  }

  lemma {:induction false} SubmitOrder(s: State, st: Store, valid: Device -> bool)
    requires InOrder(s, st, valid)
    ensures InOrder(SubmitCommands(s), st, valid)
  {
    var s' := SubmitCommands(s);
    var n := |Done(s)|;
    assert Done(s') == Done(s);
    assert s'.submitted[..n] == s.submitted[..n];
    assert s'.submitted[n..] == s.submitted[n..] + if s.view.commands == [] then [] else [s.view.commands];
    forall k | 0 <= k < n ensures ReportsInTurn(st, s'.submitted, k, Done(s')[k], valid) {
      assert ReportsInTurn(st, s.submitted, k, Done(s)[k], valid);
      assert s'.submitted[..k] == s.submitted[..k];
    }
  }

  /** Executing one more batch. */
  lemma {:induction false} StoreAfterNext(st: Store, batches: seq<Batch>, n: nat, valid: Device -> bool)
    requires n < |batches|
    ensures StoreAfter(st, batches[..n + 1], valid)
         == ExecuteBatch(StoreAfter(st, batches[..n], valid), batches[n], valid).store
  {
    assert batches[..n + 1][..n] == batches[..n];
  }

  /** A result more, for the next batch in turn. */
  lemma {:induction false} ReportsNext(
    done: seq<StorageResult>, result: StorageResult, st: Store, batches: seq<Batch>, valid: Device -> bool)
    requires |done| < |batches| && ReportsInTurn(st, batches, |done|, result, valid)
    requires forall k :: 0 <= k < |done| ==> ReportsInTurn(st, batches, k, done[k], valid)
    ensures forall k :: 0 <= k < |done + [result]| ==> ReportsInTurn(st, batches, k, (done + [result])[k], valid)
  {
  }

  lemma {:induction false} ExecuteOrder(s: State, s': State, result: StorageResult, st: Store, valid: Device -> bool)
    requires InOrder(s, st, valid) && Next(s, Execute(result), s', valid)
    ensures InOrder(s', st, valid)
  {
    var n := |Done(s)|;
    assert Done(s') == Done(s) + [result];
    assert s.submitted[n] == s.submitted[n..][0] == s.hand.batch;
    assert s'.submitted[n + 1..] == s.submitted[n..][1..];
    StoreAfterNext(st, s.submitted, n, valid);
    ReportsNext(Done(s), result, st, s.submitted, valid);
  }

  lemma {:induction false} StepOrder(s: State, step: Step, s': State, st: Store, valid: Device -> bool)
    requires InOrder(s, st, valid) && Next(s, step, s', valid)
    ensures InOrder(s', st, valid)
  {
    match step {
      case Submit => SubmitOrder(s, st, valid);
      case Execute(result) => ExecuteOrder(s, s', result, st, valid);
      case Take =>
        assert Done(s') == Done(s);
        assert s.queue == [s.queue[0]] + s.queue[1..];
      case _ => assert Done(s') == Done(s);
    }
  }

  lemma {:induction false} RunInv(run: seq<State>, i: nat, valid: Device -> bool)
    requires IsRun(run, valid) && i < |run|
    ensures ViewOk(run[i]) && InOrder(run[i], run[0].store, valid)
  {
    if i == 0 {
      assert run[0].submitted[..0] == [] && Done(run[0]) == [];
    } else {
      RunInv(run, i - 1, valid);
      assert Linked(run, i - 1, valid);
      var step :| Next(run[i - 1], step, run[i], valid);
      StepView(run[i - 1], step, run[i], valid);
      StepOrder(run[i - 1], step, run[i], run[0].store, valid);
    }
  }

  /**
   What a poll shows when a result is a failure: the successes before it, nothing after it, and the worker is
   stopped.
   */
  lemma {:induction false} PollStopsAtFailure(
    s: State, good: seq<StorageResult>, bad: StorageResult, more: seq<StorageResult>)
    requires s.results == good + [bad] + more && !Fails(good) && !bad.success
    ensures var s' := PollAndShow(s);
            && s'.failed && s'.stopRequested && s'.results == [] && s'.polled == s.polled + s.results
            && s'.view.devices == (if good == [] then s.view.devices else good[|good| - 1].devices)
            && s'.view.commands == s.view.commands
  {
    ReplaceStops(s.view, good, bad, more);
  }

  lemma {:induction false} ReplaceStops(
    view: Monitor, good: seq<StorageResult>, bad: StorageResult, more: seq<StorageResult>)
    requires !Fails(good) && !bad.success
    ensures var (view', failed) := Replace(view, good + [bad] + more);
            && failed && view'.commands == view.commands
            && view'.devices == if good == [] then view.devices else good[|good| - 1].devices
    decreases |good|
  {
    var all := good + [bad] + more;
    if good != [] {
      assert good[0].success;
      assert good == good[..1] + good[1..];
      FailuresJoin(good[..1], good[1..]);
      assert all[1..] == good[1..] + [bad] + more;
      ReplaceStops(view.(devices := good[0].devices, error := None), good[1..], bad, more);
    }
  }

  // ---------------------------------------------------------------- theorems

  /**
   In every run, the results there are report the sequential execution of the submitted batches in the order
   of submission, each exactly once; what has no result yet is the batch in hand and the queue, in order; and
   polled results come first.
   */
  lemma {:induction false} ResultsAreSequential(run: seq<State>, i: nat, valid: Device -> bool)
    requires IsRun(run, valid) && i < |run|
    ensures var s := run[i];
            && |Done(s)| <= |s.submitted| && s.polled <= Done(s)
            && s.submitted[|Done(s)|..] == HandBatches(s.hand) + s.queue
            && (forall k :: 0 <= k < |Done(s)| ==> ReportsInTurn(run[0].store, s.submitted, k, Done(s)[k], valid))
            && s.store == StoreAfter(run[0].store, s.submitted[..|Done(s)|], valid)
  {
    RunInv(run, i, valid);
  }

  /**
   Whenever nothing is on its way and no polled result was a failure, the view shows exactly the store's
   contents in id order, whatever the interleaving was.
   */
  lemma {:induction false} QuietViewIsTheStore(run: seq<State>, i: nat, valid: Device -> bool)
    requires IsRun(run, valid) && i < |run| && Quiet(run[i])
    requires !Fails(run[i].polled)
    ensures IsSnapshot(run[i].view.devices, run[i].store)
  {
    RunInv(run, i, valid);
    QuietIsSnapshot(run[i], run[0].store, valid);
  }

  lemma {:induction false} QuietIsSnapshot(s: State, st: Store, valid: Device -> bool)
    requires ViewOk(s) && InOrder(s, st, valid) && Quiet(s) && !Fails(s.polled)
    ensures IsSnapshot(s.view.devices, s.store)
  {
    var n := |s.polled| - 1;
    assert Done(s) == s.polled && s.submitted[|s.polled|..] == [];
    assert s.submitted[..|s.polled|] == s.submitted;
    assert ReportsInTurn(st, s.submitted, n, Done(s)[n], valid);
    assert s.polled[n].success;
  }
}
