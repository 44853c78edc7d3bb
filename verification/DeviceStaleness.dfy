/**
 When the pipeline fails. The view is changed before the store is, so a command can be refused by the time the
 store gets to it: its device does not pass the store's check, or it adds an id that is already there. The second
 happens although the view never shows an id twice, because the view need not show what the store holds: at the
 start nothing has been read yet, and later a snapshot that was taken before the user's last commands replaces
 the whole view and hides what they did.
 */
module DeviceStaleness {
  import opened Common
  import opened DeviceItems
  import opened DeviceMonitor
  import opened DeviceReplica
  import opened DeviceSnapshots
  import opened DevicePipeline

  // ---------------------------------------------------------------- commands on their way

  function Concat(batches: seq<Batch>): seq<DeviceCommand> {
    if batches == [] then [] else batches[0] + Concat(batches[1..])
  }

  lemma {:induction false} ConcatSnoc(batches: seq<Batch>, b: Batch)
    ensures Concat(batches + [b]) == Concat(batches) + b
  {
    if batches != [] {
      assert (batches + [b])[1..] == batches[1..] + [b];
      ConcatSnoc(batches[1..], b);
    }
  }

  function Underway(s: State): seq<DeviceCommand> {
    (if s.hand.Taken? then s.hand.batch else []) + Concat(s.queue)
  }

  /** Every command the store has not seen yet, in the order it will. */
  function Ahead(s: State): seq<DeviceCommand> {
    Underway(s) + s.view.commands
  }

  lemma {:induction false} PerformConcat(st: Store, a: seq<DeviceCommand>, b: seq<DeviceCommand>, valid: Device -> bool)
    ensures PerformAll(st, a + b, valid)
         == if PerformAll(st, a, valid).error != None then PerformAll(st, a, valid)
            else PerformAll(PerformAll(st, a, valid).store, b, valid)
    decreases |b|
  {
    if b == [] {
      assert a + b == a;
    } else {
      var n := |b| - 1;
      PerformConcat(st, a, b[..n], valid);
      assert (a + b)[..|a| + n] == a + b[..n];
    }
  }

  ghost predicate RowsPass(st: Store, valid: Device -> bool) {
    forall id :: id in st ==> valid(st[id])
  }

  lemma {:induction false} PerformPasses(st: Store, cs: seq<DeviceCommand>, valid: Device -> bool)
    requires RowsPass(st, valid)
    ensures RowsPass(PerformAll(st, cs, valid).store, valid)
  {
    if cs != [] {
      PerformPasses(st, cs[..|cs| - 1], valid);
    }
  }

  // ---------------------------------------------------------------- the exact condition

  ghost predicate NothingFailed(s: State) {
    !Fails(s.polled) && !Fails(s.results) && (s.hand.Executed? ==> s.hand.result.success)
  }

  /** Nothing has failed, every row passes, and carrying out what is on its way will succeed. */
  ghost predicate WillSucceed(s: State, valid: Device -> bool) {
    NothingFailed(s) && RowsPass(s.store, valid) && PerformAll(s.store, Ahead(s), valid).error == None
  }

  /** The command by which a view has more of them than before, if any. */
  function NewCommand(m: Monitor, m': Monitor): Option<DeviceCommand> {
    if |m'.commands| > |m.commands| then Some(m'.commands[|m.commands|]) else None
  }

  /** The command a user operation emits, if any. */
  function Emits(s: State, step: Step): Option<DeviceCommand> {
    if step.User? then NewCommand(s.view, Apply(s.view, step.op)) else None
  }

  /** The store will not carry out the command: the device does not pass, or an added one is already there. */
  predicate Refuses(st: Store, c: DeviceCommand, valid: Device -> bool) {
    !Carries(c, valid) || (c.kind == Add && c.device != None && c.device.value.id in st)
  }

  /** The user emits a command that the store, having carried out all that is ahead of it, will refuse. */
  predicate Spoils(s: State, step: Step, valid: Device -> bool) {
    Emits(s, step).Some? && Refuses(PerformAll(s.store, Ahead(s), valid).store, Emits(s, step).value, valid)
  }

  lemma {:induction false} EffectRefused(
    st: Store, ds: seq<Device>, c: DeviceCommand, ds': seq<Device>, valid: Device -> bool)
    requires Effect(ds, c, ds')
    ensures Perform(st, c, valid).error == None <==> !Refuses(st, c, valid)
  {
  }

  lemma {:induction false} ViewSucceeds(s: State, view: Monitor, valid: Device -> bool)
    requires (view.commands == s.view.commands && view.devices == s.view.devices) || EmitsEffect(s.view, view)
    ensures var c := NewCommand(s.view, view);
            WillSucceed(s.(view := view), valid) <==>
              WillSucceed(s, valid) && !(c.Some? && Refuses(PerformAll(s.store, Ahead(s), valid).store, c.value, valid))
  {
    if view.commands == s.view.commands {
      assert Ahead(s.(view := view)) == Ahead(s);
    } else {
      var c := view.commands[|s.view.commands|];
      assert view.commands == s.view.commands + [c];
      EmittedSucceeds(s, view, c, valid);
    }
  }

  lemma {:induction false} UserSucceeds(s: State, op: UserOp, valid: Device -> bool)
    ensures var s' := s.(view := Apply(s.view, op));
            WillSucceed(s', valid) <==> WillSucceed(s, valid) && !Spoils(s, Step.User(op), valid)
  {
    ApplyHasEffect(s.view, op);
    ViewSucceeds(s, Apply(s.view, op), valid);
  }

  lemma {:induction false} EmittedSucceeds(s: State, view: Monitor, c: DeviceCommand, valid: Device -> bool)
    requires view.commands == s.view.commands + [c] && Effect(s.view.devices, c, view.devices)
    ensures WillSucceed(s.(view := view), valid)
       <==> WillSucceed(s, valid) && !Refuses(PerformAll(s.store, Ahead(s), valid).store, c, valid)
  {
    assert Ahead(s.(view := view)) == Ahead(s) + [c];
    ReplayNext(s.store, Ahead(s), c, valid);
    EffectRefused(PerformAll(s.store, Ahead(s), valid).store, s.view.devices, c, view.devices, valid);
  }

  /** The service's own Refresh, with which every run starts, is the next batch to be executed. */
  predicate RefreshIsNext(s: State) {
    var first := [DeviceCommand(Refresh, "", None)];
    s.hand == Taken(first) || (s.hand == Idle && s.queue != [] && s.queue[0] == first)
  }

  /** Rows that do not pass are found out at once. */
  ghost predicate FindsBadRows(s: State, valid: Device -> bool) {
    RowsPass(s.store, valid) || !NothingFailed(s) || RefreshIsNext(s)
  }

  lemma {:induction false} RefreshChecks(st: Store, valid: Device -> bool)
    ensures PerformAll(st, [DeviceCommand(Refresh, "", None)], valid) == Outcome(st, None)
  {
    var refresh := DeviceCommand(Refresh, "", None);
    ReplayNext(st, [], refresh, valid);
    assert [] + [refresh] == [refresh];
  }

  lemma {:induction false} ExecuteSucceeds(s: State, s': State, result: StorageResult, valid: Device -> bool)
    requires FindsBadRows(s, valid) && Next(s, Execute(result), s', valid)
    ensures WillSucceed(s', valid) <==> WillSucceed(s, valid)
    ensures FindsBadRows(s', valid)
  {
    var batch, rest := s.hand.batch, Concat(s.queue) + s.view.commands;
    assert Ahead(s) == batch + rest && Ahead(s') == rest;
    PerformConcat(s.store, batch, rest, valid);
    if RowsPass(s.store, valid) {
      PerformPasses(s.store, batch, valid);
    } else {
      RefreshChecks(s.store, valid);
    }
  }

  lemma {:induction false} OneFails(r: StorageResult)
    ensures Fails([r]) <==> !r.success
  {
    assert [r][0] == r;
  }

  lemma {:induction false} SubmitAhead(s: State)
    ensures Ahead(SubmitCommands(s)) == Ahead(s)
  {
    if s.view.commands != [] {
      ConcatSnoc(s.queue, s.view.commands);
    }
  }

  lemma {:induction false} PollFailures(s: State)
    ensures PollAndShow(s).view.commands == s.view.commands
    ensures NothingFailed(PollAndShow(s)) <==> NothingFailed(s)
  {
    ReplaceShowsLast(s.view, s.results);
    FailuresJoin(s.polled, s.results);
  }

  lemma {:induction false} PushFailures(s: State, s': State)
    requires s.hand.Executed? && s' == s.(hand := Idle, results := s.results + [s.hand.result])
    ensures NothingFailed(s') <==> NothingFailed(s)
  {
    FailuresJoin(s.results, [s.hand.result]);
    OneFails(s.hand.result);
  }

  /** Every other step leaves what is ahead, the store and the failures as they are. */
  lemma {:induction false} OtherSucceeds(s: State, step: Step, s': State, valid: Device -> bool)
    requires Next(s, step, s', valid) && !step.User? && !step.Execute?
    ensures Ahead(s') == Ahead(s) && s'.store == s.store && (NothingFailed(s') <==> NothingFailed(s))
    ensures RefreshIsNext(s) ==> RefreshIsNext(s')
  {
    match step {
      case Submit => SubmitAhead(s);
      case Poll => PollFailures(s);
      case Push => PushFailures(s, s');
      case _ =>
    }
  }

  lemma {:induction false} StepSucceeds(s: State, step: Step, s': State, valid: Device -> bool)
    requires FindsBadRows(s, valid) && Next(s, step, s', valid)
    ensures WillSucceed(s', valid) <==> WillSucceed(s, valid) && !Spoils(s, step, valid)
    ensures FindsBadRows(s', valid)
  {
    match step {
      case User(op) => UserSucceeds(s, op, valid);
      case Execute(result) => ExecuteSucceeds(s, s', result, valid);
      case _ => OtherSucceeds(s, step, s', valid);
    }
  }

  ghost predicate IsRunBy(run: seq<State>, steps: seq<Step>, valid: Device -> bool) {
    |run| == |steps| + 1 && Init(run[0]) && forall k :: 0 <= k < |steps| ==> TakenAt(run, steps, k, valid)
  }

  ghost predicate TakenAt(run: seq<State>, steps: seq<Step>, k: int, valid: Device -> bool)
    requires 0 <= k < |steps| == |run| - 1
  {
    Next(run[k], steps[k], run[k + 1], valid)
  }

  /** No step up to state i emits a command that the store will refuse. */
  ghost predicate Unspoiled(run: seq<State>, steps: seq<Step>, i: nat, valid: Device -> bool)
    requires i <= |steps| == |run| - 1
  {
    forall k :: 0 <= k < i ==> !Spoils(run[k], steps[k], valid)
  }

  /**
   In every run: nothing has failed so far and all that is on its way will succeed, if and only if the rows the
   store started with pass the check and the user has emitted no command that the store, by the time it gets to
   it, refuses: one whose device does not pass, or an Add of an id that is there.
   */
  lemma {:induction false} SucceedsIffUnspoiled(run: seq<State>, steps: seq<Step>, i: nat, valid: Device -> bool)
    requires IsRunBy(run, steps, valid) && i < |run|
    ensures WillSucceed(run[i], valid) <==> RowsPass(run[0].store, valid) && Unspoiled(run, steps, i, valid)
    ensures FindsBadRows(run[i], valid)
  {
    if i == 0 {
      assert Concat(run[0].queue) == run[0].queue[0] + Concat([]);
      assert Ahead(run[0]) == [DeviceCommand(Refresh, "", None)];
      RefreshChecks(run[0].store, valid);
    } else {
      SucceedsIffUnspoiled(run, steps, i - 1, valid);
      assert TakenAt(run, steps, i - 1, valid);
      StepSucceeds(run[i - 1], steps[i - 1], run[i], valid);
      assert Unspoiled(run, steps, i, valid)
        <==> Unspoiled(run, steps, i - 1, valid) && !Spoils(run[i - 1], steps[i - 1], valid);
    }
  }

  /** So, once nothing is on its way any more, a result has failed if and only if the rows or some command were bad. */
  lemma {:induction false} FailsIffSpoiled(run: seq<State>, steps: seq<Step>, i: nat, valid: Device -> bool)
    requires IsRunBy(run, steps, valid) && i < |run| && Ahead(run[i]) == []
    ensures NothingFailed(run[i]) <==> RowsPass(run[0].store, valid) && Unspoiled(run, steps, i, valid)
  {
    SucceedsIffUnspoiled(run, steps, i, valid);
    assert Ahead(run[i]) == [] ==> !RefreshIsNext(run[i]);
  }

  // ---------------------------------------------------------------- fresh snapshots

  /** Carrying out what is on its way leaves the store with exactly what the view shows. */
  ghost predicate Leads(s: State, valid: Device -> bool) {
    Mirrors(PerformAll(s.store, Ahead(s), valid).store, s.view.devices) && DistinctIds(s.view.devices)
  }

  /** The step shows a snapshot while something is on its way. */
  predicate Stale(s: State, step: Step) {
    step == Poll && s.results != [] && !(s.view.commands == [] && s.queue == [] && s.hand == Idle)
  }

  lemma {:induction false} EmitLeads(s: State, view: Monitor, c: DeviceCommand, valid: Device -> bool)
    requires WillSucceed(s, valid) && Leads(s, valid) && Carries(c, valid)
    requires view.commands == s.view.commands + [c] && Effect(s.view.devices, c, view.devices)
    ensures Leads(s.(view := view), valid)
    ensures !Refuses(PerformAll(s.store, Ahead(s), valid).store, c, valid)
  {
    assert Ahead(s.(view := view)) == Ahead(s) + [c];
    ReplayNext(s.store, Ahead(s), c, valid);
    EffectKeeps(PerformAll(s.store, Ahead(s), valid).store, s.view.devices, c, view.devices, valid);
  }

  /** A view that changed as a user operation changes it. */
  lemma {:induction false} ViewLeads(s: State, view: Monitor, valid: Device -> bool)
    requires WillSucceed(s, valid) && Leads(s, valid) && AllCarry(view.commands, valid)
    requires (view.commands == s.view.commands && view.devices == s.view.devices) || EmitsEffect(s.view, view)
    ensures Leads(s.(view := view), valid)
    ensures var c := NewCommand(s.view, view);
            c.Some? ==> !Refuses(PerformAll(s.store, Ahead(s), valid).store, c.value, valid)
  {
    if view.commands == s.view.commands {
      assert Ahead(s.(view := view)) == Ahead(s);
    } else {
      var c := view.commands[|s.view.commands|];
      assert view.commands == s.view.commands + [c];
      assert Carries(c, valid);
      EmitLeads(s, view, c, valid);
    }
  }

  lemma {:induction false} UserLeads(s: State, op: UserOp, valid: Device -> bool)
    requires WillSucceed(s, valid) && Leads(s, valid) && AllCarry(Apply(s.view, op).commands, valid)
    ensures Leads(s.(view := Apply(s.view, op)), valid) && !Spoils(s, Step.User(op), valid)
  {
    ApplyHasEffect(s.view, op);
    ViewLeads(s, Apply(s.view, op), valid);
  }

  lemma {:induction false} ExecuteLeads(s: State, s': State, result: StorageResult, valid: Device -> bool)
    requires WillSucceed(s, valid) && Leads(s, valid) && Next(s, Execute(result), s', valid)
    ensures Leads(s', valid)
  {
    var batch, rest := s.hand.batch, Concat(s.queue) + s.view.commands;
    assert Ahead(s) == batch + rest && Ahead(s') == rest;
    PerformConcat(s.store, batch, rest, valid);
  }

  /** A snapshot shown when nothing is on its way is the store's contents. */
  lemma {:induction false} PollLeads(s: State, st: Store, valid: Device -> bool)
    requires WillSucceed(s, valid) && Leads(s, valid) && ViewOk(s) && InOrder(s, st, valid) && !Stale(s, Poll)
    ensures Leads(PollAndShow(s), valid)
  {
    var s' := PollAndShow(s);
    OtherSucceeds(s, Poll, s', valid);
    if s.results == [] {
      assert s'.view == s.view;
    } else {
      assert Done(s') == Done(s);
      PollView(s);
      QuietIsSnapshot(s', st, valid);
      SnapshotIsDistinct(s'.view.devices, s'.store);
      assert Ahead(s') == [];
    }
  }

  lemma {:induction false} SnapshotIsDistinct(ds: seq<Device>, st: Store)
    requires IsSnapshot(ds, st)
    ensures DistinctIds(ds)
  {
    forall i, j | 0 <= i < j < |ds| ensures ds[i].id != ds[j].id {
      BeforeIsTotal(ds[i].id, ds[j].id);
    }
  }

  lemma {:induction false} StepLeads(s: State, step: Step, s': State, st: Store, valid: Device -> bool)
    requires WillSucceed(s, valid) && Leads(s, valid) && ViewOk(s) && InOrder(s, st, valid)
    requires Next(s, step, s', valid) && !Stale(s, step) && AllCarry(s'.view.commands, valid)
    ensures Leads(s', valid) && !Spoils(s, step, valid)
  {
    match step {
      case User(op) => UserLeads(s, op, valid);
      case Execute(result) => ExecuteLeads(s, s', result, valid);
      case Poll => PollLeads(s, st, valid);
      case _ => OtherSucceeds(s, step, s', valid);
    }
  }

  lemma {:induction false} RunByIsRun(run: seq<State>, steps: seq<Step>, valid: Device -> bool)
    requires IsRunBy(run, steps, valid)
    ensures IsRun(run, valid)
  {
    forall i: nat | i + 1 < |run| ensures Linked(run, i, valid) {
      assert TakenAt(run, steps, i, valid);
    }
  }

  /** When nothing is on its way and nothing has failed, view and store agree, and every row has just been checked. */
  lemma {:induction false} QuietLeads(s: State, st: Store, valid: Device -> bool)
    requires ViewOk(s) && InOrder(s, st, valid) && Quiet(s) && !Fails(s.polled)
    ensures WillSucceed(s, valid) && Leads(s, valid)
  {
    var n := |s.polled| - 1;
    QuietIsSnapshot(s, st, valid);
    SnapshotIsDistinct(s.view.devices, s.store);
    assert Ahead(s) == [];
    assert Done(s) == s.polled;
    assert ReportsInTurn(st, s.submitted, n, Done(s)[n], valid) && s.polled[n].success;
    StoreAfterNext(st, s.submitted, n, valid);
  }

  lemma {:induction false} FreshStaysLed(run: seq<State>, steps: seq<Step>, a: nat, i: nat, valid: Device -> bool)
    requires IsRunBy(run, steps, valid) && a <= i < |run|
    requires Quiet(run[a]) && !Fails(run[a].polled)
    requires forall k :: a <= k < i ==> !Stale(run[k], steps[k])
    requires forall k :: a <= k <= i ==> AllCarry(run[k].view.commands, valid)
    ensures WillSucceed(run[i], valid) && Leads(run[i], valid)
  {
    RunByIsRun(run, steps, valid);
    if i == a {
      RunInv(run, a, valid);
      QuietLeads(run[a], run[0].store, valid);
    } else {
      FreshStaysLed(run, steps, a, i - 1, valid);
      RunInv(run, i - 1, valid);
      assert TakenAt(run, steps, i - 1, valid);
      StepLeads(run[i - 1], steps[i - 1], run[i], run[0].store, valid);
      StepSucceeds(run[i - 1], steps[i - 1], run[i], valid);
    }
  }

  /**
   One way to meet the condition. From any moment at which nothing is on its way and nothing has failed, as long
   as every device passes the check and no snapshot is shown while something is on its way, no command is ever
   refused: carrying out what is on its way always succeeds, and leads to exactly what the view shows.
   */
  lemma {:induction false} FreshRunsNeverFail(
    run: seq<State>, steps: seq<Step>, a: nat, i: nat, valid: Device -> bool)
    requires IsRunBy(run, steps, valid) && a <= i < |run|
    requires Quiet(run[a]) && !Fails(run[a].polled)
    requires forall k :: a <= k < i ==> !Stale(run[k], steps[k])
    requires forall k :: a <= k <= i ==> AllCarry(run[k].view.commands, valid)
    ensures Unspoiled(run, steps, i, valid) && WillSucceed(run[i], valid) && Leads(run[i], valid)
  {
    FreshStaysLed(run, steps, a, i, valid);
    SucceedsIffUnspoiled(run, steps, i, valid);
  }

  // ---------------------------------------------------------------- runs that fail

  lemma {:induction false} Extend(run: seq<State>, step: Step, s': State, valid: Device -> bool)
    requires IsRun(run, valid) && Next(run[|run| - 1], step, s', valid)
    ensures IsRun(run + [s'], valid)
  {
    var last, longer := |run| - 1, run + [s'];
    forall i: nat | i + 1 < |longer| ensures Linked(longer, i, valid) {
      if i < last {
        assert Linked(run, i, valid) && longer[i] == run[i] && longer[i + 1] == run[i + 1];
      } else {
        assert Steps(run[last], s', valid);
      }
    }
  }

  lemma {:induction false} ReplaceOne(view: Monitor, r: StorageResult)
    requires r.success
    ensures Replace(view, [r]) == (view.(devices := r.devices, error := None), false)
  {
    var shown := view.(devices := r.devices, error := None);
    assert Replace(shown, []) == (shown, false);
  }

  function DraftOf(d: Device): Draft {
    Draft(d.id, d.name, d.address, d.port, d.alive)
  }

  function AddCommand(d: Device): DeviceCommand {
    DeviceCommand(Add, d.id, Some(d))
  }

  /** The user adds a device that the view does not show. */
  lemma {:induction false} UserAdds(run: seq<State>, d: Device, valid: Device -> bool) returns (longer: seq<State>)
    requires IsRun(run, valid) && DraftError(DraftOf(d)) == None
    requires run[|run| - 1].view == EmptyView()
    ensures IsRun(longer, valid)
    ensures longer[|longer| - 1] == run[|run| - 1].(view := EmptyView().(devices := [d], commands := [AddCommand(d)]))
  {
    var s := run[|run| - 1];
    var s1 := s.(view := Apply(s.view, BeginAdd));
    var typed := TypeInEditor(Editor(Adding, "", DraftOf(d)));
    var s2 := s.(view := Apply(s1.view, typed));
    var s3 := s.(view := Apply(s2.view, SubmitEditor));
    Extend(run, Step.User(BeginAdd), s1, valid);
    Extend(run + [s1], Step.User(typed), s2, valid);
    Extend(run + [s1] + [s2], Step.User(SubmitEditor), s3, valid);
    longer := run + [s1] + [s2] + [s3];
    assert FindDevice([], d.id) == 0;
    assert s3.view == EmptyView().(devices := [d], commands := [AddCommand(d)]);
  }

  /** The worker takes the first batch, executes it and pushes its result. */
  lemma {:induction false} WorkerDoes(run: seq<State>, result: StorageResult, valid: Device -> bool)
    returns (longer: seq<State>)
    requires IsRun(run, valid)
    requires var s := run[|run| - 1]; !s.exited && s.hand == Idle && s.queue != []
    requires var s := run[|run| - 1]; Reports(result, ExecuteBatch(s.store, s.queue[0], valid))
    ensures IsRun(longer, valid)
    ensures var s := run[|run| - 1];
            longer[|longer| - 1] == s.(queue := s.queue[1..], results := s.results + [result],
                                       store := ExecuteBatch(s.store, s.queue[0], valid).store)
  {
    var s := run[|run| - 1];
    var s1 := s.(hand := Taken(s.queue[0]), queue := s.queue[1..]);
    var s2 := s1.(hand := Executed(result), store := ExecuteBatch(s.store, s.queue[0], valid).store);
    var s3 := s2.(hand := Idle, results := s.results + [result]);
    Extend(run, Take, s1, valid);
    Extend(run + [s1], Execute(result), s2, valid);
    Extend(run + [s1] + [s2], Push, s3, valid);
    longer := run + [s1] + [s2] + [s3];
  }

  /** A service on the given store, with a view that has not seen it yet. */
  function StartState(st: Store): State {
    var first := [[DeviceCommand(Refresh, "", None)]];
    State(EmptyView(), first, Idle, [], st, false, false, false, first, [])
  }

  lemma {:induction false} RefreshReads(st: Store, ds: seq<Device>, valid: Device -> bool)
    requires IsSnapshot(ds, st) && RowsPass(st, valid)
    ensures ExecuteBatch(st, [DeviceCommand(Refresh, "", None)], valid) == Outcome(st, None)
    ensures Reports(StorageResult(true, ds), ExecuteBatch(st, [DeviceCommand(Refresh, "", None)], valid))
  {
    RefreshChecks(st, valid);
  }

  lemma {:induction false} OneRow(d: Device)
    ensures IsSnapshot([d], map[d.id := d])
  {
    assert [d][0].id == d.id;
  }

  lemma {:induction false} AddOnce(d: Device, valid: Device -> bool)
    requires valid(d)
    ensures ExecuteBatch(map[], [AddCommand(d)], valid) == Outcome(map[d.id := d], None)
    ensures Reports(StorageResult(true, [d]), ExecuteBatch(map[], [AddCommand(d)], valid))
  {
    ReplayNext(map[], [], AddCommand(d), valid);
    assert [] + [AddCommand(d)] == [AddCommand(d)];
    assert PerformAll(map[], [AddCommand(d)], valid) == Outcome(map[d.id := d], None);
    OneRow(d);
  }

  lemma {:induction false} AddTwice(d: Device, valid: Device -> bool)
    requires valid(d)
    ensures ExecuteBatch(map[d.id := d], [AddCommand(d)], valid).error == Some(DuplicateId)
  {
    ReplayNext(map[d.id := d], [], AddCommand(d), valid);
    assert [] + [AddCommand(d)] == [AddCommand(d)];
  }

  /**
   For every device that the view and the store accept there is a run that fails all the same: the user adds
   the device before the first snapshot has come back, the stale snapshot takes it from the view, the user adds
   it again, and the store refuses the second Add as a duplicate.
   */
  lemma {:induction false} StaleSnapshotFails(d: Device, valid: Device -> bool) returns (run: seq<State>)
    requires DraftError(DraftOf(d)) == None && valid(d)
    ensures IsRun(run, valid)
    ensures var s := run[|run| - 1];
            s.queue == [[AddCommand(d)]] && s.hand == Idle
            && ExecuteBatch(s.store, s.queue[0], valid).error == Some(DuplicateId)
  {
    var s0 := StartState(map[]);
    var refresh, add := s0.queue[0], [AddCommand(d)];
    RefreshReads(map[], [], valid);
    AddOnce(d, valid);
    AddTwice(d, valid);
    run := UserAdds([s0], d, valid);
    var s1 := run[|run| - 1];
    var s2 := SubmitCommands(s1);
    Extend(run, Submit, s2, valid);
    assert s2 == s0.(view := EmptyView().(devices := [d]), queue := [refresh, add], submitted := [refresh, add]);
    run := WorkerDoes(run + [s2], StorageResult(true, []), valid);
    var s3 := run[|run| - 1];
    var s4 := PollAndShow(s3);
    Extend(run, Poll, s4, valid);
    assert s3.results == [StorageResult(true, [])];
    ReplaceOne(s3.view, s3.results[0]);
    run := UserAdds(run + [s4], d, valid);
    var s5 := run[|run| - 1];
    var s6 := SubmitCommands(s5);
    Extend(run, Submit, s6, valid);
    assert s6.queue == [add, add] && s6.store == map[];
    run := WorkerDoes(run + [s6], StorageResult(true, [d]), valid);
    assert run[|run| - 1].queue == [add] && run[|run| - 1].store == map[d.id := d];
  }

  /**
   It takes no snapshot at all: for every device that the view and the store accept there is a run in which the
   store holds the device from the start, the user adds it before anything was polled, and the store refuses it.
   */
  lemma {:induction false} EarlyAddFails(d: Device, valid: Device -> bool) returns (run: seq<State>)
    requires DraftError(DraftOf(d)) == None && valid(d)
    ensures IsRun(run, valid)
    ensures var s := run[|run| - 1];
            && s.queue == [[AddCommand(d)]] && s.hand == Idle && s.polled == []
            && ExecuteBatch(s.store, s.queue[0], valid).error == Some(DuplicateId)
  {
    var s0 := StartState(map[d.id := d]);
    var refresh, add := s0.queue[0], [AddCommand(d)];
    OneRow(d);
    RefreshReads(map[d.id := d], [d], valid);
    AddTwice(d, valid);
    run := UserAdds([s0], d, valid);
    var s2 := SubmitCommands(run[|run| - 1]);
    Extend(run, Submit, s2, valid);
    assert s2.queue == [refresh, add];
    run := WorkerDoes(run + [s2], StorageResult(true, [d]), valid);
    assert run[|run| - 1].queue == [add];
  }
}
