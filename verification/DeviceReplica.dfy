/** The view and a store that replays the view's commands stay the same replica. */
module DeviceReplica {
  import opened Common
  import opened DeviceItems
  import opened DeviceMonitor
  import opened Text
  import Addresses

  /** The ways an operation can change the list and the command that goes with each. */
  ghost predicate Effect(ds: seq<Device>, c: DeviceCommand, ds': seq<Device>) {
    match c.kind
    case Refresh => c.device == None && ds' == ds
    case Add => c.device != None && !HasId(ds, c.device.value.id) && ds' == ds + [c.device.value]
    case Edit => c.device != None && Replaced(ds, c.device.value, ds')
    case SetAlive => c.device != None && Replaced(ds, c.device.value, ds')
    case Delete =>
      && c.device == None
      && exists k :: 0 <= k < |ds| && ds[k].id == c.targetId && ds' == Without(ds, k)
  }

  ghost predicate Replaced(ds: seq<Device>, d: Device, ds': seq<Device>) {
    exists k :: 0 <= k < |ds| && ds[k].id == d.id && ds' == ds[k := d]
  }

  /** The operation emitted one command, and the change of the list is what that command says. */
  ghost predicate EmitsEffect(m: Monitor, m': Monitor) {
    && |m'.commands| == |m.commands| + 1 && m'.commands[..|m.commands|] == m.commands
    && Effect(m.devices, m'.commands[|m.commands|], m'.devices)
  }

  lemma {:induction false} SubmitHasEffect(m: Monitor)
    requires AfterSubmitEditor(m).commands != m.commands
    ensures EmitsEffect(m, AfterSubmitEditor(m))
  {
    var d := DraftDevice(m.editor.value.draft);
    var k := FindDevice(m.devices, d.id);
    if k < |m.devices| {
      assert Replaced(m.devices, d, m.devices[k := d]);
    } else {
      FindDeviceFinds(m.devices, d.id);
    }
  }

  lemma {:induction false} DeleteHasEffect(m: Monitor)
    requires AfterConfirmDelete(m).commands != m.commands
    ensures EmitsEffect(m, AfterConfirmDelete(m))
  {
    var k := FindDevice(m.devices, m.pendingDelete.value);
    assert m.devices[k].id == m.pendingDelete.value;
  }

  lemma {:induction false} AliveHasEffect(m: Monitor, id: string, alive: bool)
    requires AfterSetAlive(m, id, alive).commands != m.commands
    ensures EmitsEffect(m, AfterSetAlive(m, id, alive))
  {
    var k := FindDevice(m.devices, id);
    var d := m.devices[k].(alive := alive);
    assert Replaced(m.devices, d, m.devices[k := d]);
  }

  /** An operation emits nothing and leaves the list alone, or emits the one command its change amounts to. */
  lemma {:induction false} ApplyHasEffect(m: Monitor, op: UserOp)
    ensures var m' := Apply(m, op);
            (m'.commands == m.commands && m'.devices == m.devices) || EmitsEffect(m, m')
  {
    var m' := Apply(m, op);
    if m'.commands != m.commands {
      match op {
        case SubmitEditor => SubmitHasEffect(m);
        case ConfirmDelete => DeleteHasEffect(m);
        case SetDeviceAlive(id, alive) => AliveHasEffect(m, id, alive);
        case _ =>
      }
    }
  }

  // ---------------------------------------------------------------- one command keeps the replica

  lemma {:induction false} AddKeeps(st: Store, ds: seq<Device>, d: Device)
    requires Mirrors(st, ds) && DistinctIds(ds) && !HasId(ds, d.id)
    ensures d.id !in st && DistinctIds(ds + [d]) && Mirrors(st[d.id := d], ds + [d])
  {
    var ds' := ds + [d];
    forall i | 0 <= i < |ds| ensures ds[i].id != d.id {}
    forall id | id in st[d.id := d] ensures HasId(ds', id) {
      if id == d.id {
        assert ds'[|ds|].id == id;
      } else {
        var i :| 0 <= i < |ds| && ds[i].id == id;
        assert ds'[i].id == id;
      }
    }
  }

  lemma {:induction false} ReplaceKeeps(st: Store, ds: seq<Device>, k: nat, d: Device)
    requires Mirrors(st, ds) && DistinctIds(ds) && k < |ds| && ds[k].id == d.id
    ensures DistinctIds(ds[k := d]) && Mirrors(st[d.id := d], ds[k := d])
  {
    var ds' := ds[k := d];
    assert forall i :: 0 <= i < |ds| ==> ds'[i].id == ds[i].id;
    forall id | id in st[d.id := d] ensures HasId(ds', id) {
      var i :| 0 <= i < |ds| && ds[i].id == id;
      assert ds'[i].id == id;
    }
  }

  lemma {:induction false} DeleteKeeps(st: Store, ds: seq<Device>, k: nat)
    requires Mirrors(st, ds) && DistinctIds(ds) && k < |ds|
    ensures DistinctIds(Without(ds, k)) && Mirrors(st - {ds[k].id}, Without(ds, k))
  {
    var ds' := Without(ds, k);
    assert forall i :: 0 <= i < |ds'| ==> ds'[i] == ds[if i < k then i else i + 1];
    forall id | id in st - {ds[k].id} ensures HasId(ds', id) {
      var i :| 0 <= i < |ds| && ds[i].id == id;
      assert ds'[if i < k then i else i - 1].id == id;
    }
  }

  /**
   The command of an effect succeeds exactly when its device passes the check, and then the store follows the
   list.
   */
  lemma {:induction false} EffectKeeps(
    st: Store, ds: seq<Device>, c: DeviceCommand, ds': seq<Device>, valid: Device -> bool)
    requires Mirrors(st, ds) && DistinctIds(ds) && Effect(ds, c, ds')
    ensures DistinctIds(ds')
    ensures Perform(st, c, valid).error == if Carries(c, valid) then None else Some(InvalidItem)
    ensures Carries(c, valid) ==> Mirrors(Perform(st, c, valid).store, ds')
  {
    match c.kind {
      case Refresh =>
      case Add => AddKeeps(st, ds, c.device.value);
      case Delete =>
        var k :| 0 <= k < |ds| && ds[k].id == c.targetId && ds' == Without(ds, k);
        DeleteKeeps(st, ds, k);
      case _ =>
        var d := c.device.value;
        var k :| 0 <= k < |ds| && ds[k].id == d.id && ds' == ds[k := d];
        ReplaceKeeps(st, ds, k, d);
    }
  }

  // ---------------------------------------------------------------- whole sessions

  /** The view together with the commands already handed over by `ConsumeCommands`. */
  datatype Session = Session(handedOver: seq<DeviceCommand>, view: Monitor)

  datatype SessionOp = User(op: UserOp) | Consume

  function Act(s: Session, a: SessionOp): Session {
    match a
    case User(op) => s.(view := Apply(s.view, op))
    case Consume => Session(s.handedOver + s.view.commands, s.view.(commands := []))
  }

  function ActAll(s: Session, acts: seq<SessionOp>): Session {
    if acts == [] then s else Act(ActAll(s, acts[..|acts| - 1]), acts[|acts| - 1])
  }

  /** Every command emitted since the session began, in order. */
  function Emitted(s: Session): seq<DeviceCommand> {
    s.handedOver + s.view.commands
  }

  ghost predicate InStep(st: Store, s: Session, valid: Device -> bool) {
    var replay := PerformAll(st, Emitted(s), valid);
    && DistinctIds(s.view.devices)
    && replay.error == (if AllCarry(Emitted(s), valid) then None else Some(InvalidItem))
    && (replay.error == None ==> Mirrors(replay.store, s.view.devices))
  }

  lemma {:induction false} ReplayNext(st: Store, cs: seq<DeviceCommand>, c: DeviceCommand, valid: Device -> bool)
    ensures PerformAll(st, cs + [c], valid)
         == if PerformAll(st, cs, valid).error != None then PerformAll(st, cs, valid)
            else Perform(PerformAll(st, cs, valid).store, c, valid)
    ensures AllCarry(cs + [c], valid) <==> AllCarry(cs, valid) && Carries(c, valid)
  {
    var all := cs + [c];
    assert all[..|all| - 1] == cs && all[|all| - 1] == c;
    assert forall i :: 0 <= i < |cs| ==> all[i] == cs[i];
  }

  lemma {:induction false} ActKeeps(st: Store, s: Session, a: SessionOp, valid: Device -> bool)
    requires InStep(st, s, valid)
    ensures InStep(st, Act(s, a), valid)
  {
    if a == Consume {
      assert Emitted(Act(s, a)) == Emitted(s);
    } else {
      ApplyHasEffect(s.view, a.op);
      ViewKeeps(st, s, Apply(s.view, a.op), valid);
    }
  }

  /** A view that changed as a user operation changes it. */
  lemma {:induction false} ViewKeeps(st: Store, s: Session, view: Monitor, valid: Device -> bool)
    requires InStep(st, s, valid)
    requires (view.commands == s.view.commands && view.devices == s.view.devices) || EmitsEffect(s.view, view)
    ensures InStep(st, s.(view := view), valid)
  {
    var s' := s.(view := view);
    if view.commands == s.view.commands {
      assert Emitted(s') == Emitted(s);
    } else {
      var c := view.commands[|s.view.commands|];
      assert view.commands == s.view.commands + [c];
      assert Emitted(s') == Emitted(s) + [c];
      EmitKeeps(st, s, s', c, valid);
    }
  }

  lemma {:induction false} EmitKeeps(st: Store, s: Session, s': Session, c: DeviceCommand, valid: Device -> bool)
    requires InStep(st, s, valid) && Effect(s.view.devices, c, s'.view.devices) && Emitted(s') == Emitted(s) + [c]
    ensures InStep(st, s', valid)
  {
    var replay := PerformAll(st, Emitted(s), valid);
    ReplayNext(st, Emitted(s), c, valid);
    if replay.error == None {
      EffectKeeps(replay.store, s.view.devices, c, s'.view.devices, valid);
    } else {
      var shadow := Shadow(s.view.devices);
      EffectKeeps(shadow, s.view.devices, c, s'.view.devices, valid);
    }
  }

  /** Some store that holds exactly the devices of the list. */
  lemma {:induction false} Shadow(ds: seq<Device>) returns (st: Store)
    requires DistinctIds(ds)
    ensures Mirrors(st, ds)
  {
    if ds == [] {
      st := map[];
    } else {
      var n := |ds| - 1;
      var before := Shadow(ds[..n]);
      assert !HasId(ds[..n], ds[n].id);
      AddKeeps(before, ds[..n], ds[n]);
      assert ds == ds[..n] + [ds[n]];
      st := before[ds[n].id := ds[n]];
    }
  }

  /**
   From any list with distinct ids, after any session of user operations and hand-overs, the ids are still
   distinct, and replaying the emitted commands on a store that began with the same list succeeds exactly
   when every device in them passes the store's check; otherwise it ends at an item the check refuses. So no
   Add ever meets an id that is already there. When it succeeds, the store holds exactly the devices shown.
   */
  lemma {:induction false} ReplayAgrees(st: Store, start: Monitor, acts: seq<SessionOp>, valid: Device -> bool)
    requires DistinctIds(start.devices) && Mirrors(st, start.devices) && start.commands == []
    ensures var end := ActAll(Session([], start), acts);
            var replay := PerformAll(st, Emitted(end), valid);
            && DistinctIds(end.view.devices)
            && replay.error == (if AllCarry(Emitted(end), valid) then None else Some(InvalidItem))
            && (replay.error == None ==> Mirrors(replay.store, end.view.devices))
  {
    if acts == [] {
      assert Emitted(Session([], start)) == [];
    } else {
      ReplayAgrees(st, start, acts[..|acts| - 1], valid);
      ActKeeps(st, ActAll(Session([], start), acts[..|acts| - 1]), acts[|acts| - 1], valid);
    }
  }

  // ---------------------------------------------------------------- what the view lets through

  function EmptyView(): Monitor {
    Monitor([], None, None, None, [], false)
  }

  /** Opening the editor, typing a draft into it and submitting it. */
  function AddDraft(draft: Draft): seq<SessionOp> {
    [User(BeginAdd), User(TypeInEditor(Editor(Adding, "", draft))), User(SubmitEditor)]
  }

  lemma {:induction false} AddDraftEmits(draft: Draft)
    requires DraftError(draft) == None
    ensures Emitted(ActAll(Session([], EmptyView()), AddDraft(draft)))
         == [DeviceCommand(Add, draft.id, Some(DraftDevice(draft)))]
  {
    var acts := AddDraft(draft);
    var s := Session([], EmptyView());
    assert acts[..2][..1][..0] == [] && acts[..2][..1][0] == acts[0] && acts[..2][1] == acts[1];
    assert acts[..2][..1] == [acts[0]];
    assert ActAll(s, [acts[0]]) == Act(s, acts[0]);
    assert ActAll(s, acts[..2]) == Act(Act(s, acts[0]), acts[1]);
    assert ActAll(s, acts) == Act(Act(Act(s, acts[0]), acts[1]), acts[2]);
  }

  /** A draft that the view accepts and the check refuses makes the replay fail, on the store the view mirrors. */
  lemma {:induction false} RefusedDraftFails(draft: Draft, valid: Device -> bool)
    requires DraftError(draft) == None && !valid(DraftDevice(draft))
    ensures var end := ActAll(Session([], EmptyView()), AddDraft(draft));
            PerformAll(map[], Emitted(end), valid).error == Some(InvalidItem)
  {
    AddDraftEmits(draft);
    var c := DeviceCommand(Add, draft.id, Some(DraftDevice(draft)));
    ReplayNext(map[], [], c, valid);
    assert [] + [c] == [c];
  }

  /** There are such drafts: the view takes any address, and "a b" is none for the store. */
  lemma {:induction false} SomeDraftIsRefused()
    ensures var draft := Draft("d", "d", "a b", 0, false);
            DraftError(draft) == None && !StoreValid(DraftDevice(draft))
  {
    var s := "a b";
    assert s[1] == ' ' && Free(s, ':');
    assert !Addresses.IsDigitOrDot(s[1]) && !Addresses.IsHostChar(s[1]);
    if Addresses.QuadParts(s) {
      Addresses.QuadChars(s);
    }
    if Addresses.Expand(s).Some? {
      Addresses.Ipv6Length(s);
    }
    if Addresses.HostLabels(s) {
      Addresses.HostChars(s);
    }
  }
}
