/** What each operation of the view, and each command on the store, does: said on the fields before and after. */
module DeviceOperations {
  import opened Common
  import opened DeviceItems
  import opened DeviceMonitor

  /** Position k holds the first device with this id. */
  predicate FirstAt(ds: seq<Device>, id: string, k: nat) {
    k < |ds| && ds[k].id == id && forall i :: 0 <= i < k ==> ds[i].id != id
  }

  lemma {:induction false} FindsFirst(ds: seq<Device>, id: string)
    ensures forall k :: FirstAt(ds, id, k) ==> FindDevice(ds, id) == k
    ensures !HasId(ds, id) ==> FindDevice(ds, id) == |ds|
    ensures HasId(ds, id) ==> FirstAt(ds, id, FindDevice(ds, id))
  {
    FindDeviceFinds(ds, id);
  }

  /** Setting a shown device alive, or not, changes that flag of its first entry and nothing else in the list. */
  lemma {:induction false} SetAliveMeans(m: Monitor, id: string, alive: bool, k: nat)
    requires FirstAt(m.devices, id, k)
    ensures var m', d := Apply(m, SetDeviceAlive(id, alive)), m.devices[k];
            && m'.devices == m.devices[k := Device(d.id, d.name, d.address, d.port, alive)]
            && m'.commands == m.commands + [DeviceCommand(SetAlive, id, Some(m'.devices[k]))]
            && m' == m.(devices := m'.devices, commands := m'.commands, error := None)
  {
    FindsFirst(m.devices, id);
  }

  /** Confirming takes the first entry with the marked id out of the list, and leaves the others in their order. */
  lemma {:induction false} ConfirmDeleteMeans(m: Monitor, id: string, k: nat)
    requires m.pendingDelete == Some(id) && FirstAt(m.devices, id, k)
    ensures var m' := Apply(m, ConfirmDelete);
            && |m'.devices| == |m.devices| - 1
            && (forall i :: 0 <= i < k ==> m'.devices[i] == m.devices[i])
            && (forall i :: k <= i < |m'.devices| ==> m'.devices[i] == m.devices[i + 1])
            && m'.commands == m.commands + [DeviceCommand(Delete, id, None)]
            && m' == m.(devices := m'.devices, commands := m'.commands, pendingDelete := None, error := None)
  {
    FindsFirst(m.devices, id);
  }

  /** Editing begins with a draft that has all five fields of the first device with the id. */
  lemma {:induction false} BeginEditMeans(m: Monitor, id: string, k: nat)
    requires FirstAt(m.devices, id, k)
    ensures var d := m.devices[k];
            Apply(m, BeginEdit(id))
            == m.(error := None, editor := Some(Editor(Editing, id, Draft(id, d.name, d.address, d.port, d.alive))))
  {
    FindsFirst(m.devices, id);
  }

  /** An operation on an id that is not shown changes the error only; a confirmation also gives up its mark. */
  lemma {:induction false} MissingMeans(m: Monitor, id: string, alive: bool)
    requires !HasId(m.devices, id)
    ensures Apply(m, SetDeviceAlive(id, alive)) == m.(error := Some(SelectedIsGone))
    ensures Apply(m, BeginEdit(id)) == m.(error := Some(SelectedIsGone))
    ensures Apply(m, RequestDelete(id)) == m.(error := Some(SelectedIsGone))
    ensures m.pendingDelete == Some(id) ==>
              Apply(m, ConfirmDelete) == m.(pendingDelete := None, error := Some(DeletedIsGone))
  {
    FindsFirst(m.devices, id);
  }

  predicate Blank(d: Draft) {
    d.id == "" || d.name == "" || d.address == ""
  }

  predicate BadPort(d: Draft) {
    d.port < 0 || d.port > 65535
  }

  /** A draft with a blank field, or else with a port out of range, is refused and stays open. */
  lemma {:induction false} BadDraftMeans(m: Monitor, d: Draft)
    requires m.editor.Some? && m.editor.value.draft == d
    ensures Blank(d) ==> Apply(m, SubmitEditor) == m.(error := Some(FieldsRequired))
    ensures !Blank(d) && BadPort(d) ==> Apply(m, SubmitEditor) == m.(error := Some(PortOutOfRange))
  {
  }

  /** Submitting a good new draft shows a device with its five fields last, or reports that the id is taken. */
  lemma {:induction false} SubmitNewMeans(m: Monitor, d: Draft)
    requires m.editor.Some? && m.editor.value.mode == Adding && m.editor.value.draft == d && !Blank(d) && !BadPort(d)
    ensures var m' := Apply(m, SubmitEditor);
            var device := Device(d.id, d.name, d.address, d.port, d.alive);
            if HasId(m.devices, d.id) then m' == m.(error := Some(IdAlreadyExists))
            else m' == m.(devices := m.devices + [device], editor := None, error := None,
                          commands := m.commands + [DeviceCommand(Add, d.id, Some(device))])
  {
    FindsFirst(m.devices, d.id);
  }

  /** Submitting a good edit puts the draft's five fields in place of the first device with the id. */
  lemma {:induction false} SubmitEditMeans(m: Monitor, d: Draft, k: nat)
    requires m.editor.Some? && m.editor.value.mode == Editing && m.editor.value.draft == d && !Blank(d) && !BadPort(d)
    requires m.editor.value.originalId == d.id && FirstAt(m.devices, d.id, k)
    ensures var device := Device(d.id, d.name, d.address, d.port, d.alive);
            Apply(m, SubmitEditor)
            == m.(devices := m.devices[k := device], editor := None, error := None,
                  commands := m.commands + [DeviceCommand(Edit, d.id, Some(device))])
  {
    FindsFirst(m.devices, d.id);
  }

  /** An edit may not change the id, and its device must still be there. */
  lemma {:induction false} LostEditMeans(m: Monitor, d: Draft)
    requires m.editor.Some? && m.editor.value.mode == Editing && m.editor.value.draft == d && !Blank(d) && !BadPort(d)
    ensures m.editor.value.originalId != d.id ==> Apply(m, SubmitEditor) == m.(error := Some(IdCannotChange))
    ensures m.editor.value.originalId == d.id && !HasId(m.devices, d.id) ==>
              Apply(m, SubmitEditor) == m.(error := Some(EditedIsGone))
  {
    FindsFirst(m.devices, d.id);
  }

  /** The operations without a device: each changes one field, and nothing happens without an editor or a mark. */
  lemma {:induction false} SmallOperationsMean(m: Monitor, id: string, editor: Editor)
    ensures HasId(m.devices, id) ==> Apply(m, RequestDelete(id)) == m.(pendingDelete := Some(id))
    ensures m.editor == None ==> Apply(m, SubmitEditor) == m && Apply(m, TypeInEditor(editor)) == m
    ensures m.editor.Some? ==> Apply(m, TypeInEditor(editor)) == m.(editor := Some(editor))
    ensures m.pendingDelete == None ==> Apply(m, ConfirmDelete) == m
    ensures Apply(m, BeginAdd) == m.(error := None, editor := Some(Editor(Adding, "", Draft("", "", "", 0, false))))
    ensures Apply(m, CancelEditor) == m.(editor := None) && Apply(m, CancelDelete) == m.(pendingDelete := None)
    ensures Apply(m, RequestExit) == m.(exitRequested := true) && Apply(m, ClearError) == m.(error := None)
    ensures Apply(m, RequestRefresh) == m.(commands := m.commands + [DeviceCommand(Refresh, "", None)])
  {
    FindsFirst(m.devices, id);
  }

  /** What the store makes of a command: all rows but the one it is about stay, and why it is refused. */
  lemma {:induction false} CommandMeans(st: Store, id: string, d: Device, valid: Device -> bool)
    ensures Perform(st, DeviceCommand(Refresh, id, None), valid) == Outcome(st, None)
    ensures Perform(st, DeviceCommand(Delete, id, None), valid) == Outcome(map x | x in st && x != id :: st[x], None)
    ensures Perform(st, DeviceCommand(Add, id, None), valid) == Outcome(st, Some(AddWithoutDevice))
    ensures Perform(st, DeviceCommand(Edit, id, None), valid) == Outcome(st, Some(UpdateWithoutDevice))
    ensures Perform(st, DeviceCommand(SetAlive, id, None), valid) == Outcome(st, Some(UpdateWithoutDevice))
    ensures Perform(st, DeviceCommand(Add, id, Some(d)), valid)
         == if !valid(d) then Outcome(st, Some(InvalidItem))
            else if d.id in st then Outcome(st, Some(DuplicateId))
            else Outcome(st[d.id := d], None)
    ensures forall kind | kind == Edit || kind == SetAlive ::
              Perform(st, DeviceCommand(kind, id, Some(d)), valid)
              == if !valid(d) then Outcome(st, Some(InvalidItem)) else Outcome(st[d.id := d], None)
  {
    assert st - {id} == map x | x in st && x != id :: st[x];
  }
}
