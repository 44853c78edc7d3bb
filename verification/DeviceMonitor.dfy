/**
 The device view of the user interface: it changes its own list at once and emits commands for the store.
 */
module DeviceMonitor {
  import opened Common
  import opened DeviceItems

  datatype CommandKind = Refresh | Add | Edit | Delete | SetAlive

  datatype DeviceCommand = DeviceCommand(kind: CommandKind, targetId: string, device: Option<Device>)

  datatype Draft = Draft(id: string, name: string, address: string, port: int, alive: bool)

  /** The messages the view can show, one constructor each. */
  datatype Message =
    | FieldsRequired        // "ID, name, and address are required."
    | PortOutOfRange        // "Port must be between 0 and 65535."
    | SelectedIsGone        // "The selected device no longer exists."
    | IdAlreadyExists       // "A device with this ID already exists."
    | IdCannotChange        // "A device ID cannot be changed after creation."
    | EditedIsGone          // "The device being edited no longer exists."
    | DeletedIsGone         // "The device selected for deletion no longer exists."
    | OtherMessage(text: string)

  datatype EditorMode = Adding | Editing

  datatype Editor = Editor(mode: EditorMode, originalId: string, draft: Draft)

  datatype Monitor = Monitor(
    devices: seq<Device>,
    editor: Option<Editor>,
    pendingDelete: Option<string>,
    error: Option<Message>,
    commands: seq<DeviceCommand>,
    exitRequested: bool)

  // ---------------------------------------------------------------- operations on values

  /** The position of the first device with this id at or after k, or |ds|. */
  function FindFrom(ds: seq<Device>, id: string, k: nat): (r: nat)
    requires k <= |ds|
    ensures k <= r <= |ds| && (r < |ds| ==> ds[r].id == id)
    decreases |ds| - k
  {
    if k == |ds| || ds[k].id == id then k else FindFrom(ds, id, k + 1)
  }

  function FindDevice(ds: seq<Device>, id: string): (r: nat)
    ensures r <= |ds| && (r < |ds| ==> ds[r].id == id)
  {
    FindFrom(ds, id, 0)
  }

  /** Nothing before the position found has the id, so |ds| is returned exactly when no device has it. */
  lemma {:induction false} FindFromFirst(ds: seq<Device>, id: string, k: nat)
    requires k <= |ds|
    ensures forall i :: k <= i < FindFrom(ds, id, k) ==> ds[i].id != id
    decreases |ds| - k
  {
    if k < |ds| && ds[k].id != id {
      FindFromFirst(ds, id, k + 1);
    }
  }

  lemma {:induction false} FindDeviceFinds(ds: seq<Device>, id: string)
    ensures FindDevice(ds, id) < |ds| <==> HasId(ds, id)
    ensures forall i :: 0 <= i < FindDevice(ds, id) ==> ds[i].id != id
  {
    FindFromFirst(ds, id, 0);
  }

  function Without(ds: seq<Device>, k: nat): seq<Device>
    requires k < |ds|
  {
    ds[..k] + ds[k + 1..]
  }

  /** The error `ValidateDraft` reports, if any. */
  function DraftError(d: Draft): (e: Option<Message>)
    ensures e == None ==> d.id != "" && d.name != "" && d.address != "" && 0 <= d.port <= 0xFFFF
  {
    if d.id == "" || d.name == "" || d.address == "" then Some(FieldsRequired)
    else if d.port < 0 || d.port > 0xFFFF then Some(PortOutOfRange)
    else None
  }

  function DraftDevice(d: Draft): Device
    requires DraftError(d) == None
  {
    Device(d.id, d.name, d.address, d.port, d.alive)
  }

  function WithError(m: Monitor, e: Message): Monitor {
    m.(error := Some(e))
  }

  function Emit(m: Monitor, c: DeviceCommand): Monitor {
    m.(commands := m.commands + [c])
  }

  function AfterBeginEdit(m: Monitor, id: string): Monitor {
    var k := FindDevice(m.devices, id);
    if k == |m.devices| then WithError(m, SelectedIsGone)
    else
      var d := m.devices[k];
      m.(error := None, editor := Some(Editor(Editing, d.id, Draft(d.id, d.name, d.address, d.port, d.alive))))
  }

  function AfterSubmitEditor(m: Monitor): Monitor {
    if m.editor == None then m
    else
      var e := m.editor.value;
      if DraftError(e.draft) != None then m.(error := DraftError(e.draft))
      else
        var d := DraftDevice(e.draft);
        var k := FindDevice(m.devices, d.id);
        if e.mode == Adding then
          if k < |m.devices| then WithError(m, IdAlreadyExists)
          else Emit(m, DeviceCommand(Add, d.id, Some(d))).(devices := m.devices + [d], editor := None, error := None)
        else if d.id != e.originalId then WithError(m, IdCannotChange)
        else if k == |m.devices| then WithError(m, EditedIsGone)
        else Emit(m, DeviceCommand(Edit, d.id, Some(d))).(devices := m.devices[k := d], editor := None, error := None)
  }

  function AfterRequestDelete(m: Monitor, id: string): Monitor {
    if FindDevice(m.devices, id) == |m.devices| then WithError(m, SelectedIsGone)
    else m.(pendingDelete := Some(id))
  }

  function AfterConfirmDelete(m: Monitor): Monitor {
    if m.pendingDelete == None then m
    else
      var id := m.pendingDelete.value;
      var k := FindDevice(m.devices, id);
      if k == |m.devices|
      then WithError(m.(pendingDelete := None), DeletedIsGone)
      else
        Emit(m, DeviceCommand(Delete, id, None)).(
          devices := Without(m.devices, k), pendingDelete := None, error := None)
  }

  function AfterSetAlive(m: Monitor, id: string, alive: bool): Monitor {
    var k := FindDevice(m.devices, id);
    if k == |m.devices| then WithError(m, SelectedIsGone)
    else
      var d := m.devices[k].(alive := alive);
      Emit(m, DeviceCommand(SetAlive, id, Some(d))).(devices := m.devices[k := d], error := None)
  }

  /** Everything the user can do to the view, apart from a snapshot replacing it. */
  datatype UserOp =
    | RequestRefresh
    | BeginAdd
    | BeginEdit(id: string)
    | TypeInEditor(editor: Editor)     // through the EditSession pointer: any change to an open editor
    | CancelEditor
    | SubmitEditor
    | RequestDelete(id: string)
    | CancelDelete
    | ConfirmDelete
    | SetDeviceAlive(id: string, alive: bool)
    | RequestExit
    | ClearError

  function Apply(m: Monitor, op: UserOp): Monitor {
    match op
    case RequestRefresh => Emit(m, DeviceCommand(Refresh, "", None))
    case BeginAdd => m.(error := None, editor := Some(Editor(Adding, "", Draft("", "", "", 0, false))))
    case BeginEdit(id) => AfterBeginEdit(m, id)
    case TypeInEditor(editor) => if m.editor == None then m else m.(editor := Some(editor))
    case CancelEditor => m.(editor := None)
    case SubmitEditor => AfterSubmitEditor(m)
    case RequestDelete(id) => AfterRequestDelete(m, id)
    case CancelDelete => m.(pendingDelete := None)
    case ConfirmDelete => AfterConfirmDelete(m)
    case SetDeviceAlive(id, alive) => AfterSetAlive(m, id, alive)
    case RequestExit => m.(exitRequested := true)
    case ClearError => m.(error := None)
  }

  // ---------------------------------------------------------------- the store

  type Store = map<string, Device>

  /** Why a command or a batch failed. */
  datatype StoreError =
    | AddWithoutDevice       // "Add command is missing device data"
    | UpdateWithoutDevice    // "Update command is missing device data"
    | InvalidItem            // the item check refused the device
    | DuplicateId            // the unique device_id index refused the insertion
    | InvalidRow             // a stored row no longer passes the item check

  /** What becomes of the store, and the error that stopped the batch, if any. */
  datatype Outcome = Outcome(store: Store, error: Option<StoreError>)

  /** One command as `Execute` performs it; `valid` is the store's item check. */
  function Perform(st: Store, c: DeviceCommand, valid: Device -> bool): Outcome {
    match c.kind
    case Refresh => Outcome(st, None)
    case Add =>
      if c.device == None then Outcome(st, Some(AddWithoutDevice))
      else if !valid(c.device.value) then Outcome(st, Some(InvalidItem))
      else if c.device.value.id in st then Outcome(st, Some(DuplicateId))
      else Outcome(st[c.device.value.id := c.device.value], None)
    case Edit => Upsert(st, c, valid)
    case SetAlive => Upsert(st, c, valid)
    case Delete => Outcome(st - {c.targetId}, None)
  }

  function Upsert(st: Store, c: DeviceCommand, valid: Device -> bool): Outcome {
    if c.device == None then Outcome(st, Some(UpdateWithoutDevice))
    else if !valid(c.device.value) then Outcome(st, Some(InvalidItem))
    else Outcome(st[c.device.value.id := c.device.value], None)
  }

  /** A batch: the first failing command ends it, and what came before stays done. */
  function PerformAll(st: Store, cs: seq<DeviceCommand>, valid: Device -> bool): Outcome {
    if cs == [] then Outcome(st, None)
    else
      var before := PerformAll(st, cs[..|cs| - 1], valid);
      if before.error != None then before else Perform(before.store, cs[|cs| - 1], valid)
  }

  /** The store holds exactly the devices of the list. */
  ghost predicate Mirrors(st: Store, ds: seq<Device>) {
    && (forall i :: 0 <= i < |ds| ==> ds[i].id in st && st[ds[i].id] == ds[i])
    && (forall id :: id in st ==> HasId(ds, id))
  }

  /** The device a command carries, if any, passes the store's check. */
  predicate Carries(c: DeviceCommand, valid: Device -> bool) {
    c.device != None ==> valid(c.device.value)
  }

  ghost predicate AllCarry(cs: seq<DeviceCommand>, valid: Device -> bool) {
    forall i :: 0 <= i < |cs| ==> Carries(cs[i], valid)
  }
}
