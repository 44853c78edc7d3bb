/** The objects of the device pipeline, whose methods update them in place. */
module DeviceObjects {
  import opened Common
  import opened DeviceItems
  import opened DeviceMonitor
  import opened DevicePipeline
  import opened DeviceSnapshots

  class DeviceMonitorState {
    var devices: seq<Device>
    var editor: Option<Editor>
    var pendingDelete: Option<string>
    var error: Option<Message>
    var commands: seq<DeviceCommand>
    var exitRequested: bool

    ghost function Value(): Monitor
      reads this
    {
      Monitor(devices, editor, pendingDelete, error, commands, exitRequested)
    }

    constructor ()
      ensures Value() == Monitor([], None, None, None, [], false)
    {
      devices, editor, pendingDelete, error, commands, exitRequested := [], None, None, None, [], false;
    }

    method ReplaceDevices(replacement: seq<Device>)
      modifies this
      ensures Value() == old(Value()).(devices := replacement, error := None)
    {
      devices := replacement;
      error := None;
    }

    method Find(id: string) returns (k: nat)
      ensures k == FindDevice(devices, id)
    {
      k := 0;
      while k < |devices| && devices[k].id != id
        invariant k <= |devices| && FindFrom(devices, id, k) == FindDevice(devices, id)
      {
        k := k + 1;
      }
    }

    method BeginEdit(id: string) returns (ok: bool)
      modifies this
      ensures Value() == AfterBeginEdit(old(Value()), id) && (ok <==> HasId(old(devices), id))
    {
      FindDeviceFinds(devices, id);
      var found := Find(id);
      if found == |devices| {
        error := Some(SelectedIsGone);
        return false;
      }
      error := None;
      var d := devices[found];
      editor := Some(Editor(Editing, d.id, Draft(d.id, d.name, d.address, d.port, d.alive)));
      return true;
    }

    /** Returns true exactly when a command was emitted. */
    method SubmitEditor() returns (ok: bool)
      modifies this
      ensures Value() == AfterSubmitEditor(old(Value())) && (ok <==> commands != old(commands))
    {
      if editor == None {
        return false;
      }
      var e := editor.value;
      if DraftError(e.draft) != None {
        error := DraftError(e.draft);
        return false;
      }
      var d := DraftDevice(e.draft);
      if e.mode == Adding {
        var found := Find(d.id);
        if found != |devices| {
          error := Some(IdAlreadyExists);
          return false;
        }
        devices := devices + [d];
        commands := commands + [DeviceCommand(Add, d.id, Some(d))];
      } else {
        if d.id != e.originalId {
          error := Some(IdCannotChange);
          return false;
        }
        var found := Find(e.originalId);
        if found == |devices| {
          error := Some(EditedIsGone);
          return false;
        }
        devices := devices[found := d];
        commands := commands + [DeviceCommand(Edit, d.id, Some(d))];
      }
      editor := None;
      error := None;
      return true;
    }

    method RequestDelete(id: string) returns (ok: bool)
      modifies this
      ensures Value() == AfterRequestDelete(old(Value()), id) && (ok <==> HasId(devices, id))
    {
      FindDeviceFinds(devices, id);
      var found := Find(id);
      if found == |devices| {
        error := Some(SelectedIsGone);
        return false;
      }
      pendingDelete := Some(id);
      return true;
    }

    method ConfirmDelete() returns (ok: bool)
      modifies this
      ensures Value() == AfterConfirmDelete(old(Value())) && (ok <==> commands != old(commands))
    {
      if pendingDelete == None {
        return false;
      }
      var id := pendingDelete.value;
      var found := Find(id);
      if found == |devices| {
        pendingDelete := None;
        error := Some(DeletedIsGone);
        return false;
      }
      devices := devices[..found] + devices[found + 1..];
      commands := commands + [DeviceCommand(Delete, id, None)];
      pendingDelete := None;
      error := None;
      return true;
    }

    method SetAlive(id: string, alive: bool) returns (ok: bool)
      modifies this
      ensures Value() == AfterSetAlive(old(Value()), id, alive) && (ok <==> commands != old(commands))
    {
      var found := Find(id);
      if found == |devices| {
        error := Some(SelectedIsGone);
        return false;
      }
      devices := devices[found := devices[found].(alive := alive)];
      commands := commands + [DeviceCommand(CommandKind.SetAlive, id, Some(devices[found]))];
      error := None;
      return true;
    }

    method ConsumeCommands() returns (taken: seq<DeviceCommand>)
      modifies this
      ensures taken == old(commands) && Value() == old(Value()).(commands := [])
    {
      taken := commands;
      commands := [];
    }
  }

  /** The device table. */
  class DeviceDatabase {
    var rows: Store

    /** A row is found under its own id. */
    ghost predicate Valid()
      reads this
    {
      Keyed(rows)
    }

    constructor ()
      ensures Valid() && rows == map[]
    {
      rows := map[];
    }

    /** `AddItem` and `UpsertItem` behind the command switch of `Execute`. */
    method PerformCommand(c: DeviceCommand) returns (failure: Option<StoreError>)
      requires Valid()
      modifies this
      ensures Valid() && Outcome(rows, failure) == Perform(old(rows), c, StoreValid)
    {
      match c.kind {
        case Refresh => return None;
        case Delete =>
          rows := rows - {c.targetId};
          return None;
        case _ =>
          if c.device == None {
            return Some(if c.kind == Add then AddWithoutDevice else UpdateWithoutDevice);
          }
          var d := c.device.value;
          var bad := ValidateItem(d);
          if bad != None {
            return Some(InvalidItem);
          }
          if c.kind == Add && d.id in rows {
            return Some(DuplicateId);
          }
          rows := rows[d.id := d];
          return None;
      }
    }

    /** The loop of `Execute` over the commands of a batch. */
    method PerformBatch(batch: Batch) returns (failure: Option<StoreError>)
      requires Valid()
      modifies this
      ensures Valid() && Outcome(rows, failure) == PerformAll(old(rows), batch, StoreValid)
    {
      failure := None;
      for i := 0 to |batch|
        invariant Valid() && failure == None && Outcome(rows, None) == PerformAll(old(rows), batch[..i], StoreValid)
      {
        assert batch[..i + 1][..i] == batch[..i];
        failure := PerformCommand(batch[i]);
        if failure != None {
          StaysFailed(old(rows), batch, i + 1, StoreValid);
          return;
        }
      }
      assert batch[..|batch|] == batch;
    }

    /** The rows in id order, each checked again; no list when one of them does not pass. */
    method GetAllSortedById() returns (devices: Option<seq<Device>>)
      requires Valid()
      ensures devices.Some? <==> forall id :: id in rows ==> StoreValid(rows[id])
      ensures devices.Some? ==> IsSnapshot(devices.value, rows)
    {
      var sorted: seq<Device> := [];
      var left := rows.Keys;
      while left != {}
        invariant left <= rows.Keys
        invariant IsSnapshot(sorted, Part(rows, rows.Keys - left))
        invariant forall d :: d in sorted ==> StoreValid(d)
        invariant forall d, id :: d in sorted && id in left ==> Before(d.id, id)
        decreases left
      {
        var id := Least(left);
        var bad := ValidateItem(rows[id]);
        if bad != None {
          return None;
        }
        NextRow(rows, left, id, sorted);
        sorted := sorted + [rows[id]];
        left := left - {id};
      }
      assert Part(rows, rows.Keys) == rows;
      devices := Some(sorted);
      forall id | id in rows ensures StoreValid(rows[id]) {
        assert HasId(sorted, id);
      }
    }

    /** `Execute`: the batch, and the rows it left or its failure. */
    method Execute(batch: Batch) returns (result: StorageResult)
      requires Valid()
      modifies this
      ensures Valid() && rows == ExecuteBatch(old(rows), batch, StoreValid).store
      ensures Reports(result, ExecuteBatch(old(rows), batch, StoreValid))
    {
      var failure := PerformBatch(batch);
      if failure != None {
        return StorageResult(false, []);
      }
      var devices := GetAllSortedById();
      if devices == None {
        return StorageResult(false, []);
      }
      return StorageResult(true, devices.value);
    }
  }

  ghost predicate Keyed(st: Store) {
    forall id :: id in st ==> st[id].id == id
  }

  /** The rows with the given ids. */
  ghost function Part(st: Store, ids: set<string>): Store {
    map id | id in st && id in ids :: st[id]
  }

  /** The first id of a set in the store's order. */
  method Least(ids: set<string>) returns (least: string)
    requires ids != {}
    ensures least in ids && forall id :: id in ids && id != least ==> Before(least, id)
  {
    least :| least in ids;
    var left := ids - {least};
    while left != {}
      invariant least in ids && left <= ids && least !in left
      invariant forall id :: id in ids && id !in left && id != least ==> Before(least, id)
      decreases left
    {
      var id :| id in left;
      BeforeIsTotal(least, id);
      if Before(id, least) {
        forall other | other in ids && other !in left && other != least ensures Before(id, other) {
          BeforeIsTransitive(id, least, other);
        }
        least := id;
      }
      left := left - {id};
    }
  }

  /** One more row, after all those before it in order. */
  lemma {:induction false} NextRow(st: Store, left: set<string>, id: string, sorted: seq<Device>)
    requires Keyed(st) && left <= st.Keys && id in left && IsSnapshot(sorted, Part(st, st.Keys - left))
    requires forall d :: d in sorted ==> Before(d.id, id)
    ensures IsSnapshot(sorted + [st[id]], Part(st, st.Keys - (left - {id})))
  {
    var longer, part, part' := sorted + [st[id]], Part(st, st.Keys - left), Part(st, st.Keys - (left - {id}));
    assert longer[|sorted|].id == id;
    forall k | k in part' ensures HasId(longer, k) {
      if k != id {
        assert HasId(sorted, k);
        var i :| 0 <= i < |sorted| && sorted[i].id == k;
        assert longer[i].id == k;
      }
    }
    forall i | 0 <= i < |longer| ensures longer[i].id in part' && part'[longer[i].id] == longer[i] {
      assert i < |sorted| ==> longer[i] == sorted[i] && sorted[i].id in part;
    }
  }

  lemma {:induction false} StaysFailed(st: Store, batch: Batch, n: nat, valid: Device -> bool)
    requires n <= |batch| && PerformAll(st, batch[..n], valid).error != None
    ensures PerformAll(st, batch, valid) == PerformAll(st, batch[..n], valid)
    decreases |batch| - n
  {
    if n == |batch| {
      assert batch[..n] == batch;
    } else {
      assert batch[..n + 1][..n] == batch[..n];
      StaysFailed(st, batch, n + 1, valid);
    }
  }

  /** The fields of the storage service that its mutex guards. */
  class DeviceStorageService {
    var queue: seq<Batch>
    var results: seq<StorageResult>
    var stopRequested: bool

    constructor ()
      ensures queue == [[DeviceCommand(Refresh, "", None)]] && results == [] && !stopRequested
    {
      queue, results, stopRequested := [[DeviceCommand(Refresh, "", None)]], [], false;
    }

    method Submit(batch: Batch)
      modifies this
      ensures queue == if batch == [] then old(queue) else old(queue) + [batch]
      ensures results == old(results) && stopRequested == old(stopRequested)
    {
      if batch == [] {
        return;
      }
      queue := queue + [batch];
    }

    method PollResults() returns (taken: seq<StorageResult>)
      modifies this
      ensures taken == old(results) && results == [] && queue == old(queue) && stopRequested == old(stopRequested)
    {
      taken := results;
      results := [];
    }
  }

  /** Hands the view's commands to the store and shows what came back; true when a result was a failure. */
  method PumpStorage(storage: DeviceStorageService, state: DeviceMonitorState) returns (failed: bool)
    modifies storage, state
    ensures forall s: State ::
              && s.view == old(state.Value()) && s.queue == old(storage.queue) && s.results == old(storage.results)
              && s.stopRequested == old(storage.stopRequested) && !s.failed ==>
                var s' := PollAndShow(SubmitCommands(s));
                && state.Value() == s'.view && storage.queue == s'.queue && storage.results == s'.results
                && storage.stopRequested == s'.stopRequested && failed == s'.failed
  {
    var commands := state.ConsumeCommands();
    storage.Submit(commands);
    var results := storage.PollResults();
    ghost var view := state.Value();
    for i := 0 to |results|
      invariant Replace(view, results) == Replace(state.Value(), results[i..])
      invariant storage.queue == old(storage.queue) + (if commands == [] then [] else [commands])
      invariant storage.results == [] && storage.stopRequested == old(storage.stopRequested)
    {
      if !results[i].success {
        storage.stopRequested := true;
        return true;
      }
      assert results[i..][1..] == results[i + 1..];
      state.ReplaceDevices(results[i].devices);
    }
    return false;
  }
}
