/** Devices and the validation every device passes before it is stored. */
module DeviceItems {
  import opened Common
  import Utf8
  import Addresses

  type uint16 = x: int | 0 <= x < 0x10000

  /** A device, as the view shows it and as the database stores it: the two records have the same fields. */
  datatype Device = Device(id: string, name: string, address: string, port: uint16, alive: bool)

  datatype Field = IdField | NameField | AddressField | CollectionField

  predicate SizedUtf8(value: string, maximum: nat) {
    1 <= |value| <= maximum && Utf8.ValidUtf8(value)
  }

  /** What the store accepts. */
  predicate StoreValid(d: Device) {
    SizedUtf8(d.id, 128) && SizedUtf8(d.name, 256) && Addresses.IsAddress(d.address)
  }

  /** The CHECK constraints of the version 1 table, on the values bound for a device. */
  predicate SatisfiesChecks(d: Device) {
    && 1 <= |d.id| <= 128 && 1 <= |d.name| <= 256 && 1 <= |d.address| <= 253
    && 0 <= d.port <= 65535 && (if d.alive then 1 else 0) in {0, 1}
  }

  /** Every validated device satisfies all CHECK constraints. */
  lemma {:induction false} ValidDeviceSatisfiesChecks(d: Device)
    requires StoreValid(d)
    ensures SatisfiesChecks(d)
  {
    Addresses.AddressClasses(d.address);
  }

  /** The first field that is wrong, in the order the validator looks. */
  function FirstBadField(d: Device): (f: Option<Field>)
    ensures f == None <==> StoreValid(d)
  {
    if !SizedUtf8(d.id, 128) then Some(IdField)
    else if !SizedUtf8(d.name, 256) then Some(NameField)
    else if !Addresses.IsAddress(d.address) then Some(AddressField)
    else None
  }

  /** Which field is reported, and in which order they are looked at. */
  lemma {:induction false} BadFieldMeans(d: Device)
    ensures !SizedUtf8(d.id, 128) ==> FirstBadField(d) == Some(IdField)
    ensures SizedUtf8(d.id, 128) && !SizedUtf8(d.name, 256) ==> FirstBadField(d) == Some(NameField)
    ensures SizedUtf8(d.id, 128) && SizedUtf8(d.name, 256) && !Addresses.IsAddress(d.address) ==>
              FirstBadField(d) == Some(AddressField)
  {
  }

  lemma {:induction false} LettersAreUtf8(n: nat)
    ensures Utf8.ValidUtf8(seq(n, i => 'a'))
  {
    if n > 0 {
      var s := seq(n, i => 'a');
      LettersAreUtf8(n - 1);
      assert s[1..] == seq(n - 1, i => 'a');
      Utf8.AsciiFirst(s);
    }
  }

  /** The lengths of an id and of a name that the store takes, for a device that is good otherwise. */
  lemma {:induction false} LengthsMean(n: nat, d: Device)
    requires StoreValid(d)
    ensures StoreValid(d.(id := seq(n, i => 'a'))) <==> 1 <= n <= 128
    ensures StoreValid(d.(name := seq(n, i => 'a'))) <==> 1 <= n <= 256
  {
    LettersAreUtf8(n);
  }

  method ValidateSizedUtf8(value: string, maximum: nat) returns (ok: bool)
    ensures ok <==> SizedUtf8(value, maximum)
  {
    if value == "" || |value| > maximum {
      return false;
    }
    ok := Utf8.IsValidUtf8(value);
  }

  method IsValidAddress(address: string) returns (ok: bool)
    ensures ok <==> Addresses.IsAddress(address)
  {
    ok := Addresses.IsValidIpv4(address);
    if !ok {
      ok := Addresses.IsValidIpv6(address);
    }
    if !ok {
      ok := Addresses.IsValidHostname(address);
    }
  }

  method ValidateItem(d: Device) returns (bad: Option<Field>)
    ensures bad == FirstBadField(d)
  {
    var ok := ValidateSizedUtf8(d.id, 128);
    if !ok {
      return Some(IdField);
    }
    ok := ValidateSizedUtf8(d.name, 256);
    if !ok {
      return Some(NameField);
    }
    ok := IsValidAddress(d.address);
    if !ok {
      return Some(AddressField);
    }
    return None;
  }

  ghost predicate DistinctIds(ds: seq<Device>) {
    forall i, j :: 0 <= i < j < |ds| ==> ds[i].id != ds[j].id
  }

  /** A device check: the first field that is wrong, if any. */
  type Check = Device -> Option<Field>

  ghost predicate AllPass(ds: seq<Device>, check: Check) {
    forall i :: 0 <= i < |ds| ==> check(ds[i]) == None
  }

  ghost predicate HasId(ds: seq<Device>, id: string) {
    exists i :: 0 <= i < |ds| && ds[i].id == id
  }

  /** The first k devices of a replacement list pass: each is valid and its id is new. */
  ghost predicate Accepted(ds: seq<Device>, k: nat, check: Check)
    requires k <= |ds|
  {
    k == 0 || (Accepted(ds, k - 1, check) && check(ds[k - 1]) == None && !HasId(ds[..k - 1], ds[k - 1].id))
  }

  /** The device at position k is the first to be refused, for the given reason. */
  ghost predicate RefusedAt(ds: seq<Device>, k: nat, why: Field, check: Check) {
    && k < |ds| && Accepted(ds, k, check)
    && (check(ds[k]) == Some(why)
        || (check(ds[k]) == None && HasId(ds[..k], ds[k].id) && why == CollectionField))
  }

  method ValidateItems(ds: seq<Device>) returns (bad: Option<Field>)
    ensures bad == None ==> Accepted(ds, |ds|, FirstBadField)
    ensures bad != None ==> exists k :: RefusedAt(ds, k, bad.value, FirstBadField)
  {
    var ids: set<string> := {};
    for k := 0 to |ds|
      invariant Accepted(ds, k, FirstBadField)
      invariant forall id :: id in ids <==> HasId(ds[..k], id)
    {
      bad := ValidateItem(ds[k]);
      if bad != None {
        assert RefusedAt(ds, k, bad.value, FirstBadField);
        return;
      }
      if ds[k].id in ids {
        assert RefusedAt(ds, k, CollectionField, FirstBadField);
        return Some(CollectionField);
      }
      forall id ensures id in ids + {ds[k].id} <==> HasId(ds[..k + 1], id) {
        HasIdNext(ds, k, id);
      }
      ids := ids + {ds[k].id};
    }
    bad := None;
  }

  lemma {:induction false} HasIdNext(ds: seq<Device>, k: nat, id: string)
    requires k < |ds|
    ensures HasId(ds[..k + 1], id) <==> HasId(ds[..k], id) || ds[k].id == id
  {
    if HasId(ds[..k], id) {
      var i :| 0 <= i < k && ds[..k][i].id == id;
      assert ds[..k + 1][i].id == id;
    }
    if ds[k].id == id {
      assert ds[..k + 1][k].id == id;
    }
    if HasId(ds[..k + 1], id) && ds[k].id != id {
      var i :| 0 <= i < k + 1 && ds[..k + 1][i].id == id;
      assert ds[..k][i].id == id;
    }
  }

  lemma {:induction false} AcceptedMeaning(ds: seq<Device>, k: nat, check: Check)
    requires k <= |ds|
    ensures Accepted(ds, k, check) <==> AllPass(ds[..k], check) && DistinctIds(ds[..k])
  {
    if k > 0 {
      AcceptedMeaning(ds, k - 1, check);
      var before, upTo := ds[..k - 1], ds[..k];
      assert upTo == before + [ds[k - 1]];
      if HasId(before, ds[k - 1].id) {
        var i :| 0 <= i < |before| && before[i].id == ds[k - 1].id;
        assert upTo[i].id == upTo[k - 1].id;
      }
      if AllPass(upTo, check) && DistinctIds(upTo) {
        assert check(upTo[k - 1]) == None;
        assert forall i :: 0 <= i < k - 1 ==> before[i] == upTo[i];
      }
    }
  }

  /** So a list is refused exactly when some device in it is invalid or two share an id. */
  lemma {:induction false} RefusedIffBad(ds: seq<Device>, check: Check)
    ensures (exists k, why :: RefusedAt(ds, k, why, check)) <==> !(AllPass(ds, check) && DistinctIds(ds))
    ensures Accepted(ds, |ds|, check) <==> AllPass(ds, check) && DistinctIds(ds)
  {
    AcceptedMeaning(ds, |ds|, check);
    assert ds[..|ds|] == ds;
    forall k, why | RefusedAt(ds, k, why, check) ensures !Accepted(ds, |ds|, check) {
      RefusedStays(ds, k, |ds|, why, check);
    }
    if !Accepted(ds, |ds|, check) {
      var k, why := FirstRefusal(ds, |ds|, check);
    }
  }

  lemma {:induction false} RefusedStays(ds: seq<Device>, k: nat, n: nat, why: Field, check: Check)
    requires RefusedAt(ds, k, why, check) && k < n <= |ds|
    ensures !Accepted(ds, n, check)
  {
    if n > k + 1 {
      RefusedStays(ds, k, n - 1, why, check);
    }
  }

  lemma {:induction false} FirstRefusal(ds: seq<Device>, n: nat, check: Check) returns (k: nat, why: Field)
    requires n <= |ds| && !Accepted(ds, n, check)
    ensures RefusedAt(ds, k, why, check)
  {
    if !Accepted(ds, n - 1, check) {
      k, why := FirstRefusal(ds, n - 1, check);
    } else {
      k := n - 1;
      why := match check(ds[k]) case None => CollectionField case Some(f) => f;
    }
  }
}
