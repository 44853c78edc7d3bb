/** The id-sorted contents of the store, as `GetAllSortedById` returns them. */
module DeviceSnapshots {
  import opened DeviceItems
  import opened DeviceMonitor

  /** The store's text order: byte by byte, a proper prefix first. */
  predicate Before(a: string, b: string) {
    b != "" && (a == "" || a[0] < b[0] || (a[0] == b[0] && Before(a[1..], b[1..])))
  }

  /** In so many words: after what they have in common, a ends or has the smaller byte. */
  lemma {:induction false} BeforeMeans(a: string, b: string)
    ensures Before(a, b) <==> exists k :: SplitsBefore(a, b, k)
  {
    if a != "" && b != "" && a[0] == b[0] {
      BeforeMeans(a[1..], b[1..]);
      if k :| SplitsBefore(a[1..], b[1..], k) {
        assert a[..k + 1] == [a[0]] + a[1..][..k] && b[..k + 1] == [b[0]] + b[1..][..k];
        assert SplitsBefore(a, b, k + 1);
      }
      if k :| SplitsBefore(a, b, k) {
        assert k > 0;
        assert a[..k][1..] == a[1..][..k - 1] && b[..k][1..] == b[1..][..k - 1];
        assert SplitsBefore(a[1..], b[1..], k - 1);
      }
    } else {
      assert Before(a, b) ==> SplitsBefore(a, b, 0);
      if k :| SplitsBefore(a, b, k) {
        assert k > 0 ==> a[..k][0] == b[..k][0];
      }
    }
  }

  /** a and b agree up to k, where a ends and b goes on, or a has the smaller byte. */
  predicate SplitsBefore(a: string, b: string, k: int) {
    0 <= k <= |a| && k < |b| && a[..k] == b[..k] && (k == |a| || a[k] < b[k])
  }

  lemma {:induction false} BeforeIsTransitive(a: string, b: string, c: string)
    requires Before(a, b) && Before(b, c)
    ensures Before(a, c)
  {
    if a != "" && a[0] == b[0] == c[0] {
      BeforeIsTransitive(a[1..], b[1..], c[1..]);
    }
  }

  lemma {:induction false} BeforeIsTotal(a: string, b: string)
    ensures a != b ==> Before(a, b) || Before(b, a)
    ensures !(Before(a, b) && Before(b, a)) && !Before(a, a)
  {
    if a != "" && b != "" && a[0] == b[0] {
      BeforeIsTotal(a[1..], b[1..]);
      BeforeIsTotal(a[1..], a[1..]);
      assert a == [a[0]] + a[1..] && b == [b[0]] + b[1..];
    } else if a != "" {
      BeforeIsTotal(a[1..], a[1..]);
    }
  }

  ghost predicate SortedById(ds: seq<Device>) {
    forall i, j :: 0 <= i < j < |ds| ==> Before(ds[i].id, ds[j].id)
  }

  /** The list is the store's contents in id order. */
  ghost predicate IsSnapshot(ds: seq<Device>, st: Store) {
    Mirrors(st, ds) && SortedById(ds)
  }

  /** There is only one such list. */
  lemma {:induction false} SnapshotIsUnique(a: seq<Device>, b: seq<Device>, st: Store)
    requires IsSnapshot(a, st) && IsSnapshot(b, st)
    ensures a == b
  {
    assert b != [] ==> b[0].id in st;
    if a != [] {
      assert a[0].id in st && HasId(b, a[0].id);
      assert b[0].id in st && HasId(a, b[0].id);
      FirstIsLeast(a, b[0].id);
      FirstIsLeast(b, a[0].id);
      BeforeIsTotal(a[0].id, b[0].id);
      TailSnapshot(a, st);
      TailSnapshot(b, st);
      SnapshotIsUnique(a[1..], b[1..], st - {a[0].id});
      assert a == [a[0]] + a[1..] && b == [b[0]] + b[1..];
    }
  }

  lemma {:induction false} FirstIsLeast(ds: seq<Device>, id: string)
    requires SortedById(ds) && HasId(ds, id)
    ensures ds[0].id == id || Before(ds[0].id, id)
  {
  }

  lemma {:induction false} TailSnapshot(ds: seq<Device>, st: Store)
    requires IsSnapshot(ds, st) && ds != []
    ensures IsSnapshot(ds[1..], st - {ds[0].id})
  {
    forall i | 0 < i < |ds| ensures ds[i].id != ds[0].id {
      BeforeIsTotal(ds[0].id, ds[i].id);
    }
    forall id | id in st - {ds[0].id} ensures HasId(ds[1..], id) {
      var i :| 0 <= i < |ds| && ds[i].id == id;
      assert ds[1..][i - 1].id == id;
    }
  }

  /** And there is one for every store. */
  lemma {:induction false} SnapshotExists(st: Store, keys: set<string>) returns (ds: seq<Device>)
    requires keys == st.Keys && forall id :: id in st ==> st[id].id == id
    ensures IsSnapshot(ds, st)
    decreases |keys|
  {
    if keys == {} {
      ds := [];
    } else {
      var id :| id in keys;
      assert |keys - {id}| < |keys|;
      var rest := SnapshotExists(st - {id}, keys - {id});
      ds := InsertSnapshot(rest, st - {id}, st[id]);
      assert (st - {id})[id := st[id]] == st;
    }
  }

  lemma {:induction false} InsertSnapshot(ds: seq<Device>, st: Store, d: Device) returns (r: seq<Device>)
    requires IsSnapshot(ds, st) && d.id !in st
    ensures IsSnapshot(r, st[d.id := d])
    ensures forall x :: x in r <==> x == d || x in ds
    decreases |ds|
  {
    if ds == [] || Before(d.id, ds[0].id) {
      r := [d] + ds;
      Front(ds, st, d);
    } else {
      BeforeIsTotal(d.id, ds[0].id);
      assert ds[0].id in st;
      TailSnapshot(ds, st);
      var e := ds[0];
      var tail := InsertSnapshot(ds[1..], st - {e.id}, d);
      r := [e] + tail;
      assert tail != [] ==> tail[0] in tail;
      Front(tail, (st - {e.id})[d.id := d], e);
      assert (st - {e.id})[d.id := d][e.id := e] == st[d.id := d];
      assert ds == [e] + ds[1..];
    }
  }

  lemma {:induction false} Front(ds: seq<Device>, st: Store, d: Device)
    requires IsSnapshot(ds, st) && d.id !in st && (ds == [] || Before(d.id, ds[0].id))
    ensures IsSnapshot([d] + ds, st[d.id := d])
  {
    var r := [d] + ds;
    forall i | 0 < i < |ds| ensures Before(d.id, ds[i].id) {
      BeforeIsTransitive(d.id, ds[0].id, ds[i].id);
    }
    forall id | id in st[d.id := d] ensures HasId(r, id) {
      if id == d.id {
        assert r[0].id == id;
      } else {
        var i :| 0 <= i < |ds| && ds[i].id == id;
        assert r[i + 1].id == id;
      }
    }
  }
}
