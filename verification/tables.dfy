/**
 * The three tables of the inventory database: `devices`, `trash` and `total`,
 * and the two row-level statements on `devices` the handlers issue by id.
 */
module Tables {
  import opened Wrappers

  /** The seven columns a client supplies for a device; a `trash` row holds exactly these. */
  datatype Entry = Entry(owner: string, date: string, name: string, model: string,
                         count: int, project: string, location: string)

  /** A row of `devices`: the id the store generates on insert, and the client's columns. */
  datatype Device = Device(id: int, entry: Entry)

  /** The (name, model) pair a `total` row is keyed by. */
  datatype Key = Key(name: string, model: string)

  /** A row of `total`: its key and the four derived counts. */
  datatype TotalRow = TotalRow(name: string, model: string,
                               received: int, huYao: int, gdl: int, naQing: int)

  function KeyOf(t: TotalRow): Key {
    Key(t.name, t.model)
  }

  function EntryKey(e: Entry): Key {
    Key(e.name, e.model)
  }

  predicate HasId(ds: seq<Device>, id: int) {
    exists i :: 0 <= i < |ds| && ds[i].id == id
  }

  predicate UniqueIds(ds: seq<Device>) {
    forall i, j :: 0 <= i < j < |ds| ==> ds[i].id != ds[j].id
  }

  /** `SELECT * FROM devices WHERE id = ?`, keeping the first row of the result. */
  function Lookup(ds: seq<Device>, id: int): (r: Option<Device>)
    ensures r.Some? <==> HasId(ds, id)
    ensures r.Some? ==> r.value in ds && r.value.id == id
  {
    if ds == [] then None
    else if ds[0].id == id then Some(ds[0])
    else
      assert forall i :: 1 <= i < |ds| ==> ds[i] == ds[1..][i - 1];
      Lookup(ds[1..], id)
  }

  /** `DELETE FROM devices WHERE id = ?`: every row with that id goes, the others keep their order. */
  function RemoveId(ds: seq<Device>, id: int): (r: seq<Device>)
    ensures forall d :: d in r <==> d in ds && d.id != id
    ensures |r| <= |ds|
    ensures !HasId(ds, id) ==> r == ds
  {
    if ds == [] then []
    else
      assert !HasId(ds, id) ==> !HasId(ds[1..], id) by {
        if !HasId(ds, id) {
          forall i | 0 <= i < |ds[1..]|
            ensures ds[1..][i].id != id
          {
            assert ds[1..][i] == ds[i + 1];
          }
        }
      }
      if ds[0].id == id then RemoveId(ds[1..], id)
      else [ds[0]] + RemoveId(ds[1..], id)
  }

  /** Deleting rows keeps the ids of the remaining ones distinct. */
  lemma {:induction false} RemoveIdKeepsUnique(ds: seq<Device>, id: int)
    ensures UniqueIds(ds) ==> UniqueIds(RemoveId(ds, id))
  {
    if ds != [] && UniqueIds(ds) {
      var tail := ds[1..];
      assert UniqueIds(tail) by {
        forall i, j | 0 <= i < j < |tail|
          ensures tail[i].id != tail[j].id
        {
          assert tail[i] == ds[i + 1] && tail[j] == ds[j + 1];
        }
      }
      RemoveIdKeepsUnique(tail, id);
      if ds[0].id != id {
        var rest := RemoveId(tail, id);
        forall j | 0 <= j < |rest|
          ensures rest[j].id != ds[0].id
        {
          assert rest[j] in tail;
          var k :| 0 <= k < |tail| && tail[k] == rest[j];
          assert tail[k] == ds[k + 1];
        }
        var r := [ds[0]] + rest;
        forall i, j | 0 <= i < j < |r|
          ensures r[i].id != r[j].id
        {
          if i == 0 {
            assert r[j] == rest[j - 1];
          } else {
            assert r[i] == rest[i - 1] && r[j] == rest[j - 1];
          }
        }
      }
    }
  }

  /** Looking an id up past a prefix that does not hold it. */
  lemma {:induction false} LookupAfter(a: seq<Device>, b: seq<Device>, id: int)
    requires !HasId(a, id)
    ensures Lookup(a + b, id) == Lookup(b, id)
  {
    if a == [] {
      assert a + b == b;
    } else {
      assert a[0].id != id;
      assert (a + b)[1..] == a[1..] + b;
      assert !HasId(a[1..], id) by {
        forall i | 0 <= i < |a[1..]|
          ensures a[1..][i].id != id
        {
          assert a[1..][i] == a[i + 1];
        }
      }
      LookupAfter(a[1..], b, id);
    }
  }

  /** Deleting an id from a concatenation deletes it from each part. */
  lemma {:induction false} RemoveIdAppend(a: seq<Device>, b: seq<Device>, id: int)
    ensures RemoveId(a + b, id) == RemoveId(a, id) + RemoveId(b, id)
  {
    if a == [] {
      assert a + b == b;
    } else {
      assert (a + b)[0] == a[0];
      assert (a + b)[1..] == a[1..] + b;
      RemoveIdAppend(a[1..], b, id);
    }
  }
}
