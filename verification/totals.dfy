/**
 * The recalculation of the `total` table from `devices`: three correlated
 * `IFNULL(SUM(count), 0)` sub-selects and a residual, written once as the
 * statement's SET list and evaluated the way MySQL evaluates it, in a
 * targeted form (one key) and a bulk form (every row).
 */
module Totals {
  import opened Wrappers
  import opened Tables

  const HuYaoSite: string := "HuYao"
  const GdlSite: string := "GDL"

  /** The WHERE condition of one recalculation sub-select. */
  datatype Scope = NameAndModel(name: string, model: string) | NameAt(name: string, location: string)

  predicate InScope(e: Entry, sc: Scope) {
    match sc
    case NameAndModel(n, m) => e.name == n && e.model == m
    case NameAt(n, loc) => e.name == n && e.location == loc
  }

  /** What one device adds to a sum over the scope. */
  function Contribution(e: Entry, sc: Scope): int {
    if InScope(e, sc) then e.count else 0
  }

  /**
   * `IFNULL(SUM(count), 0)` over the devices in scope: zero when no device is
   * in scope, and never negative when no count is.
   */
  function SumCount(ds: seq<Device>, sc: Scope): (r: int)
    ensures (forall i :: 0 <= i < |ds| ==> !InScope(ds[i].entry, sc)) ==> r == 0
    ensures (forall i :: 0 <= i < |ds| ==> ds[i].entry.count >= 0) ==> r >= 0
  {
    if ds == [] then 0
    else
      assert forall i :: 1 <= i < |ds| ==> ds[1..][i - 1] == ds[i];
      Contribution(ds[0].entry, sc) + SumCount(ds[1..], sc)
  }

  /**
   * The row the recalculation writes for key `k`: the count received for the
   * exact (name, model), the counts at the two named sites for the NAME alone
   * (whatever the model), and the residual, which has no floor. The row
   * balances: what was received is split between HuYao, GDL and NaQing.
   */
  function Recomputed(ds: seq<Device>, k: Key): (r: TotalRow)
    ensures KeyOf(r) == k
    ensures r.received == r.huYao + r.gdl + r.naQing
  {
    var received := SumCount(ds, NameAndModel(k.name, k.model));
    var huYao := SumCount(ds, NameAt(k.name, HuYaoSite));
    var gdl := SumCount(ds, NameAt(k.name, GdlSite));
    TotalRow(k.name, k.model, received, huYao, gdl, received - huYao - gdl)
  }

  /**
   * With no device of the key's name every column of the recalculated row is
   * zero; with no negative count its three sums are never negative.
   */
  lemma RecomputedBounds(ds: seq<Device>, k: Key)
    ensures (forall i :: 0 <= i < |ds| ==> ds[i].entry.name != k.name) ==> Recomputed(ds, k) == TotalRow(k.name, k.model, 0, 0, 0, 0)
    ensures (forall i :: 0 <= i < |ds| ==> ds[i].entry.count >= 0) ==>
              0 <= Recomputed(ds, k).received && 0 <= Recomputed(ds, k).huYao && 0 <= Recomputed(ds, k).gdl
  {
  }

  // ---------------------------------------------------------------------------
  // The SET list and MySQL's evaluation of it

  /** The four derived columns of `total`. */
  datatype Measure = Received | HuYao | Gdl | NaQing

  /** The right-hand sides the statement uses: three sub-selects and the residual. */
  datatype Rhs = SumByNameModel | SumAtHuYao | SumAtGdl | Residual

  datatype Assignment = Assign(target: Measure, rhs: Rhs)

  /** `SET receivedcount = (...), HuYao = (...), GDL = (...), NaQing = receivedcount - HuYao - GDL` */
  const SetList: seq<Assignment> := [
    Assign(Received, SumByNameModel),
    Assign(HuYao, SumAtHuYao),
    Assign(Gdl, SumAtGdl),
    Assign(NaQing, Residual)
  ]

  /**
   * What the sub-selects compare against: the name and model of the
   * received sum, the name of the HuYao sum and the name of the GDL sum.
   */
  datatype SumArgs = SumArgs(name: string, model: string, huYaoName: string, gdlName: string)

  /** The sub-selects all reading one key, as the bulk statement's correlation does. */
  function Correlated(k: Key): SumArgs {
    SumArgs(k.name, k.model, k.name, k.name)
  }

  function Put(t: TotalRow, m: Measure, v: int): TotalRow {
    match m
    case Received => t.(received := v)
    case HuYao => t.(huYao := v)
    case Gdl => t.(gdl := v)
    case NaQing => t.(naQing := v)
  }

  /** A right-hand side's value: a sub-select reads its arguments `p`, the residual reads the row `t`. */
  function EvalRhs(rhs: Rhs, p: SumArgs, t: TotalRow, ds: seq<Device>): int {
    match rhs
    case SumByNameModel => SumCount(ds, NameAndModel(p.name, p.model))
    case SumAtHuYao => SumCount(ds, NameAt(p.huYaoName, HuYaoSite))
    case SumAtGdl => SumCount(ds, NameAt(p.gdlName, GdlSite))
    case Residual => t.received - t.huYao - t.gdl
  }

  /**
   * MySQL's single-table UPDATE: the assignments run left to right and each
   * right-hand side sees the values already assigned to the row. This is the
   * evaluation order the backend relies on for its residual.
   */
  function AssignInOrder(t: TotalRow, p: SumArgs, assigns: seq<Assignment>, ds: seq<Device>): TotalRow
    decreases |assigns|
  {
    if assigns == [] then t
    else
      var a := assigns[0];
      AssignInOrder(Put(t, a.target, EvalRhs(a.rhs, p, t, ds)), p, assigns[1..], ds)
  }

  /** Standard SQL, for comparison: every right-hand side reads the row as it stood before. */
  function AssignAtOnce(t: TotalRow, before: TotalRow, p: SumArgs, assigns: seq<Assignment>, ds: seq<Device>): TotalRow
    decreases |assigns|
  {
    if assigns == [] then t
    else
      var a := assigns[0];
      AssignAtOnce(Put(t, a.target, EvalRhs(a.rhs, p, before, ds)), before, p, assigns[1..], ds)
  }

  /**
   * Under MySQL's order the SET list keeps the row's key, writes each sum
   * from its own sub-select, and writes the residual of the three new sums.
   */
  lemma SetListInOrder(t: TotalRow, p: SumArgs, ds: seq<Device>)
    ensures var r := AssignInOrder(t, p, SetList, ds);
      && KeyOf(r) == KeyOf(t)
      && r.received == SumCount(ds, NameAndModel(p.name, p.model))
      && r.huYao == SumCount(ds, NameAt(p.huYaoName, HuYaoSite))
      && r.gdl == SumCount(ds, NameAt(p.gdlName, GdlSite))
      && r.naQing == r.received - r.huYao - r.gdl
  {
    var t1 := Put(t, Received, EvalRhs(SumByNameModel, p, t, ds));
    var t2 := Put(t1, HuYao, EvalRhs(SumAtHuYao, p, t1, ds));
    var t3 := Put(t2, Gdl, EvalRhs(SumAtGdl, p, t2, ds));
    assert SetList[1..] == [Assign(HuYao, SumAtHuYao), Assign(Gdl, SumAtGdl), Assign(NaQing, Residual)];
    assert SetList[1..][1..] == [Assign(Gdl, SumAtGdl), Assign(NaQing, Residual)];
    assert SetList[1..][1..][1..] == [Assign(NaQing, Residual)];
    assert AssignInOrder(t, p, SetList, ds) == AssignInOrder(t1, p, SetList[1..], ds);
    assert AssignInOrder(t1, p, SetList[1..], ds) == AssignInOrder(t2, p, SetList[1..][1..], ds);
    assert AssignInOrder(t2, p, SetList[1..][1..], ds) == AssignInOrder(t3, p, SetList[1..][1..][1..], ds);
    assert AssignInOrder(t3, p, SetList[1..][1..][1..], ds) == t3.(naQing := t3.received - t3.huYao - t3.gdl);
  }

  /**
   * With every sub-select reading key `k`, the SET list writes the row
   * recalculated for `k`, under the row's own key.
   */
  lemma SetListRecomputes(t: TotalRow, k: Key, ds: seq<Device>)
    ensures AssignInOrder(t, Correlated(k), SetList, ds) == Recomputed(ds, k).(name := t.name, model := t.model)
    ensures KeyOf(t) == k ==> AssignInOrder(t, Correlated(k), SetList, ds) == Recomputed(ds, k)
  {
    SetListInOrder(t, Correlated(k), ds);
  }

  /**
   * Under simultaneous assignment the residual would read the row's OLD
   * counts, so the statement would write the recalculated row only when the
   * old residual happens to equal the new one.
   */
  lemma SetListAtOnce(t: TotalRow, k: Key, ds: seq<Device>)
    requires KeyOf(t) == k
    ensures AssignAtOnce(t, t, Correlated(k), SetList, ds).naQing == t.received - t.huYao - t.gdl
    ensures AssignAtOnce(t, t, Correlated(k), SetList, ds) == Recomputed(ds, k)
        <==> t.received - t.huYao - t.gdl == Recomputed(ds, k).naQing
  {
    var p := Correlated(k);
    var r := Recomputed(ds, k);
    var t1 := t.(received := r.received);
    var t2 := t1.(huYao := r.huYao);
    var t3 := t2.(gdl := r.gdl);
    assert SetList[1..] == [Assign(HuYao, SumAtHuYao), Assign(Gdl, SumAtGdl), Assign(NaQing, Residual)];
    assert SetList[1..][1..] == [Assign(Gdl, SumAtGdl), Assign(NaQing, Residual)];
    assert SetList[1..][1..][1..] == [Assign(NaQing, Residual)];
    assert AssignAtOnce(t, t, p, SetList, ds) == AssignAtOnce(t1, t, p, SetList[1..], ds);
    assert AssignAtOnce(t1, t, p, SetList[1..], ds) == AssignAtOnce(t2, t, p, SetList[1..][1..], ds);
    assert AssignAtOnce(t2, t, p, SetList[1..][1..], ds) == AssignAtOnce(t3, t, p, SetList[1..][1..][1..], ds);
    assert AssignAtOnce(t3, t, p, SetList[1..][1..][1..], ds) == t3.(naQing := t.received - t.huYao - t.gdl);
    assert r.naQing == r.received - r.huYao - r.gdl;
  }

  // ---------------------------------------------------------------------------
  // The targeted statement and the values bound to it

  /**
   * The targeted statement's six `?`, in the order they stand in its text:
   * the received sum's name and model, the HuYao sum's name, the GDL sum's
   * name, then the WHERE's name and model.
   */
  datatype TargetedArgs = TargetedArgs(sums: SumArgs, whereName: string, whereModel: string)

  const TargetedPlaceholders: nat := 6

  /**
   * The client library fills the placeholders by position: the i-th value
   * goes to the i-th `?`, and values past the last `?` are dropped.
   */
  function BindPositional(vs: seq<string>): TargetedArgs
    requires |vs| >= TargetedPlaceholders
  {
    TargetedArgs(SumArgs(vs[0], vs[1], vs[2], vs[3]), vs[4], vs[5])
  }

  /** Which value list a handler passes with the targeted statement. */
  datatype Binding =
    | AsWritten   // `[name, model, name, name, name, name, model]`: seven values for six `?`
    | AsIntended  // `[name, model, name, name, name, model]`: one value per `?`

  /**
   * The value list passed with the targeted statement for key `k`. Bound by
   * position, either list gives every sub-select the key's name (and the
   * received sum its model); they differ in the WHERE's model, which the
   * list as written binds to the name.
   */
  function TargetedValues(b: Binding, k: Key): (vs: seq<string>)
    ensures |vs| >= TargetedPlaceholders
    ensures BindPositional(vs).sums == Correlated(k)
    ensures BindPositional(vs).whereName == k.name
    ensures BindPositional(vs).whereModel == if b == AsWritten then k.name else k.model
  {
    match b
    case AsWritten => [k.name, k.model, k.name, k.name, k.name, k.name, k.model]
    case AsIntended => [k.name, k.model, k.name, k.name, k.name, k.model]
  }

  /** `UPDATE total SET ... WHERE name = ? AND model = ?`, issued with its arguments bound. */
  function IssueTargeted(ts: seq<TotalRow>, a: TargetedArgs, ds: seq<Device>): (r: seq<TotalRow>)
    ensures |r| == |ts|
    ensures forall i :: 0 <= i < |ts| ==>
              r[i] == if KeyOf(ts[i]) == Key(a.whereName, a.whereModel) then AssignInOrder(ts[i], a.sums, SetList, ds) else ts[i]
  {
    if ts == [] then []
    else
      assert forall i :: 1 <= i < |ts| ==> ts[1..][i - 1] == ts[i];
      var head := if KeyOf(ts[0]) == Key(a.whereName, a.whereModel) then AssignInOrder(ts[0], a.sums, SetList, ds) else ts[0];
      [head] + IssueTargeted(ts[1..], a, ds)
  }

  /**
   * The evidently intended targeted recalculation: every row keyed by `k` is
   * recalculated, every other row is left as it was, and no row is added
   * when none is keyed by `k`.
   */
  function UpdateTotal(ts: seq<TotalRow>, k: Key, ds: seq<Device>): (r: seq<TotalRow>)
    ensures |r| == |ts|
    ensures forall i :: 0 <= i < |ts| ==> r[i] == if KeyOf(ts[i]) == k then Recomputed(ds, k) else ts[i]
  {
    if ts == [] then []
    else
      assert forall i :: 1 <= i < |ts| ==> ts[1..][i - 1] == ts[i];
      var head := if KeyOf(ts[0]) == k then AssignInOrder(ts[0], Correlated(k), SetList, ds) else ts[0];
      SetListRecomputes(ts[0], k, ds);
      [head] + UpdateTotal(ts[1..], k, ds)
  }

  /**
   * The targeted statement as a handler issues it for key `k` = (N, M).
   * With the intended values it is `UpdateTotal`. With the values the
   * handlers pass, the fifth and sixth `?` both receive N, so the rows
   * rewritten are those keyed (N, N), each given the sums for (N, M), and a
   * row keyed (N, M) with M != N is never touched.
   */
  function TargetedUpdate(b: Binding, ts: seq<TotalRow>, k: Key, ds: seq<Device>): (r: seq<TotalRow>)
    ensures |r| == |ts|
    ensures b == AsIntended ==> r == UpdateTotal(ts, k, ds)
    ensures b == AsWritten ==> forall i :: 0 <= i < |ts| ==>
              r[i] == if KeyOf(ts[i]) == Key(k.name, k.name) then Recomputed(ds, k).(model := k.name) else ts[i]
  {
    var a := BindPositional(TargetedValues(b, k));
    var r := IssueTargeted(ts, a, ds);
    assert forall i :: 0 <= i < |ts| ==> r[i] == if KeyOf(ts[i]) == Key(a.whereName, a.whereModel) then AssignInOrder(ts[i], Correlated(k), SetList, ds) else ts[i];
    assert forall i :: 0 <= i < |ts| ==> AssignInOrder(ts[i], Correlated(k), SetList, ds) == Recomputed(ds, k).(name := ts[i].name, model := ts[i].model) by {
      forall i | 0 <= i < |ts| {
        SetListRecomputes(ts[i], k, ds);
      }
    }
    r
  }

  /** When the model equals the name, the value list as written binds the statement as intended. */
  lemma WrittenIsIntendedWhenModelIsName(ts: seq<TotalRow>, k: Key, ds: seq<Device>)
    requires k.model == k.name
    ensures TargetedUpdate(AsWritten, ts, k, ds) == TargetedUpdate(AsIntended, ts, k, ds)
  {
  }

  /**
   * Issuing the targeted statement again for the same key overwrites what
   * the first one wrote: only the later devices matter. In particular it is
   * idempotent.
   */
  lemma TargetedOverwrites(b: Binding, ts: seq<TotalRow>, k: Key, ds: seq<Device>, ds': seq<Device>)
    ensures TargetedUpdate(b, TargetedUpdate(b, ts, k, ds), k, ds') == TargetedUpdate(b, ts, k, ds')
  {
  }

  /**
   * The bulk `UPDATE total SET ...` with the sub-selects correlated on
   * `total.name` and `total.model`: every row is recalculated for its own key.
   */
  function UpdateAllTotals(ts: seq<TotalRow>, ds: seq<Device>): (r: seq<TotalRow>)
    ensures |r| == |ts|
    ensures forall i :: 0 <= i < |ts| ==> r[i] == Recomputed(ds, KeyOf(ts[i]))
  {
    if ts == [] then []
    else
      assert forall i :: 1 <= i < |ts| ==> ts[1..][i - 1] == ts[i];
      var head := AssignInOrder(ts[0], Correlated(KeyOf(ts[0])), SetList, ds);
      SetListRecomputes(ts[0], KeyOf(ts[0]), ds);
      assert head == Recomputed(ds, KeyOf(ts[0]));
      [head] + UpdateAllTotals(ts[1..], ds)
  }

  /** Every row holds the recalculated values for its own key. */
  predicate Consistent(ts: seq<TotalRow>, ds: seq<Device>) {
    forall i :: 0 <= i < |ts| ==> ts[i] == Recomputed(ds, KeyOf(ts[i]))
  }

  function KeysOf(ts: seq<TotalRow>): (ks: seq<Key>)
    ensures |ks| == |ts|
    ensures forall i :: 0 <= i < |ts| ==> ks[i] == KeyOf(ts[i])
  {
    if ts == [] then [] else [KeyOf(ts[0])] + KeysOf(ts[1..])
  }

  /** The intended targeted statement, `UpdateTotal`, issued once for each key of `ks`, in order. */
  function UpdateEach(ts: seq<TotalRow>, ks: seq<Key>, ds: seq<Device>): seq<TotalRow>
    decreases |ks|
  {
    if ks == [] then ts else UpdateEach(UpdateTotal(ts, ks[0], ds), ks[1..], ds)
  }

  /** The rows of `ts` whose key is in `done` recalculated, the others as they were. */
  function RecalculatedFor(ts: seq<TotalRow>, done: set<Key>, ds: seq<Device>): (r: seq<TotalRow>)
    ensures |r| == |ts|
    ensures forall i :: 0 <= i < |ts| ==> r[i] == if KeyOf(ts[i]) in done then Recomputed(ds, KeyOf(ts[i])) else ts[i]
  {
    seq(|ts|, i requires 0 <= i < |ts| => if KeyOf(ts[i]) in done then Recomputed(ds, KeyOf(ts[i])) else ts[i])
  }

  lemma TargetedExtends(ts: seq<TotalRow>, done: set<Key>, k: Key, ds: seq<Device>)
    ensures UpdateTotal(RecalculatedFor(ts, done, ds), k, ds) == RecalculatedFor(ts, done + {k}, ds)
  {
  }

  lemma {:induction false} UpdateEachRecalculates(ts: seq<TotalRow>, done: set<Key>, ks: seq<Key>, ds: seq<Device>)
    ensures UpdateEach(RecalculatedFor(ts, done, ds), ks, ds) == RecalculatedFor(ts, done + (set k | k in ks), ds)
    decreases |ks|
  {
    if ks == [] {
      assert done + (set k | k in ks) == done;
    } else {
      TargetedExtends(ts, done, ks[0], ds);
      UpdateEachRecalculates(ts, done + {ks[0]}, ks[1..], ds);
      assert done + {ks[0]} + (set k | k in ks[1..]) == done + (set k | k in ks);
    }
  }

  /**
   * The bulk statement leaves `total` exactly as issuing the intended
   * targeted statement (`UpdateTotal`) for the key of every existing row,
   * one after another, would.
   */
  lemma BulkIsTargetedForEveryRow(ts: seq<TotalRow>, ds: seq<Device>)
    ensures UpdateAllTotals(ts, ds) == UpdateEach(ts, KeysOf(ts), ds)
  {
    assert RecalculatedFor(ts, {}, ds) == ts;
    UpdateEachRecalculates(ts, {}, KeysOf(ts), ds);
    var all := {} + (set k | k in KeysOf(ts));
    assert forall i :: 0 <= i < |ts| ==> KeyOf(ts[i]) in all by {
      forall i | 0 <= i < |ts|
        ensures KeyOf(ts[i]) in all
      {
        assert KeysOf(ts)[i] == KeyOf(ts[i]);
      }
    }
  }

  /**
   * The targeted statement as the handlers issue it is no stand-in for the
   * bulk one: issued for the key of a stale row whose model differs from its
   * name, it leaves that row as it was, while the bulk statement
   * recalculates it.
   */
  lemma WrittenTargetedMissesRow(ts: seq<TotalRow>, ds: seq<Device>, i: int)
    requires 0 <= i < |ts| && ts[i].model != ts[i].name && ts[i] != Recomputed(ds, KeyOf(ts[i]))
    ensures TargetedUpdate(AsWritten, ts, KeyOf(ts[i]), ds)[i] == ts[i]
    ensures UpdateAllTotals(ts, ds)[i] != ts[i]
  {
  }

  /**
   * An instance: a zeroed Router X1 row and one Router X1 device of count 5.
   * Issued as written for (Router, X1), the targeted statement changes
   * nothing; the bulk statement does not leave the row as it was.
   */
  lemma BulkIsNotWrittenTargeted(ts: seq<TotalRow>, ds: seq<Device>)
    requires ts == [TotalRow("Router", "X1", 0, 0, 0, 0)]
    requires ds == [Device(1, Entry("ali", "2024-05-01", "Router", "X1", 5, "lab", "Lab"))]
    ensures TargetedUpdate(AsWritten, ts, Key("Router", "X1"), ds) == ts
    ensures UpdateAllTotals(ts, ds) != ts
  {
    assert "X1"[0] != "Router"[0];
    assert SumCount(ds, NameAndModel("Router", "X1")) == 5;
    WrittenTargetedMissesRow(ts, ds, 0);
  }

  /** The bulk statement leaves `total` consistent and keeps its keys. */
  lemma BulkMakesConsistent(ts: seq<TotalRow>, ds: seq<Device>)
    ensures Consistent(UpdateAllTotals(ts, ds), ds)
    ensures KeysOf(UpdateAllTotals(ts, ds)) == KeysOf(ts)
  {
  }

  /** A consistent table is exactly one the bulk statement does not change. */
  lemma ConsistentIsFixpoint(ts: seq<TotalRow>, ds: seq<Device>)
    ensures Consistent(ts, ds) <==> UpdateAllTotals(ts, ds) == ts
  {
  }

  /** Running the bulk statement twice with no change to `devices` gives the same table as running it once. */
  lemma BulkIdempotent(ts: seq<TotalRow>, ds: seq<Device>)
    ensures UpdateAllTotals(UpdateAllTotals(ts, ds), ds) == UpdateAllTotals(ts, ds)
  {
  }

  // ---------------------------------------------------------------------------
  // How one device moves the recalculated values

  lemma {:induction false} SumAppend(a: seq<Device>, b: seq<Device>, sc: Scope)
    ensures SumCount(a + b, sc) == SumCount(a, sc) + SumCount(b, sc)
  {
    if a == [] {
      assert a + b == b;
    } else {
      assert (a + b)[0] == a[0];
      assert (a + b)[1..] == a[1..] + b;
      SumAppend(a[1..], b, sc);
    }
  }

  /** Deleting the one device with a given id takes exactly its contribution out of every sum. */
  lemma {:induction false} SumWithoutId(ds: seq<Device>, id: int, d: Device, sc: Scope)
    requires UniqueIds(ds)
    requires Lookup(ds, id) == Some(d)
    ensures SumCount(RemoveId(ds, id), sc) == SumCount(ds, sc) - Contribution(d.entry, sc)
  {
    var tail := ds[1..];
    assert UniqueIds(tail) by {
      forall i, j | 0 <= i < j < |tail|
        ensures tail[i].id != tail[j].id
      {
        assert tail[i] == ds[i + 1] && tail[j] == ds[j + 1];
      }
    }
    if ds[0].id == id {
      assert !HasId(tail, id) by {
        forall i | 0 <= i < |tail|
          ensures tail[i].id != id
        {
          assert tail[i] == ds[i + 1];
        }
      }
    } else {
      SumWithoutId(tail, id, d, sc);
      var rest := RemoveId(tail, id);
      assert ([ds[0]] + rest)[0] == ds[0];
      assert ([ds[0]] + rest)[1..] == rest;
    }
  }

  /** The device `e` bears on the row keyed by `k`: same name and model, or same name at a named site. */
  predicate Touches(e: Entry, k: Key) {
    e.name == k.name && (e.model == k.model || e.location == HuYaoSite || e.location == GdlSite)
  }

  /** The recalculated row for `k` after `e`'s count is added to (sign 1) or taken from (sign -1) the devices. */
  function Moved(t: TotalRow, e: Entry, sign: int): TotalRow {
    var k := KeyOf(t);
    var received := t.received + sign * Contribution(e, NameAndModel(k.name, k.model));
    var huYao := t.huYao + sign * Contribution(e, NameAt(k.name, HuYaoSite));
    var gdl := t.gdl + sign * Contribution(e, NameAt(k.name, GdlSite));
    t.(received := received, huYao := huYao, gdl := gdl, naQing := received - huYao - gdl)
  }

  /** A move leaves a recalculated row unchanged exactly when the device does not bear on it or counts zero. */
  lemma MovedUnchanged(ds: seq<Device>, k: Key, e: Entry, sign: int)
    requires sign == 1 || sign == -1
    ensures Moved(Recomputed(ds, k), e, sign) == Recomputed(ds, k) <==> !Touches(e, k) || e.count == 0
  {
  }

  /** When each of the three sums moves by `e`'s contribution, so does the recalculated row. */
  lemma SumsMove(ds: seq<Device>, ds': seq<Device>, k: Key, e: Entry, sign: int)
    requires sign == 1 || sign == -1
    requires SumCount(ds', NameAndModel(k.name, k.model)) == SumCount(ds, NameAndModel(k.name, k.model)) + sign * Contribution(e, NameAndModel(k.name, k.model))
    requires SumCount(ds', NameAt(k.name, HuYaoSite)) == SumCount(ds, NameAt(k.name, HuYaoSite)) + sign * Contribution(e, NameAt(k.name, HuYaoSite))
    requires SumCount(ds', NameAt(k.name, GdlSite)) == SumCount(ds, NameAt(k.name, GdlSite)) + sign * Contribution(e, NameAt(k.name, GdlSite))
    ensures Recomputed(ds', k) == Moved(Recomputed(ds, k), e, sign)
    ensures Recomputed(ds', k) == Recomputed(ds, k) <==> !Touches(e, k) || e.count == 0
  {
    MovedUnchanged(ds, k, e, sign);
  }

  /** Inserting a device moves each recalculated row by that device's count. */
  lemma InsertMoves(ds: seq<Device>, d: Device, k: Key)
    ensures Recomputed(ds + [d], k) == Moved(Recomputed(ds, k), d.entry, 1)
    ensures Recomputed(ds + [d], k) == Recomputed(ds, k) <==> !Touches(d.entry, k) || d.entry.count == 0
  {
    SumAppend(ds, [d], NameAndModel(k.name, k.model));
    SumAppend(ds, [d], NameAt(k.name, HuYaoSite));
    SumAppend(ds, [d], NameAt(k.name, GdlSite));
    SumsMove(ds, ds + [d], k, d.entry, 1);
  }

  /** Deleting a device by its id moves each recalculated row back by that device's count. */
  lemma RemoveMoves(ds: seq<Device>, id: int, d: Device, k: Key)
    requires UniqueIds(ds)
    requires Lookup(ds, id) == Some(d)
    ensures Recomputed(RemoveId(ds, id), k) == Moved(Recomputed(ds, k), d.entry, -1)
    ensures Recomputed(RemoveId(ds, id), k) == Recomputed(ds, k) <==> !Touches(d.entry, k) || d.entry.count == 0
  {
    SumWithoutId(ds, id, d, NameAndModel(k.name, k.model));
    SumWithoutId(ds, id, d, NameAt(k.name, HuYaoSite));
    SumWithoutId(ds, id, d, NameAt(k.name, GdlSite));
    SumsMove(ds, RemoveId(ds, id), k, d.entry, -1);
  }
}
