/**
 * The device ledger: the state of the three tables and the six request
 * handlers over it. Every database call a handler makes is a step that may
 * fail; a failure ends the handler with an error and leaves in place whatever
 * the earlier steps wrote, since no handler runs inside a transaction.
 */
module Ledger {
  import opened Wrappers
  import opened Tables
  import opened Search
  import opened Totals

  /** The tables, and the store's auto-increment counter for `devices.id`. */
  datatype State = State(devices: seq<Device>, trash: seq<Entry>, totals: seq<TotalRow>, nextId: int)

  /** Device ids are distinct and below the counter, so the next one is fresh. */
  predicate Valid(s: State) {
    && UniqueIds(s.devices)
    && forall i :: 0 <= i < |s.devices| ==> s.devices[i].id < s.nextId
  }

  /** Which database call of a request, counted from 0, reports an error, if any. */
  datatype Fault = NoFault | FailAt(step: nat)

  predicate Fails(fault: Fault, step: nat) {
    fault == FailAt(step)
  }

  /** What the client sees: a payload, the not-found answer, or the error of the step that failed. */
  datatype Response<T> = Ok(value: T) | NotFound | Error(step: nat)

  datatype Outcome<T> = Outcome(response: Response<T>, state: State)

  /** GET /api/devices: one read of `devices`. */
  function ListDevices(s: State, fault: Fault): (o: Outcome<seq<Device>>)
    ensures o.state == s
    ensures o.response.Ok? <==> !Fails(fault, 0)
    ensures o.response.Ok? ==> o.response.value == s.devices
    ensures !o.response.Ok? ==> o.response == Error(0)
  {
    if Fails(fault, 0) then Outcome(Error(0), s) else Outcome(Ok(s.devices), s)
  }

  /** GET /api/totals: one read of `total`. */
  function GetTotals(s: State, fault: Fault): (o: Outcome<seq<TotalRow>>)
    ensures o.state == s
    ensures o.response.Ok? <==> !Fails(fault, 0)
    ensures o.response.Ok? ==> o.response.value == s.totals
    ensures !o.response.Ok? ==> o.response == Error(0)
  {
    if Fails(fault, 0) then Outcome(Error(0), s) else Outcome(Ok(s.totals), s)
  }

  /**
   * GET /api/search: one statement built from the filters. It changes nothing,
   * and returns exactly the devices that meet every present filter.
   */
  function SearchDevices(s: State, f: Filters, fault: Fault): (o: Outcome<seq<Device>>)
    ensures o.state == s
    ensures o.response.Ok? <==> !Fails(fault, 0)
    ensures !o.response.Ok? ==> o.response == Error(0)
    ensures o.response.Ok? ==>
              forall d :: d in o.response.value <==> d in s.devices && Satisfies(BuildQuery(f), d.entry)
    ensures o.response.Ok? && NoWildcards(f) ==>
              forall d :: d in o.response.value <==> d in s.devices && Matches(f, d.entry)
  {
    if Fails(fault, 0) then Outcome(Error(0), s)
    else
      SelectMeansMatches(s.devices, f);
      Outcome(Ok(Select(s.devices, BuildQuery(f))), s)
  }

  /**
   * POST /api/devices: insert the device (step 0), then issue the targeted
   * recalculation of `total` for its name and model with the value list `b`
   * (step 1). A failed insert changes nothing; a failed recalculation leaves
   * the device inserted and `total` as it was. The new device, with a fresh
   * id, is returned only when both steps succeed.
   */
  function CreateDevice(s: State, e: Entry, b: Binding, fault: Fault): (o: Outcome<Device>)
    ensures Fails(fault, 0) ==> o == Outcome(Error(0), s)
    ensures !Fails(fault, 0) ==> o.state.devices == s.devices + [Device(s.nextId, e)] && o.state.trash == s.trash
    ensures !Fails(fault, 0) ==> o.state.nextId == s.nextId + 1
    ensures Fails(fault, 1) ==> o.response == Error(1) && o.state.totals == s.totals
    ensures o.response.Ok? <==> !Fails(fault, 0) && !Fails(fault, 1)
    ensures o.response.Ok? ==> o.response.value == Device(s.nextId, e)
    ensures o.response.Ok? ==> o.state.totals == TargetedUpdate(b, s.totals, EntryKey(e), o.state.devices)
    ensures Valid(s) ==> Valid(o.state)
    ensures Valid(s) && o.response.Ok? ==> !HasId(s.devices, o.response.value.id)
  {
    if Fails(fault, 0) then Outcome(Error(0), s)
    else
      var d := Device(s.nextId, e);
      var inserted := s.(devices := s.devices + [d], nextId := s.nextId + 1);
      if Fails(fault, 1) then Outcome(Error(1), inserted)
      else Outcome(Ok(d), inserted.(totals := TargetedUpdate(b, inserted.totals, EntryKey(e), inserted.devices)))
  }

  /**
   * DELETE /api/devices/:id: look the device up (step 0); answer not-found
   * when it is absent; otherwise copy it to `trash` (step 1), delete it from
   * `devices` (step 2) and issue the targeted recalculation of `total` for its
   * name and model with the value list `b` (step 3). A failure at a step
   * leaves the earlier steps' writes in place.
   */
  function DeleteDevice(s: State, id: int, b: Binding, fault: Fault): (o: Outcome<()>)
    ensures o.response == NotFound <==> !Fails(fault, 0) && !HasId(s.devices, id)
    ensures !HasId(s.devices, id) ==> o.state == s
    ensures Fails(fault, 0) ==> o == Outcome(Error(0), s)
    ensures HasId(s.devices, id) && Fails(fault, 1) ==> o == Outcome(Error(1), s)
    ensures o.response.Ok? <==> HasId(s.devices, id) && forall k :: 0 <= k < 4 ==> !Fails(fault, k)
    ensures HasId(s.devices, id) ==>
              var d := Lookup(s.devices, id).value;
              var archived := s.(trash := s.trash + [d.entry]);
              var removed := archived.(devices := RemoveId(s.devices, id));
              && (Fails(fault, 2) ==> o == Outcome(Error(2), archived))
              && (Fails(fault, 3) ==> o == Outcome(Error(3), removed))
              && (o.response.Ok? ==> o.state == removed.(totals := TargetedUpdate(b, s.totals, EntryKey(d.entry), removed.devices)))
    ensures Valid(s) ==> Valid(o.state)
  {
    if Fails(fault, 0) then Outcome(Error(0), s)
    else match Lookup(s.devices, id)
      case None => Outcome(NotFound, s)
      case Some(d) =>
        if Fails(fault, 1) then Outcome(Error(1), s)
        else
          var archived := s.(trash := s.trash + [d.entry]);
          if Fails(fault, 2) then Outcome(Error(2), archived)
          else
            RemoveIdKeepsUnique(s.devices, id);
            var removed := archived.(devices := RemoveId(archived.devices, id));
            if Fails(fault, 3) then Outcome(Error(3), removed)
            else Outcome(Ok(()), removed.(totals := TargetedUpdate(b, removed.totals, EntryKey(d.entry), removed.devices)))
  }

  /**
   * POST /api/updateTotal: the bulk recalculation (step 0). On success every
   * `total` row holds the values recalculated for its own key, and no other
   * table changes; on failure nothing changes.
   */
  function RecalculateAll(s: State, fault: Fault): (o: Outcome<()>)
    ensures Fails(fault, 0) ==> o == Outcome(Error(0), s)
    ensures !Fails(fault, 0) ==> o.response == Ok(())
    ensures o.state.devices == s.devices && o.state.trash == s.trash && o.state.nextId == s.nextId
    ensures KeysOf(o.state.totals) == KeysOf(s.totals)
    ensures !Fails(fault, 0) ==> Consistent(o.state.totals, s.devices)
  {
    if Fails(fault, 0) then Outcome(Error(0), s)
    else
      BulkMakesConsistent(s.totals, s.devices);
      Outcome(Ok(()), s.(totals := UpdateAllTotals(s.totals, s.devices)))
  }

  // ---------------------------------------------------------------------------
  // Properties across handlers

  /** A search with every filter falsy answers exactly as listing the devices does. */
  lemma SearchWithoutFiltersIsList(s: State, f: Filters, fault: Fault)
    requires forall c :: !Truthy(Param(f, c))
    ensures SearchDevices(s, f, fault) == ListDevices(s, fault)
  {
    NoFiltersGiveBaseQuery(f);
    SelectAll(s.devices, BuildQuery(f));
    if !Fails(fault, 0) {
      assert SearchDevices(s, f, fault) == Outcome(Ok(Select(s.devices, BuildQuery(f))), s);
    }
  }

  /** Recalculating everything twice with nothing in between leaves the same tables as doing it once. */
  lemma RecalculateAllIdempotent(s: State)
    ensures RecalculateAll(RecalculateAll(s, NoFault).state, NoFault) == RecalculateAll(s, NoFault)
  {
  }

  /**
   * Creating a device and then deleting it by the id it was given restores
   * `devices`, leaves the device's columns in `trash`, and leaves `total` as
   * one targeted recalculation over the original devices would, with either
   * value list; with the intended one, a `total` that was consistent comes
   * back unchanged.
   */
  lemma CreateThenDelete(s: State, e: Entry, b: Binding)
    requires Valid(s)
    ensures var c := CreateDevice(s, e, b, NoFault);
      var d := DeleteDevice(c.state, c.response.value.id, b, NoFault);
      && d.response == Ok(())
      && d.state.devices == s.devices
      && d.state.trash == s.trash + [e]
      && d.state.totals == TargetedUpdate(b, s.totals, EntryKey(e), s.devices)
      && (b == AsIntended && Consistent(s.totals, s.devices) ==> d.state.totals == s.totals)
  {
    var c := CreateDevice(s, e, b, NoFault);
    var dev := Device(s.nextId, e);
    assert !HasId(s.devices, s.nextId);
    LookupAfter(s.devices, [dev], s.nextId);
    assert Lookup(c.state.devices, s.nextId) == Some(dev);
    RemoveIdAppend(s.devices, [dev], s.nextId);
    assert RemoveId([dev], s.nextId) == [];
    assert s.devices + [] == s.devices;
    var d := DeleteDevice(c.state, s.nextId, b, NoFault);
    assert d.state.devices == s.devices;
    TargetedOverwrites(b, s.totals, EntryKey(e), c.state.devices, s.devices);
    if b == AsIntended && Consistent(s.totals, s.devices) {
      assert forall i :: 0 <= i < |s.totals| ==> d.state.totals[i] == s.totals[i];
    }
  }

  /** Some `total` row other than the device's own (name, model) row is one the device bears on. */
  predicate BearsOnOtherRow(ts: seq<TotalRow>, e: Entry) {
    exists i :: 0 <= i < |ts| && KeyOf(ts[i]) != EntryKey(e) && Touches(e, KeyOf(ts[i]))
  }

  /** Some `total` row at all is one the device bears on. */
  predicate BearsOnSomeRow(ts: seq<TotalRow>, e: Entry) {
    exists i :: 0 <= i < |ts| && Touches(e, KeyOf(ts[i]))
  }

  /**
   * With the intended value list: from a consistent `total`, creating a
   * device with a non-zero count leaves `total` consistent exactly when no
   * row of another model with the same name is affected, that is, unless
   * the device sits at one of the two named sites and its name has other
   * models in `total`. The targeted recalculation only refreshes the
   * device's own row, while the per-site sums of the others depend on the
   * name alone.
   */
  lemma CreateConsistency(s: State, e: Entry)
    requires Valid(s) && Consistent(s.totals, s.devices) && e.count != 0
    ensures var o := CreateDevice(s, e, AsIntended, NoFault);
      Consistent(o.state.totals, o.state.devices) <==> !BearsOnOtherRow(s.totals, e)
  {
    var o := CreateDevice(s, e, AsIntended, NoFault);
    var dev := Device(s.nextId, e);
    forall i | 0 <= i < |s.totals|
      ensures o.state.totals[i] == Recomputed(o.state.devices, KeyOf(o.state.totals[i]))
          <==> KeyOf(s.totals[i]) == EntryKey(e) || !Touches(e, KeyOf(s.totals[i]))
    {
      InsertMoves(s.devices, dev, KeyOf(s.totals[i]));
    }
  }

  /** The same for deleting a device with a non-zero count, with the intended value list. */
  lemma DeleteConsistency(s: State, id: int)
    requires Valid(s) && Consistent(s.totals, s.devices) && HasId(s.devices, id)
    requires Lookup(s.devices, id).value.entry.count != 0
    ensures var o := DeleteDevice(s, id, AsIntended, NoFault);
      Consistent(o.state.totals, o.state.devices) <==> !BearsOnOtherRow(s.totals, Lookup(s.devices, id).value.entry)
  {
    var o := DeleteDevice(s, id, AsIntended, NoFault);
    var d := Lookup(s.devices, id).value;
    forall i | 0 <= i < |s.totals|
      ensures o.state.totals[i] == Recomputed(o.state.devices, KeyOf(o.state.totals[i]))
          <==> KeyOf(s.totals[i]) == EntryKey(d.entry) || !Touches(d.entry, KeyOf(s.totals[i]))
    {
      RemoveMoves(s.devices, id, d, KeyOf(s.totals[i]));
    }
  }

  /**
   * As written, a create whose model differs from its name never refreshes
   * the device's own (name, model) row: from a consistent `total` holding
   * that row, a create with a non-zero count leaves `total` inconsistent.
   */
  lemma CreateLeavesOwnRowStale(s: State, e: Entry, i: int)
    requires Valid(s) && Consistent(s.totals, s.devices) && e.count != 0
    requires e.model != e.name && 0 <= i < |s.totals| && KeyOf(s.totals[i]) == EntryKey(e)
    ensures var o := CreateDevice(s, e, AsWritten, NoFault);
      && o.state.totals[i] == s.totals[i]
      && !Consistent(o.state.totals, o.state.devices)
  {
    var o := CreateDevice(s, e, AsWritten, NoFault);
    InsertMoves(s.devices, Device(s.nextId, e), EntryKey(e));
    assert o.state.totals[i] != Recomputed(o.state.devices, KeyOf(o.state.totals[i]));
  }

  /**
   * As written, when `total` has no row keyed (name, name) a create leaves
   * `total` as it was; so from a consistent `total`, a create with a
   * non-zero count keeps it consistent exactly when the device bears on no
   * row at all.
   */
  lemma CreateConsistencyAsWritten(s: State, e: Entry)
    requires Valid(s) && Consistent(s.totals, s.devices) && e.count != 0
    requires forall i :: 0 <= i < |s.totals| ==> KeyOf(s.totals[i]) != Key(e.name, e.name)
    ensures var o := CreateDevice(s, e, AsWritten, NoFault);
      && o.state.totals == s.totals
      && (Consistent(o.state.totals, o.state.devices) <==> !BearsOnSomeRow(s.totals, e))
  {
    var o := CreateDevice(s, e, AsWritten, NoFault);
    var dev := Device(s.nextId, e);
    assert o.state.totals == s.totals;
    forall i | 0 <= i < |s.totals|
      ensures s.totals[i] == Recomputed(o.state.devices, KeyOf(s.totals[i])) <==> !Touches(e, KeyOf(s.totals[i]))
    {
      InsertMoves(s.devices, dev, KeyOf(s.totals[i]));
    }
  }

  /** As written, a delete never refreshes the deleted device's own row when its model differs from its name. */
  lemma DeleteLeavesOwnRowStale(s: State, id: int, i: int)
    requires Valid(s) && Consistent(s.totals, s.devices) && HasId(s.devices, id)
    requires var e := Lookup(s.devices, id).value.entry;
      e.count != 0 && e.model != e.name && 0 <= i < |s.totals| && KeyOf(s.totals[i]) == EntryKey(e)
    ensures var o := DeleteDevice(s, id, AsWritten, NoFault);
      && o.state.totals[i] == s.totals[i]
      && !Consistent(o.state.totals, o.state.devices)
  {
    var o := DeleteDevice(s, id, AsWritten, NoFault);
    var d := Lookup(s.devices, id).value;
    RemoveMoves(s.devices, id, d, EntryKey(d.entry));
    assert o.state.totals[i] != Recomputed(o.state.devices, KeyOf(o.state.totals[i]));
  }

  /** As written, with no row keyed (name, name), a delete leaves `total` as it was. */
  lemma DeleteConsistencyAsWritten(s: State, id: int)
    requires Valid(s) && Consistent(s.totals, s.devices) && HasId(s.devices, id)
    requires var e := Lookup(s.devices, id).value.entry;
      e.count != 0 && forall i :: 0 <= i < |s.totals| ==> KeyOf(s.totals[i]) != Key(e.name, e.name)
    ensures var o := DeleteDevice(s, id, AsWritten, NoFault);
      && o.state.totals == s.totals
      && (Consistent(o.state.totals, o.state.devices) <==> !BearsOnSomeRow(s.totals, Lookup(s.devices, id).value.entry))
  {
    var o := DeleteDevice(s, id, AsWritten, NoFault);
    var d := Lookup(s.devices, id).value;
    assert o.state.totals == s.totals;
    forall i | 0 <= i < |s.totals|
      ensures s.totals[i] == Recomputed(o.state.devices, KeyOf(s.totals[i])) <==> !Touches(d.entry, KeyOf(s.totals[i]))
    {
      RemoveMoves(s.devices, id, d, KeyOf(s.totals[i]));
    }
  }

  /**
   * Three devices of name Router: (X1, 5, HuYao), (X1, 3, GDL), (X2, 2, HuYao),
   * created one after another into a ledger that holds no Router device yet
   * and whose `total` has zeroed rows for Router X1 and Router X2. As written,
   * each create rewrites only a row keyed (Router, Router), which `total`
   * lacks, so both rows stay at zero; only the bulk recalculation brings X1
   * to 8 / 7 / 3 / -2 and X2 to 2 / 7 / 3 / -8, the site sums counting every
   * model of the name.
   */
  lemma RouterScenario(s0: State)
    requires forall i :: 0 <= i < |s0.devices| ==> s0.devices[i].entry.name != "Router"
    requires s0.totals == [TotalRow("Router", "X1", 0, 0, 0, 0), TotalRow("Router", "X2", 0, 0, 0, 0)]
    ensures var s1 := CreateDevice(s0, Entry("ali", "2024-05-01", "Router", "X1", 5, "lab", "HuYao"), AsWritten, NoFault).state;
      var s2 := CreateDevice(s1, Entry("ali", "2024-05-01", "Router", "X1", 3, "lab", "GDL"), AsWritten, NoFault).state;
      var s3 := CreateDevice(s2, Entry("ali", "2024-05-02", "Router", "X2", 2, "lab", "HuYao"), AsWritten, NoFault).state;
      && s3.totals == s0.totals
      && RecalculateAll(s3, NoFault).state.totals
         == [TotalRow("Router", "X1", 8, 7, 3, -2), TotalRow("Router", "X2", 2, 7, 3, -8)]
  {
    var e1 := Entry("ali", "2024-05-01", "Router", "X1", 5, "lab", "HuYao");
    var e2 := Entry("ali", "2024-05-01", "Router", "X1", 3, "lab", "GDL");
    var e3 := Entry("ali", "2024-05-02", "Router", "X2", 2, "lab", "HuYao");
    // With no Router device, both Router rows recalculate to zero.
    assert forall i :: 0 <= i < |s0.devices| ==> s0.devices[i].entry.name != Key("Router", "X1").name;
    RouterMoves(e1, e2, e3);
    RouterChain(s0, e1, e2, e3, AsWritten);
  }

  /**
   * The same three creates with the intended value list: each refreshes its
   * own row. The X1 row is last refreshed before the X2 device exists, so it
   * reads 8 / 5 / 3 / 0 until the bulk recalculation brings it to
   * 8 / 7 / 3 / -2.
   */
  lemma RouterScenarioIntended(s0: State)
    requires forall i :: 0 <= i < |s0.devices| ==> s0.devices[i].entry.name != "Router"
    requires s0.totals == [TotalRow("Router", "X1", 0, 0, 0, 0), TotalRow("Router", "X2", 0, 0, 0, 0)]
    ensures var s1 := CreateDevice(s0, Entry("ali", "2024-05-01", "Router", "X1", 5, "lab", "HuYao"), AsIntended, NoFault).state;
      var s2 := CreateDevice(s1, Entry("ali", "2024-05-01", "Router", "X1", 3, "lab", "GDL"), AsIntended, NoFault).state;
      var s3 := CreateDevice(s2, Entry("ali", "2024-05-02", "Router", "X2", 2, "lab", "HuYao"), AsIntended, NoFault).state;
      && s3.totals == [TotalRow("Router", "X1", 8, 5, 3, 0), TotalRow("Router", "X2", 2, 7, 3, -8)]
      && RecalculateAll(s3, NoFault).state.totals
         == [TotalRow("Router", "X1", 8, 7, 3, -2), TotalRow("Router", "X2", 2, 7, 3, -8)]
  {
    var e1 := Entry("ali", "2024-05-01", "Router", "X1", 5, "lab", "HuYao");
    var e2 := Entry("ali", "2024-05-01", "Router", "X1", 3, "lab", "GDL");
    var e3 := Entry("ali", "2024-05-02", "Router", "X2", 2, "lab", "HuYao");
    // With no Router device, both Router rows recalculate to zero.
    assert forall i :: 0 <= i < |s0.devices| ==> s0.devices[i].entry.name != Key("Router", "X1").name;
    RouterMoves(e1, e2, e3);
    RouterChain(s0, e1, e2, e3, AsIntended);
  }

  /**
   * The scenario for any three devices that move the Router rows as the
   * scenario's devices do, with either value list.
   */
  lemma RouterChain(s0: State, e1: Entry, e2: Entry, e3: Entry, b: Binding)
    requires Recomputed(s0.devices, Key("Router", "X1")) == TotalRow("Router", "X1", 0, 0, 0, 0)
    requires Recomputed(s0.devices, Key("Router", "X2")) == TotalRow("Router", "X2", 0, 0, 0, 0)
    requires s0.totals == [TotalRow("Router", "X1", 0, 0, 0, 0), TotalRow("Router", "X2", 0, 0, 0, 0)]
    requires EntryKey(e1) == EntryKey(e2) == Key("Router", "X1") && EntryKey(e3) == Key("Router", "X2")
    requires Key("Router", "X1") != Key("Router", "X2")
    requires Moved(TotalRow("Router", "X1", 0, 0, 0, 0), e1, 1) == TotalRow("Router", "X1", 5, 5, 0, 0)
    requires Moved(TotalRow("Router", "X2", 0, 0, 0, 0), e1, 1) == TotalRow("Router", "X2", 0, 5, 0, -5)
    requires Moved(TotalRow("Router", "X1", 5, 5, 0, 0), e2, 1) == TotalRow("Router", "X1", 8, 5, 3, 0)
    requires Moved(TotalRow("Router", "X2", 0, 5, 0, -5), e2, 1) == TotalRow("Router", "X2", 0, 5, 3, -8)
    requires Moved(TotalRow("Router", "X1", 8, 5, 3, 0), e3, 1) == TotalRow("Router", "X1", 8, 7, 3, -2)
    requires Moved(TotalRow("Router", "X2", 0, 5, 3, -8), e3, 1) == TotalRow("Router", "X2", 2, 7, 3, -8)
    ensures var s1 := CreateDevice(s0, e1, b, NoFault).state;
      var s2 := CreateDevice(s1, e2, b, NoFault).state;
      var s3 := CreateDevice(s2, e3, b, NoFault).state;
      && (b == AsWritten ==> s3.totals == s0.totals)
      && (b == AsIntended ==> s3.totals == [TotalRow("Router", "X1", 8, 5, 3, 0), TotalRow("Router", "X2", 2, 7, 3, -8)])
      && RecalculateAll(s3, NoFault).state.totals
         == [TotalRow("Router", "X1", 8, 7, 3, -2), TotalRow("Router", "X2", 2, 7, 3, -8)]
  {
    var s1 := CreateDevice(s0, e1, b, NoFault).state;
    var s2 := CreateDevice(s1, e2, b, NoFault).state;
    var s3 := CreateDevice(s2, e3, b, NoFault).state;
    // X1 rows (x) and X2 rows (y), as a recalculation would give them.
    var x0, y0 := TotalRow("Router", "X1", 0, 0, 0, 0), TotalRow("Router", "X2", 0, 0, 0, 0);
    var x1, y1 := TotalRow("Router", "X1", 5, 5, 0, 0), TotalRow("Router", "X2", 0, 5, 0, -5);
    var x2, y2 := TotalRow("Router", "X1", 8, 5, 3, 0), TotalRow("Router", "X2", 0, 5, 3, -8);
    var x3, y3 := TotalRow("Router", "X1", 8, 7, 3, -2), TotalRow("Router", "X2", 2, 7, 3, -8);
    // The rows as stored: refreshed with the intended values, left alone as written.
    var w := b == AsIntended;
    var a1, a2, c3 := if w then x1 else x0, if w then x2 else x0, if w then y3 else y0;
    RouterInsert(s0, e1, b, x0, y0, x0, y0, a1, y0, x1, y1);
    RouterInsert(s1, e2, b, a1, y0, x1, y1, a2, y0, x2, y2);
    RouterInsert(s2, e3, b, a2, y0, x2, y2, a2, c3, x3, y3);
    RecalculateTwoRows(s3, a2, c3);
    assert RecalculateAll(s3, NoFault).state.totals == [x3, y3];
  }

  /** The bulk recalculation of a `total` of two rows. */
  lemma RecalculateTwoRows(s: State, a: TotalRow, b: TotalRow)
    requires s.totals == [a, b]
    ensures RecalculateAll(s, NoFault).state.totals == [Recomputed(s.devices, KeyOf(a)), Recomputed(s.devices, KeyOf(b))]
  {
    assert UpdateAllTotals([a, b], s.devices) == [Recomputed(s.devices, KeyOf(a)), Recomputed(s.devices, KeyOf(b))];
  }

  /** How each of the scenario's devices moves the recalculated Router rows. */
  lemma RouterMoves(e1: Entry, e2: Entry, e3: Entry)
    requires e1 == Entry("ali", "2024-05-01", "Router", "X1", 5, "lab", "HuYao")
    requires e2 == Entry("ali", "2024-05-01", "Router", "X1", 3, "lab", "GDL")
    requires e3 == Entry("ali", "2024-05-02", "Router", "X2", 2, "lab", "HuYao")
    ensures EntryKey(e1) == EntryKey(e2) == Key("Router", "X1") && EntryKey(e3) == Key("Router", "X2")
    ensures Key("Router", "X1") != Key("Router", "X2")
    ensures Moved(TotalRow("Router", "X1", 0, 0, 0, 0), e1, 1) == TotalRow("Router", "X1", 5, 5, 0, 0)
    ensures Moved(TotalRow("Router", "X2", 0, 0, 0, 0), e1, 1) == TotalRow("Router", "X2", 0, 5, 0, -5)
    ensures Moved(TotalRow("Router", "X1", 5, 5, 0, 0), e2, 1) == TotalRow("Router", "X1", 8, 5, 3, 0)
    ensures Moved(TotalRow("Router", "X2", 0, 5, 0, -5), e2, 1) == TotalRow("Router", "X2", 0, 5, 3, -8)
    ensures Moved(TotalRow("Router", "X1", 8, 5, 3, 0), e3, 1) == TotalRow("Router", "X1", 8, 7, 3, -2)
    ensures Moved(TotalRow("Router", "X2", 0, 5, 3, -8), e3, 1) == TotalRow("Router", "X2", 2, 7, 3, -8)
  {
    assert "X1"[1] != "X2"[1];
    // One equality at a time: together they are far costlier to prove than apart.
    assert Moved(TotalRow("Router", "X1", 0, 0, 0, 0), e1, 1) == TotalRow("Router", "X1", 5, 5, 0, 0) by {}
    assert Moved(TotalRow("Router", "X2", 0, 0, 0, 0), e1, 1) == TotalRow("Router", "X2", 0, 5, 0, -5) by {}
    assert Moved(TotalRow("Router", "X1", 5, 5, 0, 0), e2, 1) == TotalRow("Router", "X1", 8, 5, 3, 0) by {}
    assert Moved(TotalRow("Router", "X2", 0, 5, 0, -5), e2, 1) == TotalRow("Router", "X2", 0, 5, 3, -8) by {}
    assert Moved(TotalRow("Router", "X1", 8, 5, 3, 0), e3, 1) == TotalRow("Router", "X1", 8, 7, 3, -2) by {}
  }

  /**
   * One create of the scenario, into a `total` holding the Router X1 and X2
   * rows `a` and `c`, whose recalculation before the create would give `ra`
   * and `rc`, and after it `ra'` and `rc'`. With the intended values only
   * the row of the new device's key is rewritten, to its recalculation; as
   * written, neither row is keyed (Router, Router), so neither is rewritten.
   */
  lemma RouterInsert(s: State, e: Entry, b: Binding, a: TotalRow, c: TotalRow, ra: TotalRow, rc: TotalRow,
                     a': TotalRow, c': TotalRow, ra': TotalRow, rc': TotalRow)
    requires KeyOf(a) == Key("Router", "X1") && KeyOf(c) == Key("Router", "X2") && s.totals == [a, c]
    requires ra == Recomputed(s.devices, Key("Router", "X1")) && rc == Recomputed(s.devices, Key("Router", "X2"))
    requires ra' == Moved(ra, e, 1) && rc' == Moved(rc, e, 1)
    requires a' == (if b == AsIntended && KeyOf(a) == EntryKey(e) then ra' else a)
    requires c' == (if b == AsIntended && KeyOf(c) == EntryKey(e) then rc' else c)
    ensures var s' := CreateDevice(s, e, b, NoFault).state;
      && s'.totals == [a', c']
      && Recomputed(s'.devices, Key("Router", "X1")) == ra'
      && Recomputed(s'.devices, Key("Router", "X2")) == rc'
  {
    var d := Device(s.nextId, e);
    assert CreateDevice(s, e, b, NoFault).state.devices == s.devices + [d];
    InsertMoves(s.devices, d, Key("Router", "X1"));
    InsertMoves(s.devices, d, Key("Router", "X2"));
    assert a.model != a.name && c.model != c.name by {
      assert "X1"[0] != "Router"[0] && "X2"[0] != "Router"[0];
    }
    CreateOnTwoRows(s, e, b, a, c);
  }

  /**
   * A create over a `total` of two rows whose models differ from their
   * names: with the intended values the row of the device's key is
   * recalculated; as written neither row is touched.
   */
  lemma CreateOnTwoRows(s: State, e: Entry, b: Binding, a: TotalRow, c: TotalRow)
    requires s.totals == [a, c] && a.model != a.name && c.model != c.name
    ensures var o := CreateDevice(s, e, b, NoFault).state;
      o.totals == [if b == AsIntended && KeyOf(a) == EntryKey(e) then Recomputed(o.devices, KeyOf(a)) else a,
                   if b == AsIntended && KeyOf(c) == EntryKey(e) then Recomputed(o.devices, KeyOf(c)) else c]
  {
  }
}
