/** Whole cycles of calculate_pending_costs: scan, price, repeat (worker/app/jobs.py). */
module CostCycles {
  import opened Outcomes
  import opened Sums
  import opened Sorting
  import opened Selections
  import opened CostScan
  import opened CostWorker

  function KeyOf(r: Row): Key {
    Key(r.start, r.id)
  }

  function KeysOf(rows: seq<Row>): seq<Key> {
    if rows == [] then [] else [KeyOf(rows[0])] + KeysOf(rows[1..])
  }

  function KeyLeq(): (Key, Key) -> bool {
    (a: Key, b: Key) => !Less(b, a)
  }

  function IsPending(selected: Table): Row -> bool {
    (r: Row) => Eligible(r) && r.id !in selected
  }

  /** The keys of the eligible unselected intervals, in scan order. */
  function PendingKeys(w: World, selected: Table): seq<Key> {
    Sort(KeysOf(Filter(w.rows, IsPending(selected))), KeyLeq())
  }

  function HasKey(k: Key): Row -> bool {
    (r: Row) => KeyOf(r) == k
  }

  /** The scanned rows, in the order of their keys. */
  function RowsAt(w: World, keys: seq<Key>): seq<Row> {
    if keys == [] then [] else Filter(w.rows, HasKey(keys[0])) + RowsAt(w, keys[1..])
  }

  ghost function RowsWith(w: World, keys: seq<Key>): set<Row> {
    set r | r in w.rows && KeyOf(r) in keys
  }

  ghost function PendingRows(w: World, selected: Table): set<Row> {
    set r | r in w.rows && IsPending(selected)(r)
  }

  // ----- one cycle -----

  datatype Progress = Progress(selected: Table, cursor: Option<Key>)

  ghost function ScannedRows(w: World, p: Progress, limit: nat): set<Row> {
    RowsWith(w, Scanned(PendingKeys(w, p.selected), p.cursor, limit))
  }

  ghost function Cycle(w: World, p: Progress, limit: nat): Progress {
    Progress(Settled(w, p.selected, ScannedRows(w, p, limit)), NextCursor(PendingKeys(w, p.selected), p.cursor, limit))
  }

  /** One worker cycle; without a cursor directory the scan starts at the front and keeps no cursor. */
  method CalculatePendingCosts(scan: PendingScan, worker: Worker, w: World, limit: int) returns (created: nat)
    requires WellFormed(w)
    modifies scan, worker
    ensures limit <= 0 ==> worker.selections == old(worker.selections) && scan.cursor == old(scan.cursor)
    ensures limit > 0 ==>
              var before := Progress(old(worker.selections), if scan.durable then old(scan.cursor) else None);
              && worker.selections == Cycle(w, before, limit).selected
              && scan.cursor == (if scan.durable then Cycle(w, before, limit).cursor else old(scan.cursor))
    ensures created == |worker.selections| - |old(worker.selections)|
  {
    var pending := PendingKeys(w, worker.selections);
    PendingIsAscending(w, worker.selections);
    hide Settled, PendingKeys, RowsAt, WellFormed, Eligible, Scanned, NextCursor, RowsOf, Ascending;
    var keys := scan.Scan(pending, limit);
    if limit <= 0 {
      return 0;
    }
    ghost var before := Progress(worker.selections, if scan.durable then old(scan.cursor) else None);
    assert keys == Scanned(pending, before.cursor, limit);
    BatchIsPending(w, worker.selections, before.cursor, limit);
    created := worker.PriceBatch(w, RowsAt(w, keys));
  }

  /** The worker's repeated cycles: enough of them with a durable cursor price the whole backlog. */
  method RunCycles(scan: PendingScan, worker: Worker, w: World, limit: nat, n: nat) returns (created: nat)
    requires WellFormed(w) && scan.durable && limit > 0
    modifies scan, worker
    ensures Progress(worker.selections, scan.cursor) == Cycles(w, old(Progress(worker.selections, scan.cursor)), limit, n)
    ensures n * limit >= |PendingKeys(w, old(worker.selections))| ==>
              worker.selections == Settled(w, old(worker.selections), PendingRows(w, old(worker.selections)))
    ensures created == |worker.selections| - |old(worker.selections)|
  {
    hide Cycle, Cycles, PendingKeys, PendingRows, Settled, WellFormed;
    ghost var p := Progress(worker.selections, scan.cursor);
    created := 0;
    CyclesStep(w, p, limit, 0);
    for k := 0 to n
      invariant Progress(worker.selections, scan.cursor) == Cycles(w, p, limit, k)
      invariant created == |worker.selections| - |p.selected|
    {
      var made := CalculatePendingCosts(scan, worker, w, limit);
      created := created + made;
      CyclesStep(w, p, limit, k);
    }
    if n * limit >= |PendingKeys(w, p.selected)| {
      CyclesPriceEverything(w, p, limit, n);
    }
  }

  // ----- the pending list -----

  lemma {:induction false} KeysAreMapped(rows: seq<Row>)
    ensures |KeysOf(rows)| == |rows| && forall i :: 0 <= i < |rows| ==> KeysOf(rows)[i] == KeyOf(rows[i])
  {
    if rows != [] {
      KeysAreMapped(rows[1..]);
    }
  }

  lemma {:induction false} KeyOrder()
    ensures TotalOrder(KeyLeq())
  {
  }

  lemma {:induction false} KeysAreDistinct(w: World, selected: Table)
    requires WellFormed(w)
    ensures Distinct(KeysOf(Filter(w.rows, IsPending(selected))))
  {
    var rows := Filter(w.rows, IsPending(selected));
    FilterKeepsIdsDistinct(w.rows, IsPending(selected));
    KeysAreMapped(rows);
  }

  /** The pending list is strictly ascending. */
  lemma {:induction false} PendingIsAscending(w: World, selected: Table)
    requires WellFormed(w)
    ensures Ascending(PendingKeys(w, selected))
  {
    var keys, pending := KeysOf(Filter(w.rows, IsPending(selected))), PendingKeys(w, selected);
    KeysAreDistinct(w, selected);
    KeyOrder();
    SortPermutes(keys, KeyLeq());
    SortSorts(keys, KeyLeq());
    DistinctPermutation(keys, pending);
    forall i, j | 0 <= i < j < |pending| ensures Less(pending[i], pending[j]) {
      assert KeyLeq()(pending[i], pending[j]) && pending[i] != pending[j];
    }
  }

  /** A key is pending exactly when the row it names is. */
  lemma {:induction false} PendingMeans(w: World, selected: Table, r: Row)
    requires WellFormed(w) && r in w.rows
    ensures KeyOf(r) in PendingKeys(w, selected) <==> IsPending(selected)(r)
  {
    var rows := Filter(w.rows, IsPending(selected));
    var keys, pending := KeysOf(rows), PendingKeys(w, selected);
    SortPermutes(keys, KeyLeq());
    assert KeyOf(r) in pending <==> KeyOf(r) in multiset(pending);
    assert KeyOf(r) in keys <==> KeyOf(r) in multiset(keys);
    KeysAreMapped(rows);
    FilterMembers(w.rows, IsPending(selected));
    if KeyOf(r) in keys {
      var i :| 0 <= i < |rows| && keys[i] == KeyOf(r);
      assert rows[i] in rows;
      SameIdSameRow(w, r, rows[i]);
    }
    if r in rows {
      var i :| 0 <= i < |rows| && rows[i] == r;
      assert keys[i] == KeyOf(r);
    }
  }

  /** The scan order of two positions in time: earlier start, or the same start and the smaller identity. */
  ghost predicate Earlier(start: int, id: int, start': int, id': int) {
    start < start' || (start == start' && id < id')
  }

  /** A scan takes measured, final, current and unselected rows in order of time, starting over at the oldest after the newest. */
  lemma {:induction false} OldestFirst(w: World, p: Progress, limit: nat, x: Row, y: Row)
    requires WellFormed(w) && x in ScannedRows(w, p, limit)
    requires y in w.rows && y !in ScannedRows(w, p, limit) && y.finalized && y.current && y.energy.Some? && y.id !in p.selected
    ensures x in w.rows && x.finalized && x.current && x.energy.Some? && x.id !in p.selected
    ensures p.cursor.None? ==> Earlier(x.start, x.id, y.start, y.id)
    ensures p.cursor.Some? ==>
              var c := p.cursor.value;
              if Earlier(c.start, c.id, y.start, y.id) then Earlier(c.start, c.id, x.start, x.id) && Earlier(x.start, x.id, y.start, y.id)
              else Earlier(c.start, c.id, x.start, x.id) || Earlier(x.start, x.id, y.start, y.id)
  {
    PendingIsAscending(w, p.selected);
    ScanIsSoonestPrefix(PendingKeys(w, p.selected), p.cursor, limit);
    PendingMeans(w, p.selected, x);
    PendingMeans(w, p.selected, y);
    hide PendingKeys, Scanned, WellFormed;
    assert Sooner(p.cursor, KeyOf(x), KeyOf(y));
  }

  /** Every pending key names a row. */
  lemma {:induction false} PendingIsNamed(w: World, selected: Table, k: Key) returns (r: Row)
    requires k in PendingKeys(w, selected)
    ensures r in w.rows && KeyOf(r) == k && IsPending(selected)(r)
  {
    var rows := Filter(w.rows, IsPending(selected));
    var keys, pending := KeysOf(rows), PendingKeys(w, selected);
    SortPermutes(keys, KeyLeq());
    assert k in multiset(pending);
    KeysAreMapped(rows);
    FilterMembers(w.rows, IsPending(selected));
    var i :| 0 <= i < |keys| && keys[i] == k;
    r := rows[i];
    assert r in rows;
  }

  lemma {:induction false} RowsAtMembers(w: World, keys: seq<Key>, r: Row)
    ensures r in RowsAt(w, keys) <==> r in w.rows && KeyOf(r) in keys
  {
    if keys != [] {
      FilterMembers(w.rows, HasKey(keys[0]));
      RowsAtMembers(w, keys[1..], r);
      assert keys == [keys[0]] + keys[1..];
    }
  }

  lemma {:induction false} BatchIsPending(w: World, selected: Table, cursor: Option<Key>, limit: nat)
    requires WellFormed(w)
    ensures var batch := RowsAt(w, Scanned(PendingKeys(w, selected), cursor, limit));
            && (forall i :: 0 <= i < |batch| ==> batch[i] in w.rows && Eligible(batch[i]) && batch[i].id !in selected)
            && RowsOf(batch) == ScannedRows(w, Progress(selected, cursor), limit)
  {
    var keys := Scanned(PendingKeys(w, selected), cursor, limit);
    var batch := RowsAt(w, keys);
    PendingIsAscending(w, selected);
    ScanIsSoonestPrefix(PendingKeys(w, selected), cursor, limit);
    forall r ensures r in batch <==> r in w.rows && KeyOf(r) in keys {
      RowsAtMembers(w, keys, r);
    }
    forall i | 0 <= i < |batch| ensures batch[i] in w.rows && Eligible(batch[i]) && batch[i].id !in selected {
      assert batch[i] in batch;
      PendingMeans(w, selected, batch[i]);
    }
  }

  // ----- many cycles -----

  ghost function Cycles(w: World, p: Progress, limit: nat, n: nat): Progress {
    if n == 0 then p else Cycle(w, Cycles(w, p, limit, n - 1), limit)
  }

  /** Everything scanned in the first n cycles. */
  ghost function Seen(w: World, p: Progress, limit: nat, n: nat): set<Row> {
    if n == 0 then {} else Seen(w, p, limit, n - 1) + ScannedRows(w, Cycles(w, p, limit, n - 1), limit)
  }

  lemma {:induction false} CyclesStep(w: World, p: Progress, limit: nat, n: nat)
    ensures Cycles(w, p, limit, 0) == p && Seen(w, p, limit, 0) == {}
    ensures Cycles(w, p, limit, n + 1) == Cycle(w, Cycles(w, p, limit, n), limit)
    ensures Seen(w, p, limit, n + 1) == Seen(w, p, limit, n) + ScannedRows(w, Cycles(w, p, limit, n), limit)
  {
    hide Cycle, ScannedRows;
  }

  lemma {:induction false} ScannedAreRows(w: World, p: Progress, limit: nat)
    ensures forall r :: r in ScannedRows(w, p, limit) ==> r in w.rows
  {
    hide Scanned, PendingKeys;
  }

  lemma {:induction false} CycleSettles(w: World, p: Progress, limit: nat)
    ensures Cycle(w, p, limit).selected == Settled(w, p.selected, ScannedRows(w, p, limit))
  {
  }

  lemma {:induction false} CycleKeeps(w: World, p: Progress, limit: nat)
    ensures p.selected.Keys <= Cycle(w, p, limit).selected.Keys
  {
    hide ScannedRows, NextCursor, PendingKeys, GainedIds, Charges;
  }

  lemma {:induction false} CyclesSettle(w: World, p: Progress, limit: nat, n: nat)
    requires WellFormed(w)
    ensures Cycles(w, p, limit, n).selected == Settled(w, p.selected, Seen(w, p, limit, n))
    ensures forall r :: r in Seen(w, p, limit, n) ==> r in w.rows
  {
    hide *;
    CyclesStep(w, p, limit, if n == 0 then 0 else n - 1);
    if n == 0 {
      NothingScanned(w, p.selected);
    } else {
      var q := Cycles(w, p, limit, n - 1);
      CyclesSettle(w, p, limit, n - 1);
      ScannedAreRows(w, q, limit);
      SettledInTwoSteps(w, p.selected, Seen(w, p, limit, n - 1), ScannedRows(w, q, limit));
      CycleSettles(w, q, limit);
    }
  }

  lemma {:induction false} SelectionsGrow(w: World, p: Progress, limit: nat, t: nat, u: nat)
    requires t <= u
    ensures Cycles(w, p, limit, t).selected.Keys <= Cycles(w, p, limit, u).selected.Keys
    decreases u
  {
    hide *;
    if t < u {
      SelectionsGrow(w, p, limit, t, u - 1);
      CyclesStep(w, p, limit, u - 1);
      CycleKeeps(w, Cycles(w, p, limit, u - 1), limit);
    }
  }

  /** What each of n cycles finds pending. */
  ghost function Pendings(w: World, p: Progress, limit: nat, n: nat): seq<seq<Key>> {
    if n == 0 then [] else Pendings(w, p, limit, n - 1) + [PendingKeys(w, Cycles(w, p, limit, n - 1).selected)]
  }

  lemma {:induction false} PendingsAt(w: World, p: Progress, limit: nat, n: nat)
    ensures |Pendings(w, p, limit, n)| == n
    ensures forall t :: 0 <= t < n ==> Pendings(w, p, limit, n)[t] == PendingKeys(w, Cycles(w, p, limit, t).selected)
  {
    hide PendingKeys, Cycles;
    if n > 0 {
      var shorter := Pendings(w, p, limit, n - 1);
      PendingsAt(w, p, limit, n - 1);
      assert Pendings(w, p, limit, n) == shorter + [PendingKeys(w, Cycles(w, p, limit, n - 1).selected)];
      hide Pendings;
    }
  }

  lemma {:induction false} LaterPendingIsEarlier(w: World, p: Progress, limit: nat, t: nat, u: nat)
    requires WellFormed(w) && t <= u
    ensures Among(PendingKeys(w, Cycles(w, p, limit, u).selected), PendingKeys(w, Cycles(w, p, limit, t).selected))
  {
    hide PendingKeys, Cycles;
    var early, late := Cycles(w, p, limit, t).selected, Cycles(w, p, limit, u).selected;
    SelectionsGrow(w, p, limit, t, u);
    forall k | k in PendingKeys(w, late) ensures k in PendingKeys(w, early) {
      var r := PendingIsNamed(w, late, k);
      PendingMeans(w, early, r);
    }
  }

  lemma {:induction false} PendingsShrink(w: World, p: Progress, limit: nat, n: nat)
    requires WellFormed(w)
    ensures OnlyShrinks(Pendings(w, p, limit, n))
  {
    var pendings := Pendings(w, p, limit, n);
    PendingsAt(w, p, limit, n);
    hide PendingKeys, Cycles, Pendings, Among, Ascending, WellFormed;
    forall t | 0 <= t < n ensures Ascending(pendings[t]) {
      PendingIsAscending(w, Cycles(w, p, limit, t).selected);
    }
    forall t, u | 0 <= t < u < n ensures Among(pendings[u], pendings[t]) {
      LaterPendingIsEarlier(w, p, limit, t, u);
    }
  }

  lemma {:induction false} CursorStep(pendings: seq<seq<Key>>, cursor: Option<Key>, limit: nat, t: nat)
    requires t < |pendings|
    ensures CursorAt(pendings, cursor, limit, t + 1) == NextCursor(pendings[t], CursorAt(pendings, cursor, limit, t), limit)
    decreases t
  {
    hide NextCursor;
    if t > 0 {
      CursorStep(pendings[1..], NextCursor(pendings[0], cursor, limit), limit, t - 1);
    } else {
      assert CursorAt(pendings[1..], NextCursor(pendings[0], cursor, limit), limit, 0) == NextCursor(pendings[0], cursor, limit);
    }
  }

  lemma {:induction false} CursorIsTracked(w: World, p: Progress, limit: nat, n: nat, t: nat)
    requires t <= n
    ensures |Pendings(w, p, limit, n)| == n
    ensures CursorAt(Pendings(w, p, limit, n), p.cursor, limit, t) == Cycles(w, p, limit, t).cursor
    decreases t
  {
    PendingsAt(w, p, limit, n);
    hide Cycles, Settled, ScannedRows, PendingKeys, Pendings, NextCursor;
    CyclesStep(w, p, limit, if t == 0 then 0 else t - 1);
    if t > 0 {
      CursorIsTracked(w, p, limit, n, t - 1);
      CursorStep(Pendings(w, p, limit, n), p.cursor, limit, t - 1);
    }
  }

  lemma {:induction false} SeenGrows(w: World, p: Progress, limit: nat, n: nat, t: nat)
    requires t < n
    ensures ScannedRows(w, Cycles(w, p, limit, t), limit) <= Seen(w, p, limit, n)
  {
    hide ScannedRows, Cycles;
    if t < n - 1 {
      SeenGrows(w, p, limit, n - 1, t);
    }
  }

  /** After enough cycles, whatever was pending at first has been scanned or selected. */
  lemma {:induction false} SeenOrSelected(w: World, p: Progress, limit: nat, n: nat, r: Row)
    requires WellFormed(w) && limit > 0 && r in PendingRows(w, p.selected)
    requires n * limit >= |PendingKeys(w, p.selected)|
    ensures r in Seen(w, p, limit, n) || r.id in Cycles(w, p, limit, n).selected
  {
    var pendings := Pendings(w, p, limit, n);
    PendingsAt(w, p, limit, n);
    PendingMeans(w, p.selected, r);
    PendingsShrink(w, p, limit, n);
    if StaysPending(pendings, KeyOf(r)) {
      assert n > 0;
      assert pendings[0] == PendingKeys(w, Cycles(w, p, limit, 0).selected);
      var t := NoStarvation(pendings, p.cursor, limit, KeyOf(r));
      CursorIsTracked(w, p, limit, n, t);
      SeenGrows(w, p, limit, n, t);
    } else {
      var t :| 0 <= t < n && KeyOf(r) !in pendings[t];
      PendingMeans(w, Cycles(w, p, limit, t).selected, r);
      SelectionsGrow(w, p, limit, t, n);
    }
  }

  /** Rows that are scanned or already selected add nothing. */
  lemma {:induction false} NothingLeft(w: World, before: Table, seen: set<Row>, more: set<Row>)
    requires WellFormed(w)
    requires forall r :: r in more ==> r in w.rows && r.id !in before && (r in seen || r.id in Settled(w, before, seen))
    ensures Settled(w, before, seen + more) == Settled(w, before, seen)
  {
    forall x | x in w.rows ensures Gains(w, before, seen + more, x) <==> Gains(w, before, seen, x) {
      if Gains(w, before, seen, x) {
        var q :| q in seen && Chargeable(w, q) && Untouched(GroupOf(w, q), before) && x in GroupOf(w, q);
        assert q in seen + more;
      } else if Gains(w, before, seen + more, x) {
        var q :| q in seen + more && Chargeable(w, q) && Untouched(GroupOf(w, q), before) && x in GroupOf(w, q);
        assert q in more && q !in seen;
        GainedId(w, before, seen, q);
        GainTogether(w, before, seen, q, x);
      }
    }
    assert GainedIds(w, before, seen + more) == GainedIds(w, before, seen);
  }

  lemma {:induction false} SeenWasPending(w: World, p: Progress, limit: nat, n: nat)
    requires WellFormed(w)
    ensures Seen(w, p, limit, n) <= PendingRows(w, p.selected)
  {
    hide *;
    CyclesStep(w, p, limit, if n == 0 then 0 else n - 1);
    if n > 0 {
      SeenWasPending(w, p, limit, n - 1);
      SelectionsGrow(w, p, limit, 0, n - 1);
      ScannedWasPending(w, Cycles(w, p, limit, n - 1), p.selected, limit);
    }
  }

  lemma {:induction false} ScannedWasPending(w: World, q: Progress, before: Table, limit: nat)
    requires WellFormed(w) && before.Keys <= q.selected.Keys
    ensures ScannedRows(w, q, limit) <= PendingRows(w, before)
  {
    PendingIsAscending(w, q.selected);
    ScanIsSoonestPrefix(PendingKeys(w, q.selected), q.cursor, limit);
    hide Scanned, PendingKeys, Ascending, WellFormed;
    forall r | r in ScannedRows(w, q, limit) ensures r in PendingRows(w, before) {
      PendingMeans(w, q.selected, r);
    }
  }

  /**
   Progress and confluence together: with a retained cursor, ceil(n / limit) cycles leave exactly the selections that
   pricing all n pending intervals at once would leave, whatever the cursor was and whatever stays unpriceable.
   */
  lemma {:induction false} CyclesPriceEverything(w: World, p: Progress, limit: nat, n: nat)
    requires WellFormed(w) && limit > 0 && n * limit >= |PendingKeys(w, p.selected)|
    ensures Cycles(w, p, limit, n).selected == Settled(w, p.selected, PendingRows(w, p.selected))
  {
    var seen, all := Seen(w, p, limit, n), PendingRows(w, p.selected);
    CyclesSettle(w, p, limit, n);
    SeenWasPending(w, p, limit, n);
    forall r | r in all ensures r in seen || r.id in Cycles(w, p, limit, n).selected {
      SeenOrSelected(w, p, limit, n, r);
    }
    NothingLeft(w, p.selected, seen, all);
    assert seen + all == all;
  }
}
