/** Pricing a batch of pending intervals, group by group (worker/app/jobs.py, loop of calculate_pending_costs). */
module CostWorker {
  import opened Outcomes
  import opened Sums
  import opened Sorting
  import opened LargestRemainder
  import opened BillingScopes
  import opened Selections

  /** A normalized interval; current says that it belongs to its device's present reset generation or is stateless. */
  datatype Row = Row(id: int, device: int, start: int, end: int, energy: Option<nat>, finalized: bool, current: bool)

  /** What the rate lookup says about a device's interval. */
  datatype Resolution = Unresolved | RateError | Resolved(rate: int, scope: Scope, members: set<int>)

  /** What the tier context and the pricing engine say about a group. */
  datatype Pricing = NoContext | Refused | Quote(cost: nat, credit: nat)

  /** The fixed inputs of pricing: the interval table in device order, the rate lookup and the engine. */
  datatype World = World(
    rows: seq<Row>,
    resolve: (int, int, int) -> Resolution,
    price: (int, int, nat, Resolution) -> Pricing)

  function Energy(r: Row): nat {
    if r.energy.Some? then r.energy.value else 0
  }

  predicate Eligible(r: Row) {
    r.current && r.finalized && r.energy.Some?
  }

  function Resolve(w: World, r: Row): Resolution {
    w.resolve(r.device, r.start, r.end)
  }

  function Alongside(members: set<int>, start: int, end: int): Row -> bool {
    (x: Row) => Eligible(x) && x.device in members && x.start == start && x.end == end
  }

  /** Several devices are priced as one. */
  predicate Shared(res: Resolution) {
    res.Resolved? && |res.members| > 1
  }

  /** The intervals priced together with r. */
  function GroupOf(w: World, r: Row): seq<Row> {
    var res := Resolve(w, r);
    if Shared(res) then Filter(w.rows, Alongside(res.members, r.start, r.end)) else [r]
  }

  predicate Complete(w: World, r: Row) {
    var res := Resolve(w, r);
    Shared(res) ==> (set g | g in GroupOf(w, r) :: g.device) == res.members
  }

  function Weights(group: seq<Row>): (s: seq<nat>)
    ensures |s| == |group|
  {
    if group == [] then [] else [Energy(group[0])] + Weights(group[1..])
  }

  function TotalEnergy(group: seq<Row>): nat {
    if group == [] then 0 else Energy(group[0]) + TotalEnergy(group[1..])
  }

  function PriceOf(w: World, r: Row): Pricing {
    var group := GroupOf(w, r);
    w.price(r.start, r.end, TotalEnergy(group), Resolve(w, r))
  }

  predicate Untouched(group: seq<Row>, selected: Table) {
    forall i :: 0 <= i < |group| ==> group[i].id !in selected
  }

  /** The group of r is resolved, complete and quoted. */
  ghost predicate Chargeable(w: World, r: Row) {
    Resolve(w, r).Resolved? && Complete(w, r) && PriceOf(w, r).Quote?
  }

  ghost function Position(group: seq<Row>, x: Row): nat
    requires x in group
    ensures Position(group, x) < |group| && group[Position(group, x)] == x
  {
    if group[0] == x then 0 else 1 + Position(group[1..], x)
  }

  /** The share of x in its own group's quote. */
  ghost function ChargeOf(w: World, x: Row): Charge
    requires Chargeable(w, x) && x in GroupOf(w, x)
  {
    var group, quote := GroupOf(w, x), PriceOf(w, x);
    var i := Position(group, x);
    Charge(Shares(quote.cost, Weights(group))[i], Shares(quote.credit, Weights(group))[i])
  }

  ghost predicate DistinctRows(rows: seq<Row>) {
    forall i, j :: 0 <= i < j < |rows| ==> rows[i].id != rows[j].id
  }

  /** Row identities are distinct, and members of a shared scope resolve that same scope. */
  ghost predicate WellFormed(w: World) {
    && DistinctRows(w.rows)
    && (forall d, e, s, t :: Shared(w.resolve(d, s, t)) && e in w.resolve(d, s, t).members
          ==> w.resolve(e, s, t) == w.resolve(d, s, t))
  }

  /** x belongs to the chargeable, wholly unselected group of some scanned interval. */
  ghost predicate Gains(w: World, before: Table, scanned: set<Row>, x: Row) {
    exists r :: r in scanned && Chargeable(w, r) && Untouched(GroupOf(w, r), before) && x in GroupOf(w, r)
  }

  lemma {:induction false} SameGroup(w: World, r: Row, x: Row)
    requires WellFormed(w) && x in GroupOf(w, r)
    ensures GroupOf(w, x) == GroupOf(w, r) && PriceOf(w, x) == PriceOf(w, r)
    ensures Resolve(w, x) == Resolve(w, r) && (Complete(w, x) <==> Complete(w, r))
    ensures r in w.rows ==> x in w.rows
  {
    var res := Resolve(w, r);
    if Shared(res) {
      FilterMembers(w.rows, Alongside(res.members, r.start, r.end));
      assert w.resolve(x.device, r.start, r.end) == w.resolve(r.device, r.start, r.end);
    }
  }

  lemma {:induction false} GainersAreChargeable(w: World, before: Table, scanned: set<Row>, x: Row)
    requires WellFormed(w) && Gains(w, before, scanned, x)
    ensures Chargeable(w, x) && x in GroupOf(w, x) && x.id !in before
  {
    var r :| r in scanned && Chargeable(w, r) && Untouched(GroupOf(w, r), before) && x in GroupOf(w, r);
    SameGroup(w, r, x);
  }

  lemma {:induction false} SameIdSameRow(w: World, x: Row, y: Row)
    requires WellFormed(w) && x in w.rows && y in w.rows && x.id == y.id
    ensures x == y
  {
  }

  ghost function GainedIds(w: World, before: Table, scanned: set<Row>): set<int> {
    set x | x in w.rows && Gains(w, before, scanned, x) :: x.id
  }

  ghost function RowWith(w: World, id: int): (x: Row)
    requires exists x :: x in w.rows && x.id == id
    ensures x in w.rows && x.id == id
  {
    var x :| x in w.rows && x.id == id;
    x
  }

  ghost function ChargeWith(w: World, id: int): Charge {
    if (exists x :: x in w.rows && x.id == id) && Chargeable(w, RowWith(w, id)) && RowWith(w, id) in GroupOf(w, RowWith(w, id))
    then ChargeOf(w, RowWith(w, id)) else Charge(0, 0)
  }

  ghost function Charges(w: World): int -> Charge {
    (id: int) => ChargeWith(w, id)
  }

  /** The specification: everything selected before, plus the charge of every interval that gains one. */
  ghost function Settled(w: World, before: Table, scanned: set<Row>): Table {
    AddCharges(before, GainedIds(w, before, scanned), Charges(w))
  }

  lemma {:induction false} ChargeWithRow(w: World, x: Row)
    requires WellFormed(w) && x in w.rows && Chargeable(w, x) && x in GroupOf(w, x)
    ensures ChargeWith(w, x.id) == ChargeOf(w, x)
  {
    SameIdSameRow(w, x, RowWith(w, x.id));
  }

  lemma {:induction false} GainedId(w: World, before: Table, scanned: set<Row>, x: Row)
    requires WellFormed(w) && x in w.rows
    ensures x.id in GainedIds(w, before, scanned) <==> Gains(w, before, scanned, x)
  {
    if x.id in GainedIds(w, before, scanned) {
      var y :| y in w.rows && Gains(w, before, scanned, y) && y.id == x.id;
      SameIdSameRow(w, x, y);
    }
  }

  lemma {:induction false} GainsNoMore(w: World, before: Table, scanned: set<Row>, r: Row, x: Row)
    requires WellFormed(w) && r in w.rows
    requires !Untouched(GroupOf(w, r), Settled(w, before, scanned)) || !Chargeable(w, r)
    ensures Gains(w, before, scanned + {r}, x) <==> Gains(w, before, scanned, x)
  {
    hide Chargeable, Untouched, GroupOf, Settled, WellFormed;
    if Gains(w, before, scanned, x) {
      var q :| q in scanned && Chargeable(w, q) && Untouched(GroupOf(w, q), before) && x in GroupOf(w, q);
      assert q in scanned + {r};
    } else if Chargeable(w, r) && Untouched(GroupOf(w, r), before) && x in GroupOf(w, r) {
      TouchedMeansGained(w, before, scanned, r, x);
    }
  }

  /** Scanning more of a group that has already gained its charges changes nothing. */
  lemma {:induction false} SettledOnce(w: World, before: Table, scanned: set<Row>, r: Row)
    requires WellFormed(w) && r in w.rows
    requires !Untouched(GroupOf(w, r), Settled(w, before, scanned)) || !Chargeable(w, r)
    ensures Settled(w, before, scanned + {r}) == Settled(w, before, scanned)
  {
    hide Gains, Chargeable, Untouched, GroupOf, Charges;
    forall x | x in w.rows ensures Gains(w, before, scanned + {r}, x) <==> Gains(w, before, scanned, x) {
      GainsNoMore(w, before, scanned, r, x);
    }
    assert GainedIds(w, before, scanned + {r}) == GainedIds(w, before, scanned);
  }

  /** If part of a fresh group is already settled, all of it has gained. */
  lemma {:induction false} TouchedMeansGained(w: World, before: Table, scanned: set<Row>, r: Row, x: Row)
    requires WellFormed(w) && r in w.rows && x in GroupOf(w, r)
    requires Untouched(GroupOf(w, r), before) && !Untouched(GroupOf(w, r), Settled(w, before, scanned))
    ensures Gains(w, before, scanned, x)
  {
    var group := GroupOf(w, r);
    var i :| 0 <= i < |group| && group[i].id in Settled(w, before, scanned);
    var g := group[i];
    assert g in group;
    SameGroup(w, r, g);
    GainedId(w, before, scanned, g);
    var q :| q in scanned && Chargeable(w, q) && Untouched(GroupOf(w, q), before) && g in GroupOf(w, q);
    SameGroup(w, q, g);
  }

  function IdsOf(group: seq<Row>): set<int> {
    set x | x in group :: x.id
  }

  lemma {:induction false} GainsMore(w: World, before: Table, scanned: set<Row>, r: Row, x: Row)
    requires Chargeable(w, r) && Untouched(GroupOf(w, r), before)
    ensures Gains(w, before, scanned + {r}, x) <==> Gains(w, before, scanned, x) || x in GroupOf(w, r)
  {
    if Gains(w, before, scanned, x) {
      var q :| q in scanned && Chargeable(w, q) && Untouched(GroupOf(w, q), before) && x in GroupOf(w, q);
      assert q in scanned + {r};
    } else if x in GroupOf(w, r) {
      assert r in scanned + {r};
    }
  }

  lemma {:induction false} GainedIdsGrow(w: World, before: Table, scanned: set<Row>, r: Row)
    requires WellFormed(w) && r in w.rows && Chargeable(w, r) && Untouched(GroupOf(w, r), before)
    ensures GainedIds(w, before, scanned + {r}) == GainedIds(w, before, scanned) + IdsOf(GroupOf(w, r))
  {
    forall x | x in w.rows
      ensures Gains(w, before, scanned + {r}, x) <==> Gains(w, before, scanned, x) || x in GroupOf(w, r)
    {
      GainsMore(w, before, scanned, r, x);
    }
    forall x | x in GroupOf(w, r) ensures x in w.rows {
      SameGroup(w, r, x);
    }
  }

  /** Scanning an untouched chargeable group adds exactly its charges. */
  lemma {:induction false} SettledGroup(w: World, before: Table, scanned: set<Row>, r: Row)
    requires WellFormed(w) && r in w.rows && Chargeable(w, r) && Untouched(GroupOf(w, r), Settled(w, before, scanned))
    ensures Settled(w, before, scanned + {r}) == AddCharges(Settled(w, before, scanned), IdsOf(GroupOf(w, r)), Charges(w))
  {
    assert Untouched(GroupOf(w, r), before);
    GainedIdsGrow(w, before, scanned, r);
    AddChargesTwice(before, GainedIds(w, before, scanned), IdsOf(GroupOf(w, r)), Charges(w));
  }

  // ----- confluence -----

  /** Settling one scanned set after another is settling both at once. */
  lemma {:induction false} SettledInTwoSteps(w: World, before: Table, a: set<Row>, b: set<Row>)
    requires WellFormed(w) && (forall r :: r in a + b ==> r in w.rows)
    ensures Settled(w, Settled(w, before, a), b) == Settled(w, before, a + b)
  {
    var between := Settled(w, before, a);
    forall x | x in w.rows
      ensures Gains(w, before, a + b, x) <==> Gains(w, before, a, x) || Gains(w, between, b, x)
    {
      GainsInTwoSteps(w, before, a, b, x);
    }
    assert GainedIds(w, before, a + b) == GainedIds(w, before, a) + GainedIds(w, between, b);
    AddChargesTwice(before, GainedIds(w, before, a), GainedIds(w, between, b), Charges(w));
  }

  lemma {:induction false} GainsInTwoSteps(w: World, before: Table, a: set<Row>, b: set<Row>, x: Row)
    requires WellFormed(w) && (forall r :: r in a + b ==> r in w.rows)
    ensures Gains(w, before, a + b, x) <==> Gains(w, before, a, x) || Gains(w, Settled(w, before, a), b, x)
  {
    var between := Settled(w, before, a);
    if Gains(w, before, a, x) {
      var r :| r in a && Chargeable(w, r) && Untouched(GroupOf(w, r), before) && x in GroupOf(w, r);
      assert r in a + b;
    } else if Gains(w, between, b, x) {
      var r :| r in b && Chargeable(w, r) && Untouched(GroupOf(w, r), between) && x in GroupOf(w, r);
      assert r in a + b && Untouched(GroupOf(w, r), before);
    } else if Gains(w, before, a + b, x) {
      var r :| r in a + b && Chargeable(w, r) && Untouched(GroupOf(w, r), before) && x in GroupOf(w, r);
      assert r in b && r in w.rows;
      TouchedMeansGained(w, before, a, r, x);
    }
  }

  ghost function AllRows(batches: seq<set<Row>>): set<Row> {
    if batches == [] then {} else AllRows(batches[..|batches| - 1]) + batches[|batches| - 1]
  }

  /** The selections after working through batches one by one. */
  ghost function AfterBatches(w: World, before: Table, batches: seq<set<Row>>): Table {
    if batches == [] then before
    else Settled(w, AfterBatches(w, before, batches[..|batches| - 1]), batches[|batches| - 1])
  }

  /** Confluence: only the set of scanned intervals matters, not the order or the batches in which they were scanned. */
  lemma {:induction false} Confluence(w: World, before: Table, batches: seq<set<Row>>)
    requires WellFormed(w) && (forall r :: r in AllRows(batches) ==> r in w.rows)
    ensures AfterBatches(w, before, batches) == Settled(w, before, AllRows(batches))
    decreases |batches|
  {
    if batches == [] {
      NothingScanned(w, before);
    } else {
      var earlier, last := batches[..|batches| - 1], batches[|batches| - 1];
      Confluence(w, before, earlier);
      SettledInTwoSteps(w, before, AllRows(earlier), last);
    }
  }

  /** What ends up selected, and at which charge. */
  lemma {:induction false} SettledMeaning(w: World, before: Table, scanned: set<Row>, x: Row)
    requires WellFormed(w) && x in w.rows
    ensures var after := Settled(w, before, scanned);
            && (x.id in after <==> x.id in before || Gains(w, before, scanned, x))
            && (x.id in before ==> after[x.id] == before[x.id])
            && (Gains(w, before, scanned, x) ==>
                  Chargeable(w, x) && x in GroupOf(w, x) && x.id !in before && after[x.id] == ChargeOf(w, x))
  {
    GainedId(w, before, scanned, x);
    if Gains(w, before, scanned, x) {
      GainersAreChargeable(w, before, scanned, x);
      ChargeWithRow(w, x);
    }
  }

  /** No group is half selected. */
  ghost predicate WholeGroups(w: World, selected: Table) {
    forall r, x, y :: r in w.rows && Shared(Resolve(w, r)) && x in GroupOf(w, r) && y in GroupOf(w, r)
      ==> (x.id in selected <==> y.id in selected)
  }

  lemma {:induction false} GroupsStayWhole(w: World, before: Table, scanned: set<Row>)
    requires WellFormed(w) && WholeGroups(w, before)
    ensures WholeGroups(w, Settled(w, before, scanned))
  {
    forall r, x, y | r in w.rows && Shared(Resolve(w, r)) && x in GroupOf(w, r) && y in GroupOf(w, r)
      ensures x.id in Settled(w, before, scanned) <==> y.id in Settled(w, before, scanned)
    {
      SameGroup(w, r, x);
      SameGroup(w, r, y);
      GainedId(w, before, scanned, x);
      GainedId(w, before, scanned, y);
      GainTogether(w, before, scanned, x, y);
      GainTogether(w, before, scanned, y, x);
    }
  }

  lemma {:induction false} GainTogether(w: World, before: Table, scanned: set<Row>, x: Row, y: Row)
    requires WellFormed(w) && y in GroupOf(w, x)
    ensures Gains(w, before, scanned, x) ==> Gains(w, before, scanned, y)
  {
    if Gains(w, before, scanned, x) {
      var q :| q in scanned && Chargeable(w, q) && Untouched(GroupOf(w, q), before) && x in GroupOf(w, q);
      SameGroup(w, q, x);
    }
  }

  // ----- what a selection says about the table -----

  /** A finalized current interval of the device with these bounds and an energy. */
  predicate Stands(r: Row, device: int, start: int, end: int) {
    r.device == device && r.start == start && r.end == end && r.finalized && r.current && r.energy.Some?
  }

  /** A newly selected interval of a shared scope has one beside it for every member, and all of them are selected. */
  lemma {:induction false} SelectedGroupsAreComplete(w: World, before: Table, scanned: set<Row>, x: Row, device: int)
    requires WellFormed(w) && x in w.rows && x.id !in before && x.id in Settled(w, before, scanned)
    requires var res := w.resolve(x.device, x.start, x.end); res.Resolved? && |res.members| > 1 && device in res.members
    ensures exists y :: y in w.rows && Stands(y, device, x.start, x.end)
    ensures forall y :: y in w.rows && Stands(y, device, x.start, x.end) ==> y.id in Settled(w, before, scanned)
  {
    var res, group := Resolve(w, x), GroupOf(w, x);
    SettledMeaning(w, before, scanned, x);
    FilterMembers(w.rows, Alongside(res.members, x.start, x.end));
    assert device in (set g | g in group :: g.device);
    var y :| y in group && y.device == device;
    assert Stands(y, device, x.start, x.end);
    forall z | z in w.rows && Stands(z, device, x.start, x.end) ensures z.id in Settled(w, before, scanned) {
      assert z in group;
      SameGroup(w, x, z);
      GainTogether(w, before, scanned, x, z);
      SettledMeaning(w, before, scanned, z);
    }
  }

  /** A shared interval with a member that has none beside it is never selected. */
  lemma {:induction false} IncompleteGroupsWait(w: World, before: Table, scanned: set<Row>, x: Row, device: int)
    requires WellFormed(w) && x in w.rows
    requires var res := w.resolve(x.device, x.start, x.end); res.Resolved? && |res.members| > 1 && device in res.members
    requires forall y :: y in w.rows ==> !Stands(y, device, x.start, x.end)
    ensures x.id in Settled(w, before, scanned) <==> x.id in before
  {
    if x.id in Settled(w, before, scanned) && x.id !in before {
      SelectedGroupsAreComplete(w, before, scanned, x, device);
    }
  }

  /** What the members' standing intervals with these bounds measured together. */
  function EnergyBeside(rows: seq<Row>, members: set<int>, start: int, end: int): nat {
    if rows == [] then 0
    else (if rows[0].device in members && Stands(rows[0], rows[0].device, start, end) then rows[0].energy.value else 0)
         + EnergyBeside(rows[1..], members, start, end)
  }

  lemma {:induction false} GroupMeasures(rows: seq<Row>, members: set<int>, start: int, end: int)
    ensures TotalEnergy(Filter(rows, Alongside(members, start, end))) == EnergyBeside(rows, members, start, end)
  {
    if rows != [] {
      var rest := Filter(rows[1..], Alongside(members, start, end));
      GroupMeasures(rows[1..], members, start, end);
      assert ([rows[0]] + rest)[1..] == rest;
      assert Filter(rows, Alongside(members, start, end)) == (if Alongside(members, start, end)(rows[0]) then [rows[0]] + rest else rest);
    }
  }

  /** A scanned shared interval whose members all have one beside it, all unselected, and whose measured energy is quoted is selected with all of them. */
  lemma {:induction false} CompleteGroupsAreSelected(w: World, before: Table, scanned: set<Row>, x: Row, y: Row)
    requires WellFormed(w) && x in w.rows && x in scanned && y in w.rows
    requires var res := w.resolve(x.device, x.start, x.end);
             && res.Resolved? && |res.members| > 1 && y.device in res.members && Stands(y, y.device, x.start, x.end)
             && (forall m :: m in res.members ==> exists z :: z in w.rows && Stands(z, m, x.start, x.end))
             && (forall z :: z in w.rows && z.device in res.members && Stands(z, z.device, x.start, x.end) ==> z.id !in before)
             && w.price(x.start, x.end, EnergyBeside(w.rows, res.members, x.start, x.end), res).Quote?
    ensures y.id in Settled(w, before, scanned)
  {
    var group := GroupOf(w, x);
    GroupStands(w, x);
    GroupMeasures(w.rows, Resolve(w, x).members, x.start, x.end);
    EveryMemberStands(w, x);
    assert PriceOf(w, x).Quote?;
    hide GroupOf, TotalEnergy, EnergyBeside, Complete, PriceOf;
    forall k | 0 <= k < |group| ensures group[k].id !in before {
      assert group[k] in group;
    }
    assert Gains(w, before, scanned, y);
    hide Gains;
    SettledMeaning(w, before, scanned, y);
  }

  /** The group of a shared interval holds the standing intervals of its members with its bounds. */
  lemma {:induction false} GroupStands(w: World, x: Row)
    requires Shared(Resolve(w, x))
    ensures forall z :: z in GroupOf(w, x) <==> z in w.rows && z.device in Resolve(w, x).members && Stands(z, z.device, x.start, x.end)
  {
    FilterMembers(w.rows, Alongside(Resolve(w, x).members, x.start, x.end));
  }

  lemma {:induction false} EveryMemberStands(w: World, x: Row)
    requires Shared(Resolve(w, x))
    requires forall m :: m in Resolve(w, x).members ==> exists z :: z in w.rows && Stands(z, m, x.start, x.end)
    ensures Complete(w, x)
  {
    var members, group := Resolve(w, x).members, GroupOf(w, x);
    GroupStands(w, x);
    hide GroupOf;
    forall m | m in members ensures m in (set g | g in group :: g.device) {
      var z :| z in w.rows && Stands(z, m, x.start, x.end);
      assert z in group;
    }
    assert (set g | g in group :: g.device) == members;
  }

  /** A scanned interval that is priced on its own is selected exactly when it is quoted, or was selected before. */
  lemma {:induction false} LoneIntervals(w: World, before: Table, scanned: set<Row>, x: Row)
    requires WellFormed(w) && x in w.rows && x in scanned && x.energy.Some?
    requires var res := w.resolve(x.device, x.start, x.end); !res.Resolved? || |res.members| <= 1
    ensures x.id in Settled(w, before, scanned) <==>
              || x.id in before
              || (w.resolve(x.device, x.start, x.end).Resolved?
                  && w.price(x.start, x.end, x.energy.value, w.resolve(x.device, x.start, x.end)).Quote?)
  {
    assert GroupOf(w, x) == [x] && TotalEnergy([x]) == x.energy.value by {
      assert [x][1..] == [];
    }
    SettledMeaning(w, before, scanned, x);
    if x.id !in before && Chargeable(w, x) {
      assert Gains(w, before, scanned, x);
    }
  }

  function MeasuredEnergy(r: Row): nat {
    if r.energy.Some? then r.energy.value else 0
  }

  function MeasuredTotal(group: seq<Row>): nat {
    if group == [] then 0 else MeasuredTotal(group[..|group| - 1]) + MeasuredEnergy(group[|group| - 1])
  }

  lemma {:induction false} WeightsAreMeasured(group: seq<Row>)
    ensures Sum(Weights(group)) == MeasuredTotal(group)
    ensures forall i :: 0 <= i < |group| ==> Weights(group)[i] == MeasuredEnergy(group[i])
  {
    if group != [] {
      var front, last := group[..|group| - 1], group[|group| - 1];
      WeightsAreMeasured(front);
      WeightsSnoc(front, last);
      assert group == front + [last];
      SumConcat(Weights(front), [Energy(last)]);
    }
  }

  lemma {:induction false} WeightsSnoc(group: seq<Row>, r: Row)
    ensures Weights(group + [r]) == Weights(group) + [Energy(r)]
  {
    if group != [] {
      WeightsSnoc(group[1..], r);
      assert (group + [r])[1..] == group[1..] + [r];
    }
  }

  /** A member's cost and credit are its share by measured energy, less than a microdollar off. */
  lemma {:induction false} ChargesAreProportional(w: World, before: Table, scanned: set<Row>, r: Row, i: nat)
    requires WellFormed(w) && r in w.rows && r in scanned && Chargeable(w, r) && Untouched(GroupOf(w, r), before)
    requires i < |GroupOf(w, r)| && MeasuredTotal(GroupOf(w, r)) > 0
    ensures var after, group, quote := Settled(w, before, scanned), GroupOf(w, r), PriceOf(w, r);
            var total, energy := MeasuredTotal(group), MeasuredEnergy(group[i]);
            && group[i].id in after
            && total * after[group[i].id].cost < quote.cost * energy + total && quote.cost * energy < total * after[group[i].id].cost + total
            && total * after[group[i].id].credit < quote.credit * energy + total && quote.credit * energy < total * after[group[i].id].credit + total
  {
    var group, quote := GroupOf(w, r), PriceOf(w, r);
    SettledShare(w, before, scanned, r, i);
    WeightsAreMeasured(group);
    hide Settled, Chargeable, Untouched, GroupOf, PriceOf, Weights, Shares;
    SharesAreLargestRemainder(quote.cost, Weights(group));
    SharesAreLargestRemainder(quote.credit, Weights(group));
    SharesAreFloorOrCeiling(quote.cost, Weights(group), Shares(quote.cost, Weights(group)), i);
    SharesAreFloorOrCeiling(quote.credit, Weights(group), Shares(quote.credit, Weights(group)), i);
  }

  // ----- conservation -----

  function SelectedCosts(table: Table, group: seq<Row>): seq<int>
    requires forall i :: 0 <= i < |group| ==> group[i].id in table
  {
    seq(|group|, i requires 0 <= i < |group| => table[group[i].id].cost)
  }

  function SelectedCredits(table: Table, group: seq<Row>): seq<int>
    requires forall i :: 0 <= i < |group| ==> group[i].id in table
  {
    seq(|group|, i requires 0 <= i < |group| => table[group[i].id].credit)
  }

  lemma {:induction false} SettledShare(w: World, before: Table, scanned: set<Row>, r: Row, i: nat)
    requires WellFormed(w) && r in w.rows && r in scanned && Chargeable(w, r) && Untouched(GroupOf(w, r), before)
    requires i < |GroupOf(w, r)|
    ensures var after, group, quote := Settled(w, before, scanned), GroupOf(w, r), PriceOf(w, r);
            && group[i].id in after
            && after[group[i].id] == Charge(Shares(quote.cost, Weights(group))[i], Shares(quote.credit, Weights(group))[i])
  {
    hide Settled, Complete, Position, Shares, Weights, PriceOf;
    var x := GroupOf(w, r)[i];
    assert x in GroupOf(w, r);
    SameGroup(w, r, x);
    assert Gains(w, before, scanned, x);
    SettledMeaning(w, before, scanned, x);
    ChargeWithRow(w, x);
    GroupCharge(w, r, i);
  }

  /** The member charges of a priced group add up to the group's quote, microdollar for microdollar. */
  lemma {:induction false} GroupQuoteIsConserved(w: World, before: Table, scanned: set<Row>, r: Row)
    requires WellFormed(w) && r in w.rows && r in scanned && Chargeable(w, r) && Untouched(GroupOf(w, r), before)
    ensures var after, group, quote := Settled(w, before, scanned), GroupOf(w, r), PriceOf(w, r);
            && (forall i :: 0 <= i < |group| ==> group[i].id in after)
            && Sum(SelectedCosts(after, group)) == quote.cost
            && Sum(SelectedCredits(after, group)) == quote.credit
  {
    var after, group, quote := Settled(w, before, scanned), GroupOf(w, r), PriceOf(w, r);
    var weights := Weights(group);
    hide Settled, Shares, Untouched, ChargeWith, Weights, GroupOf;
    forall i | 0 <= i < |group|
      ensures group[i].id in after
      ensures after[group[i].id] == Charge(Shares(quote.cost, weights)[i], Shares(quote.credit, weights)[i])
    {
      SettledShare(w, before, scanned, r, i);
    }
    assert SelectedCosts(after, group) == Shares(quote.cost, weights);
    assert SelectedCredits(after, group) == Shares(quote.credit, weights);
    CompleteGroupsAreNonempty(w, r);
    SharesConserveTotal(quote.cost, weights);
    SharesConserveTotal(quote.credit, weights);
  }

  lemma {:induction false} CompleteGroupsAreNonempty(w: World, r: Row)
    requires Complete(w, r)
    ensures GroupOf(w, r) != []
  {
    assert GroupOf(w, r) == [] ==> (set g | g in GroupOf(w, r) :: g.device) == {};
  }

  // ----- the batch loop -----

  ghost function RowsOf(batch: seq<Row>): set<Row> {
    set x | x in batch
  }

  /** What the processed identities are: newly selected rows, and rows of refused groups. */
  ghost predicate Accounted(w: World, before: Table, selected: Table, processed: set<int>) {
    && (forall x :: x in w.rows && x.id in processed ==> x.id in selected || PriceOf(w, x).Refused?)
    && (forall id :: id in selected && id !in before ==> id in processed)
  }

  lemma {:induction false} SelectedChangesNothing(w: World, before: Table, scanned: set<Row>, r: Row)
    requires WellFormed(w) && r in w.rows && r.id !in before && r.id in Settled(w, before, scanned)
    ensures Settled(w, before, scanned + {r}) == Settled(w, before, scanned)
  {
    GainedId(w, before, scanned, r);
    GainersAreChargeable(w, before, scanned, r);
    SettledOnce(w, before, scanned, r);
  }

  lemma {:induction false} UnquotedChangesNothing(w: World, before: Table, scanned: set<Row>, r: Row)
    requires WellFormed(w) && r in w.rows && !Chargeable(w, r)
    ensures Settled(w, before, scanned + {r}) == Settled(w, before, scanned)
  {
    SettledOnce(w, before, scanned, r);
  }

  lemma {:induction false} GroupIsDistinct(w: World, r: Row)
    requires WellFormed(w)
    ensures DistinctRows(GroupOf(w, r))
  {
    var res := Resolve(w, r);
    if Shared(res) {
      FilterKeepsIdsDistinct(w.rows, Alongside(res.members, r.start, r.end));
    }
  }

  lemma {:induction false} FilterKeepsIdsDistinct(rows: seq<Row>, keep: Row -> bool)
    requires DistinctRows(rows)
    ensures DistinctRows(Filter(rows, keep))
  {
    if rows != [] {
      var rest := Filter(rows[1..], keep);
      FilterKeepsIdsDistinct(rows[1..], keep);
      FilterMembers(rows[1..], keep);
      forall j | 0 <= j < |rest| ensures rest[j].id != rows[0].id {
        assert rest[j] in rows[1..];
      }
    }
  }

  lemma {:induction false} GroupCharge(w: World, r: Row, i: nat)
    requires WellFormed(w) && r in w.rows && Chargeable(w, r) && i < |GroupOf(w, r)|
    ensures var group, quote := GroupOf(w, r), PriceOf(w, r);
            ChargeWith(w, group[i].id)
            == Charge(Shares(quote.cost, Weights(group))[i], Shares(quote.credit, Weights(group))[i])
  {
    var group := GroupOf(w, r);
    var x := group[i];
    assert x in group;
    SameGroup(w, r, x);
    ChargeWithRow(w, x);
    GroupIsDistinct(w, r);
    assert Position(group, x) == i;
  }

  /** The charges of a group, in group order, are the shares of its quote. */
  lemma {:induction false} GroupCharges(w: World, r: Row, costs: seq<int>, credits: seq<int>)
    requires WellFormed(w) && r in w.rows && Chargeable(w, r)
    requires costs == Shares(PriceOf(w, r).cost, Weights(GroupOf(w, r)))
    requires credits == Shares(PriceOf(w, r).credit, Weights(GroupOf(w, r)))
    ensures var group := GroupOf(w, r);
            && |costs| == |credits| == |group| && DistinctRows(group)
            && forall i :: 0 <= i < |group| ==> Charges(w)(group[i].id) == Charge(costs[i], credits[i])
  {
    GroupIsDistinct(w, r);
    forall i | 0 <= i < |GroupOf(w, r)| ensures Charges(w)(GroupOf(w, r)[i].id) == Charge(costs[i], credits[i]) {
      GroupCharge(w, r, i);
    }
  }

  lemma {:induction false} WeightsAreNonNegative(group: seq<Row>)
    ensures forall i :: 0 <= i < |Weights(group)| ==> Weights(group)[i] >= 0
  {
  }

  lemma {:induction false} UnresolvedIsUnquoted(w: World, r: Row)
    ensures !Resolve(w, r).Resolved? || !Complete(w, r) ==> !Chargeable(w, r)
  {
  }

  lemma {:induction false} ProcessedChangesNothing(w: World, before: Table, scanned: set<Row>, r: Row, processed: set<int>)
    requires WellFormed(w) && r in w.rows && r.id !in before && r.id in processed
    requires Accounted(w, before, Settled(w, before, scanned), processed)
    ensures Settled(w, before, scanned + {r}) == Settled(w, before, scanned)
  {
    if r.id in Settled(w, before, scanned) {
      SelectedChangesNothing(w, before, scanned, r);
    } else {
      UnquotedChangesNothing(w, before, scanned, r);
    }
  }

  /** Past the checks, the interval's group is complete and untouched; what remains is its quote. */
  lemma {:induction false} ReadyToPrice(w: World, before: Table, scanned: set<Row>, r: Row, processed: set<int>)
    requires WellFormed(w) && r in w.rows && r.id !in before && r.id !in processed && Resolve(w, r).Resolved?
    requires Accounted(w, before, Settled(w, before, scanned), processed)
    requires Shared(Resolve(w, r)) ==> Complete(w, r) && Untouched(GroupOf(w, r), Settled(w, before, scanned))
    ensures Untouched(GroupOf(w, r), Settled(w, before, scanned))
    ensures Chargeable(w, r) <==> PriceOf(w, r).Quote?
  {
  }

  lemma {:induction false} RefusedIsAccounted(w: World, before: Table, selected: Table, processed: set<int>, r: Row)
    requires WellFormed(w) && r in w.rows && PriceOf(w, r).Refused? && Accounted(w, before, selected, processed)
    ensures Accounted(w, before, selected, processed + IdsOf(GroupOf(w, r)))
  {
    RefusedTogether(w, r);
  }

  lemma {:induction false} SelectedIsAccounted(w: World, before: Table, selected: Table, processed: set<int>, ids: set<int>, charge: int -> Charge)
    requires Accounted(w, before, selected, processed)
    ensures Accounted(w, before, AddCharges(selected, ids, charge), processed + ids)
  {
  }

  lemma {:induction false} IdsOfNext(group: seq<Row>, i: nat)
    requires i < |group|
    ensures IdsOf(group[..i + 1]) == IdsOf(group[..i]) + {group[i].id}
  {
    assert group[..i + 1] == group[..i] + [group[i]];
  }

  class Worker {
    var selections: Table

    constructor (initial: Table)
      ensures selections == initial
    {
      selections := initial;
    }

    /** Selects the charges of one quoted group, member by member. */
    method SelectGroup(group: seq<Row>, costs: seq<int>, credits: seq<int>, ghost charge: int -> Charge)
      requires |costs| == |credits| == |group| && Untouched(group, selections)
      requires DistinctRows(group)
      requires forall i :: 0 <= i < |group| ==> charge(group[i].id) == Charge(costs[i], credits[i])
      modifies this
      ensures selections == AddCharges(old(selections), IdsOf(group), charge)
      ensures |selections| == |old(selections)| + |group|
    {
      ghost var before := selections;
      AddNoCharges(before, charge);
      for i := 0 to |group|
        invariant selections == AddCharges(before, IdsOf(group[..i]), charge)
        invariant |selections| == |before| + i
      {
        IdsOfNext(group, i);
        AddChargesTwice(before, IdsOf(group[..i]), {group[i].id}, charge);
        AddOneCharge(selections, group[i].id, charge);
        selections := selections[group[i].id := Charge(costs[i], credits[i])];
      }
      assert group[..|group|] == group;
    }

    /** Handles one scanned interval; the ghost arguments name what the batch has scanned so far. */
    method PriceInterval(w: World, interval: Row, processed: set<int>, ghost before: Table, ghost scanned: set<Row>)
      returns (created: nat, done: set<int>)
      requires WellFormed(w) && interval in w.rows && interval.id !in before
      requires selections == Settled(w, before, scanned) && Accounted(w, before, selections, processed)
      modifies this
      ensures selections == Settled(w, before, scanned + {interval}) && Accounted(w, before, selections, done)
      ensures created == |selections| - |old(selections)|
    {
      hide *;
      created, done := 0, processed;
      if interval.id in processed {
        ProcessedChangesNothing(w, before, scanned, interval, processed);
        return;
      }
      var resolved := Resolve(w, interval);
      if !resolved.Resolved? {
        UnresolvedIsUnquoted(w, interval);
        UnquotedChangesNothing(w, before, scanned, interval);
        return;
      }
      var group := GroupOf(w, interval);
      if Shared(resolved) {
        if !Complete(w, interval) {
          UnresolvedIsUnquoted(w, interval);
          UnquotedChangesNothing(w, before, scanned, interval);
          return;
        }
        if !Untouched(group, selections) {
          SettledOnce(w, before, scanned, interval);
          return;
        }
      }
      ReadyToPrice(w, before, scanned, interval, processed);
      match PriceOf(w, interval)
      case NoContext =>
        UnquotedChangesNothing(w, before, scanned, interval);
      case Refused =>
        UnquotedChangesNothing(w, before, scanned, interval);
        RefusedIsAccounted(w, before, selections, processed, interval);
        done := processed + IdsOf(group);
      case Quote(cost, credit) =>
        var costs := AllocateIntegerTotal(cost, Weights(group));
        var credits := AllocateIntegerTotal(credit, Weights(group));
        WeightsAreNonNegative(group);
        GroupCharges(w, interval, costs.value, credits.value);
        SettledGroup(w, before, scanned, interval);
        SelectedIsAccounted(w, before, selections, processed, IdsOf(group), Charges(w));
        SelectGroup(group, costs.value, credits.value, Charges(w));
        created := |group|;
        done := processed + IdsOf(group);
    }

    /** Works through a scanned batch; no quote is refused, so a batch never raises. */
    method PriceBatch(w: World, batch: seq<Row>) returns (created: nat)
      requires WellFormed(w)
      requires forall i :: 0 <= i < |batch| ==> batch[i] in w.rows && Eligible(batch[i]) && batch[i].id !in selections
      modifies this
      ensures selections == Settled(w, old(selections), RowsOf(batch))
      ensures created == |selections| - |old(selections)|
    {
      hide *;
      ghost var saved := selections;
      var processed := {};
      created := 0;
      NothingProcessed(w, saved, batch);
      for c := 0 to |batch|
        invariant selections == Settled(w, saved, RowsOf(batch[..c])) && Accounted(w, saved, selections, processed)
        invariant created == |selections| - |saved|
      {
        var made;
        made, processed := PriceInterval(w, batch[c], processed, saved, RowsOf(batch[..c]));
        created := created + made;
        RowsOfNext(batch, c);
      }
      assert batch[..|batch|] == batch;
    }
  }

  lemma {:induction false} NothingProcessed(w: World, selected: Table, batch: seq<Row>)
    ensures Settled(w, selected, RowsOf(batch[..0])) == selected && Accounted(w, selected, selected, {})
  {
    assert RowsOf(batch[..0]) == {};
    NothingScanned(w, selected);
  }

  lemma {:induction false} RowsOfNext(batch: seq<Row>, c: nat)
    requires c < |batch|
    ensures RowsOf(batch[..c + 1]) == RowsOf(batch[..c]) + {batch[c]}
  {
    assert batch[..c + 1] == batch[..c] + [batch[c]];
  }

  lemma {:induction false} RefusedTogether(w: World, r: Row)
    requires WellFormed(w) && r in w.rows && PriceOf(w, r).Refused?
    ensures forall x :: x in w.rows && x.id in IdsOf(GroupOf(w, r)) ==> PriceOf(w, x).Refused?
  {
    forall x | x in w.rows && x.id in IdsOf(GroupOf(w, r)) ensures PriceOf(w, x).Refused? {
      var y :| y in GroupOf(w, r) && y.id == x.id;
      SameGroup(w, r, y);
      SameIdSameRow(w, x, y);
    }
  }

  lemma {:induction false} NothingScanned(w: World, before: Table)
    ensures Settled(w, before, {}) == before
  {
    assert GainedIds(w, before, {}) == {};
    AddNoCharges(before, Charges(w));
  }
}
