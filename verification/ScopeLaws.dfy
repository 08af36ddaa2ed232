/** What an interval's billing scope is, from the columns of devices and circuits (worker/app/jobs.py). */
module ScopeLaws {
  import opened Outcomes
  import opened Sums
  import opened Sorting
  import opened BillingScopes

  /** The circuit is the home's confirmed billing source: its total, summed from verified members. */
  ghost predicate BillsTheHome(c: Circuit, home: int) {
    c.home == home && c.homeTotal && c.billingSource && c.mode == VerifiedSum && c.confirmed
  }

  /** The device is in service in the account's home and measures the account's own scope. */
  ghost predicate Carries(account: Account, d: Device) {
    d.home == account.home && !d.revoked && d.scope == account.costScope
  }

  ghost predicate OneCarrier(inst: Installation, account: Account) {
    exists e :: e in inst.devices && Carries(account, e) && forall f :: f in inst.devices && Carries(account, f) ==> f == e
  }

  /** Some device carries the scope, and all that do hang on the circuit, a verified sum. */
  ghost predicate Joins(inst: Installation, account: Account, c: Circuit) {
    && c in inst.circuits && c.mode == VerifiedSum
    && (exists e :: e in inst.devices && Carries(account, e))
    && (forall e :: e in inst.devices && Carries(account, e) ==> e.circuit == Some(c.id))
  }

  ghost predicate Ascending(ids: seq<int>) {
    forall i, j :: 0 <= i < j < |ids| ==> ids[i] < ids[j]
  }

  /** The list holds the ids of exactly the devices that qualify, in ascending order. */
  ghost predicate Lists(ids: seq<int>, inst: Installation, qualifies: Device -> bool) {
    && Ascending(ids)
    && forall id :: id in ids <==> exists e :: e in inst.devices && e.id == id && qualifies(e)
  }

  ghost predicate DistinctCircuits(circuits: seq<Circuit>) {
    forall i, j :: 0 <= i < j < |circuits| ==> circuits[i].id != circuits[j].id
  }

  lemma {:induction false} IdsAreDistinct(devices: seq<Device>)
    requires DistinctIds(devices)
    ensures Distinct(Ids(devices))
  {
    IdsMembers(devices);
  }

  lemma {:induction false} SortedIdsList(inst: Installation, qualifies: Device -> bool)
    requires DistinctIds(inst.devices)
    ensures Lists(SortedIds(Filter(inst.devices, qualifies)), inst, qualifies)
  {
    SortedIdsAscend(inst, qualifies);
    FilterMembers(inst.devices, qualifies);
    hide Filter, SortedIds, DistinctIds, Ascending;
    var kept := Filter(inst.devices, qualifies);
    forall id ensures id in SortedIds(kept) <==> exists e :: e in inst.devices && e.id == id && qualifies(e) {
      SortedIdsMembers(kept, id);
      if id in SortedIds(kept) {
        var e :| e in kept && e.id == id;
      }
      if e :| e in inst.devices && e.id == id && qualifies(e) {
        assert e in kept;
      }
    }
  }

  lemma {:induction false} SortedIdsAscend(inst: Installation, qualifies: Device -> bool)
    requires DistinctIds(inst.devices)
    ensures Ascending(SortedIds(Filter(inst.devices, qualifies)))
  {
    FilterKeepsDistinct(inst.devices, qualifies);
    hide Filter, Ids, DistinctIds, Ascending;
    var ids := Ids(Filter(inst.devices, qualifies));
    IdsAreDistinct(Filter(inst.devices, qualifies));
    SortPermutes(ids, IntLeq());
    SortSorts(ids, IntLeq());
    hide Sort, Sorted, Distinct;
    DistinctPermutation(ids, Sort(ids, IntLeq()));
    AscendingIds(Sort(ids, IntLeq()));
  }

  lemma {:induction false} ListsSame(ids: seq<int>, inst: Installation, a: Device -> bool, b: Device -> bool)
    requires Lists(ids, inst, a) && forall e :: a(e) <==> b(e)
    ensures Lists(ids, inst, b)
  {
  }

  lemma {:induction false} AscendingIds(ids: seq<int>)
    requires Sorted(ids, IntLeq()) && Distinct(ids)
    ensures Ascending(ids)
  {
    forall i, j | 0 <= i < j < |ids| ensures ids[i] < ids[j] {
      assert IntLeq()(ids[i], ids[j]);
    }
  }

  // ----- a designated home total -----

  lemma {:induction false} TotalIsFound(inst: Installation, account: Account)
    ensures var found := HomeTotal(inst, account);
            && (found.Some? ==> found.value in inst.circuits && BillsTheHome(found.value, account.home))
            && (found.None? ==> forall c :: c in inst.circuits ==> !BillsTheHome(c, account.home))
  {
    var rows := Filter(inst.circuits, IsDesignated(account.home));
    FilterMembers(inst.circuits, IsDesignated(account.home));
    if rows != [] {
      assert rows[0] in rows;
    }
    forall c | c in inst.circuits && BillsTheHome(c, account.home) ensures c in rows {
    }
  }

  /** Under a full account with one confirmed billing source, its included devices are priced together and any other device alone. */
  lemma {:induction false} HomeTotalMembers(inst: Installation, account: Account, d: Device, c: Circuit)
    requires DistinctIds(inst.devices) && d in inst.devices && account.costScope == FullAccount
    requires c in inst.circuits && BillsTheHome(c, account.home)
    requires forall e :: e in inst.circuits && BillsTheHome(e, account.home) ==> e == c
    ensures var group := ResolveInterval(inst, account, d);
            group.Some? &&
            if d.circuit == Some(c.id) && d.included then
              && group.value.kind == FullAccount
              && Lists(group.value.members, inst, (e: Device) => e.circuit == Some(c.id) && e.included)
            else group.value == Group(EnergyOnly, [d.id])
  {
    TotalIsFound(inst, account);
    assert HomeTotal(inst, account) == Some(c);
    var members := DesignatedMembers(inst, c);
    SortedIdsList(inst, OnBranch(c.id));
    hide Filter, HomeTotal, SortedIds, Ascending;
    ListsSame(members, inst, OnBranch(c.id), (e: Device) => e.circuit == Some(c.id) && e.included);
    if d.id in members {
      var e :| e in inst.devices && e.id == d.id && OnBranch(c.id)(e);
      SameIdSameDevice(inst, d, e);
    }
    assert d.id in members <==> d.circuit == Some(c.id) && d.included;
  }

  // ----- devices that carry the account's scope -----

  lemma {:induction false} SingleCarrier(inst: Installation, account: Account)
    requires DistinctIds(inst.devices)
    ensures |Filter(inst.devices, ActiveWithScope(account.home, account.costScope))| == 1 <==> OneCarrier(inst, account)
  {
    var keep := ActiveWithScope(account.home, account.costScope);
    FilterLeavesOne(inst.devices, keep);
    if i :| OnlyPosition(inst.devices, keep, i) {
      assert Carries(account, inst.devices[i]);
    }
    if OneCarrier(inst, account) {
      var e :| e in inst.devices && Carries(account, e) && forall f :: f in inst.devices && Carries(account, f) ==> f == e;
      var i :| 0 <= i < |inst.devices| && inst.devices[i] == e;
      forall j | 0 <= j < |inst.devices| && j != i ensures !keep(inst.devices[j]) {
        assert inst.devices[j].id != inst.devices[i].id && inst.devices[j] in inst.devices;
        assert keep(inst.devices[j]) <==> Carries(account, inst.devices[j]);
      }
      assert OnlyPosition(inst.devices, keep, i);
    }
  }

  lemma {:induction false} CircuitById(circuits: seq<Circuit>, c: Circuit)
    requires DistinctCircuits(circuits) && c in circuits
    ensures FirstCircuit(circuits, (e: Circuit) => e.id == c.id) == Some(c)
  {
    var keep := (e: Circuit) => e.id == c.id;
    var rows := Filter(circuits, keep);
    FilterMembers(circuits, keep);
    assert c in rows;
    assert rows[0] in rows;
  }

  lemma {:induction false} SameCircuit(devices: seq<Device>, circuit: Option<int>)
    requires devices != [] && forall d :: d in devices ==> d.circuit == circuit
    ensures |set d | d in devices :: d.circuit| == 1
  {
    assert devices[0] in devices;
    assert (set d | d in devices :: d.circuit) == {circuit};
  }

  lemma {:induction false} OneValue(values: set<Option<int>>, a: Option<int>, b: Option<int>)
    requires |values| == 1 && a in values && b in values
    ensures a == b
  {
    assert |values - {a}| == 0;
    assert a != b ==> b in values - {a};
  }

  lemma {:induction false} VerifiedExactly(inst: Installation, account: Account)
    requires DistinctCircuits(inst.circuits)
    ensures VerifiedCircuit(inst, Filter(inst.devices, ActiveWithScope(account.home, account.costScope))).Some?
       <==> exists c :: Joins(inst, account, c)
  {
    FilterMembers(inst.devices, ActiveWithScope(account.home, account.costScope));
    hide Filter;
    var scoped := Filter(inst.devices, ActiveWithScope(account.home, account.costScope));
    assert forall e :: e in scoped <==> e in inst.devices && Carries(account, e);
    var values := set d | d in scoped :: d.circuit;
    if VerifiedCircuit(inst, scoped).Some? {
      var id := scoped[0].circuit.value;
      FilterMembers(inst.circuits, (c: Circuit) => c.id == id);
      var found := Filter(inst.circuits, (c: Circuit) => c.id == id);
      assert found[0] in found && scoped[0] in scoped;
      forall e | e in scoped ensures e.circuit == Some(id) {
        OneValue(values, e.circuit, scoped[0].circuit);
      }
      assert Joins(inst, account, found[0]);
    }
    if c :| Joins(inst, account, c) {
      var e :| e in inst.devices && Carries(account, e);
      assert e in scoped && scoped[0] in scoped;
      SameCircuit(scoped, Some(c.id));
      CircuitById(inst.circuits, c);
    }
  }

  /** Without a billing source: a device of another scope is priced alone; one of the account's scope alone on the account if it is the only one,
      together with all of them if they hang on one verified sum, and otherwise alone under a full account and not at all under an allocated one. */
  lemma {:induction false} ScopedMembers(inst: Installation, account: Account, d: Device)
    requires DistinctIds(inst.devices) && DistinctCircuits(inst.circuits)
    requires account.costScope == FullAccount ==> forall c :: c in inst.circuits ==> !BillsTheHome(c, account.home)
    ensures var group := ResolveInterval(inst, account, d);
            if account.costScope == EnergyOnly || d.scope != account.costScope then group == Some(Group(EnergyOnly, [d.id]))
            else if OneCarrier(inst, account) then group == Some(Group(account.costScope, [d.id]))
            else if exists c :: Joins(inst, account, c) then
              && group.Some? && group.value.kind == account.costScope
              && Lists(group.value.members, inst, (e: Device) => Carries(account, e))
            else group == if account.costScope == FullAccount then Some(Group(EnergyOnly, [d.id])) else None
  {
    TotalIsFound(inst, account);
    SingleCarrier(inst, account);
    VerifiedExactly(inst, account);
    SortedIdsList(inst, ActiveWithScope(account.home, account.costScope));
    hide Filter, HomeTotal, SortedIds, VerifiedCircuit, OneCarrier, Joins, DistinctCircuits, DistinctIds;
    var scoped := Filter(inst.devices, ActiveWithScope(account.home, account.costScope));
    ListsSame(SortedIds(scoped), inst, ActiveWithScope(account.home, account.costScope), (e: Device) => Carries(account, e));
    hide Lists;
  }
}
