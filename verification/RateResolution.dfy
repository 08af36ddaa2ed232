/** The rate lookup the worker really uses: account, assignment and scope of a device's interval (worker/app/jobs.py). */
module RateResolution {
  import opened Outcomes
  import opened Sums
  import opened Selections
  import opened BillingScopes
  import opened CostWorker
  import RateAssignments
  import GuardedStore

  /**
   The tables a rate lookup reads: an account is named by its home, of which it is the only one; malformed names the rate
   versions whose stored evidence does not resolve.
   */
  datatype Catalog = Catalog(
    inst: Installation, accounts: map<int, Account>, assignments: map<int, RateAssignments.Assignment>,
    versions: map<int, RateAssignments.Version>, malformed: set<int>)

  datatype Assigned = NoAssignment | BadEvidence | Assigned(rate: int)

  function Candidates(c: Catalog, home: int, start: int, end: int): set<int> {
    RateAssignments.Candidates(c.assignments, c.versions, home, start, end)
  }

  ghost function TheOnly<T>(s: set<T>): (x: T)
    requires |s| == 1
    ensures x in s
  {
    var x :| x in s;
    x
  }

  /** The rate version of the only assignment that spans the interval. */
  ghost function AssignmentFor(c: Catalog, home: int, start: int, end: int): Assigned {
    var candidates := Candidates(c, home, start, end);
    if |candidates| != 1 then NoAssignment
    else
      var version := c.assignments[TheOnly(candidates)].version;
      if version in c.malformed then BadEvidence else Assigned(version)
  }

  function HasId(id: int): Device -> bool {
    (d: Device) => d.id == id
  }

  function MemberSet(members: seq<int>): set<int> {
    set id | id in members
  }

  function Scoped(rate: int, group: Option<Group>): Resolution {
    if group.None? then Unresolved else Resolved(rate, group.value.kind, MemberSet(group.value.members))
  }

  ghost function RateForInterval(c: Catalog, device: int, start: int, end: int): Resolution {
    var found := Filter(c.inst.devices, HasId(device));
    if found == [] || found[0].home !in c.accounts then Unresolved
    else
      match AssignmentFor(c, found[0].home, start, end)
      case NoAssignment => Unresolved
      case BadEvidence => RateError
      case Assigned(rate) => Scoped(rate, ResolveInterval(c.inst, c.accounts[found[0].home], found[0]))
  }

  ghost function WorldOf(c: Catalog, rows: seq<Row>, price: (int, int, nat, Resolution) -> Pricing): World {
    World(rows, (d: int, s: int, t: int) => RateForInterval(c, d, s, t), price)
  }

  predicate OnHomeTotal(inst: Installation, account: Account, d: Device) {
    HomeTotal(inst, account).Some? && OnBranch(HomeTotal(inst, account).value.id)(d)
  }

  /** Accounts are filed under their home, and a home total only carries devices of its own home. */
  ghost predicate Consistent(c: Catalog) {
    && DistinctIds(c.inst.devices)
    && (forall h :: h in c.accounts ==> c.accounts[h].home == h)
    && (forall h, d :: h in c.accounts && d in c.inst.devices && OnHomeTotal(c.inst, c.accounts[h], d) ==> d.home == h)
  }

  lemma {:induction false} FoundDevice(c: Catalog, d: Device)
    requires Consistent(c) && d in c.inst.devices
    ensures var found := Filter(c.inst.devices, HasId(d.id)); found != [] && found[0] == d
  {
    var found := Filter(c.inst.devices, HasId(d.id));
    FilterMembers(c.inst.devices, HasId(d.id));
    assert d in found && found[0] in found;
    SameIdSameDevice(c.inst, d, found[0]);
  }

  /** Members of a shared scope are devices of the same home. */
  lemma {:induction false} SharedMemberIsDevice(c: Catalog, home: int, d: Device, id: int) returns (e: Device)
    requires Consistent(c) && home in c.accounts
    requires var r := ResolveInterval(c.inst, c.accounts[home], d); r.Some? && |r.value.members| > 1 && id in r.value.members
    ensures e in c.inst.devices && e.id == id && e.home == home
  {
    var account := c.accounts[home];
    var scoped := Filter(c.inst.devices, ActiveWithScope(home, account.costScope));
    var group := ResolveInterval(c.inst, account, d).value;
    if account.costScope == FullAccount && HomeTotal(c.inst, account).Some? {
      var branch := OnBranch(HomeTotal(c.inst, account).value.id);
      FilterMembers(c.inst.devices, branch);
      SortedIdsMembers(Filter(c.inst.devices, branch), id);
      e :| e in Filter(c.inst.devices, branch) && e.id == id;
    } else {
      FilterMembers(c.inst.devices, ActiveWithScope(home, account.costScope));
      SortedIdsMembers(scoped, id);
      e :| e in scoped && e.id == id;
    }
  }

  lemma {:induction false} MemberSetSize(members: seq<int>)
    ensures |MemberSet(members)| <= |members|
  {
    if members != [] {
      MemberSetSize(members[1..]);
      assert MemberSet(members) == {members[0]} + MemberSet(members[1..]);
    } else {
      assert MemberSet(members) == {};
    }
  }

  /** The lookup is coherent: every member of a shared scope looks up the same rate, scope and members. */
  lemma {:induction false} LookupIsCoherent(c: Catalog, device: int, member: int, start: int, end: int)
    requires Consistent(c)
    requires Shared(RateForInterval(c, device, start, end)) && member in RateForInterval(c, device, start, end).members
    ensures RateForInterval(c, member, start, end) == RateForInterval(c, device, start, end)
  {
    var d := Filter(c.inst.devices, HasId(device))[0];
    var group := ResolveInterval(c.inst, c.accounts[d.home], d);
    MemberSetSize(group.value.members);
    var e := SharedMemberIsDevice(c, d.home, d, member);
    FoundDevice(c, e);
    PricingScopesAreCoherent(c.inst, c.accounts[d.home], d, e);
  }

  /** So the worker's own inputs satisfy what confluence asks of them. */
  lemma {:induction false} WorldIsWellFormed(c: Catalog, rows: seq<Row>, price: (int, int, nat, Resolution) -> Pricing)
    requires Consistent(c) && DistinctRows(rows)
    ensures WellFormed(WorldOf(c, rows, price))
  {
    var w := WorldOf(c, rows, price);
    forall d, e, s, t | Shared(w.resolve(d, s, t)) && e in w.resolve(d, s, t).members
      ensures w.resolve(e, s, t) == w.resolve(d, s, t)
    {
      LookupIsCoherent(c, d, e, s, t);
    }
  }

  /** Any two schedules that scan the same intervals leave the same selections. */
  lemma {:induction false} SchedulesAgree(c: Catalog, rows: seq<Row>, price: (int, int, nat, Resolution) -> Pricing,
                                          before: Table, one: seq<set<Row>>, other: seq<set<Row>>)
    requires Consistent(c) && DistinctRows(rows)
    requires AllRows(one) == AllRows(other) && forall r :: r in AllRows(one) ==> r in rows
    ensures AfterBatches(WorldOf(c, rows, price), before, one) == AfterBatches(WorldOf(c, rows, price), before, other)
  {
    WorldIsWellFormed(c, rows, price);
    Confluence(WorldOf(c, rows, price), before, one);
    Confluence(WorldOf(c, rows, price), before, other);
  }

  /** After any interleaving of assignment writes, a lookup without assignment means that none spans the interval. */
  lemma {:induction false} LookupIsUnambiguous(
    c: Catalog, rows: map<int, RateAssignments.Assignment>, steps: seq<GuardedStore.Step<RateAssignments.Assignment>>,
    home: int, start: int, end: int)
    requires RateAssignments.PreflightPasses(rows) && start < end
    requires c.assignments == GuardedStore.Run(RateAssignments.Guard(), GuardedStore.Store(rows, map[]), steps).committed
    ensures AssignmentFor(c, home, start, end) == NoAssignment <==> Candidates(c, home, start, end) == {}
  {
    RateAssignments.LookUpIsNeverAmbiguous(rows, steps, c.versions, home, start, end);
  }

  /** An interval's rate is the version of the only published assignment that holds throughout it. */
  lemma {:induction false} AssignmentMeans(c: Catalog, home: int, start: int, end: int, rate: int)
    requires start < end
    ensures (exists id :: RateAssignments.OnlyAssigned(c.assignments, c.versions, home, start, end, id) && c.assignments[id].version == rate)
            ==> AssignmentFor(c, home, start, end) == if rate in c.malformed then BadEvidence else Assigned(rate)
    ensures AssignmentFor(c, home, start, end) == Assigned(rate) ==>
              exists id :: RateAssignments.OnlyAssigned(c.assignments, c.versions, home, start, end, id)
                && c.assignments[id].version == rate && rate !in c.malformed
    ensures AssignmentFor(c, home, start, end) == NoAssignment <==>
              forall id :: !RateAssignments.OnlyAssigned(c.assignments, c.versions, home, start, end, id)
  {
    RateAssignments.OnlyIsSingleton(c.assignments, c.versions, home, start, end);
    hide RateAssignments.OnlyAssigned, RateAssignments.Candidates;
    var candidates := Candidates(c, home, start, end);
    if |candidates| == 1 {
      var id := TheOnly(candidates);
      SingletonOf(candidates, id);
    }
  }

  /** What an interval of a device resolves: the account's only assignment and the device's own scope, or nothing. */
  lemma {:induction false} ResolutionMeans(c: Catalog, d: Device, start: int, end: int)
    requires Consistent(c) && d in c.inst.devices
    ensures var res := RateForInterval(c, d.id, start, end);
            if d.home !in c.accounts || AssignmentFor(c, d.home, start, end) == NoAssignment then res == Unresolved
            else if AssignmentFor(c, d.home, start, end) == BadEvidence then res == RateError
            else
              var group := ResolveInterval(c.inst, c.accounts[d.home], d);
              && (group.None? ==> res == Unresolved)
              && (group.Some? ==>
                    && res.Resolved? && res.rate == AssignmentFor(c, d.home, start, end).rate && res.scope == group.value.kind
                    && forall id :: id in res.members <==> id in group.value.members)
  {
    FoundDevice(c, d);
    hide ResolveInterval, AssignmentFor;
  }

  /** A device that is not in the table resolves nothing. */
  lemma {:induction false} UnknownDevice(c: Catalog, id: int, start: int, end: int)
    requires forall d :: d in c.inst.devices ==> d.id != id
    ensures RateForInterval(c, id, start, end) == Unresolved
  {
    FilterNone(c.inst.devices, HasId(id));
  }

  lemma {:induction false} SingletonOf<T>(s: set<T>, x: T)
    requires |s| == 1 && x in s
    ensures s == {x}
  {
    assert |s - {x}| == 0;
  }
}
