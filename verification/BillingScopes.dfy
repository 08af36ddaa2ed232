/** The two scope resolvers of the cost worker: one per priced interval, one per billing estimate (worker/app/jobs.py). */
module BillingScopes {
  import opened Outcomes
  import opened Sums
  import opened Sorting

  datatype Scope = EnergyOnly | AllocatedAccount | FullAccount

  datatype AggregateMode = Individual | VerifiedSum | ParentOnly

  datatype Device = Device(id: int, home: int, circuit: Option<int>, included: bool, scope: Scope, revoked: bool)

  datatype Circuit = Circuit(id: int, home: int, homeTotal: bool, billingSource: bool, mode: AggregateMode, confirmed: bool)

  datatype Account = Account(home: int, costScope: Scope)

  /** The device and circuit tables. */
  datatype Installation = Installation(devices: seq<Device>, circuits: seq<Circuit>)

  datatype Group = Group(kind: Scope, members: seq<int>)

  ghost predicate DistinctIds(devices: seq<Device>) {
    forall i, j :: 0 <= i < j < |devices| ==> devices[i].id != devices[j].id
  }

  function Ids(devices: seq<Device>): seq<int> {
    if devices == [] then [] else [devices[0].id] + Ids(devices[1..])
  }

  function SortedIds(devices: seq<Device>): seq<int> {
    Sort(Ids(devices), IntLeq())
  }

  // ----- queries -----

  function IsDesignated(home: int): Circuit -> bool {
    (c: Circuit) => c.home == home && c.homeTotal && c.billingSource && c.mode == VerifiedSum && c.confirmed
  }

  function FirstCircuit(circuits: seq<Circuit>, keep: Circuit -> bool): Option<Circuit> {
    var rows := Filter(circuits, keep);
    if rows == [] then None else Some(rows[0])
  }

  function HomeTotal(inst: Installation, account: Account): Option<Circuit> {
    FirstCircuit(inst.circuits, IsDesignated(account.home))
  }

  function OnBranch(circuit: int): Device -> bool {
    (d: Device) => d.circuit == Some(circuit) && d.included
  }

  function DesignatedMembers(inst: Installation, homeTotal: Circuit): seq<int> {
    SortedIds(Filter(inst.devices, OnBranch(homeTotal.id)))
  }

  function Active(home: int): Device -> bool {
    (d: Device) => d.home == home && !d.revoked
  }

  function HasScope(scope: Scope): Device -> bool {
    (d: Device) => d.scope == scope
  }

  function LacksScope(scope: Scope): Device -> bool {
    (d: Device) => d.scope != scope
  }

  function OutsideMembers(members: seq<int>): Device -> bool {
    (d: Device) => d.id !in members
  }

  function ActiveWithScope(home: int, scope: Scope): Device -> bool {
    (d: Device) => d.home == home && !d.revoked && d.scope == scope
  }

  /** The one circuit all the devices hang on, if it exists and is a verified sum. */
  function VerifiedCircuit(inst: Installation, devices: seq<Device>): Option<Circuit> {
    var circuits := set d | d in devices :: d.circuit;
    if |circuits| == 1 && devices[0].circuit.Some? then
      var found := FirstCircuit(inst.circuits, (c: Circuit) => c.id == devices[0].circuit.value);
      if found.Some? && found.value.mode == VerifiedSum then found else None
    else None
  }

  // ----- interval pricing -----

  function Alone(d: Device): Option<Group> {
    Some(Group(EnergyOnly, [d.id]))
  }

  /** The scope in which one interval of a device is priced; None when pricing stops. */
  function ResolveInterval(inst: Installation, account: Account, d: Device): Option<Group> {
    var scoped := Filter(inst.devices, ActiveWithScope(account.home, account.costScope));
    match account.costScope
    case EnergyOnly => Alone(d)
    case FullAccount =>
      var homeTotal := HomeTotal(inst, account);
      if homeTotal.Some? then
        var designated := DesignatedMembers(inst, homeTotal.value);
        if d.id in designated then Some(Group(FullAccount, designated)) else Alone(d)
      else if d.scope != FullAccount then Alone(d)
      else if |scoped| == 1 then Some(Group(FullAccount, [d.id]))
      else if VerifiedCircuit(inst, scoped).Some? then Some(Group(FullAccount, SortedIds(scoped)))
      else Alone(d)
    case AllocatedAccount =>
      if d.scope != AllocatedAccount then Alone(d)
      else if |scoped| == 1 then Some(Group(AllocatedAccount, [d.id]))
      else if VerifiedCircuit(inst, scoped).Some? then Some(Group(AllocatedAccount, SortedIds(scoped)))
      else None
  }

  // ----- billing estimates -----

  function Singles(devices: seq<Device>): seq<Group> {
    if devices == [] then [] else [Group(EnergyOnly, [devices[0].id])] + Singles(devices[1..])
  }

  /** Whether the account is billed on the members of its designated home total. */
  predicate UsesHomeTotal(inst: Installation, account: Account) {
    && account.costScope == FullAccount
    && HomeTotal(inst, account).Some?
    && DesignatedMembers(inst, HomeTotal(inst, account).value) != []
  }

  /** The groups for which billing estimates are computed. */
  function BillingGroups(inst: Installation, account: Account): seq<Group> {
    var devices := Filter(inst.devices, Active(account.home));
    if account.costScope == EnergyOnly then
      Singles(devices)
    else if UsesHomeTotal(inst, account) then
      var members := DesignatedMembers(inst, HomeTotal(inst, account).value);
      Singles(Filter(devices, OutsideMembers(members))) + [Group(FullAccount, members)]
    else
      var matching := Filter(devices, HasScope(account.costScope));
      var others := Singles(Filter(devices, LacksScope(account.costScope)));
      if |matching| == 1 then
        others + [Group(account.costScope, [matching[0].id])]
      else if |matching| > 1 && VerifiedCircuit(inst, matching).Some? then
        others + [Group(account.costScope, SortedIds(matching))]
      else others
  }

  // ----- facts about the queries -----

  lemma {:induction false} IdsMembers(devices: seq<Device>)
    ensures |Ids(devices)| == |devices|
    ensures forall i :: 0 <= i < |devices| ==> Ids(devices)[i] == devices[i].id
  {
    if devices != [] {
      IdsMembers(devices[1..]);
    }
  }

  lemma {:induction false} SortedIdsMembers(devices: seq<Device>, id: int)
    ensures id in SortedIds(devices) <==> exists d :: d in devices && d.id == id
    ensures |SortedIds(devices)| == |devices|
  {
    SortPermutes(Ids(devices), IntLeq());
    IdsMembers(devices);
    assert id in SortedIds(devices) <==> id in multiset(SortedIds(devices));
    assert id in Ids(devices) <==> id in multiset(Ids(devices));
    if id in Ids(devices) {
      var i :| 0 <= i < |devices| && Ids(devices)[i] == id;
      assert devices[i] in devices;
    }
    if d :| d in devices && d.id == id {
      var i :| 0 <= i < |devices| && devices[i] == d;
      assert Ids(devices)[i] == id;
    }
  }

  lemma {:induction false} SinglesMembers(devices: seq<Device>)
    ensures |Singles(devices)| == |devices|
    ensures forall i :: 0 <= i < |devices| ==> Singles(devices)[i] == Group(EnergyOnly, [devices[i].id])
  {
    if devices != [] {
      SinglesMembers(devices[1..]);
    }
  }

  lemma {:induction false} FilterKeepsDistinct(devices: seq<Device>, keep: Device -> bool)
    requires DistinctIds(devices)
    ensures DistinctIds(Filter(devices, keep))
  {
    if devices != [] {
      var rest := Filter(devices[1..], keep);
      FilterKeepsDistinct(devices[1..], keep);
      FilterMembers(devices[1..], keep);
      forall j | 0 <= j < |rest| ensures rest[j].id != devices[0].id {
        assert rest[j] in devices[1..];
      }
    }
  }

  lemma {:induction false} SameIdSameDevice(inst: Installation, a: Device, b: Device)
    requires DistinctIds(inst.devices) && a in inst.devices && b in inst.devices && a.id == b.id
    ensures a == b
  {
  }

  lemma {:induction false} FilterTwice(devices: seq<Device>, home: int, scope: Scope)
    ensures Filter(Filter(devices, Active(home)), HasScope(scope)) == Filter(devices, ActiveWithScope(home, scope))
  {
    if devices != [] {
      FilterTwice(devices[1..], home, scope);
      var head := if Active(home)(devices[0]) then [devices[0]] else [];
      FilterConcat(head, Filter(devices[1..], Active(home)), HasScope(scope));
    }
  }

  // ----- what the billing groups are -----

  /** The devices billed on their own, and the one aggregate group if there is one. */
  ghost function Loners(inst: Installation, account: Account): seq<Device> {
    var devices := Filter(inst.devices, Active(account.home));
    if account.costScope == EnergyOnly then devices
    else if UsesHomeTotal(inst, account) then
      Filter(devices, OutsideMembers(DesignatedMembers(inst, HomeTotal(inst, account).value)))
    else Filter(devices, LacksScope(account.costScope))
  }

  /** Whether the devices carrying the account's own scope form one group. */
  predicate ScopedDevicesCombine(inst: Installation, account: Account) {
    var scoped := Filter(inst.devices, ActiveWithScope(account.home, account.costScope));
    |scoped| == 1 || (|scoped| > 1 && VerifiedCircuit(inst, scoped).Some?)
  }

  ghost function Aggregate(inst: Installation, account: Account): Option<Group> {
    var scoped := Filter(inst.devices, ActiveWithScope(account.home, account.costScope));
    if account.costScope == EnergyOnly then None
    else if UsesHomeTotal(inst, account) then
      Some(Group(FullAccount, DesignatedMembers(inst, HomeTotal(inst, account).value)))
    else if ScopedDevicesCombine(inst, account) then Some(Group(account.costScope, SortedIds(scoped)))
    else None
  }

  lemma {:induction false} GroupsAreLonersAndAggregate(inst: Installation, account: Account)
    ensures var aggregate := Aggregate(inst, account);
            BillingGroups(inst, account)
            == Singles(Loners(inst, account)) + (if aggregate.Some? then [aggregate.value] else [])
  {
    FilterTwice(inst.devices, account.home, account.costScope);
    var scoped := Filter(inst.devices, ActiveWithScope(account.home, account.costScope));
    if |scoped| == 1 {
      assert scoped[0] in scoped;
      SortedIdsMembers(scoped, scoped[0].id);
      SingletonIds(scoped, scoped[0].id);
    }
  }

  /** A device is billed alone or in the aggregate, never both. */
  lemma {:induction false} LonersOutsideAggregate(inst: Installation, account: Account, d: Device)
    requires DistinctIds(inst.devices) && d in Loners(inst, account)
    ensures d in inst.devices && d.home == account.home && !d.revoked
    ensures Aggregate(inst, account).Some? ==> d.id !in Aggregate(inst, account).value.members
  {
    var devices := Filter(inst.devices, Active(account.home));
    FilterMembers(inst.devices, Active(account.home));
    if account.costScope != EnergyOnly {
      if UsesHomeTotal(inst, account) {
        FilterMembers(devices, OutsideMembers(DesignatedMembers(inst, HomeTotal(inst, account).value)));
      } else {
        var scoped := Filter(inst.devices, ActiveWithScope(account.home, account.costScope));
        FilterMembers(devices, LacksScope(account.costScope));
        FilterMembers(inst.devices, ActiveWithScope(account.home, account.costScope));
        SortedIdsMembers(scoped, d.id);
        if e :| e in scoped && e.id == d.id {
          SameIdSameDevice(inst, d, e);
        }
      }
    }
  }

  ghost predicate Disjoint(a: seq<int>, b: seq<int>) {
    forall id :: id in a ==> id !in b
  }

  /** No device is billed in two groups. */
  lemma {:induction false} BillingGroupsAreDisjoint(inst: Installation, account: Account)
    requires DistinctIds(inst.devices)
    ensures var groups := BillingGroups(inst, account);
            forall i, j :: 0 <= i < j < |groups| ==> Disjoint(groups[i].members, groups[j].members)
  {
    var groups, loners := BillingGroups(inst, account), Loners(inst, account);
    GroupsAreLonersAndAggregate(inst, account);
    SinglesMembers(loners);
    LonersAreDistinct(inst, account);
    forall i, j | 0 <= i < j < |groups| ensures Disjoint(groups[i].members, groups[j].members) {
      assert loners[i] in loners;
      LonersOutsideAggregate(inst, account, loners[i]);
    }
  }

  lemma {:induction false} LonersAreDistinct(inst: Installation, account: Account)
    requires DistinctIds(inst.devices)
    ensures DistinctIds(Loners(inst, account))
  {
    var devices := Filter(inst.devices, Active(account.home));
    FilterKeepsDistinct(inst.devices, Active(account.home));
    if account.costScope != EnergyOnly {
      if UsesHomeTotal(inst, account) {
        FilterKeepsDistinct(devices, OutsideMembers(DesignatedMembers(inst, HomeTotal(inst, account).value)));
      } else {
        FilterKeepsDistinct(devices, LacksScope(account.costScope));
      }
    }
  }

  // ----- agreement of the two resolvers -----

  /** For every device of the home in a billing group, interval pricing resolves that same group. */
  ghost predicate ResolversAgree(inst: Installation, account: Account) {
    forall g, d :: g in BillingGroups(inst, account) && d in inst.devices && d.home == account.home && d.id in g.members
      ==> ResolveInterval(inst, account, d) == Some(g)
  }

  /** A designated home total without members, next to devices that still carry the full-account scope. */
  predicate EmptyHomeTotalShadowsScope(inst: Installation, account: Account) {
    && account.costScope == FullAccount
    && HomeTotal(inst, account).Some?
    && DesignatedMembers(inst, HomeTotal(inst, account).value) == []
    && ScopedDevicesCombine(inst, account)
  }

  lemma {:induction false} LonersResolveAlone(inst: Installation, account: Account, d: Device)
    requires DistinctIds(inst.devices) && d in Loners(inst, account)
    ensures ResolveInterval(inst, account, d) == Alone(d)
  {
    var devices := Filter(inst.devices, Active(account.home));
    LonersOutsideAggregate(inst, account, d);
    if account.costScope != EnergyOnly && !UsesHomeTotal(inst, account) {
      FilterMembers(devices, LacksScope(account.costScope));
    }
  }

  lemma {:induction false} ScopedDevice(inst: Installation, account: Account, d: Device)
    requires DistinctIds(inst.devices) && d in inst.devices
    ensures var scoped := Filter(inst.devices, ActiveWithScope(account.home, account.costScope));
            d.id in SortedIds(scoped) <==> d.home == account.home && !d.revoked && d.scope == account.costScope
  {
    var scoped := Filter(inst.devices, ActiveWithScope(account.home, account.costScope));
    FilterMembers(inst.devices, ActiveWithScope(account.home, account.costScope));
    SortedIdsMembers(scoped, d.id);
    if e :| e in scoped && e.id == d.id {
      SameIdSameDevice(inst, d, e);
    }
  }

  lemma {:induction false} SingletonIds(devices: seq<Device>, id: int)
    requires |devices| == 1 && id in SortedIds(devices)
    ensures SortedIds(devices) == [id]
  {
    SortedIdsMembers(devices, id);
  }

  lemma {:induction false} AggregateResolvesTogether(inst: Installation, account: Account, d: Device)
    requires DistinctIds(inst.devices) && d in inst.devices && d.home == account.home
    requires Aggregate(inst, account).Some? && d.id in Aggregate(inst, account).value.members
    requires !EmptyHomeTotalShadowsScope(inst, account)
    ensures ResolveInterval(inst, account, d) == Aggregate(inst, account)
  {
    if !UsesHomeTotal(inst, account) {
      var scoped := Filter(inst.devices, ActiveWithScope(account.home, account.costScope));
      ScopedDevice(inst, account, d);
      if |scoped| == 1 {
        SingletonIds(scoped, d.id);
      }
    }
  }

  /** The resolvers agree exactly unless an empty home total shadows devices that would otherwise combine. */
  lemma {:induction false} ResolversAgreeExactly(inst: Installation, account: Account)
    requires DistinctIds(inst.devices)
    ensures ResolversAgree(inst, account) <==> !EmptyHomeTotalShadowsScope(inst, account)
  {
    var loners, aggregate := Loners(inst, account), Aggregate(inst, account);
    GroupsAreLonersAndAggregate(inst, account);
    SinglesMembers(loners);
    if EmptyHomeTotalShadowsScope(inst, account) {
      var scoped := Filter(inst.devices, ActiveWithScope(account.home, account.costScope));
      var d := scoped[0];
      assert d in scoped;
      FilterMembers(inst.devices, ActiveWithScope(account.home, account.costScope));
      ScopedDevice(inst, account, d);
      assert BillingGroups(inst, account)[|loners|] == aggregate.value;
      assert aggregate.value in BillingGroups(inst, account);
      assert ResolveInterval(inst, account, d) == Alone(d);
    } else {
      forall g, d | g in BillingGroups(inst, account) && d in inst.devices && d.home == account.home && d.id in g.members
        ensures ResolveInterval(inst, account, d) == Some(g)
      {
        if g in Singles(loners) {
          var i :| 0 <= i < |loners| && Singles(loners)[i] == g;
          LonersOutsideAggregate(inst, account, loners[i]);
          SameIdSameDevice(inst, d, loners[i]);
          LonersResolveAlone(inst, account, d);
        } else {
          AggregateResolvesTogether(inst, account, d);
        }
      }
    }
  }

  /** A concrete home where the resolvers disagree: the interval is priced alone, the estimate on the full account. */
  lemma {:induction false} DisagreementExample()
    ensures var inst := Installation([Device(1, 7, None, true, FullAccount, false)], [Circuit(9, 7, true, true, VerifiedSum, true)]);
            var account := Account(7, FullAccount);
            && BillingGroups(inst, account) == [Group(FullAccount, [1])]
            && ResolveInterval(inst, account, inst.devices[0]) == Some(Group(EnergyOnly, [1]))
  {
    var d, c := Device(1, 7, None, true, FullAccount, false), Circuit(9, 7, true, true, VerifiedSum, true);
    var inst, account := Installation([d], [c]), Account(7, FullAccount);
    FilterAll([c], IsDesignated(7));
    FilterNone([d], OnBranch(9));
    FilterAll([d], Active(7));
    FilterAll([d], HasScope(FullAccount));
    FilterNone([d], LacksScope(FullAccount));
    assert DesignatedMembers(inst, c) == [];
  }

  /** An active device is in no billing group exactly when its scope's devices cannot be combined. */
  lemma {:induction false} UnbilledDevices(inst: Installation, account: Account, d: Device)
    requires DistinctIds(inst.devices) && d in inst.devices && d.home == account.home && !d.revoked
    ensures (forall g :: g in BillingGroups(inst, account) ==> d.id !in g.members)
        <==> && account.costScope != EnergyOnly && !UsesHomeTotal(inst, account)
             && d.scope == account.costScope && !ScopedDevicesCombine(inst, account)
  {
    var groups, loners, aggregate := BillingGroups(inst, account), Loners(inst, account), Aggregate(inst, account);
    var devices := Filter(inst.devices, Active(account.home));
    GroupsAreLonersAndAggregate(inst, account);
    SinglesMembers(loners);
    FilterMembers(inst.devices, Active(account.home));
    if UsesHomeTotal(inst, account) {
      FilterMembers(devices, OutsideMembers(DesignatedMembers(inst, HomeTotal(inst, account).value)));
    } else {
      FilterMembers(devices, LacksScope(account.costScope));
    }
    if d in loners {
      var i :| 0 <= i < |loners| && loners[i] == d;
      assert groups[i].members == [d.id] && groups[i] in groups;
    } else {
      if aggregate.Some? {
        assert groups[|loners|] == aggregate.value && aggregate.value in groups;
      }
      ScopedDevice(inst, account, d);
      forall g | g in groups && d.id in g.members ensures aggregate == Some(g) {
        if g in Singles(loners) {
          var i :| 0 <= i < |loners| && Singles(loners)[i] == g;
          LonersOutsideAggregate(inst, account, loners[i]);
          SameIdSameDevice(inst, d, loners[i]);
        }
      }
    }
  }

  /** Every member of a shared pricing scope resolves that same scope. */
  lemma {:induction false} PricingScopesAreCoherent(inst: Installation, account: Account, d: Device, e: Device)
    requires DistinctIds(inst.devices) && e in inst.devices && e.home == account.home
    requires var r := ResolveInterval(inst, account, d); r.Some? && |r.value.members| > 1 && e.id in r.value.members
    ensures ResolveInterval(inst, account, e) == ResolveInterval(inst, account, d)
  {
    ScopedDevice(inst, account, e);
  }
}
