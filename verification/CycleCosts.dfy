/** The exact costs of a whole cycle: adjacent groups price their energy unit by unit, each where the last one left off. */
module CycleCosts {
  import opened Outcomes
  import opened Sums
  import opened PeriodResolution
  import opened CostEngine
  import opened PricingLaws
  import LargestRemainder
  import TierPosition

  function Plus(a: Option<real>, b: Option<real>): Option<real> {
    if a.None? || b.None? then None else Some(a.value + b.value)
  }

  // ----- joining buckets -----

  lemma {:induction false} JoinedTail(rate: Rate, ctx: Context, a: seq<int>, e: seq<int>, b: seq<int>, f: seq<int>, k: nat, position: real)
    requires |a| == |e| + 1 && |b| == |f| + 1 && a[|e|] == b[0] && k <= |f|
    ensures MarginalFrom(rate, ctx, a + b[1..], e + f, |e| + k, position) == MarginalFrom(rate, ctx, b, f, k, position)
    decreases |f| - k
  {
    hide Marginal;
    if k < |f| {
      var bounds := a + b[1..];
      assert bounds[|e| + k] == b[k] && bounds[|e| + k + 1] == b[k + 1] && (e + f)[|e| + k] == f[k];
      JoinedTail(rate, ctx, a, e, b, f, k + 1, position + f[k] as real);
    }
  }

  /** Pricing buckets one after the other is pricing them together. */
  lemma {:induction false} JoinedBuckets(rate: Rate, ctx: Context, a: seq<int>, e: seq<int>, b: seq<int>, f: seq<int>, k: nat, position: real)
    requires |a| == |e| + 1 && |b| == |f| + 1 && a[|e|] == b[0] && k <= |e|
    ensures MarginalFrom(rate, ctx, a + b[1..], e + f, k, position)
         == Plus(MarginalFrom(rate, ctx, a, e, k, position), MarginalFrom(rate, ctx, b, f, 0, position + Sum(e[k..]) as real))
    decreases |e| - k
  {
    hide Marginal;
    if k == |e| {
      JoinedTail(rate, ctx, a, e, b, f, 0, position);
      assert e[k..] == [];
    } else {
      var bounds := a + b[1..];
      assert bounds[k] == a[k] && bounds[k + 1] == a[k + 1] && (e + f)[k] == e[k];
      JoinedBuckets(rate, ctx, a, e, b, f, k + 1, position + e[k] as real);
      assert e[k..][1..] == e[k + 1..];
      AsRealAddsUp(e[k], Sum(e[k + 1..]));
    }
  }

  // ----- one group after another -----

  /** The buckets of one group. */
  function BoundsOf(rate: Rate, start: int, end: int): (bounds: seq<int>)
    requires start < end
    ensures |bounds| >= 2 && bounds[0] == start && bounds[|bounds| - 1] == end && Sum(Durations(bounds)) > 0
  {
    BoundsAscend(rate, start, end);
    DurationsArePositive(Bounds(rate, start, end));
    Bounds(rate, start, end)
  }

  /** The exact cost of a group from a position on, one mWh at a time. */
  function ExactCost(rate: Rate, ctx: Context, start: int, end: int, energy: int, position: real): Option<real>
    requires start < end
  {
    MarginalFrom(rate, ctx, BoundsOf(rate, start, end), Energies(BoundsOf(rate, start, end), energy), 0, position)
  }

  ghost predicate Rising(times: seq<int>) {
    times != [] && forall k, m :: 0 <= k < m < |times| ==> times[k] < times[m]
  }

  /** Every group of a chain at the worker's own position for it. */
  ghost function ChainCost(rate: Rate, ctx: Context, c: TierPosition.Cycle, times: seq<int>): Option<real>
    requires Rising(times)
  {
    if |times| == 1 then Some(0.0)
    else
      var position := TierPosition.PositionAt(c, times[0]);
      if position.None? then None
      else Plus(ExactCost(rate, ctx, times[0], times[1], TierPosition.GroupEnergy(c, times[0], times[1]), position.value as real),
                ChainCost(rate, ctx, c, times[1..]))
  }

  /** The same energy in one run from a position on; recovered energy moves the position without being priced. */
  ghost function RunCost(rate: Rate, ctx: Context, c: TierPosition.Cycle, times: seq<int>, position: int): Option<real>
    requires Rising(times)
  {
    if |times| == 1 then Some(0.0)
    else
      var energy := TierPosition.GroupEnergy(c, times[0], times[1]);
      Plus(ExactCost(rate, ctx, times[0], times[1], energy, position as real),
           RunCost(rate, ctx, c, times[1..], position + energy + TierPosition.RecoveredEnergy(c, times[0], times[1])))
  }

  lemma {:induction false} TailIsChain(c: TierPosition.Cycle, times: seq<int>)
    requires TierPosition.Chain(c, times) && |times| > 1
    ensures TierPosition.Chain(c, times[1..])
  {
    var rest := times[1..];
    assert forall k, m :: 0 <= k && m == k + 1 < |rest| ==> rest[k] == times[k + 1] && rest[m] == times[m + 1];
  }

  /** Over adjacent aligned groups the worker's exact costs are those of one run from the first position on. */
  lemma {:induction false} ChainIsOneRun(rate: Rate, ctx: Context, c: TierPosition.Cycle, times: seq<int>)
    requires TierPosition.Chain(c, times) && TierPosition.PositionAt(c, times[|times| - 1]).Some?
    ensures TierPosition.PositionAt(c, times[0]).Some?
    ensures ChainCost(rate, ctx, c, times) == RunCost(rate, ctx, c, times, TierPosition.PositionAt(c, times[0]).value)
    decreases |times|
  {
    hide ExactCost, TierPosition.PositionAt, TierPosition.GroupEnergy, TierPosition.RecoveredEnergy;
    if |times| > 1 {
      TailIsChain(c, times);
      ChainIsOneRun(rate, ctx, c, times[1..]);
      TierPosition.EarlierIsDefined(c, times[0], times[1]);
      TierPosition.PositionTelescopes(c, times[0], times[1]);
      TierPosition.AlignedEnergy(c, times[0], times[1]);
    }
  }

  // ----- without recovered energy -----

  ghost predicate NothingRecovered(c: TierPosition.Cycle, times: seq<int>) {
    forall k, m :: 0 <= k && m == k + 1 < |times| ==> TierPosition.RecoveredEnergy(c, times[k], times[m]) == 0
  }

  /** All buckets of a chain, joined. */
  ghost function AllBounds(rate: Rate, times: seq<int>): (bounds: seq<int>)
    requires Rising(times)
    ensures bounds != [] && bounds[0] == times[0]
  {
    if |times| == 1 then [times[0]] else BoundsOf(rate, times[0], times[1]) + AllBounds(rate, times[1..])[1..]
  }

  ghost function AllEnergies(rate: Rate, c: TierPosition.Cycle, times: seq<int>): (energies: seq<int>)
    requires Rising(times)
    ensures |AllBounds(rate, times)| == |energies| + 1
  {
    if |times| == 1 then []
    else
      Energies(BoundsOf(rate, times[0], times[1]), TierPosition.GroupEnergy(c, times[0], times[1])) + AllEnergies(rate, c, times[1..])
  }

  lemma {:induction false} GroupEnergyIsNonNegative(c: TierPosition.Cycle, start: int, end: int)
    ensures TierPosition.GroupEnergy(c, start, end) >= 0
  {
    SumOfNonNegative(Filter(c.intervals, TierPosition.InGroup(c, start, end)), TierPosition.EnergyOf);
  }

  lemma {:induction false} GroupIsSpread(rate: Rate, start: int, end: int, energy: int)
    requires start < end && energy >= 0
    ensures Sum(Energies(BoundsOf(rate, start, end), energy)) == energy
  {
    BoundsAscend(rate, start, end);
    BucketsConserveEnergy(Bounds(rate, start, end), energy);
  }

  lemma {:induction false} NothingRecoveredLater(c: TierPosition.Cycle, times: seq<int>)
    requires NothingRecovered(c, times) && |times| > 1
    ensures NothingRecovered(c, times[1..]) && TierPosition.RecoveredEnergy(c, times[0], times[1]) == 0
  {
    hide TierPosition.RecoveredEnergy;
    var rest := times[1..];
    forall k, m | 0 <= k && m == k + 1 < |rest| ensures TierPosition.RecoveredEnergy(c, rest[k], rest[m]) == 0 {
      assert rest[k] == times[k + 1] && rest[m] == times[m + 1];
    }
  }

  lemma {:induction false} RunUnfolds(rate: Rate, ctx: Context, c: TierPosition.Cycle, times: seq<int>, position: int)
    requires Rising(times) && NothingRecovered(c, times) && |times| > 1
    ensures var energy := TierPosition.GroupEnergy(c, times[0], times[1]);
            RunCost(rate, ctx, c, times, position)
            == Plus(ExactCost(rate, ctx, times[0], times[1], energy, position as real), RunCost(rate, ctx, c, times[1..], position + energy))
  {
    hide ExactCost, TierPosition.GroupEnergy, TierPosition.RecoveredEnergy;
    NothingRecoveredLater(c, times);
  }

  lemma {:induction false} FirstGroup(rate: Rate, ctx: Context, c: TierPosition.Cycle, times: seq<int>, position: real)
    requires Rising(times) && |times| > 1
    ensures var energy := TierPosition.GroupEnergy(c, times[0], times[1]);
            MarginalFrom(rate, ctx, AllBounds(rate, times), AllEnergies(rate, c, times), 0, position)
            == Plus(ExactCost(rate, ctx, times[0], times[1], energy, position),
                    MarginalFrom(rate, ctx, AllBounds(rate, times[1..]), AllEnergies(rate, c, times[1..]), 0, position + energy as real))
  {
    hide *;
    RisingTail(times);
    var energy := TierPosition.GroupEnergy(c, times[0], times[1]);
    AllUnfolds(rate, c, times);
    GroupEnergyIsNonNegative(c, times[0], times[1]);
    GroupThenBuckets(rate, ctx, times[0], times[1], energy, AllBounds(rate, times[1..]), AllEnergies(rate, c, times[1..]), position);
  }

  /** A group followed by further buckets. */
  lemma {:induction false} GroupThenBuckets(rate: Rate, ctx: Context, start: int, end: int, energy: int, b: seq<int>, f: seq<int>, position: real)
    requires start < end && energy >= 0 && |b| == |f| + 1 && b[0] == end
    ensures MarginalFrom(rate, ctx, BoundsOf(rate, start, end) + b[1..], Energies(BoundsOf(rate, start, end), energy) + f, 0, position)
         == Plus(ExactCost(rate, ctx, start, end, energy, position), MarginalFrom(rate, ctx, b, f, 0, position + energy as real))
  {
    hide MarginalFrom, Energies, BoundsOf, Sum, Durations;
    var bounds := BoundsOf(rate, start, end);
    var energies := Energies(bounds, energy);
    GroupIsSpread(rate, start, end, energy);
    assert energies[0..] == energies;
    JoinedBuckets(rate, ctx, bounds, energies, b, f, 0, position);
  }

  lemma {:induction false} AllUnfolds(rate: Rate, c: TierPosition.Cycle, times: seq<int>)
    requires Rising(times) && |times| > 1
    ensures AllBounds(rate, times) == BoundsOf(rate, times[0], times[1]) + AllBounds(rate, times[1..])[1..]
    ensures AllEnergies(rate, c, times)
         == Energies(BoundsOf(rate, times[0], times[1]), TierPosition.GroupEnergy(c, times[0], times[1])) + AllEnergies(rate, c, times[1..])
  {
    hide BoundsOf, Energies, TierPosition.GroupEnergy;
  }

  /** A run without recovered energy prices all its buckets as one list. */
  lemma {:induction false} RunIsJoined(rate: Rate, ctx: Context, c: TierPosition.Cycle, times: seq<int>, position: int)
    requires Rising(times) && NothingRecovered(c, times)
    ensures RunCost(rate, ctx, c, times, position)
         == MarginalFrom(rate, ctx, AllBounds(rate, times), AllEnergies(rate, c, times), 0, position as real)
    decreases |times|
  {
    hide *;
    RisingIsNotEmpty(times);
    if |times| == 1 {
      NoGroups(rate, ctx, c, times, position);
    } else {
      var energy := TierPosition.GroupEnergy(c, times[0], times[1]);
      RisingTail(times);
      NothingRecoveredLater(c, times);
      RunUnfolds(rate, ctx, c, times, position);
      FirstGroup(rate, ctx, c, times, position as real);
      RunIsJoined(rate, ctx, c, times[1..], position + energy);
      AsRealAddsUp(position, energy);
    }
  }

  lemma {:induction false} RisingIsNotEmpty(times: seq<int>)
    requires Rising(times)
    ensures |times| >= 1
  {
  }

  lemma {:induction false} NoGroups(rate: Rate, ctx: Context, c: TierPosition.Cycle, times: seq<int>, position: int)
    requires Rising(times) && |times| == 1
    ensures RunCost(rate, ctx, c, times, position) == Some(0.0)
    ensures MarginalFrom(rate, ctx, AllBounds(rate, times), AllEnergies(rate, c, times), 0, position as real) == Some(0.0)
  {
    hide Marginal;
  }

  lemma {:induction false} RisingTail(times: seq<int>)
    requires Rising(times) && |times| > 1
    ensures Rising(times[1..]) && times[0] < times[1]
  {
  }

  /** So without recovered energy they add up to the unit-by-unit cost of all the energy from the first position on. */
  lemma {:induction false} CycleCostsAddUp(rate: Rate, ctx: Context, c: TierPosition.Cycle, times: seq<int>)
    requires TierPosition.Chain(c, times) && TierPosition.PositionAt(c, times[|times| - 1]).Some? && NothingRecovered(c, times)
    ensures TierPosition.PositionAt(c, times[0]).Some?
    ensures ChainCost(rate, ctx, c, times)
         == MarginalFrom(rate, ctx, AllBounds(rate, times), AllEnergies(rate, c, times), 0, TierPosition.PositionAt(c, times[0]).value as real)
  {
    ChainIsOneRun(rate, ctx, c, times);
    RunIsJoined(rate, ctx, c, times, TierPosition.PositionAt(c, times[0]).value);
  }
}
