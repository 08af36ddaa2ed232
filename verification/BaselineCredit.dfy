/** The baseline credit of a whole cycle: adjacent groups draw one allocation, once (worker/app/jobs.py, cost_engine.py). */
module BaselineCredit {
  import opened Outcomes
  import opened Sums
  import opened BillingScopes
  import opened CostWorker
  import opened EnginePricing
  import TierPosition
  import PeriodResolution
  import CostEngine
  import PricingLaws
  import CycleCosts

  /** The energy of the group priced between two times. */
  ghost function EnergyBetween(rows: seq<Row>, terms: Terms, res: Resolution, start: int, end: int): int
    requires res.Resolved?
  {
    TierPosition.GroupEnergy(CycleOf(rows, terms, res.members), start, end)
  }

  ghost function BillBetween(rate: PeriodResolution.Rate, rows: seq<Row>, terms: Terms, res: Resolution, start: int, end: int): Option<CostEngine.Bill>
    requires res.Resolved?
  {
    var ctx := ContextAt(rows, terms, start, res);
    if ctx.None? then None else CostEngine.PriceInterval(rate, ctx.value, start, end, EnergyBetween(rows, terms, res, start, end))
  }

  /** Every group of the chain is priced. */
  ghost predicate AllBilled(rate: PeriodResolution.Rate, rows: seq<Row>, terms: Terms, res: Resolution, times: seq<int>)
    requires res.Resolved?
  {
    forall k, m :: 0 <= k && m == k + 1 < |times| ==> BillBetween(rate, rows, terms, res, times[k], times[m]).Some?
  }

  /** The energy of all groups, and what they were credited. */
  ghost function AllEnergy(rows: seq<Row>, terms: Terms, res: Resolution, times: seq<int>): int
    requires res.Resolved?
  {
    if |times| < 2 then 0 else EnergyBetween(rows, terms, res, times[0], times[1]) + AllEnergy(rows, terms, res, times[1..])
  }

  ghost function AllCredited(rate: PeriodResolution.Rate, rows: seq<Row>, terms: Terms, res: Resolution, times: seq<int>): real
    requires res.Resolved?
  {
    if |times| < 2 then 0.0
    else
      var bill := BillBetween(rate, rows, terms, res, times[0], times[1]);
      (if bill.Some? then PricingLaws.CreditedOf(bill.value.slices) else 0.0) + AllCredited(rate, rows, terms, res, times[1..])
  }

  /** What an allocation credits to some energy from a position on. */
  function OneDraw(full: bool, allocation: real, position: real, energy: real): real {
    if !full || allocation <= position then 0.0
    else if energy <= allocation - position then energy
    else allocation - position
  }

  lemma {:induction false} FirstCredit(rate: PeriodResolution.Rate, rows: seq<Row>, terms: Terms, res: Resolution, start: int, end: int)
    requires res.Resolved? && BillBetween(rate, rows, terms, res, start, end).Some?
    ensures TierPosition.PositionAt(CycleOf(rows, terms, res.members), start).Some?
    ensures PricingLaws.CreditedOf(BillBetween(rate, rows, terms, res, start, end).value.slices)
         == OneDraw(res.scope == FullAccount, terms.allocation,
                    TierPosition.PositionAt(CycleOf(rows, terms, res.members), start).value as real,
                    EnergyBetween(rows, terms, res, start, end) as real)
  {
    hide TierPosition.PositionAt, CostEngine.PriceInterval, PricingLaws.CreditedOf, EnergyBetween;
    var ctx := ContextAt(rows, terms, start, res).value;
    PricingLaws.BillMeaning(rate, ctx, start, end, EnergyBetween(rows, terms, res, start, end));
  }

  /** Drawing for one group and then for the rest draws what one draw for both would. */
  lemma {:induction false} DrawsAddUp(full: bool, allocation: real, position: int, energy: int, rest: int)
    requires energy >= 0 && rest >= 0
    ensures OneDraw(full, allocation, position as real, energy as real) + OneDraw(full, allocation, (position + energy) as real, rest as real)
         == OneDraw(full, allocation, position as real, (energy + rest) as real)
  {
    PricingLaws.AsRealAddsUp(position, energy);
    PricingLaws.AsRealAddsUp(energy, rest);
  }

  lemma {:induction false} EnergyIsNonNegative(rows: seq<Row>, terms: Terms, res: Resolution, times: seq<int>)
    requires res.Resolved?
    ensures AllEnergy(rows, terms, res, times) >= 0
    decreases |times|
  {
    if |times| >= 2 {
      CycleCosts.GroupEnergyIsNonNegative(CycleOf(rows, terms, res.members), times[0], times[1]);
      EnergyIsNonNegative(rows, terms, res, times[1..]);
    }
  }

  lemma {:induction false} LaterAreBilled(rate: PeriodResolution.Rate, rows: seq<Row>, terms: Terms, res: Resolution, times: seq<int>)
    requires res.Resolved? && AllBilled(rate, rows, terms, res, times) && |times| > 1
    ensures AllBilled(rate, rows, terms, res, times[1..]) && BillBetween(rate, rows, terms, res, times[0], times[1]).Some?
  {
    hide BillBetween;
    var rest := times[1..];
    forall k, m | 0 <= k && m == k + 1 < |rest| ensures BillBetween(rate, rows, terms, res, rest[k], rest[m]).Some? {
      assert rest[k] == times[k + 1] && rest[m] == times[m + 1];
    }
  }

  lemma {:induction false} NextPosition(rows: seq<Row>, terms: Terms, res: Resolution, times: seq<int>)
    requires res.Resolved? && |times| > 1
    requires var c := CycleOf(rows, terms, res.members);
             && TierPosition.Chain(c, times) && CycleCosts.NothingRecovered(c, times) && TierPosition.PositionAt(c, times[|times| - 1]).Some?
    ensures var c := CycleOf(rows, terms, res.members);
            && TierPosition.Chain(c, times[1..]) && CycleCosts.NothingRecovered(c, times[1..])
            && TierPosition.PositionAt(c, times[0]).Some? && TierPosition.PositionAt(c, times[1]).Some?
            && TierPosition.PositionAt(c, times[1]).value == TierPosition.PositionAt(c, times[0]).value + EnergyBetween(rows, terms, res, times[0], times[1])
  {
    var c := CycleOf(rows, terms, res.members);
    CycleCosts.TailIsChain(c, times);
    CycleCosts.NothingRecoveredLater(c, times);
    assert times[1] <= times[|times| - 1];
    TierPosition.EarlierIsDefined(c, times[1], times[|times| - 1]);
    TierPosition.EarlierIsDefined(c, times[0], times[1]);
    TierPosition.PositionTelescopes(c, times[0], times[1]);
    TierPosition.AlignedEnergy(c, times[0], times[1]);
  }

  /**
   The groups of a chain are credited together what one draw from the allocation, less what the cycle had used before them,
   credits to all their energy; under any scope but the full account, nothing.
   */
  lemma {:induction false} AllocationIsDrawnOnce(rate: PeriodResolution.Rate, rows: seq<Row>, terms: Terms, res: Resolution, times: seq<int>)
    requires res.Resolved? && AllBilled(rate, rows, terms, res, times)
    requires var c := CycleOf(rows, terms, res.members);
             && TierPosition.Chain(c, times) && CycleCosts.NothingRecovered(c, times) && TierPosition.PositionAt(c, times[|times| - 1]).Some?
    ensures var position := TierPosition.PositionAt(CycleOf(rows, terms, res.members), times[0]);
            && position.Some?
            && AllCredited(rate, rows, terms, res, times)
            == (if res.scope != FullAccount || terms.allocation <= position.value as real then 0.0
                else if AllEnergy(rows, terms, res, times) as real <= terms.allocation - position.value as real
                then AllEnergy(rows, terms, res, times) as real
                else terms.allocation - position.value as real)
  {
    DrawnOnce(rate, rows, terms, res, times);
    hide AllBilled, AllEnergy, AllCredited, CycleCosts.NothingRecovered, TierPosition.PositionAt, TierPosition.Chain;
  }

  lemma {:induction false} DrawnOnce(rate: PeriodResolution.Rate, rows: seq<Row>, terms: Terms, res: Resolution, times: seq<int>)
    requires res.Resolved? && AllBilled(rate, rows, terms, res, times)
    requires var c := CycleOf(rows, terms, res.members);
             && TierPosition.Chain(c, times) && CycleCosts.NothingRecovered(c, times) && TierPosition.PositionAt(c, times[|times| - 1]).Some?
    ensures var position := TierPosition.PositionAt(CycleOf(rows, terms, res.members), times[0]);
            && position.Some?
            && AllCredited(rate, rows, terms, res, times)
            == OneDraw(res.scope == FullAccount, terms.allocation, position.value as real, AllEnergy(rows, terms, res, times) as real)
    decreases |times|
  {
    var c := CycleOf(rows, terms, res.members);
    ChainIsNotEmpty(c, times);
    hide *;
    if |times| == 1 {
      NothingDrawn(rate, rows, terms, res, times, TierPosition.PositionAt(c, times[0]).value as real);
    } else {
      LaterAreBilled(rate, rows, terms, res, times);
      NextPosition(rows, terms, res, times);
      assert times[1..][|times[1..]| - 1] == times[|times| - 1] && times[1..][0] == times[1];
      DrawnOnce(rate, rows, terms, res, times[1..]);
      DrawStep(rate, rows, terms, res, times, TierPosition.PositionAt(c, times[0]).value, TierPosition.PositionAt(c, times[1]).value);
    }
  }

  lemma {:induction false} DrawStep(rate: PeriodResolution.Rate, rows: seq<Row>, terms: Terms, res: Resolution, times: seq<int>, here: int, next: int)
    requires res.Resolved? && |times| > 1 && BillBetween(rate, rows, terms, res, times[0], times[1]).Some?
    requires TierPosition.PositionAt(CycleOf(rows, terms, res.members), times[0]) == Some(here)
    requires next == here + EnergyBetween(rows, terms, res, times[0], times[1])
    requires AllCredited(rate, rows, terms, res, times[1..])
          == OneDraw(res.scope == FullAccount, terms.allocation, next as real, AllEnergy(rows, terms, res, times[1..]) as real)
    ensures AllCredited(rate, rows, terms, res, times)
         == OneDraw(res.scope == FullAccount, terms.allocation, here as real, AllEnergy(rows, terms, res, times) as real)
  {
    hide *;
    FirstCredit(rate, rows, terms, res, times[0], times[1]);
    FirstIsNonNegative(rows, terms, res, times[0], times[1]);
    EnergyIsNonNegative(rows, terms, res, times[1..]);
    AllUnfold(rate, rows, terms, res, times);
    DrawsAddUp(res.scope == FullAccount, terms.allocation, here, EnergyBetween(rows, terms, res, times[0], times[1]), AllEnergy(rows, terms, res, times[1..]));
  }

  lemma {:induction false} ChainIsNotEmpty(c: TierPosition.Cycle, times: seq<int>)
    requires TierPosition.Chain(c, times)
    ensures |times| >= 1
  {
  }

  lemma {:induction false} FirstIsNonNegative(rows: seq<Row>, terms: Terms, res: Resolution, start: int, end: int)
    requires res.Resolved?
    ensures EnergyBetween(rows, terms, res, start, end) >= 0
  {
    CycleCosts.GroupEnergyIsNonNegative(CycleOf(rows, terms, res.members), start, end);
  }

  lemma {:induction false} NothingDrawn(rate: PeriodResolution.Rate, rows: seq<Row>, terms: Terms, res: Resolution, times: seq<int>, position: real)
    requires res.Resolved? && |times| == 1
    ensures AllCredited(rate, rows, terms, res, times)
         == OneDraw(res.scope == FullAccount, terms.allocation, position, AllEnergy(rows, terms, res, times) as real)
  {
    assert AllEnergy(rows, terms, res, times) as real == 0.0;
  }

  lemma {:induction false} AllUnfold(rate: PeriodResolution.Rate, rows: seq<Row>, terms: Terms, res: Resolution, times: seq<int>)
    requires res.Resolved? && |times| > 1 && BillBetween(rate, rows, terms, res, times[0], times[1]).Some?
    ensures AllEnergy(rows, terms, res, times) == EnergyBetween(rows, terms, res, times[0], times[1]) + AllEnergy(rows, terms, res, times[1..])
    ensures AllCredited(rate, rows, terms, res, times)
         == PricingLaws.CreditedOf(BillBetween(rate, rows, terms, res, times[0], times[1]).value.slices) + AllCredited(rate, rows, terms, res, times[1..])
  {
    hide BillBetween, EnergyBetween, PricingLaws.CreditedOf;
  }
}
