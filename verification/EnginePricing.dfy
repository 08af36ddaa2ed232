/** The worker with its own engine: tier context from the cycle, price from the schedule, split over the members (worker/app/jobs.py). */
module EnginePricing {
  import opened Outcomes
  import opened Sums
  import opened Selections
  import opened BillingScopes
  import opened CostWorker
  import RateResolution
  import TierPosition
  import PeriodResolution
  import Microdollars
  import CostEngine
  import PricingLaws

  /**
   What the account settles for a group at a time: the start, seed and energy events of its cycle, its baseline allocation and
   its tier threshold.
   */
  datatype Terms = Terms(
    cycleStart: int, seed: Option<TierPosition.Seed>, events: seq<TierPosition.Event>, allocation: real, cycleDays: int,
    threshold: Option<real>, thresholdSeason: Option<int>, inclusive: bool)

  /** Rates by version, and terms by start time and resolution; None when the threshold does not resolve. */
  datatype Tariffs = Tariffs(rate: int -> PeriodResolution.Rate, terms: (int, Resolution) -> Option<Terms>)

  /** A row of the interval table as the cycle position reads it; every row is authenticated. */
  function IntervalOf(r: Row): TierPosition.Interval {
    TierPosition.Interval(r.device, r.start, r.end, r.energy, true, r.current, r.finalized)
  }

  function IntervalsOf(rows: seq<Row>): seq<TierPosition.Interval> {
    if rows == [] then [] else [IntervalOf(rows[0])] + IntervalsOf(rows[1..])
  }

  /** The cycle of a group: its members' own intervals, with what the account knows. */
  function CycleOf(rows: seq<Row>, terms: Terms, members: set<int>): TierPosition.Cycle {
    TierPosition.Cycle(members, terms.cycleStart, terms.seed, IntervalsOf(rows), terms.events)
  }

  function ContextAt(rows: seq<Row>, terms: Terms, start: int, res: Resolution): Option<PeriodResolution.Context>
    requires res.Resolved?
  {
    var position := TierPosition.PositionAt(CycleOf(rows, terms, res.members), start);
    if position.None? then None
    else
      var left := terms.allocation - position.value as real;
      Some(PeriodResolution.Context(
        position.value as real, if left >= 0.0 then left else 0.0, res.scope == FullAccount, Some(terms.cycleDays),
        terms.threshold, terms.thresholdSeason, terms.inclusive))
  }

  function ContextOf(t: Tariffs, rows: seq<Row>, start: int, res: Resolution): Option<PeriodResolution.Context> {
    if !res.Resolved? then None
    else
      var terms := t.terms(start, res);
      if terms.None? then None else ContextAt(rows, terms.value, start, res)
  }

  /** The worker's price of a group: its context, then the engine. The engine never quotes a negative amount. */
  function EnginePrice(t: Tariffs, rows: seq<Row>, start: int, end: int, energy: nat, res: Resolution): Pricing {
    var ctx := ContextOf(t, rows, start, res);
    if ctx.None? then NoContext
    else
      var bill := CostEngine.PriceInterval(t.rate(res.rate), ctx.value, start, end, energy);
      if bill.None? then Refused
      else
        PricingLaws.QuoteIsRoundedOnce(t.rate(res.rate), ctx.value, start, end, energy);
        Quote(bill.value.cost, bill.value.credit)
  }

  ghost function EngineWorld(c: RateResolution.Catalog, t: Tariffs, rows: seq<Row>): World {
    RateResolution.WorldOf(c, rows, (s: int, e: int, energy: nat, res: Resolution) => EnginePrice(t, rows, s, e, energy, res))
  }

  /**
   From meter to money: the members of a priced group are charged, together, the exact cost of the group's energy from its
   cycle position on, rounded once, and are credited what the account's baseline leaves for that energy.
   */
  lemma {:induction false} GroupIsChargedExactly(c: RateResolution.Catalog, t: Tariffs, rows: seq<Row>, before: Table, scanned: set<Row>, r: Row)
    requires RateResolution.Consistent(c) && DistinctRows(rows)
    requires var w := EngineWorld(c, t, rows);
             r in rows && r in scanned && Chargeable(w, r) && Untouched(GroupOf(w, r), before)
    ensures var w := EngineWorld(c, t, rows);
            var group, res := GroupOf(w, r), Resolve(w, r);
            var after, rate, ctx := Settled(w, before, scanned), t.rate(res.rate), ContextOf(t, rows, r.start, res);
            && ctx.Some?
            && (var bill := CostEngine.PriceInterval(rate, ctx.value, r.start, r.end, TotalEnergy(group));
                && bill.Some? && PricingLaws.EnergyOf(bill.value.slices) == TotalEnergy(group)
                && PricingLaws.InTiers(ctx.value, bill.value.slices)
                && (forall i :: 0 <= i < |group| ==> group[i].id in after)
                && Sum(SelectedCosts(after, group)) == Microdollars.HalfEven(RealSum(CostEngine.Amounts(bill.value.slices)))
                && Sum(SelectedCredits(after, group))
                   == Microdollars.HalfEven(CostEngine.CreditFor(rate, PricingLaws.CreditCap(ctx.value, TotalEnergy(group)))))
  {
    var w := EngineWorld(c, t, rows);
    var group, res := GroupOf(w, r), Resolve(w, r);
    RateResolution.WorldIsWellFormed(c, rows, w.price);
    assert PriceOf(w, r) == EnginePrice(t, rows, r.start, r.end, TotalEnergy(group), res);
    EngineQuote(t, rows, r.start, r.end, TotalEnergy(group), res);
    hide *;
    GroupQuoteIsConserved(w, before, scanned, r);
  }

  lemma {:induction false} EngineQuote(t: Tariffs, rows: seq<Row>, start: int, end: int, energy: nat, res: Resolution)
    requires EnginePrice(t, rows, start, end, energy, res).Quote?
    ensures var ctx, quote := ContextOf(t, rows, start, res), EnginePrice(t, rows, start, end, energy, res);
            && ctx.Some?
            && (var bill := CostEngine.PriceInterval(t.rate(res.rate), ctx.value, start, end, energy);
                && bill.Some? && PricingLaws.EnergyOf(bill.value.slices) == energy && PricingLaws.InTiers(ctx.value, bill.value.slices)
                && quote.cost == Microdollars.HalfEven(RealSum(CostEngine.Amounts(bill.value.slices)))
                && quote.credit == Microdollars.HalfEven(CostEngine.CreditFor(t.rate(res.rate), PricingLaws.CreditCap(ctx.value, energy))))
  {
    hide CostEngine.PriceInterval, ContextAt;
    var ctx := ContextOf(t, rows, start, res).value;
    PricingLaws.QuoteIsRoundedOnce(t.rate(res.rate), ctx, start, end, energy);
  }

  /** The energy of a shared group is what its cycle counts for it. */
  lemma {:induction false} GroupEnergyIsCounted(rows: seq<Row>, terms: Terms, members: set<int>, start: int, end: int)
    ensures TotalEnergy(Filter(rows, Alongside(members, start, end)))
         == TierPosition.GroupEnergy(CycleOf(rows, terms, members), start, end)
  {
    SameEnergy(rows, CycleOf(rows, terms, members), start, end);
  }

  lemma {:induction false} SameEnergy(rows: seq<Row>, c: TierPosition.Cycle, start: int, end: int)
    ensures TotalEnergy(Filter(rows, Alongside(c.members, start, end)))
         == SumOf(Filter(IntervalsOf(rows), TierPosition.InGroup(c, start, end)), TierPosition.EnergyOf)
  {
    if rows != [] {
      var keep, head := TierPosition.InGroup(c, start, end), IntervalOf(rows[0]);
      var rest, later := Filter(rows[1..], Alongside(c.members, start, end)), Filter(IntervalsOf(rows[1..]), keep);
      SameEnergy(rows[1..], c, start, end);
      assert IntervalsOf(rows)[1..] == IntervalsOf(rows[1..]);
      assert Alongside(c.members, start, end)(rows[0]) <==> keep(head);
      assert Filter(rows, Alongside(c.members, start, end)) == (if keep(head) then [rows[0]] + rest else rest);
      assert Filter(IntervalsOf(rows), keep) == (if keep(head) then [head] + later else later);
      assert ([rows[0]] + rest)[1..] == rest && ([head] + later)[1..] == later;
    }
  }

  // ----- what the context says -----

  /** A context is the position, the part of the allocation that is left, and the account's own terms. */
  lemma {:induction false} ContextMeans(t: Tariffs, rows: seq<Row>, start: int, res: Resolution)
    requires res.Resolved? && t.terms(start, res).Some?
    ensures var terms, ctx := t.terms(start, res).value, ContextOf(t, rows, start, res);
            var position := TierPosition.PositionAt(CycleOf(rows, terms, res.members), start);
            && (ctx.Some? <==> position.Some?)
            && (ctx.Some? ==>
                  && ctx.value.position == position.value as real
                  && ctx.value.baseline >= 0.0 && ctx.value.baseline >= terms.allocation - ctx.value.position
                  && (ctx.value.baseline == 0.0 || ctx.value.baseline == terms.allocation - ctx.value.position)
                  && (ctx.value.fullAccount <==> res.scope == FullAccount)
                  && ctx.value.cycleDays == Some(terms.cycleDays) && ctx.value.threshold == terms.threshold
                  && ctx.value.thresholdSeason == terms.thresholdSeason && ctx.value.inclusive == terms.inclusive)
  {
    hide TierPosition.PositionAt;
  }

  /** A group is without context exactly when its account has no terms or its cycle no position, and else quoted exactly when the engine bills it. */
  lemma {:induction false} QuotedExactly(t: Tariffs, rows: seq<Row>, start: int, end: int, energy: nat, res: Resolution)
    requires res.Resolved?
    ensures var price, terms, ctx := EnginePrice(t, rows, start, end, energy, res), t.terms(start, res), ContextOf(t, rows, start, res);
            if terms.None? || TierPosition.PositionAt(CycleOf(rows, terms.value, res.members), start).None? then price == NoContext
            else
              && ctx.Some?
              && (CostEngine.PriceInterval(t.rate(res.rate), ctx.value, start, end, energy).None? ==> price == Refused)
              && (CostEngine.PriceInterval(t.rate(res.rate), ctx.value, start, end, energy).Some? ==> price.Quote?)
  {
    hide TierPosition.PositionAt, CostEngine.PriceInterval;
  }

  lemma {:induction false} IntervalsSnoc(rows: seq<Row>, r: Row)
    ensures IntervalsOf(rows + [r]) == IntervalsOf(rows) + [IntervalOf(r)]
  {
    if rows != [] {
      IntervalsSnoc(rows[1..], r);
      assert (rows + [r])[1..] == rows[1..] + [r];
    }
  }

  /** One more row of the table moves a group's position by its energy exactly if it is a member's current interval within. */
  lemma {:induction false} OneMoreRow(rows: seq<Row>, r: Row, terms: Terms, members: set<int>, at: int)
    requires TierPosition.PositionAt(CycleOf(rows, terms, members), at).Some? && TierPosition.PositionAt(CycleOf(rows + [r], terms, members), at).Some?
    ensures var from := if terms.seed.Some? && terms.seed.value.through.Some? then terms.seed.value.through.value else terms.cycleStart;
            TierPosition.PositionAt(CycleOf(rows + [r], terms, members), at).value - TierPosition.PositionAt(CycleOf(rows, terms, members), at).value
            == if r.device in members && r.current && from <= r.start && r.end <= at && r.energy.Some? then r.energy.value else 0
  {
    hide TierPosition.PositionAt;
    IntervalsSnoc(rows, r);
    var c := CycleOf(rows, terms, members);
    assert CycleOf(rows + [r], terms, members) == c.(intervals := c.intervals + [IntervalOf(r)]);
    TierPosition.OneMoreInterval(c, IntervalOf(r), at);
  }
}
