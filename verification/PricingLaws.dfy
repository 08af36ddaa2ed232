/** What the pricing engine promises: conservation of energy and credit, one rounding, and tiers priced unit by unit. */
module PricingLaws {
  import opened Outcomes
  import opened Sums
  import opened TierSpans
  import opened PeriodResolution
  import opened Microdollars
  import opened CostEngine

  // ----- conservation -----

  function EnergyOf(slices: seq<Slice>): int {
    if slices == [] then 0 else EnergyOf(slices[..|slices| - 1]) + slices[|slices| - 1].energy
  }

  function CreditedOf(slices: seq<Slice>): real {
    if slices == [] then 0.0 else CreditedOf(slices[..|slices| - 1]) + slices[|slices| - 1].credited
  }

  /** The baseline credit a full account can draw for some energy, however it is sliced. */
  function CreditCap(ctx: Context, energy: int): real {
    Credited(ctx, ctx.baseline, energy)
  }

  /** Each slice starts where the earlier ones end and stays within its tier. */
  ghost predicate InTiers(ctx: Context, slices: seq<Slice>) {
    forall i :: 0 <= i < |slices| ==>
      && slices[i].energy >= 0
      && slices[i].position == ctx.position + EnergyOf(slices[..i]) as real
      && (slices[i].tier.span.end.Some? ==> slices[i].position + slices[i].energy as real <= slices[i].tier.span.end.value)
  }

  ghost predicate Faithful(ctx: Context, m: Meter) {
    && EnergyOf(m.slices) >= 0
    && m.position == ctx.position + EnergyOf(m.slices) as real
    && m.baseline == ctx.baseline - CreditedOf(m.slices)
    && CreditedOf(m.slices) == CreditCap(ctx, EnergyOf(m.slices))
    && InTiers(ctx, m.slices)
  }

  lemma {:induction false} TotalsGrow(slices: seq<Slice>, s: Slice)
    ensures EnergyOf(slices + [s]) == EnergyOf(slices) + s.energy
    ensures CreditedOf(slices + [s]) == CreditedOf(slices) + s.credited
  {
    assert (slices + [s])[..|slices|] == slices;
  }

  /** Drawing the baseline in two steps draws what one step would. */
  lemma {:induction false} CreditAddsUp(ctx: Context, before: int, energy: int)
    requires before >= 0 && energy >= 0
    ensures CreditCap(ctx, before) + Credited(ctx, ctx.baseline - CreditCap(ctx, before), energy) == CreditCap(ctx, before + energy)
  {
  }

  lemma {:induction false} SliceStaysInTier(t: Tier, position: real, remaining: int)
    requires Advances(t, position)
    ensures t.span.end.Some? ==> position + SliceEnergy(t, position, remaining) as real <= t.span.end.value
  {
    if t.span.end.Some? {
      var room := t.span.end.value - position;
      assert room.Floor as real <= room;
    }
  }

  lemma {:induction false} InTiersGrows(ctx: Context, slices: seq<Slice>, s: Slice)
    requires InTiers(ctx, slices) && s.energy >= 0 && s.position == ctx.position + EnergyOf(slices) as real
    requires s.tier.span.end.Some? ==> s.position + s.energy as real <= s.tier.span.end.value
    ensures InTiers(ctx, slices + [s])
  {
    hide EnergyOf;
    var longer := slices + [s];
    forall i | 0 <= i < |longer|
      ensures longer[i].energy >= 0 && longer[i].position == ctx.position + EnergyOf(longer[..i]) as real
      ensures longer[i].tier.span.end.Some? ==> longer[i].position + longer[i].energy as real <= longer[i].tier.span.end.value
    {
      assert longer[..i] == (if i < |slices| then slices[..i] else slices);
      assert i < |slices| ==> longer[i] == slices[i];
    }
  }

  lemma {:induction false} RecordIsFaithful(ctx: Context, m: Meter, s: Slice)
    requires Faithful(ctx, m) && s.energy >= 0 && s.position == m.position && s.credited == Credited(ctx, m.baseline, s.energy)
    requires s.tier.span.end.Some? ==> s.position + s.energy as real <= s.tier.span.end.value
    ensures Faithful(ctx, Record(m, s)) && EnergyOf(Record(m, s).slices) == EnergyOf(m.slices) + s.energy
  {
    hide EnergyOf, CreditedOf, Credited, CreditCap, InTiers;
    TotalsGrow(m.slices, s);
    CreditAddsUp(ctx, EnergyOf(m.slices), s.energy);
    InTiersGrows(ctx, m.slices, s);
    AsRealAddsUp(EnergyOf(m.slices), s.energy);
  }

  lemma {:induction false} AsRealAddsUp(a: int, b: int)
    ensures (a + b) as real == a as real + b as real
  {
  }

  lemma {:induction false} SliceIsFaithful(rate: Rate, ctx: Context, left: int, right: int, bucket: int, remaining: int, from: int, m: Meter)
    requires Faithful(ctx, m) && remaining >= 0 && NextSlice(rate, ctx, left, right, bucket, remaining, from, m).Some?
    ensures var s := NextSlice(rate, ctx, left, right, bucket, remaining, from, m).value;
            Faithful(ctx, Record(m, s)) && EnergyOf(Record(m, s).slices) == EnergyOf(m.slices) + s.energy
  {
    hide *;
    var s := NextSlice(rate, ctx, left, right, bucket, remaining, from, m).value;
    NextSliceMeans(rate, ctx, left, right, bucket, remaining, from, m);
    SliceAdvances(rate, ctx, left, right, bucket, remaining, from, m);
    SliceStaysInTier(s.tier, m.position, remaining);
    RecordIsFaithful(ctx, m, s);
  }

  lemma {:induction false} BucketIsFaithful(rate: Rate, ctx: Context, left: int, right: int, bucket: int, remaining: int, from: int, m: Meter)
    requires Faithful(ctx, m) && 0 <= remaining <= bucket
    requires SliceBucket(rate, ctx, left, right, bucket, remaining, from, m).Some?
    ensures var after := SliceBucket(rate, ctx, left, right, bucket, remaining, from, m).value;
            Faithful(ctx, after) && EnergyOf(after.slices) == EnergyOf(m.slices) + remaining
    decreases remaining
  {
    hide Faithful, NextSlice, Record;
    if remaining > 0 || m.slices == [] {
      if remaining > 0 || bucket == 0 {
        var s := NextSlice(rate, ctx, left, right, bucket, remaining, from, m).value;
        SliceAdvances(rate, ctx, left, right, bucket, remaining, from, m);
        SliceIsFaithful(rate, ctx, left, right, bucket, remaining, from, m);
        if bucket > 0 {
          BucketIsFaithful(rate, ctx, left, right, bucket, remaining - s.energy, s.end, Record(m, s));
        }
      }
    }
  }

  lemma {:induction false} IntervalIsFaithful(rate: Rate, ctx: Context, bounds: seq<int>, energies: seq<int>, k: nat, m: Meter)
    requires |bounds| == |energies| + 1 && k <= |energies| && Faithful(ctx, m)
    requires forall i :: 0 <= i < |energies| ==> energies[i] >= 0
    requires SliceFrom(rate, ctx, bounds, energies, k, m).Some?
    ensures var after := SliceFrom(rate, ctx, bounds, energies, k, m).value;
            Faithful(ctx, after) && EnergyOf(after.slices) == EnergyOf(m.slices) + Sum(energies[k..])
    decreases |energies| - k
  {
    hide Faithful, SliceBucket;
    if k < |energies| {
      BucketIsFaithful(rate, ctx, bounds[k], bounds[k + 1], energies[k], energies[k], bounds[k], m);
      var next := SliceBucket(rate, ctx, bounds[k], bounds[k + 1], energies[k], energies[k], bounds[k], m).value;
      IntervalIsFaithful(rate, ctx, bounds, energies, k + 1, next);
      assert energies[k..][1..] == energies[k + 1..];
    } else {
      assert energies[k..] == [];
    }
  }

  /** Slicing conserves energy, credits exactly what the baseline allows, and prices no energy beyond its tier. */
  lemma {:induction false} SlicesConserve(rate: Rate, ctx: Context, start: int, end: int, energy: int)
    requires start < end && energy >= 0 && Sliced(rate, ctx, start, end, energy).Some?
    ensures var slices := Sliced(rate, ctx, start, end, energy).value.slices;
            EnergyOf(slices) == energy && CreditedOf(slices) == CreditCap(ctx, energy) && InTiers(ctx, slices)
  {
    var bounds := Bounds(rate, start, end);
    BoundsAscend(rate, start, end);
    BucketsConserveEnergy(bounds, energy);
    var energies := Energies(bounds, energy);
    hide Bounds, Energies, SliceFrom, InTiers;
    var initial := Meter(ctx.position, ctx.baseline, []);
    StartsFaithful(ctx, initial);
    IntervalIsFaithful(rate, ctx, bounds, energies, 0, initial);
    assert energies[0..] == energies;
  }

  lemma {:induction false} StartsFaithful(ctx: Context, m: Meter)
    requires m == Meter(ctx.position, ctx.baseline, [])
    ensures Faithful(ctx, m) && EnergyOf(m.slices) == 0
  {
  }

  // ----- one rounding -----

  lemma {:induction false} CreditsAreScaled(rate: Rate, slices: seq<Slice>)
    ensures RealSum(Credits(rate, slices)) == CreditFor(rate, CreditedOf(slices))
  {
    if slices != [] {
      var n := |slices| - 1;
      var front, last := slices[..n], slices[n];
      CreditsAreScaled(rate, front);
      RealDistribute(CreditedOf(front), last.credited, rate.credit);
      assert CreditFor(rate, CreditedOf(slices)) == CreditFor(rate, CreditedOf(front)) + CreditFor(rate, last.credited);
      hide CreditFor;
      assert Credits(rate, slices) == Credits(rate, front) + [CreditFor(rate, last.credited)];
      RealSumConcat(Credits(rate, front), [CreditFor(rate, last.credited)]);
      assert RealSum([CreditFor(rate, last.credited)]) == CreditFor(rate, last.credited);
    }
  }

  lemma {:induction false} RealDistribute(a: real, b: real, c: real)
    ensures (a + b) * c == a * c + b * c
  {
  }

  /** The quote is non-negative: the exact cost rounded once, and the credit of what the baseline allows rounded once. */
  lemma {:induction false} QuoteIsRoundedOnce(rate: Rate, ctx: Context, start: int, end: int, energy: int)
    requires PriceInterval(rate, ctx, start, end, energy).Some?
    ensures var bill := PriceInterval(rate, ctx, start, end, energy).value;
            && bill.cost == HalfEven(RealSum(Amounts(bill.slices))) >= 0
            && bill.credit == HalfEven(CreditFor(rate, CreditCap(ctx, energy))) >= 0
            && EnergyOf(bill.slices) == energy && InTiers(ctx, bill.slices)
  {
    hide Sliced, Rounded, Amounts, Credits, CreditFor, HalfEven, RealSum, NonNegative, CreditCap, InTiers;
    var slices := PriceInterval(rate, ctx, start, end, energy).value.slices;
    SlicesConserve(rate, ctx, start, end, energy);
    RoundedConserves(Amounts(slices));
    RoundedConserves(Credits(rate, slices));
    RoundedIsNonNegative(Amounts(slices));
    RoundedIsNonNegative(Credits(rate, slices));
    CreditsAreScaled(rate, slices);
  }

  // ----- the simple form: one mWh at a time -----

  /** The exact cost of n mWh from a position on, each at the tier it falls in; None if some mWh has none. */
  function Marginal(rate: Rate, ctx: Context, instant: int, position: real, n: int): Option<real>
    decreases if n > 0 then n else 0
  {
    if n <= 0 then Some(0.0)
    else
      var tier := PeriodFor(rate, ctx, instant, position, true);
      if tier.None? || !Advances(tier.value, position) then None
      else
        var rest := Marginal(rate, ctx, instant, position + 1.0, n - 1);
        if rest.None? then None else Some(Amount(rate, 1, tier.value.period.price) + rest.value)
  }

  /** The price for new energy does not depend on the instant within the bucket. */
  ghost predicate SteadyTime(rate: Rate, ctx: Context, left: int, right: int) {
    forall t: int, c: real {:trigger PeriodFor(rate, ctx, t, c, true)} :: left <= t < right && c >= 0.0
      ==> PeriodFor(rate, ctx, t, c, true) == PeriodFor(rate, ctx, left, c, true)
  }

  /** A tier stays resolved up to its end. */
  ghost predicate SteadyTiers(rate: Rate, ctx: Context, instant: int) {
    forall c: real, d: real {:trigger PeriodFor(rate, ctx, instant, c, true), PeriodFor(rate, ctx, instant, d, true)} ::
      (&& 0.0 <= c <= d && PeriodFor(rate, ctx, instant, c, true).Some?
       && (var end := PeriodFor(rate, ctx, instant, c, true).value.span.end; end.Some? ==> d < end.value))
      ==> PeriodFor(rate, ctx, instant, d, true) == PeriodFor(rate, ctx, instant, c, true)
  }

  lemma {:induction false} AmountAddsUp(rate: Rate, a: int, b: int, price: real)
    ensures Amount(rate, a + b, price) == Amount(rate, a, price) + Amount(rate, b, price)
  {
    var p := price + rate.adjustment;
    RealDistribute(a as real, b as real, p);
    RealDistribute(a as real * p, b as real * p, rate.surcharge);
    assert (a + b) as real == a as real + b as real;
  }

  lemma {:induction false} NoAmount(rate: Rate, price: real)
    ensures Amount(rate, 0, price) == 0.0
  {
  }

  lemma {:induction false} FloorShift(x: real, k: int)
    ensures (x - k as real).Floor == x.Floor - k
  {
  }

  /** Up to its capacity, a tier prices unit by unit what it prices at once. */
  lemma {:induction false} MarginalWithinTier(rate: Rate, ctx: Context, instant: int, position: real, k: nat, n: int)
    requires SteadyTiers(rate, ctx, instant) && position >= 0.0 && k <= n
    requires PeriodFor(rate, ctx, instant, position, true).Some?
    requires var tier := PeriodFor(rate, ctx, instant, position, true).value;
             Advances(tier, position) && (Capacity(tier, position).Some? ==> k <= Capacity(tier, position).value)
    ensures var rest := Marginal(rate, ctx, instant, position + k as real, n - k);
            var whole := Marginal(rate, ctx, instant, position, n);
            && (whole.None? <==> rest.None?)
            && (whole.Some? ==> whole.value == Amount(rate, k, PeriodFor(rate, ctx, instant, position, true).value.period.price) + rest.value)
    decreases k
  {
    hide PeriodFor, Amount;
    var tier := PeriodFor(rate, ctx, instant, position, true).value;
    if k == 0 {
      NoAmount(rate, tier.period.price);
      assert position + 0 as real == position;
    } else if k == 1 {
    } else {
      var next := position + 1.0;
      if tier.span.end.Some? {
        FloorShift(tier.span.end.value - position, 1);
      }
      assert PeriodFor(rate, ctx, instant, next, true) == Some(tier);
      MarginalWithinTier(rate, ctx, instant, next, k - 1, n - 1);
      AmountAddsUp(rate, 1, k - 1, tier.period.price);
      assert next + (k - 1) as real == position + k as real;
    }
  }

  /** What slicing a bucket adds to the exact cost. */
  ghost predicate Costs(before: Meter, after: Option<Meter>, marginal: Option<real>) {
    && (after.None? <==> marginal.None?)
    && (after.Some? ==> RealSum(Amounts(after.value.slices)) == RealSum(Amounts(before.slices)) + marginal.value)
  }

  lemma {:induction false} AmountsGrow(slices: seq<Slice>, s: Slice)
    ensures RealSum(Amounts(slices + [s])) == RealSum(Amounts(slices)) + s.amount
  {
    assert Amounts(slices + [s]) == Amounts(slices) + [s.amount];
    RealSumConcat(Amounts(slices), [s.amount]);
    assert RealSum([s.amount]) == s.amount;
  }

  lemma {:induction false} SliceEndsInside(left: int, right: int, bucket: int, consumed: int)
    requires left < right && bucket > 0
    ensures left <= SliceEnd(left, right, bucket, consumed) < right
  {
  }

  lemma {:induction false} MiddleIsInside(left: int, from: int, right: int)
    requires left <= from < right
    ensures left <= from + (right - from) / 2 < right
  {
  }

  /** The next slice, as a step of the unit-by-unit form. */
  lemma {:induction false} SliceIsMarginal(rate: Rate, ctx: Context, left: int, right: int, bucket: int, remaining: int, from: int, m: Meter)
    requires SteadyTime(rate, ctx, left, right) && SteadyTiers(rate, ctx, left)
    requires left <= from < right && 0 < remaining <= bucket && m.position >= 0.0
    ensures var s := NextSlice(rate, ctx, left, right, bucket, remaining, from, m);
            var whole := Marginal(rate, ctx, left, m.position, remaining);
            && (s.None? ==> whole.None?)
            && (s.Some? ==>
                  && 0 < s.value.energy <= remaining && (s.value.energy < remaining ==> left <= s.value.end < right)
                  && var rest := Marginal(rate, ctx, left, m.position + s.value.energy as real, remaining - s.value.energy);
                     && (whole.None? <==> rest.None?)
                     && (whole.Some? ==> whole.value == s.value.amount + rest.value))
  {
    hide *;
    var s := NextSlice(rate, ctx, left, right, bucket, remaining, from, m);
    MiddleIsSteady(rate, ctx, left, right, from, m.position);
    NextSliceMeans(rate, ctx, left, right, bucket, remaining, from, m);
    if s.None? {
      RefusedUnit(rate, ctx, left, m.position, remaining);
    } else {
      SliceAdvances(rate, ctx, left, right, bucket, remaining, from, m);
      SliceEndsInside(left, right, bucket, bucket - remaining + s.value.energy);
      SliceFits(s.value.tier, m.position, remaining);
      MarginalWithinTier(rate, ctx, left, m.position, s.value.energy, remaining);
    }
  }

  lemma {:induction false} MiddleIsSteady(rate: Rate, ctx: Context, left: int, right: int, from: int, position: real)
    requires SteadyTime(rate, ctx, left, right) && left <= from < right && position >= 0.0
    ensures PeriodFor(rate, ctx, from + (right - from) / 2, position, true) == PeriodFor(rate, ctx, left, position, true)
  {
    hide PeriodFor;
    MiddleIsInside(left, from, right);
  }

  lemma {:induction false} SliceFits(t: Tier, position: real, remaining: int)
    ensures Capacity(t, position).Some? ==> SliceEnergy(t, position, remaining) <= Capacity(t, position).value
  {
  }

  lemma {:induction false} RefusedUnit(rate: Rate, ctx: Context, instant: int, position: real, n: int)
    requires n > 0
    requires var tier := PeriodFor(rate, ctx, instant, position, true); tier.None? || !Advances(tier.value, position)
    ensures Marginal(rate, ctx, instant, position, n).None?
  {
    hide PeriodFor, Advances, Amount;
  }

  /** A bucket's slices cost exactly what its mWh cost one by one, and are refused exactly when one of those is. */
  lemma {:induction false} BucketIsMarginal(rate: Rate, ctx: Context, left: int, right: int, bucket: int, remaining: int, from: int, m: Meter)
    requires SteadyTime(rate, ctx, left, right) && SteadyTiers(rate, ctx, left)
    requires 0 <= remaining <= bucket && bucket > 0 && (remaining > 0 ==> left <= from < right) && m.position >= 0.0
    ensures Costs(m, SliceBucket(rate, ctx, left, right, bucket, remaining, from, m), Marginal(rate, ctx, left, m.position, remaining))
    decreases remaining
  {
    hide SteadyTime, SteadyTiers, NextSlice, PeriodFor, Amounts, RealSum;
    if remaining > 0 {
      SliceIsMarginal(rate, ctx, left, right, bucket, remaining, from, m);
      var s := NextSlice(rate, ctx, left, right, bucket, remaining, from, m);
      if s.Some? {
        var next := Record(m, s.value);
        BucketIsMarginal(rate, ctx, left, right, bucket, remaining - s.value.energy, s.value.end, next);
        AmountsGrow(m.slices, s.value);
      }
    }
  }

  // ----- whole intervals -----

  /** The exact cost of all buckets, one mWh at a time. */
  function MarginalFrom(rate: Rate, ctx: Context, bounds: seq<int>, energies: seq<int>, k: nat, position: real): Option<real>
    requires |bounds| == |energies| + 1 && k <= |energies|
    decreases |energies| - k
  {
    if k == |energies| then Some(0.0)
    else
      var head := Marginal(rate, ctx, bounds[k], position, energies[k]);
      var rest := MarginalFrom(rate, ctx, bounds, energies, k + 1, position + energies[k] as real);
      if head.None? || rest.None? then None else Some(head.value + rest.value)
  }

  /** A first bucket without energy still has to resolve a period that is not full. */
  predicate FirstResolves(rate: Rate, ctx: Context, bounds: seq<int>, energies: seq<int>, position: real)
    requires |bounds| == |energies| + 1 && energies != []
  {
    energies[0] == 0 ==>
      var tier := PeriodFor(rate, ctx, bounds[0] + (bounds[1] - bounds[0]) / 2, position, false);
      tier.Some? && Advances(tier.value, position)
  }

  ghost predicate SteadyBuckets(rate: Rate, ctx: Context, bounds: seq<int>) {
    && CostEngine.Ascending(bounds)
    && (forall k {:trigger bounds[k]} :: 0 <= k < |bounds| - 1 ==> SteadyTime(rate, ctx, bounds[k], bounds[k + 1]) && SteadyTiers(rate, ctx, bounds[k]))
  }

  lemma {:induction false} LaterBuckets(rate: Rate, ctx: Context, bounds: seq<int>, energies: seq<int>, k: nat, m: Meter)
    requires |bounds| == |energies| + 1 && k <= |energies| && SteadyBuckets(rate, ctx, bounds) && m.position >= 0.0
    requires (forall i :: 0 <= i < |energies| ==> energies[i] >= 0) && m.slices != []
    ensures Costs(m, SliceFrom(rate, ctx, bounds, energies, k, m), MarginalFrom(rate, ctx, bounds, energies, k, m.position))
    decreases |energies| - k
  {
    hide SteadyTime, SteadyTiers, Marginal, Amounts, RealSum, SliceBucket;
    if k < |energies| {
      assert bounds[k] < bounds[k + 1];
      OneBucket(rate, ctx, bounds[k], bounds[k + 1], energies[k], m);
      var next := SliceBucket(rate, ctx, bounds[k], bounds[k + 1], energies[k], energies[k], bounds[k], m);
      if next.Some? {
        LaterBuckets(rate, ctx, bounds, energies, k + 1, next.value);
      }
    }
  }

  /** A bucket that has energy or is not the first, with where it leaves the meter. */
  lemma {:induction false} OneBucket(rate: Rate, ctx: Context, left: int, right: int, energy: int, m: Meter)
    requires left < right && SteadyTime(rate, ctx, left, right) && SteadyTiers(rate, ctx, left) && m.position >= 0.0
    requires energy >= 0 && (energy > 0 || m.slices != [])
    ensures var after := SliceBucket(rate, ctx, left, right, energy, energy, left, m);
            && Costs(m, after, Marginal(rate, ctx, left, m.position, energy))
            && (after.Some? ==> after.value.position == m.position + energy as real && after.value.slices != [])
  {
    hide SteadyTime, SteadyTiers, PeriodFor, NextSlice, Amounts, RealSum;
    if energy > 0 {
      BucketIsMarginal(rate, ctx, left, right, energy, energy, left, m);
      MeterMoves(rate, ctx, left, right, energy, energy, left, m);
    }
  }

  lemma {:induction false} MeterMoves(rate: Rate, ctx: Context, left: int, right: int, bucket: int, remaining: int, from: int, m: Meter)
    requires 0 <= remaining <= bucket && bucket > 0
    ensures var after := SliceBucket(rate, ctx, left, right, bucket, remaining, from, m);
            after.Some? ==> after.value.position == m.position + remaining as real && (remaining > 0 || m.slices != [] ==> after.value.slices != [])
    decreases remaining
  {
    hide NextSlice;
    if remaining > 0 {
      var s := NextSlice(rate, ctx, left, right, bucket, remaining, from, m);
      if s.Some? {
        SliceAdvances(rate, ctx, left, right, bucket, remaining, from, m);
        MeterMoves(rate, ctx, left, right, bucket, remaining - s.value.energy, s.value.end, Record(m, s.value));
        AsRealAddsUp(s.value.energy, remaining - s.value.energy);
      }
    }
  }

  lemma {:induction false} ZeroFirst(rate: Rate, ctx: Context, left: int, right: int, m: Meter)
    requires m.slices == []
    ensures var after := SliceBucket(rate, ctx, left, right, 0, 0, left, m);
            var tier := PeriodFor(rate, ctx, left + (right - left) / 2, m.position, false);
            && (after.Some? <==> tier.Some? && Advances(tier.value, m.position))
            && (after.Some? ==> after.value.position == m.position && after.value.slices != [] && RealSum(Amounts(after.value.slices)) == 0.0)
  {
    var s := NextSlice(rate, ctx, left, right, 0, 0, left, m);
    NextSliceMeans(rate, ctx, left, right, 0, 0, left, m);
    assert SliceBucket(rate, ctx, left, right, 0, 0, left, m) == (if s.None? then None else Some(Record(m, s.value)));
    hide NextSlice, PeriodFor, SliceBucket;
    if s.Some? {
      NoEnergy(s.value.tier, m.position);
      NoAmount(rate, s.value.tier.period.price);
      hide Amount, SliceEnergy, Advances;
      AmountsGrow(m.slices, s.value);
      assert Amounts(m.slices) == [];
    }
  }

  lemma {:induction false} NoEnergy(t: Tier, position: real)
    requires Advances(t, position)
    ensures SliceEnergy(t, position, 0) == 0
  {
  }

  /**
   The fast form refines the simple one: slicing by tiers costs exactly what pricing every mWh by itself costs, and is
   refused exactly when one of those is, or when a first bucket without energy does not resolve.
   */
  lemma {:induction false} SlicingIsMarginal(rate: Rate, ctx: Context, start: int, end: int, energy: int)
    requires start < end && energy >= 0 && ctx.position >= 0.0 && SteadyBuckets(rate, ctx, Bounds(rate, start, end))
    ensures Sum(Durations(Bounds(rate, start, end))) > 0
    ensures var bounds, sliced := Bounds(rate, start, end), Sliced(rate, ctx, start, end, energy);
            var energies := Energies(bounds, energy);
            var marginal := MarginalFrom(rate, ctx, bounds, energies, 0, ctx.position);
            && (sliced.Some? <==> marginal.Some? && FirstResolves(rate, ctx, bounds, energies, ctx.position))
            && (sliced.Some? ==> RealSum(Amounts(sliced.value.slices)) == marginal.value)
  {
    BoundsAscend(rate, start, end);
    var bounds := Bounds(rate, start, end);
    BucketsConserveEnergy(bounds, energy);
    var m := Meter(ctx.position, ctx.baseline, []);
    NoSlices(m);
    assert Sliced(rate, ctx, start, end, energy) == SliceFrom(rate, ctx, bounds, Energies(bounds, energy), 0, m);
    hide *;
    BucketsAreMarginal(rate, ctx, bounds, Energies(bounds, energy), m);
  }

  lemma {:induction false} BucketsAreMarginal(rate: Rate, ctx: Context, bounds: seq<int>, energies: seq<int>, m: Meter)
    requires |bounds| == |energies| + 1 && energies != [] && SteadyBuckets(rate, ctx, bounds) && m.position >= 0.0 && m.slices == []
    requires forall i :: 0 <= i < |energies| ==> energies[i] >= 0
    ensures var sliced := SliceFrom(rate, ctx, bounds, energies, 0, m);
            var marginal := MarginalFrom(rate, ctx, bounds, energies, 0, m.position);
            && (sliced.Some? <==> marginal.Some? && FirstResolves(rate, ctx, bounds, energies, m.position))
            && (sliced.Some? ==> RealSum(Amounts(sliced.value.slices)) == RealSum(Amounts(m.slices)) + marginal.value)
  {
    hide SteadyTime, SteadyTiers, PeriodFor, SliceBucket, Marginal, Advances, RealSum, Amounts;
    assert bounds[0] < bounds[1];
    NoSlices(m);
    var next := SliceBucket(rate, ctx, bounds[0], bounds[1], energies[0], energies[0], bounds[0], m);
    if energies[0] == 0 {
      ZeroFirst(rate, ctx, bounds[0], bounds[1], m);
      NoMarginal(rate, ctx, bounds[0], m.position);
    } else {
      OneBucket(rate, ctx, bounds[0], bounds[1], energies[0], m);
    }
    if next.Some? {
      LaterBuckets(rate, ctx, bounds, energies, 1, next.value);
    }
  }

  lemma {:induction false} NoSlices(m: Meter)
    requires m.slices == []
    ensures RealSum(Amounts(m.slices)) == 0.0
  {
  }

  lemma {:induction false} NoMarginal(rate: Rate, ctx: Context, instant: int, position: real)
    ensures Marginal(rate, ctx, instant, position, 0) == Some(0.0)
  {
  }

  // ----- what the exact cost is -----

  /** A hundred times a slice's exact cost, from its energy, its tier's price, the adjustment and the surcharge. */
  function Hundredfold(rate: Rate, s: Slice): real {
    s.energy as real * (s.tier.period.price + rate.adjustment) * (100.0 + rate.surcharge)
  }

  function HundredfoldSum(rate: Rate, slices: seq<Slice>): real {
    if slices == [] then 0.0 else HundredfoldSum(rate, slices[..|slices| - 1]) + Hundredfold(rate, slices[|slices| - 1])
  }

  /** The slice's tier is what the engine resolves inside the interval. */
  ghost predicate ResolvedWithin(rate: Rate, ctx: Context, start: int, end: int, t: Tier) {
    exists instant, position, incremental :: start <= instant < end && PeriodFor(rate, ctx, instant, position, incremental) == Some(t)
  }

  ghost predicate PricedSlices(rate: Rate, ctx: Context, start: int, end: int, slices: seq<Slice>) {
    forall i :: 0 <= i < |slices| ==>
      100.0 * slices[i].amount == Hundredfold(rate, slices[i]) && ResolvedWithin(rate, ctx, start, end, slices[i].tier)
  }

  lemma {:induction false} AmountHundredfold(rate: Rate, energy: int, price: real)
    ensures 100.0 * Amount(rate, energy, price) == energy as real * (price + rate.adjustment) * (100.0 + rate.surcharge)
  {
    var base := energy as real * (price + rate.adjustment);
    RealDistribute(100.0, rate.surcharge, base);
  }

  lemma {:induction false} SliceIsPriced(rate: Rate, ctx: Context, start: int, end: int, left: int, right: int, bucket: int, remaining: int, from: int, m: Meter)
    requires PricedSlices(rate, ctx, start, end, m.slices) && start <= left <= from < right <= end
    requires NextSlice(rate, ctx, left, right, bucket, remaining, from, m).Some?
    ensures PricedSlices(rate, ctx, start, end, Record(m, NextSlice(rate, ctx, left, right, bucket, remaining, from, m).value).slices)
  {
    var s := NextSlice(rate, ctx, left, right, bucket, remaining, from, m).value;
    NextSliceMeans(rate, ctx, left, right, bucket, remaining, from, m);
    MiddleIsInside(left, from, right);
    SliceIsHundredfold(rate, s);
    hide NextSlice, PeriodFor, Amount, SliceEnergy, Advances, SliceEnd, Credited, Hundredfold;
    assert ResolvedWithin(rate, ctx, start, end, s.tier);
    hide ResolvedWithin;
  }

  lemma {:induction false} SliceIsHundredfold(rate: Rate, s: Slice)
    ensures s.amount == Amount(rate, s.energy, s.tier.period.price) ==> 100.0 * s.amount == Hundredfold(rate, s)
  {
    AmountHundredfold(rate, s.energy, s.tier.period.price);
    hide Amount;
  }

  lemma {:induction false} BucketIsPriced(rate: Rate, ctx: Context, start: int, end: int, left: int, right: int, bucket: int, remaining: int, from: int, m: Meter)
    requires PricedSlices(rate, ctx, start, end, m.slices) && start <= left < right <= end && 0 <= remaining <= bucket
    requires remaining > 0 || bucket == 0 ==> left <= from < right
    ensures var after := SliceBucket(rate, ctx, left, right, bucket, remaining, from, m); after.Some? ==> PricedSlices(rate, ctx, start, end, after.value.slices)
    decreases remaining
  {
    hide NextSlice, PricedSlices, Record;
    var s := NextSlice(rate, ctx, left, right, bucket, remaining, from, m);
    if s.Some? && (remaining > 0 || bucket == 0) {
      SliceIsPriced(rate, ctx, start, end, left, right, bucket, remaining, from, m);
      SliceAdvances(rate, ctx, left, right, bucket, remaining, from, m);
      NextSliceMeans(rate, ctx, left, right, bucket, remaining, from, m);
      if bucket > 0 {
        SliceEndsInside(left, right, bucket, bucket - remaining + s.value.energy);
        BucketIsPriced(rate, ctx, start, end, left, right, bucket, remaining - s.value.energy, s.value.end, Record(m, s.value));
      }
    }
  }

  lemma {:induction false} BucketsArePricedSlices(rate: Rate, ctx: Context, start: int, end: int, bounds: seq<int>, energies: seq<int>, k: nat, m: Meter)
    requires |bounds| == |energies| + 1 && k <= |energies| && CostEngine.Ascending(bounds) && bounds[0] == start && bounds[|bounds| - 1] == end
    requires PricedSlices(rate, ctx, start, end, m.slices) && forall i :: 0 <= i < |energies| ==> energies[i] >= 0
    ensures var after := SliceFrom(rate, ctx, bounds, energies, k, m); after.Some? ==> PricedSlices(rate, ctx, start, end, after.value.slices)
    decreases |energies| - k
  {
    hide SliceBucket, PricedSlices;
    if k < |energies| {
      assert bounds[0] <= bounds[k] < bounds[k + 1] <= bounds[|bounds| - 1];
      BucketIsPriced(rate, ctx, start, end, bounds[k], bounds[k + 1], energies[k], energies[k], bounds[k], m);
      var next := SliceBucket(rate, ctx, bounds[k], bounds[k + 1], energies[k], energies[k], bounds[k], m);
      if next.Some? {
        BucketsArePricedSlices(rate, ctx, start, end, bounds, energies, k + 1, next.value);
      }
    }
  }

  lemma {:induction false} SumIsHundredfold(rate: Rate, ctx: Context, start: int, end: int, slices: seq<Slice>)
    requires PricedSlices(rate, ctx, start, end, slices)
    ensures 100.0 * RealSum(Amounts(slices)) == HundredfoldSum(rate, slices)
  {
    hide Hundredfold, ResolvedWithin;
    if slices != [] {
      var front, last := slices[..|slices| - 1], slices[|slices| - 1];
      assert slices == front + [last];
      SumIsHundredfold(rate, ctx, start, end, front);
      AmountsGrow(front, last);
    }
  }

  lemma {:induction false} SlicesArePriced(rate: Rate, ctx: Context, start: int, end: int, energy: int)
    requires start < end && energy >= 0 && Sliced(rate, ctx, start, end, energy).Some?
    ensures PricedSlices(rate, ctx, start, end, Sliced(rate, ctx, start, end, energy).value.slices)
  {
    var bounds := Bounds(rate, start, end);
    BoundsAscend(rate, start, end);
    BucketsConserveEnergy(bounds, energy);
    assert bounds[0] == start && bounds[|bounds| - 1] == end;
    hide Bounds, Energies, SliceFrom;
    BucketsArePricedSlices(rate, ctx, start, end, bounds, Energies(bounds, energy), 0, Meter(ctx.position, ctx.baseline, []));
  }

  /**
   What a bill is: its cost rounds the sum over its slices of energy times price with adjustment and surcharge, its credit
   the credited energy at the credit rate, and only a full account with baseline left is credited.
   */
  lemma {:induction false} BillMeaning(rate: Rate, ctx: Context, start: int, end: int, energy: int)
    requires PriceInterval(rate, ctx, start, end, energy).Some?
    ensures var bill := PriceInterval(rate, ctx, start, end, energy).value;
            && bill.cost == HalfEven(HundredfoldSum(rate, bill.slices) / 100.0)
            && PricedSlices(rate, ctx, start, end, bill.slices)
            && (forall exact :: exact == CreditedOf(bill.slices) * rate.credit ==> bill.credit == HalfEven(exact))
            && CreditedOf(bill.slices) == (if !ctx.fullAccount || ctx.baseline <= 0.0 then 0.0
                                           else if energy as real <= ctx.baseline then energy as real else ctx.baseline)
  {
    hide *;
    BillCost(rate, ctx, start, end, energy);
    BillCredit(rate, ctx, start, end, energy);
    BillCredited(rate, ctx, start, end, energy);
  }

  lemma {:induction false} BillSlices(rate: Rate, ctx: Context, start: int, end: int, energy: int)
    requires PriceInterval(rate, ctx, start, end, energy).Some?
    ensures start < end && energy >= 0 && Sliced(rate, ctx, start, end, energy).Some?
    ensures PriceInterval(rate, ctx, start, end, energy).value.slices == Sliced(rate, ctx, start, end, energy).value.slices
  {
    hide Sliced, Rounded, Amounts, Credits, NonNegative;
  }

  lemma {:induction false} BillCost(rate: Rate, ctx: Context, start: int, end: int, energy: int)
    requires PriceInterval(rate, ctx, start, end, energy).Some?
    ensures var bill := PriceInterval(rate, ctx, start, end, energy).value;
            bill.cost == HalfEven(HundredfoldSum(rate, bill.slices) / 100.0) && PricedSlices(rate, ctx, start, end, bill.slices)
  {
    hide *;
    BillSlices(rate, ctx, start, end, energy);
    QuoteIsRoundedOnce(rate, ctx, start, end, energy);
    SlicesArePriced(rate, ctx, start, end, energy);
    SumIsHundredfold(rate, ctx, start, end, PriceInterval(rate, ctx, start, end, energy).value.slices);
  }

  lemma {:induction false} BillCredit(rate: Rate, ctx: Context, start: int, end: int, energy: int)
    requires PriceInterval(rate, ctx, start, end, energy).Some?
    ensures var bill := PriceInterval(rate, ctx, start, end, energy).value;
            forall exact :: exact == CreditedOf(bill.slices) * rate.credit ==> bill.credit == HalfEven(exact)
  {
    hide *;
    BillSlices(rate, ctx, start, end, energy);
    QuoteIsRoundedOnce(rate, ctx, start, end, energy);
    SlicesConserve(rate, ctx, start, end, energy);
    var bill := PriceInterval(rate, ctx, start, end, energy).value;
    CreditIsProduct(rate, CreditedOf(bill.slices));
    forall exact | exact == CreditedOf(bill.slices) * rate.credit ensures bill.credit == HalfEven(exact) {
      assert exact == CreditFor(rate, CreditedOf(bill.slices));
    }
  }

  lemma {:induction false} BillCredited(rate: Rate, ctx: Context, start: int, end: int, energy: int)
    requires PriceInterval(rate, ctx, start, end, energy).Some?
    ensures CreditedOf(PriceInterval(rate, ctx, start, end, energy).value.slices)
         == (if !ctx.fullAccount || ctx.baseline <= 0.0 then 0.0 else if energy as real <= ctx.baseline then energy as real else ctx.baseline)
  {
    BillSlices(rate, ctx, start, end, energy);
    hide PriceInterval, Sliced, CreditedOf, InTiers;
    SlicesConserve(rate, ctx, start, end, energy);
  }

  lemma {:induction false} CreditIsProduct(rate: Rate, energy: real)
    ensures CreditFor(rate, energy) == energy * rate.credit
  {
  }

  function FlatHundredfold(rate: Rate, energy: int, price: real): real {
    energy as real * (price + rate.adjustment) * (100.0 + rate.surcharge)
  }

  lemma {:induction false} FlatAddsUp(rate: Rate, a: int, b: int, price: real)
    ensures FlatHundredfold(rate, a + b, price) == FlatHundredfold(rate, a, price) + FlatHundredfold(rate, b, price)
  {
    var p, q := price + rate.adjustment, 100.0 + rate.surcharge;
    AsRealAddsUp(a, b);
    RealDistribute(a as real, b as real, p);
    RealDistribute(a as real * p, b as real * p, q);
  }

  lemma {:induction false} FlatSum(rate: Rate, slices: seq<Slice>, price: real)
    requires forall i :: 0 <= i < |slices| ==> slices[i].tier.period.price == price
    ensures HundredfoldSum(rate, slices) == FlatHundredfold(rate, EnergyOf(slices), price)
  {
    if slices == [] {
      assert 0 as real * (price + rate.adjustment) == 0.0;
    } else {
      var front, last := slices[..|slices| - 1], slices[|slices| - 1];
      assert Hundredfold(rate, last) == FlatHundredfold(rate, last.energy, price);
      hide Hundredfold, FlatHundredfold;
      FlatSum(rate, front, price);
      FlatAddsUp(rate, EnergyOf(front), last.energy, price);
    }
  }

  /** Every slice of a bill at one price. */
  lemma {:induction false} FlatSlices(rate: Rate, ctx: Context, start: int, end: int, slices: seq<Slice>, price: real)
    requires PricedSlices(rate, ctx, start, end, slices)
    requires forall t, c, incremental {:trigger PeriodFor(rate, ctx, t, c, incremental)} ::
               start <= t < end && PeriodFor(rate, ctx, t, c, incremental).Some? ==> PeriodFor(rate, ctx, t, c, incremental).value.period.price == price
    ensures forall i :: 0 <= i < |slices| ==> slices[i].tier.period.price == price
  {
    hide PeriodFor, Hundredfold;
    forall i | 0 <= i < |slices| ensures slices[i].tier.period.price == price {
      assert ResolvedWithin(rate, ctx, start, end, slices[i].tier);
    }
  }

  lemma {:induction false} FlatExact(rate: Rate, energy: int, price: real, exact: real)
    requires 100.0 * exact == energy as real * (price + rate.adjustment) * (100.0 + rate.surcharge)
    ensures exact == FlatHundredfold(rate, energy, price) / 100.0
  {
  }

  /** At one price everywhere an interval costs its energy at that price, with adjustment and surcharge, rounded once. */
  lemma {:induction false} FlatRateCosts(rate: Rate, ctx: Context, start: int, end: int, energy: int, price: real, exact: real)
    requires PriceInterval(rate, ctx, start, end, energy).Some?
    requires forall t, c, incremental {:trigger PeriodFor(rate, ctx, t, c, incremental)} ::
               start <= t < end && PeriodFor(rate, ctx, t, c, incremental).Some? ==> PeriodFor(rate, ctx, t, c, incremental).value.period.price == price
    requires 100.0 * exact == energy as real * (price + rate.adjustment) * (100.0 + rate.surcharge)
    ensures PriceInterval(rate, ctx, start, end, energy).value.cost == HalfEven(exact)
  {
    hide *;
    FlatExact(rate, energy, price, exact);
    FlatRateRounds(rate, ctx, start, end, energy, price);
  }

  lemma {:induction false} FlatRateRounds(rate: Rate, ctx: Context, start: int, end: int, energy: int, price: real)
    requires PriceInterval(rate, ctx, start, end, energy).Some?
    requires forall t, c, incremental {:trigger PeriodFor(rate, ctx, t, c, incremental)} ::
               start <= t < end && PeriodFor(rate, ctx, t, c, incremental).Some? ==> PeriodFor(rate, ctx, t, c, incremental).value.period.price == price
    ensures PriceInterval(rate, ctx, start, end, energy).value.cost == HalfEven(FlatHundredfold(rate, energy, price) / 100.0)
  {
    hide *;
    var slices := PriceInterval(rate, ctx, start, end, energy).value.slices;
    BillCost(rate, ctx, start, end, energy);
    QuoteIsRoundedOnce(rate, ctx, start, end, energy);
    FlatSlices(rate, ctx, start, end, slices, price);
    FlatSum(rate, slices, price);
  }

  /** The dated price in force is the price of its instants. */
  lemma {:induction false} DatedPriceMeans(rate: Rate, ctx: Context, instant: int, position: real, incremental: bool, d: DatedPrice)
    requires d in rate.dated && d.start <= instant < d.end && PeriodFor(rate, ctx, instant, position, incremental).Some?
    ensures PeriodFor(rate, ctx, instant, position, incremental).value.period.price == d.price
    ensures PeriodFor(rate, ctx, instant, position, incremental).value.span.end.None?
  {
    FilterMembers(rate.dated, InDated(instant));
    var matches := Filter(rate.dated, InDated(instant));
    assert d in matches;
    assert matches == [matches[0]];
  }
}
