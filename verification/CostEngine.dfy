/**
 Pricing one interval of a group: minutes or dated prices cut it into buckets, tiers cut buckets into slices
 (backend/app/services/cost_engine.py, price_sensor_interval). Instants are microseconds, energies and positions mWh;
 a price per kWh is a price in microdollars per mWh.
 */
module CostEngine {
  import opened Outcomes
  import opened Sums
  import opened TierSpans
  import opened PeriodResolution
  import opened Microdollars

  const MINUTE := 60_000_000

  // ----- cutting an interval into buckets -----

  function MinutePoints(cursor: int, end: int): seq<int>
    decreases end - cursor
  {
    if cursor >= end then [] else [cursor] + MinutePoints(cursor + MINUTE, end)
  }

  /** Adds a point to an ascending list, once. */
  function WithPoint(points: seq<int>, p: int): seq<int> {
    if points == [] || p < points[0] then [p] + points
    else if p == points[0] then points
    else [points[0]] + WithPoint(points[1..], p)
  }

  function WithInner(points: seq<int>, p: int, start: int, end: int): seq<int> {
    if start < p < end then WithPoint(points, p) else points
  }

  function DatedPoints(dated: seq<DatedPrice>, start: int, end: int): seq<int> {
    if dated == [] then []
    else WithInner(WithInner(DatedPoints(dated[1..], start, end), dated[0].start, start, end), dated[0].end, start, end)
  }

  /** The instants inside the interval at which the price may change. */
  function PricingBoundaries(rate: Rate, start: int, end: int): seq<int> {
    if rate.dated != [] then DatedPoints(rate.dated, start, end) else MinutePoints((start / MINUTE + 1) * MINUTE, end)
  }

  function Bounds(rate: Rate, start: int, end: int): seq<int> {
    [start] + PricingBoundaries(rate, start, end) + [end]
  }

  ghost predicate Ascending(s: seq<int>) {
    forall i, j :: 0 <= i < j < |s| ==> s[i] < s[j]
  }

  ghost predicate Inside(s: seq<int>, start: int, end: int) {
    forall i :: 0 <= i < |s| ==> start < s[i] < end
  }

  lemma {:induction false} MinutePointsAscend(cursor: int, start: int, end: int)
    requires start < cursor
    ensures Ascending(MinutePoints(cursor, end)) && Inside(MinutePoints(cursor, end), start, end)
    ensures forall i :: 0 <= i < |MinutePoints(cursor, end)| ==> MinutePoints(cursor, end)[i] >= cursor
    decreases end - cursor
  {
    if cursor < end {
      MinutePointsAscend(cursor + MINUTE, start, end);
    }
  }

  lemma {:induction false} WithPointMembers(points: seq<int>, p: int)
    ensures forall x :: x in WithPoint(points, p) <==> x in points || x == p
  {
    if points != [] && p > points[0] {
      WithPointMembers(points[1..], p);
      assert points == [points[0]] + points[1..];
    }
  }

  lemma {:induction false} WithPointAscends(points: seq<int>, p: int, start: int, end: int)
    requires Ascending(points) && Inside(points, start, end) && start < p < end
    ensures Ascending(WithPoint(points, p)) && Inside(WithPoint(points, p), start, end)
  {
    if points != [] && p > points[0] {
      var rest := WithPoint(points[1..], p);
      WithPointAscends(points[1..], p, start, end);
      WithPointMembers(points[1..], p);
      assert WithPoint(points, p) == [points[0]] + rest;
      hide WithPoint;
      forall j | 0 <= j < |rest| ensures points[0] < rest[j] {
        assert rest[j] in rest;
      }
    }
  }

  lemma {:induction false} DatedPointsAscend(dated: seq<DatedPrice>, start: int, end: int)
    ensures Ascending(DatedPoints(dated, start, end)) && Inside(DatedPoints(dated, start, end), start, end)
  {
    if dated != [] {
      DatedPointsAscend(dated[1..], start, end);
      var points := DatedPoints(dated[1..], start, end);
      if start < dated[0].start < end {
        WithPointAscends(points, dated[0].start, start, end);
      }
      if start < dated[0].end < end {
        WithPointAscends(WithInner(points, dated[0].start, start, end), dated[0].end, start, end);
      }
    }
  }

  lemma {:induction false} BoundsAscend(rate: Rate, start: int, end: int)
    requires start < end
    ensures Ascending(Bounds(rate, start, end)) && |Bounds(rate, start, end)| >= 2
  {
    if rate.dated != [] {
      DatedPointsAscend(rate.dated, start, end);
    } else {
      DivisionIdentity(start, MINUTE);
      MinutePointsAscend((start / MINUTE + 1) * MINUTE, start, end);
    }
  }

  function Durations(bounds: seq<int>): (durations: seq<int>)
    requires bounds != []
    ensures |durations| == |bounds| - 1
  {
    seq(|bounds| - 1, i requires 0 <= i < |bounds| - 1 => bounds[i + 1] - bounds[i])
  }

  // ----- spreading the energy over the buckets -----

  function Share(total: int, whole: int, durations: seq<int>, remainder: int): int
    requires whole > 0 && durations != []
  {
    if |durations| == 1 then remainder else total * durations[0] / whole
  }

  /** Whole shares by duration; the last bucket takes what is left. */
  function SharesFrom(total: int, whole: int, durations: seq<int>, remainder: int): (shares: seq<int>)
    requires whole > 0
    ensures |shares| == |durations|
  {
    if durations == [] then []
    else
      var share := Share(total, whole, durations, remainder);
      [share] + SharesFrom(total, whole, durations[1..], remainder - share)
  }

  method AllocateIntegerEnergy(total: int, durations: seq<int>) returns (r: Option<seq<int>>)
    ensures r.None? <==> Sum(durations) <= 0
    ensures r.Some? ==> r.value == SharesFrom(total, Sum(durations), durations, total)
  {
    var whole := Sum(durations);
    if whole <= 0 {
      return None;
    }
    hide Sum;
    var allocations: seq<int>, remainder := [], total;
    for k := 0 to |durations|
      invariant SharesFrom(total, whole, durations, total) == allocations + SharesFrom(total, whole, durations[k..], remainder)
    {
      var rest := durations[k..];
      var value := if k == |durations| - 1 then remainder else total * durations[k] / whole;
      assert value == Share(total, whole, rest, remainder);
      hide Share;
      assert SharesFrom(total, whole, rest, remainder) == [value] + SharesFrom(total, whole, rest[1..], remainder - value);
      hide SharesFrom;
      assert rest[1..] == durations[k + 1..];
      allocations := allocations + [value];
      remainder := remainder - value;
    }
    assert durations[|durations|..] == [] && allocations + [] == allocations;
    r := Some(allocations);
  }

  lemma {:induction false} FloorShare(total: int, d: int, whole: int)
    requires whole > 0 && total >= 0 && d >= 0
    ensures 0 <= total * d / whole && whole * (total * d / whole) <= total * d
  {
    DivisionIdentity(total * d, whole);
    if total * d / whole < 0 {
      NegativeProduct(whole, total * d / whole);
    }
  }

  lemma {:induction false} NegativeProduct(a: int, b: int)
    requires a > 0 && b < 0
    ensures a * b <= -a
  {
  }

  lemma {:induction false} Spread(a: int, b: int, c: int)
    ensures a * (b + c) == a * b + a * c && a * (b - c) == a * b - a * c
  {
  }

  /** The shares are non-negative and add up to the energy. */
  lemma {:induction false} EnergyIsSpread(total: int, whole: int, durations: seq<int>, remainder: int)
    requires whole > 0 && total >= 0 && durations != [] && (forall i :: 0 <= i < |durations| ==> durations[i] >= 0)
    requires whole * remainder >= total * Sum(durations)
    ensures Sum(SharesFrom(total, whole, durations, remainder)) == remainder
    ensures forall i :: 0 <= i < |durations| ==> SharesFrom(total, whole, durations, remainder)[i] >= 0
  {
    var shares := SharesFrom(total, whole, durations, remainder);
    if |durations| == 1 {
      assert Sum(durations) == durations[0];
      assert durations[1..] == [];
      assert shares == [remainder] + [];
      LeastShare(total, whole, durations[0], remainder);
    } else {
      var value := total * durations[0] / whole;
      FloorShare(total, durations[0], whole);
      Spread(whole, remainder, value);
      Spread(total, durations[0], Sum(durations[1..]));
      EnergyIsSpread(total, whole, durations[1..], remainder - value);
      assert shares[1..] == SharesFrom(total, whole, durations[1..], remainder - value);
      forall i | 0 <= i < |durations| ensures shares[i] >= 0 {
        assert i > 0 ==> shares[i] == shares[1..][i - 1];
      }
    }
  }

  lemma {:induction false} LeastShare(total: int, whole: int, d: int, remainder: int)
    requires whole > 0 && total >= 0 && d >= 0 && whole * remainder >= total * d
    ensures remainder >= 0
  {
    ProductSign(total, d);
    if remainder < 0 {
      NegativeProduct(whole, remainder);
    }
  }

  lemma {:induction false} ProductSign(a: int, b: int)
    requires a >= 0 && b >= 0
    ensures a * b >= 0
  {
  }

  function Energies(bounds: seq<int>, energy: int): (energies: seq<int>)
    requires |bounds| >= 2 && Sum(Durations(bounds)) > 0
    ensures |energies| == |bounds| - 1
  {
    SharesFrom(energy, Sum(Durations(bounds)), Durations(bounds), energy)
  }

  lemma {:induction false} DurationsArePositive(bounds: seq<int>)
    requires Ascending(bounds) && |bounds| >= 2
    ensures Sum(Durations(bounds)) > 0 && forall i :: 0 <= i < |bounds| - 1 ==> Durations(bounds)[i] > 0
  {
    var durations := Durations(bounds);
    assert durations[0] > 0;
    if |bounds| > 2 {
      DurationsArePositive(bounds[1..]);
      assert durations[1..] == Durations(bounds[1..]);
    } else {
      assert durations[1..] == [];
    }
  }

  /** No energy is lost between the buckets, whatever the interval. */
  lemma {:induction false} BucketsConserveEnergy(bounds: seq<int>, energy: int)
    requires Ascending(bounds) && |bounds| >= 2 && energy >= 0
    ensures Sum(Durations(bounds)) > 0 && Sum(Energies(bounds, energy)) == energy
    ensures forall i :: 0 <= i < |bounds| - 1 ==> Energies(bounds, energy)[i] >= 0
  {
    DurationsArePositive(bounds);
    var whole := Sum(Durations(bounds));
    assert whole * energy == energy * whole;
    EnergyIsSpread(energy, whole, Durations(bounds), energy);
  }

  // ----- slicing a bucket at tier bounds -----

  /** A priced part of a bucket: its times, its energy from a position on, its tier, its exact cost and its credited energy. */
  datatype Slice = Slice(start: int, end: int, energy: int, position: real, tier: Tier, amount: real, credited: real)

  /** How far pricing has come: the cycle position, the baseline left, and the slices so far. */
  datatype Meter = Meter(position: real, baseline: real, slices: seq<Slice>)

  function Amount(rate: Rate, energy: int, price: real): real {
    var base := energy as real * (price + rate.adjustment);
    if rate.surcharge != 0.0 then base + base * rate.surcharge / 100.0 else base
  }

  /** The whole mWh that fit below the tier's end. */
  function Capacity(t: Tier, position: real): Option<int> {
    if t.span.end.None? then None else Some((t.span.end.value - position).Floor)
  }

  predicate Advances(t: Tier, position: real) {
    Capacity(t, position).Some? ==> Capacity(t, position).value > 0
  }

  function SliceEnergy(t: Tier, position: real, remaining: int): int {
    var capacity := Capacity(t, position);
    if capacity.Some? && capacity.value < remaining then capacity.value else remaining
  }

  /** Where a slice that leaves energy over ends: in proportion, strictly before the bucket's end. */
  function SliceEnd(left: int, right: int, bucket: int, consumed: int): int
    requires bucket > 0
  {
    var offset := (right - left) * consumed / bucket;
    var least := if offset >= 1 then offset else 1;
    left + (if least <= right - left - 1 then least else right - left - 1)
  }

  function Credited(ctx: Context, baseline: real, energy: int): real {
    if !ctx.fullAccount || baseline <= 0.0 then 0.0 else if energy as real <= baseline then energy as real else baseline
  }

  /** The next slice of a bucket; None is an evaluation error. */
  function NextSlice(rate: Rate, ctx: Context, left: int, right: int, bucket: int, remaining: int, from: int, meter: Meter): Option<Slice> {
    var tier := PeriodFor(rate, ctx, from + (right - from) / 2, meter.position, remaining > 0);
    if tier.None? || !Advances(tier.value, meter.position) then None
    else
      var energy := SliceEnergy(tier.value, meter.position, remaining);
      var end := if bucket > 0 && energy < remaining then SliceEnd(left, right, bucket, bucket - remaining + energy) else right;
      Some(Slice(from, end, energy, meter.position, tier.value,
                 Amount(rate, energy, tier.value.period.price), Credited(ctx, meter.baseline, energy)))
  }

  function Record(meter: Meter, s: Slice): Meter {
    Meter(meter.position + s.energy as real, meter.baseline - s.credited, meter.slices + [s])
  }

  /** All slices of a bucket; a bucket without energy is sliced only if it is the first. */
  function SliceBucket(rate: Rate, ctx: Context, left: int, right: int, bucket: int, remaining: int, from: int, meter: Meter): Option<Meter>
    decreases if remaining > 0 then remaining else 0
  {
    if remaining <= 0 && (bucket != 0 || meter.slices != []) then Some(meter)
    else
      var slice := NextSlice(rate, ctx, left, right, bucket, remaining, from, meter);
      if slice.None? then None
      else if bucket == 0 then Some(Record(meter, slice.value))
      else SliceBucket(rate, ctx, left, right, bucket, remaining - slice.value.energy, slice.value.end, Record(meter, slice.value))
  }

  function SliceFrom(rate: Rate, ctx: Context, bounds: seq<int>, energies: seq<int>, k: nat, meter: Meter): Option<Meter>
    requires |bounds| == |energies| + 1 && k <= |energies|
    decreases |energies| - k
  {
    if k == |energies| then Some(meter)
    else
      var next := SliceBucket(rate, ctx, bounds[k], bounds[k + 1], energies[k], energies[k], bounds[k], meter);
      if next.None? then None else SliceFrom(rate, ctx, bounds, energies, k + 1, next.value)
  }

  // ----- the price of an interval -----

  datatype Bill = Bill(cost: int, credit: int, slices: seq<Slice>)

  function Amounts(slices: seq<Slice>): (amounts: seq<real>)
    ensures |amounts| == |slices|
  {
    seq(|slices|, i requires 0 <= i < |slices| => slices[i].amount)
  }

  function CreditFor(rate: Rate, energy: real): real {
    energy * rate.credit
  }

  function Credits(rate: Rate, slices: seq<Slice>): (credits: seq<real>)
    ensures |credits| == |slices|
  {
    seq(|slices|, i requires 0 <= i < |slices| => CreditFor(rate, slices[i].credited))
  }

  predicate InVersion(rate: Rate, start: int, end: int) {
    start < end && rate.start <= start && (rate.end.Some? ==> end <= rate.end.value)
  }

  function Sliced(rate: Rate, ctx: Context, start: int, end: int, energy: int): Option<Meter>
    requires start < end
  {
    BoundsAscend(rate, start, end);
    DurationsArePositive(Bounds(rate, start, end));
    var bounds := Bounds(rate, start, end);
    SliceFrom(rate, ctx, bounds, Energies(bounds, energy), 0, Meter(ctx.position, ctx.baseline, []))
  }

  /** The price of an interval; None is an evaluation error. */
  function PriceInterval(rate: Rate, ctx: Context, start: int, end: int, energy: int): Option<Bill> {
    if !InVersion(rate, start, end) || energy < 0 then None
    else
      var meter := Sliced(rate, ctx, start, end, energy);
      if meter.None? then None
      else
        var slices := meter.value.slices;
        if !NonNegative(Amounts(slices)) || !NonNegative(Credits(rate, slices)) then None
        else Some(Bill(Sum(Rounded(Amounts(slices))), Sum(Rounded(Credits(rate, slices))), slices))
  }

  method PriceSensorInterval(rate: Rate, ctx: Context, start: int, end: int, energy: int) returns (r: Option<Bill>)
    ensures r == PriceInterval(rate, ctx, start, end, energy)
  {
    hide Bounds, SliceFrom, Amounts, Credits, NonNegative, Rounded, Energies, Sum;
    if end <= start || energy < 0 {
      return None;
    }
    if start < rate.start || (rate.end.Some? && end > rate.end.value) {
      return None;
    }
    var bounds := Bounds(rate, start, end);
    BoundsAscend(rate, start, end);
    DurationsArePositive(bounds);
    var energies := AllocateIntegerEnergy(energy, Durations(bounds));
    EnergiesAreShares(bounds, energy);
    var meter := SliceInterval(rate, ctx, bounds, energies.value, Meter(ctx.position, ctx.baseline, []));
    if meter.None? {
      return None;
    }
    var costs := AllocateMicrodollars(Amounts(meter.value.slices));
    var credits := AllocateMicrodollars(Credits(rate, meter.value.slices));
    if costs.Err? || credits.Err? {
      return None;
    }
    r := Some(Bill(Sum(costs.value), Sum(credits.value), meter.value.slices));
  }

  lemma {:induction false} EnergiesAreShares(bounds: seq<int>, energy: int)
    requires |bounds| >= 2 && Sum(Durations(bounds)) > 0
    ensures Energies(bounds, energy) == SharesFrom(energy, Sum(Durations(bounds)), Durations(bounds), energy)
  {
  }

  /** The loop over buckets. */
  method SliceInterval(rate: Rate, ctx: Context, bounds: seq<int>, energies: seq<int>, initial: Meter) returns (r: Option<Meter>)
    requires |bounds| == |energies| + 1
    ensures r == SliceFrom(rate, ctx, bounds, energies, 0, initial)
  {
    hide SliceBucket;
    var meter := initial;
    for k := 0 to |energies|
      invariant SliceFrom(rate, ctx, bounds, energies, 0, initial) == SliceFrom(rate, ctx, bounds, energies, k, meter)
    {
      var next := SliceOneBucket(rate, ctx, bounds[k], bounds[k + 1], energies[k], meter);
      if next.None? {
        return None;
      }
      meter := next.value;
    }
    r := Some(meter);
  }

  /** The loop over the slices of one bucket. */
  method SliceOneBucket(rate: Rate, ctx: Context, left: int, right: int, bucket: int, initial: Meter) returns (r: Option<Meter>)
    ensures r == SliceBucket(rate, ctx, left, right, bucket, bucket, left, initial)
  {
    hide NextSlice, Record;
    var remaining, from, meter := bucket, left, initial;
    while remaining > 0 || (bucket == 0 && meter.slices == [])
      invariant SliceBucket(rate, ctx, left, right, bucket, bucket, left, initial) == SliceBucket(rate, ctx, left, right, bucket, remaining, from, meter)
      decreases if remaining > 0 then remaining else 0
    {
      var slice := NextSlice(rate, ctx, left, right, bucket, remaining, from, meter);
      if slice.None? {
        return None;
      }
      SliceAdvances(rate, ctx, left, right, bucket, remaining, from, meter);
      meter := Record(meter, slice.value);
      if bucket == 0 {
        return Some(meter);
      }
      remaining, from := remaining - slice.value.energy, slice.value.end;
    }
    r := Some(meter);
  }

  lemma {:induction false} NextSliceMeans(rate: Rate, ctx: Context, left: int, right: int, bucket: int, remaining: int, from: int, m: Meter)
    ensures var s := NextSlice(rate, ctx, left, right, bucket, remaining, from, m);
            var tier := PeriodFor(rate, ctx, from + (right - from) / 2, m.position, remaining > 0);
            && (s.None? <==> tier.None? || !Advances(tier.value, m.position))
            && (s.Some? ==>
                  && s.value.position == m.position && s.value.tier == tier.value
                  && s.value.energy == SliceEnergy(tier.value, m.position, remaining)
                  && s.value.amount == Amount(rate, s.value.energy, tier.value.period.price)
                  && s.value.credited == Credited(ctx, m.baseline, s.value.energy)
                  && (bucket > 0 && s.value.energy < remaining ==>
                        s.value.end == SliceEnd(left, right, bucket, bucket - remaining + s.value.energy)))
  {
    hide PeriodFor, Advances, SliceEnergy, Amount, Credited, SliceEnd;
  }

  lemma {:induction false} SliceAdvances(rate: Rate, ctx: Context, left: int, right: int, bucket: int, remaining: int, from: int, meter: Meter)
    requires NextSlice(rate, ctx, left, right, bucket, remaining, from, meter).Some?
    ensures var slice := NextSlice(rate, ctx, left, right, bucket, remaining, from, meter).value;
            slice.energy <= remaining && (remaining > 0 ==> slice.energy > 0) && (remaining >= 0 ==> slice.energy >= 0)
  {
    hide PeriodFor;
  }

  // ----- where the energy goes -----

  /** Every bucket but the last gets its share by duration rounded down. */
  lemma {:induction false} SharesFollowDuration(total: int, whole: int, durations: seq<int>, remainder: int, k: nat)
    requires whole > 0 && k + 1 < |durations|
    ensures var share := SharesFrom(total, whole, durations, remainder)[k];
            whole * share <= total * durations[k] < whole * share + whole
  {
    if k == 0 {
      DivisionIdentity(total * durations[0], whole);
    } else {
      SharesFollowDuration(total, whole, durations[1..], remainder - Share(total, whole, durations, remainder), k - 1);
    }
  }

  /** The energy of a bucket is in proportion to its duration, less than one mWh short of it, except for what the last takes up. */
  lemma {:induction false} EnergyFollowsDuration(bounds: seq<int>, energy: int, k: nat)
    requires Ascending(bounds) && k + 2 < |bounds|
    ensures Sum(Durations(bounds)) == bounds[|bounds| - 1] - bounds[0] > 0
    ensures var share, whole := Energies(bounds, energy)[k], bounds[|bounds| - 1] - bounds[0];
            whole * share <= energy * (bounds[k + 1] - bounds[k]) < whole * share + whole
  {
    DurationsArePositive(bounds);
    DurationsTelescope(bounds);
    SharesFollowDuration(energy, Sum(Durations(bounds)), Durations(bounds), energy, k);
  }

  lemma {:induction false} DurationsTelescope(bounds: seq<int>)
    requires bounds != []
    ensures Sum(Durations(bounds)) == bounds[|bounds| - 1] - bounds[0]
  {
    if |bounds| > 1 {
      DurationsTelescope(bounds[1..]);
      assert Durations(bounds)[1..] == Durations(bounds[1..]);
    }
  }

  /** A slice that leaves energy over ends in proportion to it, rounded down to the microsecond and kept inside the bucket. */
  lemma {:induction false} SliceEndsInProportion(left: int, right: int, bucket: int, consumed: int)
    requires left < right && 0 < consumed < bucket
    ensures var offset := SliceEnd(left, right, bucket, consumed) - left;
            && 0 <= offset < right - left
            && (bucket * offset <= (right - left) * consumed || offset == 1)
            && ((right - left) * consumed < bucket * offset + bucket || offset == right - left - 1)
  {
    DivisionIdentity((right - left) * consumed, bucket);
  }
}
