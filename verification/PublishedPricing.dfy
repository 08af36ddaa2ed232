/** A published rate prices: what the publication check and the engine's cuts guarantee together. */
module PublishedPricing {
  import opened Outcomes
  import opened Sums
  import opened TierSpans
  import opened PeriodResolution
  import opened Microdollars
  import opened CostEngine
  import opened PricingLaws
  import LargestRemainder

  // ----- buckets are steady -----

  /** Seasons, day types and minutes only change at full minutes. */
  ghost predicate MinuteMoments(rate: Rate) {
    forall t, u {:trigger rate.moment(t), rate.moment(u)} :: t / MINUTE == u / MINUTE ==> rate.moment(t) == rate.moment(u)
  }

  /** Every instant of the interval that the calendars classify has passed the publication check. */
  ghost predicate Checked(rate: Rate, start: int, end: int) {
    forall t {:trigger rate.moment(t)} :: start <= t < end && rate.moment(t).Some? ==>
      var m := rate.moment(t).value;
      0 <= m.minute < 1440 && GoodDay(rate.periods, m.season, m.days)
  }

  /** A published schedule over an interval, under a context whose thresholds keep the order of its bounds. */
  ghost predicate Published(rate: Rate, ctx: Context, marker: real, start: int, end: int) {
    && rate.dated == [] && MinuteMoments(rate) && AllNormal(rate.periods)
    && Checked(rate, start, end) && SoundBounds(rate, ctx, marker)
  }

  /** What publication checks is what pricing an interval needs, if instants are classified into listed seasons and known days. */
  lemma {:induction false} PublicationSuffices(
    rate: Rate, ctx: Context, marker: real, start: int, end: int, seasons: seq<int>, explicitHolidays: bool)
    requires rate.dated == [] && MinuteMoments(rate) && AllNormal(rate.periods) && SoundBounds(rate, ctx, marker)
    requires forall s :: 0 <= s < |seasons| ==> GoodSeason(rate.periods, seasons[s], explicitHolidays)
    requires forall t {:trigger rate.moment(t)} :: start <= t < end && rate.moment(t).Some? ==>
               var m := rate.moment(t).value;
               && 0 <= m.minute < 1440 && m.season in seasons
               && IsPriority(explicitHolidays, EventAware(rate.periods), m.days)
    ensures Published(rate, ctx, marker, start, end)
  {
    hide GoodDay, IsPriority, SoundBounds, AllNormal, MinuteMoments;
    forall t {:trigger rate.moment(t)} | start <= t < end && rate.moment(t).Some?
      ensures var m := rate.moment(t).value; 0 <= m.minute < 1440 && GoodDay(rate.periods, m.season, m.days)
    {
      var m := rate.moment(t).value;
      var s :| 0 <= s < |seasons| && seasons[s] == m.season;
      assert GoodSeason(rate.periods, seasons[s], explicitHolidays);
    }
  }

  /** The leading tiers at an instant. */
  ghost function LeadAt(rate: Rate, ctx: Context, m: Moment): seq<Tier> {
    var tiers := TiersInTime(rate, ctx, rate.periods, m);
    if tiers.None? then [] else Leading(tiers.value, m)
  }

  /** The instant is classified, and the bounds of the periods in time resolve. */
  ghost predicate Resolvable(rate: Rate, ctx: Context, t: int) {
    rate.moment(t).Some? && TiersInTime(rate, ctx, rate.periods, rate.moment(t).value).Some?
  }

  lemma {:induction false} PublishedAxis(rate: Rate, ctx: Context, marker: real, start: int, end: int, t: int)
    requires Published(rate, ctx, marker, start, end) && start <= t < end && Resolvable(rate, ctx, t)
    ensures var lead := LeadAt(rate, ctx, rate.moment(t).value); Axis(lead) && OrderedTiers(lead)
  {
    var m := rate.moment(t).value;
    assert GoodAt(rate.periods, Moment(m.season, m.days, m.minute));
    hide GoodAt, TiersInTime, Leading, SoundBounds, AllNormal;
    EffectiveAxis(rate, ctx, m, marker);
  }

  lemma {:induction false} UnresolvableRefuses(rate: Rate, ctx: Context, t: int, position: real, incremental: bool)
    requires rate.dated == [] && !Resolvable(rate, ctx, t)
    ensures PeriodFor(rate, ctx, t, position, incremental).None?
  {
  }

  lemma {:induction false} PublishedTiersAreSteady(rate: Rate, ctx: Context, marker: real, start: int, end: int, t: int)
    requires Published(rate, ctx, marker, start, end) && start <= t < end
    ensures SteadyTiers(rate, ctx, t)
  {
    assert rate.dated == [];
    if Resolvable(rate, ctx, t) {
      var m := rate.moment(t).value;
      PublishedAxis(rate, ctx, marker, start, end, t);
      var lead := LeadAt(rate, ctx, m);
      hide Published, TiersInTime, Leading, ScheduledTier;
      forall c: real, d: real
        | (&& 0.0 <= c <= d && PeriodFor(rate, ctx, t, c, true).Some?
           && (var end := PeriodFor(rate, ctx, t, c, true).value.span.end; end.Some? ==> d < end.value))
        ensures PeriodFor(rate, ctx, t, d, true) == PeriodFor(rate, ctx, t, c, true)
      {
        assert OwnedOnce(lead, c);
        var i :| OnlyOwner(lead, c, i);
        ResolvesTheOwner(rate, ctx, m, c, i, true);
        SteadyWithinTier(rate, ctx, m, c, d, i);
      }
    } else {
      forall c: real ensures PeriodFor(rate, ctx, t, c, true).None? {
        UnresolvableRefuses(rate, ctx, t, c, true);
      }
    }
  }

  /** No bucket of a schedule reaches into the next minute. */
  ghost predicate WithinMinutes(bounds: seq<int>) {
    forall k {:trigger bounds[k]} :: 0 <= k < |bounds| - 1 ==> bounds[k + 1] <= (bounds[k] / MINUTE + 1) * MINUTE
  }

  lemma {:induction false} NextMinute(cursor: int)
    requires cursor % MINUTE == 0
    ensures (cursor / MINUTE + 1) * MINUTE == cursor + MINUTE && (cursor + MINUTE) % MINUTE == 0
  {
  }

  lemma {:induction false} MinutePointsStayWithin(cursor: int, end: int, before: int)
    requires cursor % MINUTE == 0 && before < end && cursor == (before / MINUTE + 1) * MINUTE
    ensures WithinMinutes([before] + MinutePoints(cursor, end) + [end])
    decreases end - cursor
  {
    var points := MinutePoints(cursor, end);
    if cursor < end {
      NextMinute(cursor);
      MinutePointsStayWithin(cursor + MINUTE, end, cursor);
      var rest := MinutePoints(cursor + MINUTE, end);
      assert points == [cursor] + rest;
      hide MinutePoints;
      var bounds, later := [before] + points + [end], [cursor] + rest + [end];
      forall k {:trigger bounds[k]} | 0 <= k < |bounds| - 1 ensures bounds[k + 1] <= (bounds[k] / MINUTE + 1) * MINUTE {
        if k > 0 {
          assert bounds[k] == later[k - 1] && bounds[k + 1] == later[k];
        }
      }
    } else {
      assert [before] + points + [end] == [before, end];
    }
  }

  lemma {:induction false} MultipleOfMinute(k: int)
    ensures k * MINUTE % MINUTE == 0
  {
  }

  lemma {:induction false} SameMinute(left: int, t: int)
    requires left <= t < (left / MINUTE + 1) * MINUTE
    ensures t / MINUTE == left / MINUTE
  {
  }

  lemma {:induction false} MinuteIsSteady(rate: Rate, ctx: Context, left: int, right: int)
    requires MinuteMoments(rate) && rate.dated == [] && right <= (left / MINUTE + 1) * MINUTE
    ensures SteadyTime(rate, ctx, left, right)
  {
    hide ScheduledTier;
    forall t: int, c: real | left <= t < right && c >= 0.0
      ensures PeriodFor(rate, ctx, t, c, true) == PeriodFor(rate, ctx, left, c, true)
    {
      SameMinute(left, t);
      assert rate.moment(t) == rate.moment(left);
    }
  }

  /** The buckets of a published schedule are steady. */
  lemma {:induction false} PublishedBucketsAreSteady(rate: Rate, ctx: Context, marker: real, start: int, end: int)
    requires Published(rate, ctx, marker, start, end) && start < end
    ensures SteadyBuckets(rate, ctx, Bounds(rate, start, end))
  {
    var bounds := Bounds(rate, start, end);
    BoundsAscend(rate, start, end);
    assert bounds[0] == start && bounds[|bounds| - 1] == end;
    MultipleOfMinute(start / MINUTE + 1);
    MinutePointsStayWithin((start / MINUTE + 1) * MINUTE, end, start);
    hide Bounds, SteadyTiers, SteadyTime;
    forall k {:trigger bounds[k]} | 0 <= k < |bounds| - 1
      ensures SteadyTime(rate, ctx, bounds[k], bounds[k + 1]) && SteadyTiers(rate, ctx, bounds[k])
    {
      BoundsStayInside(bounds, k);
      assert bounds[k] < bounds[k + 1];
      PublishedTiersAreSteady(rate, ctx, marker, start, end, bounds[k]);
      MinuteIsSteady(rate, ctx, bounds[k], bounds[k + 1]);
    }
  }

  // ----- dated prices -----

  lemma {:induction false} DatedPointsHold(dated: seq<DatedPrice>, start: int, end: int, d: DatedPrice)
    requires d in dated
    ensures start < d.start < end ==> d.start in DatedPoints(dated, start, end)
    ensures start < d.end < end ==> d.end in DatedPoints(dated, start, end)
  {
    var points := DatedPoints(dated[1..], start, end);
    var more := WithInner(points, dated[0].start, start, end);
    WithPointMembers(points, dated[0].start);
    WithPointMembers(more, dated[0].end);
    if d != dated[0] {
      DatedPointsHold(dated[1..], start, end, d);
    }
  }

  lemma {:induction false} NoPointInside(bounds: seq<int>, k: int, x: int)
    requires CostEngine.Ascending(bounds) && 0 <= k < |bounds| - 1 && x in bounds
    ensures x <= bounds[k] || x >= bounds[k + 1]
  {
    var i :| 0 <= i < |bounds| && bounds[i] == x;
    assert i < k ==> bounds[i] < bounds[k];
    assert i > k + 1 ==> bounds[k + 1] < bounds[i];
  }

  /** Dated prices only change at the bounds of buckets. */
  lemma {:induction false} DatedBucketsAreSteady(rate: Rate, ctx: Context, start: int, end: int)
    requires rate.dated != [] && start < end
    ensures SteadyBuckets(rate, ctx, Bounds(rate, start, end))
  {
    var bounds := Bounds(rate, start, end);
    BoundsAscend(rate, start, end);
    forall k {:trigger bounds[k]} | 0 <= k < |bounds| - 1
      ensures SteadyTime(rate, ctx, bounds[k], bounds[k + 1]) && SteadyTiers(rate, ctx, bounds[k])
    {
      forall t: int, c: real | bounds[k] <= t < bounds[k + 1] && c >= 0.0
        ensures PeriodFor(rate, ctx, t, c, true) == PeriodFor(rate, ctx, bounds[k], c, true)
      {
        SameDatedPrice(rate, start, end, k, t);
      }
    }
  }

  lemma {:induction false} SameDatedPrice(rate: Rate, start: int, end: int, k: int, t: int)
    requires rate.dated != [] && start < end && 0 <= k < |Bounds(rate, start, end)| - 1
    requires Bounds(rate, start, end)[k] <= t < Bounds(rate, start, end)[k + 1]
    ensures Filter(rate.dated, InDated(t)) == Filter(rate.dated, InDated(Bounds(rate, start, end)[k]))
  {
    var bounds := Bounds(rate, start, end);
    BoundsAscend(rate, start, end);
    BoundsStayInside(bounds, k);
    assert bounds[0] == start && bounds[|bounds| - 1] == end;
    forall d | d in rate.dated ensures InDated(t)(d) == InDated(bounds[k])(d) {
      DatedPointsHold(rate.dated, start, end, d);
      hide DatedPoints;
      if start < d.start < end {
        assert d.start in bounds;
        NoPointInside(bounds, k, d.start);
      }
      if start < d.end < end {
        assert d.end in bounds;
        NoPointInside(bounds, k, d.end);
      }
    }
    FilterSame(rate.dated, InDated(t), InDated(bounds[k]));
  }

  lemma {:induction false} BoundsStayInside(bounds: seq<int>, k: int)
    requires CostEngine.Ascending(bounds) && 0 <= k < |bounds| - 1
    ensures bounds[0] <= bounds[k] && bounds[k + 1] <= bounds[|bounds| - 1]
  {
  }

  // ----- which mWh are refused -----

  /** The tier that covers the position ends less than one mWh above it. */
  predicate Cuts(t: Tier, position: real) {
    Covers(t.span, position) && t.span.end.Some? && t.span.end.value - position < 1.0
  }

  ghost predicate CutAt(rate: Rate, ctx: Context, t: int, position: real) {
    Resolvable(rate, ctx, t) && exists tier :: tier in LeadAt(rate, ctx, rate.moment(t).value) && Cuts(tier, position)
  }

  /** A leading tier at the instant ends exactly at the position and includes its bound. */
  ghost predicate AtInclusiveEnd(rate: Rate, ctx: Context, t: int, position: real) {
    Resolvable(rate, ctx, t) && exists tier :: tier in LeadAt(rate, ctx, rate.moment(t).value) && EndsAt(rate, ctx, tier, position)
  }

  /** A mWh at the instant and position has no price: nothing resolves, or its tier ends inside it. */
  ghost predicate Refuses(rate: Rate, ctx: Context, t: int, position: real) {
    !Resolvable(rate, ctx, t) || CutAt(rate, ctx, t, position)
  }

  /** No energy has no price either: as above, or at an inclusive tier end. */
  ghost predicate RefusesNothing(rate: Rate, ctx: Context, t: int, position: real) {
    Refuses(rate, ctx, t, position) || AtInclusiveEnd(rate, ctx, t, position)
  }

  lemma {:induction false} RoomForOne(t: Tier, position: real)
    requires Covers(t.span, position)
    ensures Advances(t, position) <==> !Cuts(t, position)
  {
    if t.span.end.Some? {
      assert (t.span.end.value - position).Floor > 0 <==> t.span.end.value - position >= 1.0;
    }
  }

  lemma {:induction false} FullTier(rate: Rate, ctx: Context, t: Tier, position: real)
    requires EndsAt(rate, ctx, t, position)
    ensures !Advances(t, position)
  {
  }

  lemma {:induction false} OnlyOwnerCuts(tiers: seq<Tier>, position: real, i: int)
    requires OnlyOwner(tiers, position, i)
    ensures (exists t :: t in tiers && Cuts(t, position)) <==> Cuts(tiers[i], position)
  {
    if t :| t in tiers && Cuts(t, position) {
      var j :| 0 <= j < |tiers| && tiers[j] == t;
      assert j == i;
    }
    assert tiers[i] in tiers;
  }

  /** New energy at a published instant resolves a tier with room for it exactly when it is not refused. */
  lemma {:induction false} UnitResolves(rate: Rate, ctx: Context, marker: real, start: int, end: int, t: int, position: real)
    requires Published(rate, ctx, marker, start, end) && start <= t < end && position >= 0.0
    ensures (var tier := PeriodFor(rate, ctx, t, position, true); tier.Some? && Advances(tier.value, position))
       <==> !Refuses(rate, ctx, t, position)
  {
    assert rate.dated == [];
    if Resolvable(rate, ctx, t) {
      var m := rate.moment(t).value;
      PublishedAxis(rate, ctx, marker, start, end, t);
      var lead := LeadAt(rate, ctx, m);
      hide Published, TiersInTime, Leading, ScheduledTier, Advances, Cuts;
      assert OwnedOnce(lead, position);
      var i :| OnlyOwner(lead, position, i);
      ResolvesTheOwner(rate, ctx, m, position, i, true);
      RoomForOne(lead[i], position);
      OnlyOwnerCuts(lead, position, i);
    } else {
      UnresolvableRefuses(rate, ctx, t, position, true);
    }
  }

  /** No energy resolves a tier with room exactly when it is not refused, nor at an inclusive tier end. */
  lemma {:induction false} NoEnergyResolves(rate: Rate, ctx: Context, marker: real, start: int, end: int, t: int, position: real)
    requires Published(rate, ctx, marker, start, end) && start <= t < end && position >= 0.0
    ensures (var tier := PeriodFor(rate, ctx, t, position, false); tier.Some? && Advances(tier.value, position))
       <==> !RefusesNothing(rate, ctx, t, position)
  {
    assert rate.dated == [];
    if Resolvable(rate, ctx, t) {
      var m := rate.moment(t).value;
      PublishedAxis(rate, ctx, marker, start, end, t);
      var lead := LeadAt(rate, ctx, m);
      hide Published, TiersInTime, Leading, ScheduledTier, Advances, Cuts, EndsAt;
      assert OwnedOnce(lead, position);
      var i :| OnlyOwner(lead, position, i);
      ResolvesTheOwner(rate, ctx, m, position, i, false);
      if forall j :: 0 <= j < |lead| ==> !EndsAt(rate, ctx, lead[j], position) {
        RoomForOne(lead[i], position);
        OnlyOwnerCuts(lead, position, i);
        assert forall tier :: tier in lead ==> !EndsAt(rate, ctx, tier, position);
      } else {
        var j :| 0 <= j < |lead| && EndsAt(rate, ctx, lead[j], position);
        assert lead[j] in lead;
        FullTier(rate, ctx, PeriodFor(rate, ctx, t, position, false).value, position);
      }
    } else {
      UnresolvableRefuses(rate, ctx, t, position, false);
    }
  }

  /** The j-th mWh from a position on is refused. */
  ghost predicate RefusesUnit(rate: Rate, ctx: Context, t: int, position: real, j: int) {
    Refuses(rate, ctx, t, position + j as real)
  }

  lemma {:induction false} ShiftUnit(rate: Rate, ctx: Context, t: int, position: real, j: int)
    ensures RefusesUnit(rate, ctx, t, position + 1.0, j) <==> RefusesUnit(rate, ctx, t, position, j + 1)
    ensures RefusesUnit(rate, ctx, t, position, 0) <==> Refuses(rate, ctx, t, position)
  {
    hide Refuses;
    assert position + 1.0 + j as real == position + (j + 1) as real;
    assert position + 0 as real == position;
  }

  /** The units of one bucket are priced exactly when none is refused. */
  lemma {:induction false} UnitsArePriced(rate: Rate, ctx: Context, marker: real, start: int, end: int, t: int, position: real, n: int)
    requires Published(rate, ctx, marker, start, end) && start <= t < end && position >= 0.0
    ensures Marginal(rate, ctx, t, position, n).Some? <==> forall j :: 0 <= j < n ==> !RefusesUnit(rate, ctx, t, position, j)
    decreases if n > 0 then n else 0
  {
    hide Published, PeriodFor, Advances, Refuses, RefusesUnit;
    if n > 0 {
      var next := position + 1.0;
      UnitResolves(rate, ctx, marker, start, end, t, position);
      UnitsArePriced(rate, ctx, marker, start, end, t, next, n - 1);
      ShiftUnit(rate, ctx, t, position, 0);
      forall j | 0 <= j < n - 1 ensures RefusesUnit(rate, ctx, t, next, j) ==> RefusesUnit(rate, ctx, t, position, j + 1) {
        ShiftUnit(rate, ctx, t, position, j);
      }
      forall j | 0 < j < n ensures RefusesUnit(rate, ctx, t, position, j) ==> RefusesUnit(rate, ctx, t, next, j - 1) {
        ShiftUnit(rate, ctx, t, position, j - 1);
      }
    }
  }

  /** Where a bucket starts in the cycle. */
  ghost function PositionOf(energies: seq<int>, position: real, k: int): real
    requires 0 <= k <= |energies|
  {
    position + Sum(energies[..k]) as real
  }

  /** The j-th mWh of the k-th bucket is refused. */
  ghost predicate RefusedUnitAt(rate: Rate, ctx: Context, bounds: seq<int>, energies: seq<int>, position: real, k: int, j: int) {
    && |bounds| == |energies| + 1 && 0 <= k < |energies| && 0 <= j < energies[k]
    && RefusesUnit(rate, ctx, bounds[k], PositionOf(energies, position, k), j)
  }

  lemma {:induction false} NextPosition(energies: seq<int>, position: real, k: nat)
    requires k < |energies|
    ensures PositionOf(energies, position, k + 1) == PositionOf(energies, position, k) + energies[k] as real
  {
    assert energies[..k + 1] == energies[..k] + [energies[k]];
    LargestRemainder.SumConcat(energies[..k], [energies[k]]);
    assert Sum([energies[k]]) == energies[k];
  }

  /** All buckets are priced exactly when no mWh of any is refused. */
  lemma {:induction false} BucketsArePriced(rate: Rate, ctx: Context, marker: real, bounds: seq<int>, energies: seq<int>, position: real, k: nat)
    requires |bounds| == |energies| + 1 && k <= |energies| && CostEngine.Ascending(bounds) && PositionOf(energies, position, k) >= 0.0
    requires Published(rate, ctx, marker, bounds[0], bounds[|bounds| - 1])
    requires forall i :: 0 <= i < |energies| ==> energies[i] >= 0
    ensures MarginalFrom(rate, ctx, bounds, energies, k, PositionOf(energies, position, k)).Some?
       <==> forall i, j :: k <= i ==> !RefusedUnitAt(rate, ctx, bounds, energies, position, i, j)
    decreases |energies| - k
  {
    hide Published, Marginal, RefusesUnit, PositionOf;
    if k < |energies| {
      var here := PositionOf(energies, position, k);
      BoundsStayInside(bounds, k);
      assert bounds[k] < bounds[k + 1];
      UnitsArePriced(rate, ctx, marker, bounds[0], bounds[|bounds| - 1], bounds[k], here, energies[k]);
      NextPosition(energies, position, k);
      BucketsArePriced(rate, ctx, marker, bounds, energies, position, k + 1);
      assert forall j :: RefusedUnitAt(rate, ctx, bounds, energies, position, k, j) <==> 0 <= j < energies[k] && RefusesUnit(rate, ctx, bounds[k], here, j);
      if MarginalFrom(rate, ctx, bounds, energies, k, here).Some? {
        forall i, j | k <= i ensures !RefusedUnitAt(rate, ctx, bounds, energies, position, i, j) {
          assert k < i ==> k + 1 <= i;
        }
      }
    }
  }

  // ----- amounts -----

  ghost predicate NonNegativePrices(rate: Rate) {
    && rate.surcharge >= 0.0 && rate.credit >= 0.0
    && (forall p :: p in rate.periods ==> p.price + rate.adjustment >= 0.0)
    && (forall d :: d in rate.dated ==> d.price + rate.adjustment >= 0.0)
  }

  lemma {:induction false} AmountIsNonNegative(rate: Rate, energy: int, price: real)
    requires energy >= 0 && price + rate.adjustment >= 0.0 && rate.surcharge >= 0.0
    ensures Amount(rate, energy, price) >= 0.0
  {
    var base := energy as real * (price + rate.adjustment);
    RealProduct(energy as real, price + rate.adjustment);
    RealProduct(base, rate.surcharge);
  }

  lemma {:induction false} RealProduct(a: real, b: real)
    requires a >= 0.0 && b >= 0.0
    ensures a * b >= 0.0
  {
  }

  ghost predicate GoodSlices(slices: seq<Slice>) {
    forall i :: 0 <= i < |slices| ==> slices[i].amount >= 0.0 && slices[i].credited >= 0.0
  }

  lemma {:induction false} TiersAreEffective(rate: Rate, ctx: Context, periods: seq<Period>, m: Moment)
    ensures var tiers := TiersInTime(rate, ctx, periods, m);
            tiers.Some? ==> forall t :: t in tiers.value ==> t.period in periods && EffectiveTier(rate, ctx, t.period) == Some(t)
  {
    hide InTime;
    if periods != [] {
      TiersAreEffective(rate, ctx, periods[1..], m);
    }
  }

  /** A resolved tier of a schedule belongs to one of its periods. */
  lemma {:induction false} ResolvedIsPeriod(rate: Rate, ctx: Context, t: int, position: real, incremental: bool)
    requires rate.dated == []
    ensures var tier := PeriodFor(rate, ctx, t, position, incremental); tier.Some? ==> tier.value.period in rate.periods
  {
    if PeriodFor(rate, ctx, t, position, incremental).Some? {
      var m := rate.moment(t).value;
      var tiers := TiersInTime(rate, ctx, rate.periods, m).value;
      var admitted := Filter(tiers, Admits(rate, ctx, position));
      TiersAreEffective(rate, ctx, rate.periods, m);
      FilterMembers(tiers, Admits(rate, ctx, position));
      LeadingAreTiers(admitted, m);
      hide TiersInTime, Admits, Leading, Filter;
      assert PeriodFor(rate, ctx, t, position, incremental).value in Leading(admitted, m);
    }
  }

  lemma {:induction false} ResolvedPrice(rate: Rate, ctx: Context, t: int, position: real, incremental: bool)
    requires NonNegativePrices(rate)
    ensures var tier := PeriodFor(rate, ctx, t, position, incremental); tier.Some? ==> tier.value.period.price + rate.adjustment >= 0.0
  {
    if rate.dated == [] {
      ResolvedIsPeriod(rate, ctx, t, position, incremental);
    } else if PeriodFor(rate, ctx, t, position, incremental).Some? {
      FilterMembers(rate.dated, InDated(t));
      assert Filter(rate.dated, InDated(t))[0] in Filter(rate.dated, InDated(t));
    }
  }

  lemma {:induction false} SliceIsGood(rate: Rate, ctx: Context, left: int, right: int, bucket: int, remaining: int, from: int, m: Meter)
    requires NonNegativePrices(rate) && remaining >= 0 && GoodSlices(m.slices)
    requires NextSlice(rate, ctx, left, right, bucket, remaining, from, m).Some?
    ensures GoodSlices(Record(m, NextSlice(rate, ctx, left, right, bucket, remaining, from, m).value).slices)
  {
    hide NextSlice, PeriodFor, Amount, SliceEnergy, Advances, SliceEnd;
    NextSliceMeans(rate, ctx, left, right, bucket, remaining, from, m);
    SliceAdvances(rate, ctx, left, right, bucket, remaining, from, m);
    var s := NextSlice(rate, ctx, left, right, bucket, remaining, from, m).value;
    ResolvedPrice(rate, ctx, from + (right - from) / 2, m.position, remaining > 0);
    AmountIsNonNegative(rate, s.energy, s.tier.period.price);
  }

  lemma {:induction false} BucketIsGood(rate: Rate, ctx: Context, left: int, right: int, bucket: int, remaining: int, from: int, m: Meter)
    requires NonNegativePrices(rate) && 0 <= remaining <= bucket && GoodSlices(m.slices)
    ensures var after := SliceBucket(rate, ctx, left, right, bucket, remaining, from, m); after.Some? ==> GoodSlices(after.value.slices)
    decreases remaining
  {
    hide NextSlice, GoodSlices, NonNegativePrices, Record;
    var s := NextSlice(rate, ctx, left, right, bucket, remaining, from, m);
    if s.Some? && (remaining > 0 || bucket == 0) {
      SliceIsGood(rate, ctx, left, right, bucket, remaining, from, m);
      SliceAdvances(rate, ctx, left, right, bucket, remaining, from, m);
      if bucket > 0 {
        BucketIsGood(rate, ctx, left, right, bucket, remaining - s.value.energy, s.value.end, Record(m, s.value));
      }
    }
  }

  lemma {:induction false} IntervalIsGood(rate: Rate, ctx: Context, bounds: seq<int>, energies: seq<int>, k: nat, m: Meter)
    requires |bounds| == |energies| + 1 && k <= |energies| && NonNegativePrices(rate) && GoodSlices(m.slices)
    requires forall i :: 0 <= i < |energies| ==> energies[i] >= 0
    ensures var after := SliceFrom(rate, ctx, bounds, energies, k, m); after.Some? ==> GoodSlices(after.value.slices)
    decreases |energies| - k
  {
    hide SliceBucket, GoodSlices, NonNegativePrices;
    if k < |energies| {
      BucketIsGood(rate, ctx, bounds[k], bounds[k + 1], energies[k], energies[k], bounds[k], m);
      var next := SliceBucket(rate, ctx, bounds[k], bounds[k + 1], energies[k], energies[k], bounds[k], m);
      if next.Some? {
        IntervalIsGood(rate, ctx, bounds, energies, k + 1, next.value);
      }
    }
  }

  lemma {:induction false} GoodSlicesAreNonNegative(rate: Rate, slices: seq<Slice>)
    requires GoodSlices(slices) && rate.credit >= 0.0
    ensures NonNegative(Amounts(slices)) && NonNegative(Credits(rate, slices))
  {
    forall i | 0 <= i < |slices| ensures Credits(rate, slices)[i] >= 0.0 {
      RealProduct(slices[i].credited, rate.credit);
    }
  }

  // ----- the theorem -----

  /** The first bucket gets no energy. */
  ghost predicate StartsEmpty(rate: Rate, start: int, end: int, energy: int)
    requires start < end && Sum(Durations(Bounds(rate, start, end))) > 0 && |Bounds(rate, start, end)| >= 2
  {
    Energies(Bounds(rate, start, end), energy)[0] == 0
  }

  ghost function FirstMiddle(rate: Rate, start: int, end: int): int
    requires |Bounds(rate, start, end)| >= 2
  {
    var bounds := Bounds(rate, start, end);
    bounds[0] + (bounds[1] - bounds[0]) / 2
  }

  /** Some mWh of the interval is refused. */
  ghost predicate SomeUnitRefused(rate: Rate, ctx: Context, start: int, end: int, energy: int)
    requires start < end && Sum(Durations(Bounds(rate, start, end))) > 0 && |Bounds(rate, start, end)| >= 2
  {
    var bounds := Bounds(rate, start, end);
    exists k, j :: RefusedUnitAt(rate, ctx, bounds, Energies(bounds, energy), ctx.position, k, j)
  }

  /**
   A published schedule prices an interval at its exact unit-by-unit cost, rounded once, and refuses it exactly when some mWh
   of it is refused, or its first bucket gets no energy and that is refused.
   */
  lemma {:induction false} PublishedRatePrices(rate: Rate, ctx: Context, marker: real, start: int, end: int, energy: int)
    requires Published(rate, ctx, marker, start, end) && NonNegativePrices(rate)
    requires InVersion(rate, start, end) && energy >= 0 && ctx.position >= 0.0
    ensures |Bounds(rate, start, end)| >= 2 && Sum(Durations(Bounds(rate, start, end))) > 0
    ensures var bounds, bill := Bounds(rate, start, end), PriceInterval(rate, ctx, start, end, energy);
            var marginal := MarginalFrom(rate, ctx, bounds, Energies(bounds, energy), 0, ctx.position);
            && (bill.None? <==>
                  || SomeUnitRefused(rate, ctx, start, end, energy)
                  || (StartsEmpty(rate, start, end, energy) && RefusesNothing(rate, ctx, FirstMiddle(rate, start, end), ctx.position)))
            && (bill.Some? ==> marginal.Some? && bill.value.cost == HalfEven(marginal.value))
  {
    var bounds := Bounds(rate, start, end);
    BoundsAscend(rate, start, end);
    BucketsConserveEnergy(bounds, energy);
    var energies := Energies(bounds, energy);
    assert bounds[0] == start && bounds[|bounds| - 1] == end && bounds[0] < bounds[1];
    BoundsStayInside(bounds, 0);
    NonNegativeSlices(rate, ctx, start, end, energy);
    assert start <= FirstMiddle(rate, start, end) < end;
    assert energies[..0] == [] && PositionOf(energies, ctx.position, 0) == ctx.position;
    assert forall k, j :: RefusedUnitAt(rate, ctx, bounds, energies, ctx.position, k, j) ==> 0 <= k;
    assert SomeUnitRefused(rate, ctx, start, end, energy) <==> exists k, j :: RefusedUnitAt(rate, ctx, bounds, energies, ctx.position, k, j);
    hide *;
    PublishedBucketsAreSteady(rate, ctx, marker, start, end);
    SlicingIsMarginal(rate, ctx, start, end, energy);
    BucketsArePriced(rate, ctx, marker, bounds, energies, ctx.position, 0);
    NoEnergyResolves(rate, ctx, marker, start, end, FirstMiddle(rate, start, end), ctx.position);
    FirstMeans(rate, ctx, start, end, energy);
    BillMeans(rate, ctx, start, end, energy);
  }

  lemma {:induction false} FirstMeans(rate: Rate, ctx: Context, start: int, end: int, energy: int)
    requires start < end && |Bounds(rate, start, end)| >= 2 && Sum(Durations(Bounds(rate, start, end))) > 0
    ensures FirstResolves(rate, ctx, Bounds(rate, start, end), Energies(Bounds(rate, start, end), energy), ctx.position)
       <==> (StartsEmpty(rate, start, end, energy) ==>
               var tier := PeriodFor(rate, ctx, FirstMiddle(rate, start, end), ctx.position, false);
               tier.Some? && Advances(tier.value, ctx.position))
  {
    hide Bounds, Energies, PeriodFor, Advances, Durations;
  }

  lemma {:induction false} BillMeans(rate: Rate, ctx: Context, start: int, end: int, energy: int)
    requires InVersion(rate, start, end) && energy >= 0
    requires var sliced := Sliced(rate, ctx, start, end, energy);
             sliced.Some? ==> NonNegative(Amounts(sliced.value.slices)) && NonNegative(Credits(rate, sliced.value.slices))
    ensures var sliced, bill := Sliced(rate, ctx, start, end, energy), PriceInterval(rate, ctx, start, end, energy);
            && (bill.Some? <==> sliced.Some?)
            && (bill.Some? ==> bill.value.cost == HalfEven(RealSum(Amounts(sliced.value.slices))))
  {
    hide Sliced, NonNegative, Amounts, Credits, Rounded, HalfEven, RealSum;
    if PriceInterval(rate, ctx, start, end, energy).Some? {
      RoundedConserves(Amounts(Sliced(rate, ctx, start, end, energy).value.slices));
    }
  }

  lemma {:induction false} NonNegativeSlices(rate: Rate, ctx: Context, start: int, end: int, energy: int)
    requires start < end && energy >= 0 && NonNegativePrices(rate)
    ensures var sliced := Sliced(rate, ctx, start, end, energy);
            sliced.Some? ==> NonNegative(Amounts(sliced.value.slices)) && NonNegative(Credits(rate, sliced.value.slices))
  {
    var bounds := Bounds(rate, start, end);
    BoundsAscend(rate, start, end);
    BucketsConserveEnergy(bounds, energy);
    hide Bounds, Energies, SliceFrom, NonNegative, Amounts, Credits;
    IntervalIsGood(rate, ctx, bounds, Energies(bounds, energy), 0, Meter(ctx.position, ctx.baseline, []));
    if Sliced(rate, ctx, start, end, energy).Some? {
      GoodSlicesAreNonNegative(rate, Sliced(rate, ctx, start, end, energy).value.slices);
    }
  }

  // ----- whole bounds -----

  predicate Whole(x: real) {
    x == x.Floor as real
  }

  lemma {:induction false} WholeGap(a: int, b: int)
    ensures b as real < a as real ==> a as real - b as real >= 1.0
  {
    if b < a {
      assert (b + 1) as real <= a as real;
    }
  }

  /** A whole tier end never cuts a mWh that starts at a whole position. */
  lemma {:induction false} WholeEndsNeverCut(t: Tier, position: real, j: int)
    requires Whole(position) && (t.span.end.Some? ==> Whole(t.span.end.value))
    ensures !Cuts(t, position + j as real)
  {
    if t.span.end.Some? {
      WholeGap(t.span.end.value.Floor, position.Floor + j);
    }
  }

  /** All tier ends in effect are whole mWh, as stored bounds of six decimals in kWh are. */
  ghost predicate WholeEnds(rate: Rate, ctx: Context) {
    forall p :: p in rate.periods && EffectiveTier(rate, ctx, p).Some? ==>
      var end := EffectiveTier(rate, ctx, p).value.span.end; end.Some? ==> Whole(end.value)
  }

  lemma {:induction false} WholeIsNotCut(rate: Rate, ctx: Context, t: int, position: real, j: int)
    requires WholeEnds(rate, ctx) && Whole(position)
    ensures !CutAt(rate, ctx, t, position + j as real)
  {
    if CutAt(rate, ctx, t, position + j as real) {
      var m := rate.moment(t).value;
      var tier :| tier in LeadAt(rate, ctx, m) && Cuts(tier, position + j as real);
      hide LeadAt, Cuts, Whole;
      LeadIsEffective(rate, ctx, m, tier);
      WholeEndsNeverCut(tier, position, j);
    }
  }

  /** With whole bounds only two refusals are left: an instant that does not resolve, and no energy at an inclusive tier end. */
  lemma {:induction false} WholeRatePrices(rate: Rate, ctx: Context, marker: real, start: int, end: int, energy: int)
    requires Published(rate, ctx, marker, start, end) && WholeEnds(rate, ctx) && NonNegativePrices(rate)
    requires InVersion(rate, start, end) && energy >= 0 && Whole(ctx.position) && ctx.position >= 0.0
    ensures |Bounds(rate, start, end)| >= 2 && Sum(Durations(Bounds(rate, start, end))) > 0
    ensures var bounds, middle := Bounds(rate, start, end), FirstMiddle(rate, start, end);
            var energies := Energies(bounds, energy);
            PriceInterval(rate, ctx, start, end, energy).None? <==>
              || (exists k :: 0 <= k < |energies| && energies[k] > 0 && !Resolvable(rate, ctx, bounds[k]))
              || (StartsEmpty(rate, start, end, energy) && (!Resolvable(rate, ctx, middle) || AtInclusiveEnd(rate, ctx, middle, ctx.position)))
  {
    PublishedRatePrices(rate, ctx, marker, start, end, energy);
    var bounds, middle := Bounds(rate, start, end), FirstMiddle(rate, start, end);
    var energies := Energies(bounds, energy);
    WholeIsNotCut(rate, ctx, middle, ctx.position, 0);
    assert ctx.position + 0 as real == ctx.position;
    hide Published, WholeEnds, NonNegativePrices, InVersion, PriceInterval, Bounds, Energies, Resolvable, CutAt, AtInclusiveEnd, Durations, Sum;
    forall k, j ensures RefusedUnitAt(rate, ctx, bounds, energies, ctx.position, k, j)
      <==> 0 <= k < |energies| && 0 <= j < energies[k] && !Resolvable(rate, ctx, bounds[k])
    {
      if 0 <= k < |energies| {
        var reached := Sum(energies[..k]) + j;
        assert PositionOf(energies, ctx.position, k) + j as real == ctx.position + reached as real;
        WholeIsNotCut(rate, ctx, bounds[k], ctx.position, reached);
      }
    }
    if k :| 0 <= k < |energies| && energies[k] > 0 && !Resolvable(rate, ctx, bounds[k]) {
      assert RefusedUnitAt(rate, ctx, bounds, energies, ctx.position, k, 0);
    }
  }

  // ----- the two account tiers -----

  /** All periods are account tiers under one positive threshold. */
  ghost predicate AccountTiers(rate: Rate, ctx: Context, marker: real) {
    && marker > 0.0 && ctx.threshold.Some? && ctx.threshold.value > 0.0
    && (forall p :: p in rate.periods ==> p.accountBased && OnMarker(p, marker))
  }

  /** Every instant of the interval is classified, and the threshold is for its season where periods carry one. */
  ghost predicate AllResolvable(rate: Rate, ctx: Context, start: int, end: int) {
    forall t :: start <= t < end ==> Resolvable(rate, ctx, t)
  }

  lemma {:induction false} LeadIsEffective(rate: Rate, ctx: Context, m: Moment, t: Tier)
    requires t in LeadAt(rate, ctx, m)
    ensures t.period in rate.periods && EffectiveTier(rate, ctx, t.period) == Some(t)
  {
    hide EffectiveTier, TiersInTime;
    TiersAreEffective(rate, ctx, rate.periods, m);
    LeadingAreTiers(TiersInTime(rate, ctx, rate.periods, m).value, m);
  }

  /** With account tiers, the mWh that straddles the threshold is the only one cut. */
  lemma {:induction false} AccountCut(rate: Rate, ctx: Context, marker: real, start: int, end: int, t: int, position: real)
    requires Published(rate, ctx, marker, start, end) && AccountTiers(rate, ctx, marker) && start <= t < end
    requires Resolvable(rate, ctx, t) && position >= 0.0
    ensures CutAt(rate, ctx, t, position) <==> position < ctx.threshold.value < position + 1.0
  {
    var m, threshold := rate.moment(t).value, ctx.threshold.value;
    var lead := LeadAt(rate, ctx, m);
    PublishedAxis(rate, ctx, marker, start, end, t);
    hide Published, TiersInTime, Leading, Resolvable;
    forall tier | tier in lead ensures tier.span == Span(0.0, Some(threshold)) || tier.span == Span(threshold, None) {
      LeadIsEffective(rate, ctx, m, tier);
    }
    assert CutAt(rate, ctx, t, position) <==> exists tier :: tier in lead && Cuts(tier, position);
    if position < threshold < position + 1.0 {
      assert OwnedOnce(lead, position);
      var i :| OnlyOwner(lead, position, i);
      assert lead[i] in lead && Cuts(lead[i], position);
    }
  }

  /** Every mWh of an interval is the j-th of some k-th bucket. */
  lemma {:induction false} UnitIsInBucket(energies: seq<int>, unit: int) returns (k: int, j: int)
    requires (forall i :: 0 <= i < |energies| ==> energies[i] >= 0) && 0 <= unit < Sum(energies)
    ensures 0 <= k < |energies| && 0 <= j < energies[k] && Sum(energies[..k]) + j == unit
    decreases |energies|
  {
    if unit < energies[0] {
      k, j := 0, unit;
      assert energies[..0] == [];
    } else {
      k, j := UnitIsInBucket(energies[1..], unit - energies[0]);
      assert energies[..k + 1][0] == energies[0] && energies[..k + 1][1..] == energies[1..][..k];
      k := k + 1;
    }
  }

  lemma {:induction false} UnitIsBelow(energies: seq<int>, k: int, j: int)
    requires (forall i :: 0 <= i < |energies| ==> energies[i] >= 0) && 0 <= k < |energies| && 0 <= j < energies[k]
    ensures 0 <= Sum(energies[..k]) + j < Sum(energies)
  {
    assert energies == energies[..k] + ([energies[k]] + energies[k + 1..]);
    LargestRemainder.SumConcat(energies[..k], [energies[k]] + energies[k + 1..]);
    LargestRemainder.SumConcat([energies[k]], energies[k + 1..]);
    LargestRemainder.SumNonNegative(energies[..k]);
    LargestRemainder.SumNonNegative(energies[k + 1..]);
    assert Sum([energies[k]]) == energies[k];
  }

  lemma {:induction false} StraddledUnit(position: real, threshold: real, unit: int)
    requires Whole(position)
    ensures position + unit as real < threshold < position + unit as real + 1.0
       <==> !Whole(threshold) && position.Floor + unit == threshold.Floor
  {
    var here := position + unit as real;
    assert here == (position.Floor + unit) as real;
    assert threshold.Floor as real <= threshold < threshold.Floor as real + 1.0;
  }

  lemma {:induction false} AccountUnits(rate: Rate, ctx: Context, marker: real, bounds: seq<int>, energies: seq<int>)
    requires |bounds| == |energies| + 1 && CostEngine.Ascending(bounds) && (forall i :: 0 <= i < |energies| ==> energies[i] >= 0)
    requires Published(rate, ctx, marker, bounds[0], bounds[|bounds| - 1]) && AccountTiers(rate, ctx, marker)
    requires AllResolvable(rate, ctx, bounds[0], bounds[|bounds| - 1]) && Whole(ctx.position) && ctx.position >= 0.0
    ensures (exists k, j :: RefusedUnitAt(rate, ctx, bounds, energies, ctx.position, k, j))
       <==> var floor := ctx.threshold.value.Floor;
            !Whole(ctx.threshold.value) && ctx.position.Floor <= floor < ctx.position.Floor + Sum(energies)
  {
    var threshold := ctx.threshold.value;
    hide Published, AccountTiers, Whole;
    if !Whole(threshold) && ctx.position.Floor <= threshold.Floor < ctx.position.Floor + Sum(energies) {
      var k, j := UnitIsInBucket(energies, threshold.Floor - ctx.position.Floor);
      UnitIsStraddled(rate, ctx, marker, bounds, energies, k, j);
    }
    if k, j :| RefusedUnitAt(rate, ctx, bounds, energies, ctx.position, k, j) {
      UnitIsStraddled(rate, ctx, marker, bounds, energies, k, j);
      UnitIsBelow(energies, k, j);
    }
  }

  lemma {:induction false} UnitIsStraddled(rate: Rate, ctx: Context, marker: real, bounds: seq<int>, energies: seq<int>, k: int, j: int)
    requires |bounds| == |energies| + 1 && CostEngine.Ascending(bounds) && (forall i :: 0 <= i < |energies| ==> energies[i] >= 0)
    requires Published(rate, ctx, marker, bounds[0], bounds[|bounds| - 1]) && AccountTiers(rate, ctx, marker)
    requires AllResolvable(rate, ctx, bounds[0], bounds[|bounds| - 1]) && Whole(ctx.position) && ctx.position >= 0.0
    requires 0 <= k < |energies| && 0 <= j < energies[k]
    ensures RefusedUnitAt(rate, ctx, bounds, energies, ctx.position, k, j)
       <==> !Whole(ctx.threshold.value) && ctx.position.Floor + (Sum(energies[..k]) + j) == ctx.threshold.value.Floor
  {
    var unit := Sum(energies[..k]) + j;
    BoundsStayInside(bounds, k);
    assert bounds[k] < bounds[k + 1];
    assert Resolvable(rate, ctx, bounds[k]);
    UnitIsBelow(energies, k, j);
    assert PositionOf(energies, ctx.position, k) + j as real == ctx.position + unit as real;
    hide Published, AccountTiers, Whole, Resolvable, AllResolvable, CutAt;
    AccountCut(rate, ctx, marker, bounds[0], bounds[|bounds| - 1], bounds[k], ctx.position + unit as real);
    StraddledUnit(ctx.position, ctx.threshold.value, unit);
  }

  /**
   The two account tiers, in a caller's terms: an interval whose instants resolve is refused exactly when its energy reaches
   into the mWh that straddles a fractional threshold, or its first bucket is empty there or at an inclusive threshold.
   */
  lemma {:induction false} AccountRatePrices(rate: Rate, ctx: Context, marker: real, start: int, end: int, energy: int)
    requires Published(rate, ctx, marker, start, end) && AccountTiers(rate, ctx, marker) && AllResolvable(rate, ctx, start, end)
    requires NonNegativePrices(rate) && InVersion(rate, start, end) && energy >= 0 && Whole(ctx.position) && ctx.position >= 0.0
    ensures |Bounds(rate, start, end)| >= 2 && Sum(Durations(Bounds(rate, start, end))) > 0
    ensures var threshold, from := ctx.threshold.value, ctx.position.Floor;
            PriceInterval(rate, ctx, start, end, energy).None? <==>
              || (!Whole(threshold) && from <= threshold.Floor < from + energy)
              || (&& StartsEmpty(rate, start, end, energy)
                  && ((!Whole(threshold) && from == threshold.Floor) || AtInclusiveEnd(rate, ctx, FirstMiddle(rate, start, end), ctx.position)))
  {
    var bounds := Bounds(rate, start, end);
    BoundsAscend(rate, start, end);
    BucketsConserveEnergy(bounds, energy);
    assert bounds[0] == start && bounds[|bounds| - 1] == end && bounds[0] < bounds[1];
    BoundsStayInside(bounds, 0);
    var middle := FirstMiddle(rate, start, end);
    assert start <= middle < end;
    assert Resolvable(rate, ctx, middle);
    assert SomeUnitRefused(rate, ctx, start, end, energy)
      <==> exists k, j :: RefusedUnitAt(rate, ctx, bounds, Energies(bounds, energy), ctx.position, k, j);
    assert RefusesNothing(rate, ctx, middle, ctx.position) <==> CutAt(rate, ctx, middle, ctx.position) || AtInclusiveEnd(rate, ctx, middle, ctx.position);
    assert ctx.position + 0 as real == ctx.position;
    hide *;
    PublishedRatePrices(rate, ctx, marker, start, end, energy);
    AccountUnits(rate, ctx, marker, bounds, Energies(bounds, energy));
    AccountCut(rate, ctx, marker, start, end, middle, ctx.position);
    StraddledUnit(ctx.position, ctx.threshold.value, 0);
  }

  // ----- dated prices -----

  /** Exactly one dated price holds at the instant. */
  predicate OneDatedPrice(rate: Rate, t: int) {
    |Filter(rate.dated, InDated(t))| == 1
  }

  lemma {:induction false} DatedMarginal(rate: Rate, ctx: Context, t: int, position: real, n: int)
    requires rate.dated != []
    ensures Marginal(rate, ctx, t, position, n).Some? <==> n <= 0 || OneDatedPrice(rate, t)
    decreases if n > 0 then n else 0
  {
    if n > 0 {
      DatedMarginal(rate, ctx, t, position + 1.0, n - 1);
    }
  }

  lemma {:induction false} DatedBuckets(rate: Rate, ctx: Context, bounds: seq<int>, energies: seq<int>, k: nat, position: real)
    requires rate.dated != [] && |bounds| == |energies| + 1 && k <= |energies|
    ensures MarginalFrom(rate, ctx, bounds, energies, k, position).Some?
       <==> forall i :: k <= i < |energies| && energies[i] > 0 ==> OneDatedPrice(rate, bounds[i])
    decreases |energies| - k
  {
    hide Marginal, OneDatedPrice;
    if k < |energies| {
      DatedMarginal(rate, ctx, bounds[k], position, energies[k]);
      DatedBuckets(rate, ctx, bounds, energies, k + 1, position + energies[k] as real);
    }
  }

  /** Dated prices price an interval exactly when each bucket with energy, and the first one, has exactly one of them. */
  lemma {:induction false} DatedRatePrices(rate: Rate, ctx: Context, start: int, end: int, energy: int)
    requires rate.dated != [] && NonNegativePrices(rate) && InVersion(rate, start, end) && energy >= 0 && ctx.position >= 0.0
    ensures |Bounds(rate, start, end)| >= 2 && Sum(Durations(Bounds(rate, start, end))) > 0
    ensures var bounds, bill := Bounds(rate, start, end), PriceInterval(rate, ctx, start, end, energy);
            var energies := Energies(bounds, energy);
            var marginal := MarginalFrom(rate, ctx, bounds, energies, 0, ctx.position);
            && (bill.Some? <==> forall k :: 0 <= k < |energies| && (k == 0 || energies[k] > 0) ==> OneDatedPrice(rate, bounds[k]))
            && (bill.Some? ==> marginal.Some? && bill.value.cost == HalfEven(marginal.value))
  {
    var bounds := Bounds(rate, start, end);
    BoundsAscend(rate, start, end);
    BucketsConserveEnergy(bounds, energy);
    var energies := Energies(bounds, energy);
    assert bounds[0] < bounds[1];
    DatedBucketsAreSteady(rate, ctx, start, end);
    SlicingIsMarginal(rate, ctx, start, end, energy);
    NonNegativeSlices(rate, ctx, start, end, energy);
    BillMeans(rate, ctx, start, end, energy);
    DatedBuckets(rate, ctx, bounds, energies, 0, ctx.position);
    SameDatedPrice(rate, start, end, 0, FirstMiddle(rate, start, end));
    DatedFirst(rate, ctx, FirstMiddle(rate, start, end));
    FirstMeans(rate, ctx, start, end, energy);
    assert StartsEmpty(rate, start, end, energy) <==> energies[0] == 0;
    assert OneDatedPrice(rate, FirstMiddle(rate, start, end)) <==> OneDatedPrice(rate, bounds[0]);
    hide *;
  }

  lemma {:induction false} DatedFirst(rate: Rate, ctx: Context, t: int)
    requires rate.dated != []
    ensures (var tier := PeriodFor(rate, ctx, t, ctx.position, false); tier.Some? && Advances(tier.value, ctx.position)) <==> OneDatedPrice(rate, t)
  {
  }
}
