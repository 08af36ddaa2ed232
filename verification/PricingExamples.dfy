/** Inputs that a published schedule refuses. */
module PricingExamples {
  import opened Outcomes
  import opened Sums
  import opened TierSpans
  import opened PeriodResolution
  import opened CostEngine
  import opened PricingLaws
  import opened PublishedPricing

  const KWH := 1_000_000.0

  const DAYS := [WEEKDAY, ALL_DAYS]

  function AllDay(season: Option<int>, price: real, tier: Span, accountBased: bool): Period {
    Period(season, None, 0, 1440, price, tier, true, accountBased)
  }

  /** Below one kWh at 0.20 and above at 0.30. */
  function TwoTiers(season: Option<int>, accountBased: bool): seq<Period> {
    [AllDay(season, 0.2, Span(0.0, Some(KWH)), accountBased), AllDay(season, 0.3, Span(KWH, None), accountBased)]
  }

  function RateOf(periods: seq<Period>, moment: int -> Option<Moment>): Rate {
    Rate(periods, [], moment, None, None, None, true, 0.0, 0.0, 0.0, 0, None)
  }

  function Summer(): int -> Option<Moment> {
    (t: int) => Some(Moment(0, DAYS, 0))
  }

  /** The first minute is summer, everything later winter. */
  function SummerThenWinter(): int -> Option<Moment> {
    (t: int) => Some(Moment(if t / MINUTE <= 0 then 0 else 1, DAYS, 0))
  }

  function ContextOf(position: real, threshold: Option<real>): Context {
    Context(position, 0.0, false, None, threshold, Some(0), true)
  }

  // ----- the schedules pass publication -----

  lemma {:induction false} TwoTierAxis(tiers: seq<Tier>)
    requires |tiers| == 2 && tiers[0].span == Span(0.0, Some(KWH)) && tiers[1].span == Span(KWH, None)
    ensures Axis(tiers)
  {
    forall position: real | position >= 0.0 ensures OwnedOnce(tiers, position) {
      assert OnlyOwner(tiers, position, if position < KWH then 0 else 1);
    }
  }

  /** Two periods in time of one rank lead together. */
  lemma {:induction false} TwoLead(tiers: seq<Tier>, m: Moment)
    requires |tiers| == 2 && Level(tiers[0].period, m) == Level(tiers[1].period, m)
    ensures Leading(tiers, m) == tiers
  {
    hide Level;
    MaxIsReached(tiers, Levels(m));
    assert forall i :: 0 <= i < |tiers| ==> AtLevel(m, MaxOf(tiers, Levels(m)))(tiers[i]);
    FilterAll(tiers, AtLevel(m, MaxOf(tiers, Levels(m))));
  }

  function Stored(periods: seq<Period>): seq<Tier>
    requires |periods| == 2
  {
    [Tier(periods[0], periods[0].tier), Tier(periods[1], periods[1].tier)]
  }

  lemma {:induction false} BothInTime(periods: seq<Period>, m: Moment)
    requires |periods| == 2 && InTime(periods[0], m) && InTime(periods[1], m)
    ensures StoredInTime(periods, m) == Stored(periods)
  {
    hide InTime;
    assert periods[1..] == [periods[1]] && periods[1..][1..] == [];
    assert StoredInTime(periods[1..], m) == [Tier(periods[1], periods[1].tier)] + StoredInTime([], m);
  }

  lemma {:induction false} NoneInTime(periods: seq<Period>, m: Moment)
    requires forall i :: 0 <= i < |periods| ==> !InTime(periods[i], m)
    ensures StoredInTime(periods, m) == []
  {
    if periods != [] {
      NoneInTime(periods[1..], m);
    }
  }

  lemma {:induction false} StoredConcat(a: seq<Period>, b: seq<Period>, m: Moment)
    ensures StoredInTime(a + b, m) == StoredInTime(a, m) + StoredInTime(b, m)
  {
    hide InTime;
    if a == [] {
      assert a + b == b;
    } else {
      StoredConcat(a[1..], b, m);
      assert (a + b)[1..] == a[1..] + b;
      var head := if InTime(a[0], m) then [Tier(a[0], a[0].tier)] else [];
      assert head + (StoredInTime(a[1..], m) + StoredInTime(b, m)) == head + StoredInTime(a[1..], m) + StoredInTime(b, m);
    }
  }

  lemma {:induction false} TwoTiersAreGood(season: Option<int>, accountBased: bool, m: Moment)
    requires (season.None? || season == Some(m.season)) && m.days == DAYS && 0 <= m.minute < 1440
    ensures var tiers := Stored(TwoTiers(season, accountBased));
            StoredInTime(TwoTiers(season, accountBased), m) == tiers && Leading(tiers, m) == tiers && Axis(tiers)
  {
    var periods := TwoTiers(season, accountBased);
    assert InTime(periods[0], m) && InTime(periods[1], m);
    BothInTime(periods, m);
    TwoLead(Stored(periods), m);
    TwoTierAxis(Stored(periods));
  }

  lemma {:induction false} FlatIsGood(accountBased: bool)
    ensures GoodDay(TwoTiers(None, accountBased), 0, DAYS)
  {
    forall minute | 0 <= minute < 1440 ensures GoodAt(TwoTiers(None, accountBased), Moment(0, DAYS, minute)) {
      TwoTiersAreGood(None, accountBased, Moment(0, DAYS, minute));
    }
  }

  function Seasonal(): seq<Period> {
    TwoTiers(Some(0), true) + TwoTiers(Some(1), true)
  }

  lemma {:induction false} OtherSeasonIsOut(season: int, m: Moment)
    requires season != m.season
    ensures StoredInTime(TwoTiers(Some(season), true), m) == []
  {
    NoneInTime(TwoTiers(Some(season), true), m);
  }

  lemma {:induction false} SeasonalTiers(m: Moment)
    requires (m.season == 0 || m.season == 1) && m.days == DAYS && 0 <= m.minute < 1440
    ensures StoredInTime(Seasonal(), m) == Stored(TwoTiers(Some(m.season), true))
  {
    TwoTiersAreGood(Some(m.season), true, m);
    OtherSeasonIsOut(1 - m.season, m);
    StoredConcat(TwoTiers(Some(0), true), TwoTiers(Some(1), true), m);
    hide StoredInTime, TwoTiers, Stored;
  }

  lemma {:induction false} SeasonalIsGood(season: int)
    requires season == 0 || season == 1
    ensures GoodDay(Seasonal(), season, DAYS)
  {
    hide StoredInTime, Seasonal, TwoTiers, Stored, Leading, Axis, DAYS;
    forall minute | 0 <= minute < 1440 ensures GoodAt(Seasonal(), Moment(season, DAYS, minute)) {
      SeasonalTiers(Moment(season, DAYS, minute));
      TwoTiersAreGood(Some(season), true, Moment(season, DAYS, minute));
    }
  }

  lemma {:induction false} FlatIsPublished(accountBased: bool, ctx: Context, start: int, end: int)
    requires accountBased ==> ctx.threshold.Some? && ctx.threshold.value > 0.0
    ensures var rate := RateOf(TwoTiers(None, accountBased), Summer());
            Published(rate, ctx, KWH, start, end) && NonNegativePrices(rate) && (accountBased ==> AccountTiers(rate, ctx, KWH))
  {
    FlatIsGood(accountBased);
  }

  lemma {:induction false} SeasonalPeriods(ctx: Context)
    requires ctx.threshold.Some? && ctx.threshold.value > 0.0
    ensures var rate := RateOf(Seasonal(), SummerThenWinter());
            AllNormal(rate.periods) && NonNegativePrices(rate) && AccountTiers(rate, ctx, KWH)
  {
  }

  lemma {:induction false} SeasonalMoments()
    ensures MinuteMoments(RateOf(Seasonal(), SummerThenWinter()))
  {
    hide Seasonal;
  }

  lemma {:induction false} SeasonalIsChecked(start: int, end: int)
    ensures Checked(RateOf(Seasonal(), SummerThenWinter()), start, end)
  {
    SeasonalIsGood(0);
    SeasonalIsGood(1);
    hide GoodDay, Seasonal;
  }

  lemma {:induction false} SeasonalIsPublished(ctx: Context, start: int, end: int)
    requires ctx.threshold.Some? && ctx.threshold.value > 0.0
    ensures var rate := RateOf(Seasonal(), SummerThenWinter());
            Published(rate, ctx, KWH, start, end) && NonNegativePrices(rate) && AccountTiers(rate, ctx, KWH)
  {
    SeasonalPeriods(ctx);
    SeasonalMoments();
    SeasonalIsChecked(start, end);
    hide Checked, MinuteMoments, AllNormal, NonNegativePrices, Seasonal;
  }

  // ----- one minute -----

  lemma {:induction false} OneMinute(rate: Rate, energy: int)
    requires rate.dated == [] && energy >= 0
    ensures Bounds(rate, 0, MINUTE) == [0, MINUTE] && Sum(Durations([0, MINUTE])) > 0 && Energies([0, MINUTE], energy) == [energy]
  {
    var durations := Durations([0, MINUTE]);
    assert durations == [MINUTE] && durations[1..] == [];
    assert Sum(durations) == MINUTE + Sum(durations[1..]);
    assert SharesFrom(energy, Sum(durations), durations, energy) == [energy] + SharesFrom(energy, Sum(durations), durations[1..], 0);
  }

  lemma {:induction false} MinuteStarts(rate: Rate, energy: int)
    requires rate.dated == [] && energy >= 0
    ensures |Bounds(rate, 0, MINUTE)| >= 2 && Sum(Durations(Bounds(rate, 0, MINUTE))) > 0
    ensures StartsEmpty(rate, 0, MINUTE, energy) <==> energy == 0
  {
    OneMinute(rate, energy);
    hide Bounds, Energies, Durations, Sum;
  }

  // ----- no energy at an inclusive bound -----

  lemma {:induction false} FlatStandsAtTheBound(t: int)
    ensures AtInclusiveEnd(RateOf(TwoTiers(None, false), Summer()), ContextOf(KWH, None), t, KWH)
    ensures WholeEnds(RateOf(TwoTiers(None, false), Summer()), ContextOf(KWH, None)) && Whole(KWH)
    ensures Resolvable(RateOf(TwoTiers(None, false), Summer()), ContextOf(KWH, None), t)
  {
    var rate, ctx := RateOf(TwoTiers(None, false), Summer()), ContextOf(KWH, None);
    var m := rate.moment(t).value;
    TwoTiersAreGood(None, false, m);
    UnresolvedExactly(rate, ctx, rate.periods, m);
    TiersAreMapped(rate, ctx, rate.periods, m);
    MappedAt(Stored(rate.periods), InEffect(rate, ctx));
    var tiers := TiersInTime(rate, ctx, rate.periods, m).value;
    assert tiers == Stored(rate.periods);
    assert LeadAt(rate, ctx, m)[0] in LeadAt(rate, ctx, m);
  }

  /** At the bound, a minute without energy is refused, and a minute with one mWh is priced. */
  lemma {:induction false} EmptyMinuteAtTheBoundIsRefused()
    ensures var rate, ctx := RateOf(TwoTiers(None, false), Summer()), ContextOf(KWH, None);
            PriceInterval(rate, ctx, 0, MINUTE, 0).None? && PriceInterval(rate, ctx, 0, MINUTE, 1).Some?
  {
    var rate, ctx := RateOf(TwoTiers(None, false), Summer()), ContextOf(KWH, None);
    assert rate.dated == [] && InVersion(rate, 0, MINUTE) && ctx.position == KWH >= 0.0;
    hide *;
    FlatIsPublished(false, ctx, 0, MINUTE);
    MinuteStarts(rate, 0);
    MinuteStarts(rate, 1);
    OneMinute(rate, 1);
    OneMinute(rate, 0);
    FlatStandsAtTheBound(0);
    FlatStandsAtTheBound(FirstMiddle(rate, 0, MINUTE));
    WholeRatePrices(rate, ctx, KWH, 0, MINUTE, 0);
    WholeRatePrices(rate, ctx, KWH, 0, MINUTE, 1);
  }

  // ----- a fractional threshold -----

  lemma {:induction false} FlatAccountResolves(ctx: Context, start: int, end: int)
    requires ctx.threshold.Some? && ctx.thresholdSeason.Some?
    ensures AllResolvable(RateOf(TwoTiers(None, true), Summer()), ctx, start, end)
  {
    var rate := RateOf(TwoTiers(None, true), Summer());
    forall t | start <= t < end ensures Resolvable(rate, ctx, t) {
      UnresolvedExactly(rate, ctx, rate.periods, rate.moment(t).value);
    }
  }

  /** A daily allowance of 10.00000001 kWh gives 300000000.3 mWh in 30 days: the mWh that crosses it is refused, the one below is not. */
  lemma {:induction false} FractionalThresholdIsRefused()
    ensures var rate := RateOf(TwoTiers(None, true), Summer());
            && PriceInterval(rate, ContextOf(300_000_000.0, Some(300_000_000.3)), 0, MINUTE, 1).None?
            && PriceInterval(rate, ContextOf(299_999_999.0, Some(300_000_000.3)), 0, MINUTE, 1).Some?
  {
    var rate, at, below := RateOf(TwoTiers(None, true), Summer()), ContextOf(300_000_000.0, Some(300_000_000.3)), ContextOf(299_999_999.0, Some(300_000_000.3));
    assert rate.dated == [] && InVersion(rate, 0, MINUTE);
    FloorOfThreshold();
    assert at.position == 300_000_000.0 && below.position == 299_999_999.0 && at.threshold == below.threshold == Some(300_000_000.3);
    FlatIsPublished(true, at, 0, MINUTE);
    FlatIsPublished(true, below, 0, MINUTE);
    FlatAccountResolves(at, 0, MINUTE);
    FlatAccountResolves(below, 0, MINUTE);
    hide *;
    MinuteStarts(rate, 1);
    AccountRatePrices(rate, at, KWH, 0, MINUTE, 1);
    AccountRatePrices(rate, below, KWH, 0, MINUTE, 1);
  }

  lemma {:induction false} FloorOfThreshold()
    ensures 300_000_000.3.Floor == 300_000_000 && !Whole(300_000_000.3)
    ensures 300_000_000.0.Floor == 300_000_000 && Whole(300_000_000.0) && 299_999_999.0.Floor == 299_999_999 && Whole(299_999_999.0)
  {
  }

  // ----- a season change -----

  lemma {:induction false} WinterDoesNotResolve(ctx: Context)
    requires ctx.thresholdSeason == Some(0)
    ensures !Resolvable(RateOf(Seasonal(), SummerThenWinter()), ctx, MINUTE)
  {
    var rate := RateOf(Seasonal(), SummerThenWinter());
    var m := rate.moment(MINUTE).value;
    assert MINUTE / MINUTE == 1;
    assert InTime(rate.periods[2], m) && Unresolvable(ctx, rate.periods[2]);
    UnresolvedExactly(rate, ctx, rate.periods, m);
  }

  lemma {:induction false} TwoMinutes(rate: Rate)
    requires rate.dated == []
    ensures Bounds(rate, 0, 2 * MINUTE) == [0, MINUTE, 2 * MINUTE]
    ensures Sum(Durations([0, MINUTE, 2 * MINUTE])) > 0 && Energies([0, MINUTE, 2 * MINUTE], 2)[1] == 1
  {
    assert MinutePoints(2 * MINUTE, 2 * MINUTE) == [];
    assert MinutePoints(MINUTE, 2 * MINUTE) == [MINUTE] + MinutePoints(2 * MINUTE, 2 * MINUTE);
    var durations := Durations([0, MINUTE, 2 * MINUTE]);
    assert durations == [MINUTE, MINUTE] && durations[1..] == [MINUTE] && durations[1..][1..] == [];
    assert Sum(durations[1..]) == MINUTE + Sum(durations[1..][1..]);
    assert Sum(durations) == MINUTE + Sum(durations[1..]);
    assert SharesFrom(2, 2 * MINUTE, durations, 2) == [1] + SharesFrom(2, 2 * MINUTE, durations[1..], 1);
  }

  /** A seasonal account rate refuses an interval that reaches from the threshold's season into the next. */
  lemma {:induction false} SeasonChangeIsRefused()
    ensures PriceInterval(RateOf(Seasonal(), SummerThenWinter()), ContextOf(0.0, Some(KWH)), 0, 2 * MINUTE, 2).None?
  {
    var rate, ctx := RateOf(Seasonal(), SummerThenWinter()), ContextOf(0.0, Some(KWH));
    assert rate.dated == [] && InVersion(rate, 0, 2 * MINUTE) && ctx.position == 0.0;
    SeasonalIsPublished(ctx, 0, 2 * MINUTE);
    WinterDoesNotResolve(ctx);
    TwoMinutes(rate);
    hide Published, NonNegativePrices, Bounds, Energies, PriceInterval, Resolvable, Sum, Durations, AccountTiers, InVersion;
    PublishedRatePrices(rate, ctx, KWH, 0, 2 * MINUTE, 2);
    assert RefusedUnitAt(rate, ctx, [0, MINUTE, 2 * MINUTE], Energies([0, MINUTE, 2 * MINUTE], 2), ctx.position, 1, 0);
  }
}
