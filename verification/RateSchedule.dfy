/** The rate-draft validator and its finite sampling test (backend/app/schemas/billing.py). */
module RateSchedule {
  import opened Outcomes
  import opened Sums
  import opened Sorting
  import opened TierSpans

  datatype Season = Summer | Winter

  datatype DayType = Weekday | Weekend | Holiday

  /** A period's season or day type; None stands for "all". */
  datatype Period = Period(
    season: Option<Season>, day: Option<DayType>, startMinute: int, endMinute: int, tier: Span)

  datatype ThresholdRule = ThresholdRule(season: Season, kwhPerDay: Option<real>, billingDays: Option<int>)

  datatype Draft = Draft(
    periods: seq<Period>, summerMonths: seq<int>, winterMonths: seq<int>, verified: seq<Season>,
    rule: Option<ThresholdRule>, seasonalTiered: bool, complete: bool)

  datatype DraftError =
    NoPeriods | MonthsDoNotPartition | SeasonsNotUnique | ThresholdSeasonUnverified | ThresholdMissing | ScheduleUnresolved

  /** The field ranges and order that every period has been validated for. */
  predicate Ordered(p: Period) {
    && 0 <= p.startMinute < p.endMinute <= 1440
    && OrderedSpan(p.tier)
  }

  predicate AllOrdered(periods: seq<Period>) {
    forall i :: 0 <= i < |periods| ==> Ordered(periods[i])
  }

  /** A question to the schedule: which period prices this minute at this cumulative usage? */
  datatype Query = Query(season: Season, day: DayType, minute: int, kwh: real)

  predicate Applies(p: Period, q: Query) {
    && (p.season == Some(q.season) || p.season.None?)
    && (p.day == Some(q.day) || p.day.None?)
    && p.startMinute <= q.minute < p.endMinute
    && Covers(p.tier, q.kwh)
  }

  function Specificity(p: Period, q: Query): int {
    (if p.season == Some(q.season) then 1 else 0) + (if p.day == Some(q.day) then 1 else 0)
  }

  /** Exactly one period applies at highest specificity. */
  ghost predicate ResolvesOnce(periods: seq<Period>, q: Query) {
    exists i :: Wins(periods, q, i)
  }

  ghost predicate Wins(periods: seq<Period>, q: Query, i: int) {
    && 0 <= i < |periods| && Applies(periods[i], q)
    && (forall j :: 0 <= j < |periods| && j != i && Applies(periods[j], q)
          ==> Specificity(periods[j], q) < Specificity(periods[i], q))
  }

  /** The schedule resolves once for every verified season, day type, minute and every non-negative usage. */
  ghost predicate Resolves(periods: seq<Period>, seasons: seq<Season>) {
    forall q: Query :: q.season in seasons && 0 <= q.minute < 1440 && q.kwh >= 0.0 ==> ResolvesOnce(periods, q)
  }

  const MONTHS := [1, 2, 3, 4, 5, 6, 7, 8, 9, 10, 11, 12]

  predicate MonthsPartition(d: Draft) {
    multiset(d.summerMonths + d.winterMonths) == multiset(MONTHS)
  }

  predicate SeasonsUnique(seasons: seq<Season>) {
    seasons != [] && forall i, j :: 0 <= i < j < |seasons| ==> seasons[i] != seasons[j]
  }

  /** What validation promises, the schedule claim ranging over all real usages. */
  ghost function Verdict(d: Draft): Result<(), DraftError> {
    if d.periods == [] then Err(NoPeriods)
    else if !MonthsPartition(d) then Err(MonthsDoNotPartition)
    else if !SeasonsUnique(d.verified) then Err(SeasonsNotUnique)
    else if d.rule.Some? && d.rule.value.season !in d.verified then Err(ThresholdSeasonUnverified)
    else if !d.complete then Ok(())
    else if d.seasonalTiered && (d.rule.None? || d.rule.value.kwhPerDay.None? || d.rule.value.billingDays.None?) then
      Err(ThresholdMissing)
    else if !Resolves(d.periods, d.verified) then Err(ScheduleUnresolved)
    else Ok(())
  }

  // ----- the validator -----

  method ValidatePeriodCoverage(d: Draft) returns (r: Result<(), DraftError>)
    requires AllOrdered(d.periods)
    ensures r == Verdict(d)
  {
    hide MonthsPartition, MONTHS, Sort, Resolves, ResolvesAllDay, HoldsBoundaries;
    if d.periods == [] {
      return Err(NoPeriods);
    }
    var months := d.summerMonths + d.winterMonths;
    SortedMonths(d);
    if Sort(months, IntLeq()) != MONTHS {
      return Err(MonthsDoNotPartition);
    }
    var unique := SeasonSetMatches(d.verified);
    if d.verified == [] || !unique {
      return Err(SeasonsNotUnique);
    }
    if d.rule.Some? && d.rule.value.season !in d.verified {
      return Err(ThresholdSeasonUnverified);
    }
    if !d.complete {
      return Ok(());
    }
    if d.seasonalTiered && (d.rule.None? || d.rule.value.kwhPerDay.None? || d.rule.value.billingDays.None?) {
      return Err(ThresholdMissing);
    }
    var _, samples := TierSamples(d.periods);
    var resolved := ScheduleResolves(d.periods, d.verified, samples);
    SamplingDecides(d.periods, d.verified, samples);
    r := if resolved then Ok(()) else Err(ScheduleUnresolved);
  }

  /** len(set(seasons)) == len(seasons), by the first repeated element. */
  method SeasonSetMatches(seasons: seq<Season>) returns (unique: bool)
    ensures unique <==> forall i, j :: 0 <= i < j < |seasons| ==> seasons[i] != seasons[j]
  {
    var seen: set<Season> := {};
    for k := 0 to |seasons|
      invariant forall i, j :: 0 <= i < j < k ==> seasons[i] != seasons[j]
      invariant forall x :: x in seen <==> exists i :: 0 <= i < k && seasons[i] == x
    {
      if seasons[k] in seen {
        return false;
      }
      seen := seen + {seasons[k]};
    }
    unique := true;
  }

  function Midpoints(bounds: seq<real>): seq<real>
    requires bounds != []
  {
    seq(|bounds| - 1, i requires 0 <= i < |bounds| - 1 => (bounds[i] + bounds[i + 1]) / 2.0)
  }

  function Tiers(periods: seq<Period>): (spans: seq<Span>)
    ensures |spans| == |periods| && forall i :: 0 <= i < |periods| ==> spans[i] == periods[i].tier
  {
    seq(|periods|, i requires 0 <= i < |periods| => periods[i].tier)
  }

  /** Every tier boundary in order, the midpoints between neighbours, and a point past the last one. */
  method TierSamples(periods: seq<Period>) returns (ghost bounds: seq<real>, samples: seq<real>)
    requires AllOrdered(periods)
    ensures bounds != [] && Sorted(bounds, RealLeq()) && Distinct(bounds)
    ensures forall t :: t in bounds <==> IsBoundary(Tiers(periods), t)
    ensures samples == bounds + Midpoints(bounds) + [bounds[|bounds| - 1] + 1.0]
    ensures HoldsBoundaries(Tiers(periods), samples)
  {
    hide HoldsBoundaries, IsBoundary, Sorted, Distinct;
    var ordered := Boundaries(Tiers(periods));
    samples := ordered;
    for k := 0 to |ordered| - 1
      invariant samples == ordered + Midpoints(ordered)[..k]
    {
      samples := samples + [(ordered[k] + ordered[k + 1]) / 2.0];
    }
    samples := samples + [ordered[|ordered| - 1] + 1.0];
    bounds := ordered;
    SamplesHoldBoundaries(periods, bounds, samples);
  }

  lemma {:induction false} SamplesHoldBoundaries(periods: seq<Period>, bounds: seq<real>, samples: seq<real>)
    requires AllOrdered(periods) && bounds != [] && (forall t :: t in bounds <==> IsBoundary(Tiers(periods), t))
    requires samples == bounds + Midpoints(bounds) + [bounds[|bounds| - 1] + 1.0]
    ensures HoldsBoundaries(Tiers(periods), samples)
  {
    forall i | 0 <= i < |bounds| ensures bounds[i] >= 0.0 {
      assert bounds[i] in bounds;
    }
    forall t | t in bounds ensures t in samples {
      var i :| 0 <= i < |bounds| && bounds[i] == t;
      assert samples[i] == t;
    }
  }

  ghost predicate ResolvesAt(periods: seq<Period>, season: Season, day: DayType, minute: int, samples: seq<real>) {
    forall k :: 0 <= k < |samples| ==> ResolvesOnce(periods, Query(season, day, minute, samples[k]))
  }

  ghost predicate ResolvesAllDay(periods: seq<Period>, season: Season, day: DayType, samples: seq<real>) {
    forall minute :: 0 <= minute < 1440 ==> ResolvesAt(periods, season, day, minute, samples)
  }

  method ScheduleResolves(periods: seq<Period>, seasons: seq<Season>, samples: seq<real>) returns (ok: bool)
    ensures ok <==> forall i, day :: 0 <= i < |seasons| ==> ResolvesAllDay(periods, seasons[i], day, samples)
  {
    for i := 0 to |seasons|
      invariant forall k, day :: 0 <= k < i ==> ResolvesAllDay(periods, seasons[k], day, samples)
    {
      var weekday := DayResolves(periods, seasons[i], Weekday, samples);
      if !weekday { return false; }
      var weekend := DayResolves(periods, seasons[i], Weekend, samples);
      if !weekend { return false; }
      var holiday := DayResolves(periods, seasons[i], Holiday, samples);
      if !holiday { return false; }
      assert forall day :: ResolvesAllDay(periods, seasons[i], day, samples) by {
        forall day ensures ResolvesAllDay(periods, seasons[i], day, samples) {
          assert day == Weekday || day == Weekend || day == Holiday;
        }
      }
    }
    ok := true;
  }

  method DayResolves(periods: seq<Period>, season: Season, day: DayType, samples: seq<real>) returns (ok: bool)
    ensures ok <==> ResolvesAllDay(periods, season, day, samples)
  {
    for minute := 0 to 1440
      invariant forall m :: 0 <= m < minute ==> ResolvesAt(periods, season, day, m, samples)
    {
      var resolved := MinuteResolves(periods, season, day, minute, samples);
      if !resolved {
        return false;
      }
    }
    ok := true;
  }

  method MinuteResolves(periods: seq<Period>, season: Season, day: DayType, minute: int, samples: seq<real>) returns (ok: bool)
    ensures ok <==> ResolvesAt(periods, season, day, minute, samples)
  {
    for k := 0 to |samples|
      invariant forall i :: 0 <= i < k ==> ResolvesOnce(periods, Query(season, day, minute, samples[i]))
    {
      var remaining := Remaining(periods, Query(season, day, minute, samples[k]));
      RemainingDecides(periods, Query(season, day, minute, samples[k]));
      if |remaining| != 1 {
        return false;
      }
    }
    ok := true;
  }

  // ----- the candidates of one query -----

  function AppliesTo(q: Query): Period -> bool {
    (p: Period) => Applies(p, q)
  }

  function AtSpecificity(q: Query, level: int): Period -> bool {
    (p: Period) => Specificity(p, q) == level
  }

  function AppliesAt(q: Query, level: int): Period -> bool {
    (p: Period) => Applies(p, q) && Specificity(p, q) == level
  }

  function Specificities(q: Query): Period -> int {
    (p: Period) => Specificity(p, q)
  }

  /** The candidates left after keeping the most specific ones. */
  function Remaining(periods: seq<Period>, q: Query): seq<Period> {
    var candidates := Filter(periods, AppliesTo(q));
    if candidates == [] then [] else Filter(candidates, AtSpecificity(q, MaxOf(candidates, Specificities(q))))
  }

  lemma {:induction false} FilterBoth(periods: seq<Period>, q: Query, level: int)
    ensures Filter(Filter(periods, AppliesTo(q)), AtSpecificity(q, level)) == Filter(periods, AppliesAt(q, level))
  {
    if periods != [] {
      var head := if Applies(periods[0], q) then [periods[0]] else [];
      FilterBoth(periods[1..], q, level);
      FilterConcat(head, Filter(periods[1..], AppliesTo(q)), AtSpecificity(q, level));
    }
  }

  /** The list computation leaves one candidate exactly when the schedule resolves once. */
  lemma {:induction false} RemainingDecides(periods: seq<Period>, q: Query)
    ensures |Remaining(periods, q)| == 1 <==> ResolvesOnce(periods, q)
  {
    var candidates := Filter(periods, AppliesTo(q));
    FilterMembers(periods, AppliesTo(q));
    if candidates == [] {
      FilterLeavesNone(periods, AppliesTo(q));
      assert forall i :: 0 <= i < |periods| ==> !AppliesTo(q)(periods[i]);
    } else {
      var level := MaxOf(candidates, Specificities(q));
      FilterBoth(periods, q, level);
      FilterLeavesOne(periods, AppliesAt(q, level));
      MaxIsReached(candidates, Specificities(q));
      forall j | 0 <= j < |periods| && Applies(periods[j], q) ensures Specificity(periods[j], q) <= level {
        assert periods[j] in candidates;
        assert Specificities(q)(periods[j]) <= level;
      }
      if i :| OnlyPosition(periods, AppliesAt(q, level), i) {
        assert Wins(periods, q, i);
      }
      if i :| Wins(periods, q, i) {
        TopIsWinner(periods, q, i, level);
        assert OnlyPosition(periods, AppliesAt(q, level), i);
      }
    }
  }

  lemma {:induction false} TopIsWinner(periods: seq<Period>, q: Query, i: int, level: int)
    requires Wins(periods, q, i) && Filter(periods, AppliesTo(q)) != []
    requires level == MaxOf(Filter(periods, AppliesTo(q)), Specificities(q))
    ensures Specificity(periods[i], q) == level
  {
    var candidates := Filter(periods, AppliesTo(q));
    FilterMembers(periods, AppliesTo(q));
    MaxIsReached(candidates, Specificities(q));
    assert periods[i] in candidates;
    var p :| p in candidates && Specificity(p, q) == level;
    var j :| 0 <= j < |periods| && periods[j] == p;
    assert Applies(periods[j], q);
  }

  // ----- why finitely many samples suffice -----

  lemma {:induction false} SameTiersSameAnswer(periods: seq<Period>, q: Query, kwh: real)
    requires forall i :: 0 <= i < |periods| ==> (Covers(periods[i].tier, kwh) <==> Covers(periods[i].tier, q.kwh))
    ensures ResolvesOnce(periods, q.(kwh := kwh)) <==> ResolvesOnce(periods, q)
  {
    var q' := q.(kwh := kwh);
    forall i ensures Wins(periods, q', i) <==> Wins(periods, q, i) {
      assert forall j :: 0 <= j < |periods| ==> (Applies(periods[j], q') <==> Applies(periods[j], q));
      assert forall j :: 0 <= j < |periods| ==> Specificity(periods[j], q') == Specificity(periods[j], q);
    }
    if i :| Wins(periods, q, i) { assert Wins(periods, q', i); }
    if i :| Wins(periods, q', i) { assert Wins(periods, q, i); }
  }

  /** The sampling theorem: passing at the samples is resolving at every non-negative usage. */
  lemma {:induction false} SamplingDecides(periods: seq<Period>, seasons: seq<Season>, samples: seq<real>)
    requires HoldsBoundaries(Tiers(periods), samples)
    ensures (forall i, day :: 0 <= i < |seasons| ==> ResolvesAllDay(periods, seasons[i], day, samples))
       <==> Resolves(periods, seasons)
  {
    if forall i, day :: 0 <= i < |seasons| ==> ResolvesAllDay(periods, seasons[i], day, samples) {
      forall q: Query | q.season in seasons && 0 <= q.minute < 1440 && q.kwh >= 0.0 ensures ResolvesOnce(periods, q) {
        var t := BoundaryBelow(Tiers(periods), samples, q.kwh);
        SampledAnswer(periods, seasons, samples, q, t);
        SameTiersSameAnswer(periods, q, t);
      }
    }
    if Resolves(periods, seasons) {
      forall i, day | 0 <= i < |seasons| ensures ResolvesAllDay(periods, seasons[i], day, samples) {
        forall minute, k | 0 <= minute < 1440 && 0 <= k < |samples|
          ensures ResolvesOnce(periods, Query(seasons[i], day, minute, samples[k]))
        {
          assert Query(seasons[i], day, minute, samples[k]).season in seasons;
        }
      }
    }
  }

  lemma {:induction false} SampledAnswer(periods: seq<Period>, seasons: seq<Season>, samples: seq<real>, q: Query, t: real)
    requires forall i, day :: 0 <= i < |seasons| ==> ResolvesAllDay(periods, seasons[i], day, samples)
    requires q.season in seasons && 0 <= q.minute < 1440 && t in samples
    ensures ResolvesOnce(periods, q.(kwh := t))
  {
    var i :| 0 <= i < |seasons| && seasons[i] == q.season;
    var k :| 0 <= k < |samples| && samples[k] == t;
    assert ResolvesAllDay(periods, seasons[i], q.day, samples);
    assert ResolvesAt(periods, q.season, q.day, q.minute, samples);
    assert q.(kwh := t) == Query(q.season, q.day, q.minute, samples[k]);
  }

  /** Midpoints and the point past the last boundary never change the answer: any two samplings agree. */
  lemma {:induction false} ExtraSamplesAreRedundant(periods: seq<Period>, seasons: seq<Season>, some: seq<real>, others: seq<real>)
    requires HoldsBoundaries(Tiers(periods), some) && HoldsBoundaries(Tiers(periods), others)
    ensures (forall i, day :: 0 <= i < |seasons| ==> ResolvesAllDay(periods, seasons[i], day, some))
       <==> (forall i, day :: 0 <= i < |seasons| ==> ResolvesAllDay(periods, seasons[i], day, others))
  {
    SamplingDecides(periods, seasons, some);
    SamplingDecides(periods, seasons, others);
  }

  // ----- months -----

  lemma {:induction false} SortedMonths(d: Draft)
    ensures Sort(d.summerMonths + d.winterMonths, IntLeq()) == MONTHS <==> MonthsPartition(d)
  {
    var months, leq := d.summerMonths + d.winterMonths, IntLeq();
    MonthsAreSorted();
    hide MONTHS;
    SortPermutes(months, leq);
    if MonthsPartition(d) {
      SortSorts(months, leq);
      SortedIsUnique(Sort(months, leq), MONTHS, leq);
    }
  }

  lemma {:induction false} MonthsAreSorted()
    ensures Sorted(MONTHS, IntLeq())
  {
    assert forall i :: 0 <= i < |MONTHS| ==> MONTHS[i] == i + 1;
    hide MONTHS;
  }
}
