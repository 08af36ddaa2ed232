/**
 Accepted rate drafts in front of the engine (backend/app/schemas/billing.py, backend/app/routes/billing.py). A bill import
 publishes a draft's periods without the publication check of the rate workflow, so the draft check alone has to carry them.
 */
module DraftSchedules {
  import opened Outcomes
  import opened Sums
  import opened Sorting
  import opened TierSpans
  import opened PeriodResolution
  import RateSchedule
  import CostEngine

  function SeasonCode(s: RateSchedule.Season): int {
    match s
    case Summer => 0
    case Winter => 1
  }

  function DayCode(d: RateSchedule.DayType): Option<int> {
    match d
    case Weekday => WEEKDAY
    case Weekend => WEEKEND
    case Holiday => HOLIDAY
  }

  /** The stored period of a draft period, with its inclusive upper bound. */
  function StoredPeriod(p: RateSchedule.Period): Period {
    Period(if p.season.Some? then Some(SeasonCode(p.season.value)) else None, if p.day.Some? then DayCode(p.day.value) else ALL_DAYS,
           p.startMinute, p.endMinute, 0.0, p.tier, true, false)
  }

  function StoredPeriods(periods: seq<RateSchedule.Period>): seq<Period> {
    if periods == [] then [] else [StoredPeriod(periods[0])] + StoredPeriods(periods[1..])
  }

  function MomentOf(q: RateSchedule.Query): Moment {
    Moment(SeasonCode(q.season), [DayCode(q.day), ALL_DAYS], q.minute)
  }

  /** The stored rate and a context without thresholds. */
  function RateOf(periods: seq<RateSchedule.Period>): Rate {
    Rate(StoredPeriods(periods), [], (t: int) => None, None, None, None, true, 0.0, 0.0, 0.0, 0, None)
  }

  const PLAIN := Context(0.0, 0.0, false, None, None, None, true)

  function TierOf(p: RateSchedule.Period): Tier {
    Tier(StoredPeriod(p), p.tier)
  }

  /** The draft period matches the query apart from usage. */
  predicate Matches(p: RateSchedule.Period, q: RateSchedule.Query) {
    && (p.season == Some(q.season) || p.season.None?)
    && (p.day == Some(q.day) || p.day.None?)
    && p.startMinute <= q.minute < p.endMinute
  }

  // ----- the same matches, the same ranks -----

  lemma {:induction false} SameMatches(p: RateSchedule.Period, q: RateSchedule.Query)
    ensures InTime(StoredPeriod(p), MomentOf(q)) <==> Matches(p, q)
    ensures RateSchedule.Applies(p, q) <==> Matches(p, q) && Covers(p.tier, q.kwh)
  {
  }

  /** The draft check ranks by the sum of season and day, the engine by season first: a larger sum is a higher rank. */
  lemma {:induction false} HigherSumHigherRank(p: RateSchedule.Period, r: RateSchedule.Period, q: RateSchedule.Query)
    requires Matches(p, q) && Matches(r, q)
    ensures RateSchedule.Specificity(p, q) < RateSchedule.Specificity(r, q) ==> Level(StoredPeriod(p), MomentOf(q)) < Level(StoredPeriod(r), MomentOf(q))
    ensures Level(StoredPeriod(p), MomentOf(q)) == Level(StoredPeriod(r), MomentOf(q)) ==> RateSchedule.Specificity(p, q) == RateSchedule.Specificity(r, q)
  {
    RankOf(p, q);
    RankOf(r, q);
    hide Level;
  }

  lemma {:induction false} RankOf(p: RateSchedule.Period, q: RateSchedule.Query)
    requires Matches(p, q)
    ensures Level(StoredPeriod(p), MomentOf(q))
         == (if p.season == Some(q.season) then 3 else 0) + (if p.day == Some(q.day) then 2 else 1)
  {
    var m := MomentOf(q);
    assert m.days[0] == DayCode(q.day) && m.days[1..] == [ALL_DAYS];
    assert IndexOf(m.days, DayCode(q.day)) == 0;
    assert IndexOf([ALL_DAYS], ALL_DAYS) == 0;
    assert DayCode(q.day) != ALL_DAYS ==> IndexOf(m.days, ALL_DAYS) == 1 + IndexOf(m.days[1..], ALL_DAYS);
  }

  // ----- the engine's candidates -----

  function MatchingTiers(periods: seq<RateSchedule.Period>, q: RateSchedule.Query): seq<Tier> {
    if periods == [] then []
    else (if Matches(periods[0], q) then [TierOf(periods[0])] else []) + MatchingTiers(periods[1..], q)
  }

  lemma {:induction false} TiersAreMatching(rate: Rate, periods: seq<RateSchedule.Period>, q: RateSchedule.Query)
    requires rate.perDay.None?
    ensures TiersInTime(rate, PLAIN, StoredPeriods(periods), MomentOf(q)) == Some(MatchingTiers(periods, q))
  {
    if periods != [] {
      TiersAreMatching(rate, periods[1..], q);
      SameMatches(periods[0], q);
      assert StoredPeriods(periods)[1..] == StoredPeriods(periods[1..]);
      assert EffectiveTier(rate, PLAIN, StoredPeriod(periods[0])) == Some(TierOf(periods[0]));
      hide InTime, Matches, EffectiveTier, StoredPeriod;
      assert [] + MatchingTiers(periods[1..], q) == MatchingTiers(periods[1..], q);
    }
  }

  lemma {:induction false} MatchingMembers(periods: seq<RateSchedule.Period>, q: RateSchedule.Query, t: Tier)
    ensures t in MatchingTiers(periods, q) <==> exists i :: 0 <= i < |periods| && Matches(periods[i], q) && TierOf(periods[i]) == t
  {
    hide Matches, TierOf;
    if periods != [] {
      MatchingMembers(periods[1..], q, t);
      assert forall i :: 0 < i < |periods| ==> periods[i] == periods[1..][i - 1];
      if i :| 0 <= i < |periods[1..]| && Matches(periods[1..][i], q) && TierOf(periods[1..][i]) == t {
        assert periods[i + 1] == periods[1..][i];
      }
    }
  }

  /** A matching period ends exactly at the usage. */
  predicate Ends(p: RateSchedule.Period, q: RateSchedule.Query) {
    Matches(p, q) && p.tier.end == Some(q.kwh)
  }

  function RankOver(q: RateSchedule.Query): RateSchedule.Period -> int {
    (p: RateSchedule.Period) => Level(StoredPeriod(p), MomentOf(q))
  }

  /** What the engine keeps: matching periods that cover the usage or end there, of one rank. */
  predicate Kept(p: RateSchedule.Period, q: RateSchedule.Query, level: int) {
    Matches(p, q) && (Covers(p.tier, q.kwh) || p.tier.end == Some(q.kwh)) && RankOver(q)(p) == level
  }

  function KeptAt(q: RateSchedule.Query, level: int): RateSchedule.Period -> bool {
    (p: RateSchedule.Period) => Kept(p, q, level)
  }

  function TiersOf(periods: seq<RateSchedule.Period>): seq<Tier> {
    if periods == [] then [] else [TierOf(periods[0])] + TiersOf(periods[1..])
  }

  /** The engine's admitted tiers of a rank, as draft periods. */
  lemma {:induction false} AdmittedAtRank(rate: Rate, periods: seq<RateSchedule.Period>, q: RateSchedule.Query, level: int)
    requires rate.inclusive && RateSchedule.AllOrdered(periods)
    ensures Filter(Filter(MatchingTiers(periods, q), Admits(rate, PLAIN, q.kwh)), AtLevel(MomentOf(q), level)) == TiersOf(Filter(periods, KeptAt(q, level)))
  {
    if periods != [] {
      var rest := periods[1..];
      AdmittedAtRank(rate, rest, q, level);
      var head := if Matches(periods[0], q) then [TierOf(periods[0])] else [];
      FilterConcat(head, MatchingTiers(rest, q), Admits(rate, PLAIN, q.kwh));
      FilterConcat(Filter(head, Admits(rate, PLAIN, q.kwh)), Filter(MatchingTiers(rest, q), Admits(rate, PLAIN, q.kwh)), AtLevel(MomentOf(q), level));
      HeadIsKept(rate, periods[0], q, level);
      hide Matches, Admits, AtLevel, KeptAt;
      var kept := Filter(rest, KeptAt(q, level));
      assert ([periods[0]] + kept)[1..] == kept;
      assert Filter(periods, KeptAt(q, level)) == (if KeptAt(q, level)(periods[0]) then [periods[0]] + kept else kept);
    }
  }

  lemma {:induction false} HeadIsKept(rate: Rate, p: RateSchedule.Period, q: RateSchedule.Query, level: int)
    requires rate.inclusive && RateSchedule.Ordered(p)
    ensures var head := if Matches(p, q) then [TierOf(p)] else [];
            Filter(Filter(head, Admits(rate, PLAIN, q.kwh)), AtLevel(MomentOf(q), level)) == (if KeptAt(q, level)(p) then [TierOf(p)] else [])
  {
    if Matches(p, q) {
      AdmittedMeans(rate, PLAIN, TierOf(p), q.kwh);
      assert [TierOf(p)][1..] == [];
      hide Matches, Level, Covers, Admits;
    }
  }

  lemma {:induction false} TiersOfOne(p: RateSchedule.Period)
    ensures TiersOf([p]) == [TierOf(p)]
  {
  }

  lemma {:induction false} TiersOfTwo(p: RateSchedule.Period, r: RateSchedule.Period)
    ensures TiersOf([p, r]) == [TierOf(p), TierOf(r)]
  {
    assert [p, r][1..] == [r];
    TiersOfOne(r);
  }

  /** The highest rank among the admitted tiers. */
  lemma {:induction false} AdmittedTop(rate: Rate, periods: seq<RateSchedule.Period>, q: RateSchedule.Query, w: int)
    requires rate.inclusive && RateSchedule.AllOrdered(periods) && 0 <= w < |periods| && RateSchedule.Applies(periods[w], q)
    requires forall j :: 0 <= j < |periods| && (RateSchedule.Applies(periods[j], q) || Ends(periods[j], q)) ==> RankOver(q)(periods[j]) <= RankOver(q)(periods[w])
    ensures var admitted := Filter(MatchingTiers(periods, q), Admits(rate, PLAIN, q.kwh));
            admitted != [] && MaxOf(admitted, Levels(MomentOf(q))) == RankOver(q)(periods[w])
  {
    var tiers, keep, m := MatchingTiers(periods, q), Admits(rate, PLAIN, q.kwh), MomentOf(q);
    var admitted, winner := Filter(tiers, keep), TierOf(periods[w]);
    SameMatches(periods[w], q);
    MatchingMembers(periods, q, winner);
    FilterMembers(tiers, keep);
    AdmittedMeans(rate, PLAIN, winner, q.kwh);
    assert winner in admitted;
    MaxIsReached(admitted, Levels(m));
    hide Level, Matches, Covers;
    forall t | t in admitted ensures Levels(m)(t) <= RankOver(q)(periods[w]) {
      MatchingMembers(periods, q, t);
      var j :| 0 <= j < |periods| && Matches(periods[j], q) && TierOf(periods[j]) == t;
      assert RateSchedule.Ordered(periods[j]);
      AdmittedMeans(rate, PLAIN, t, q.kwh);
      SameMatches(periods[j], q);
    }
  }

  // ----- just below a bound -----

  /** The draft check passed for the query's season, day and minute, at every usage. */
  ghost predicate AcceptedAt(periods: seq<RateSchedule.Period>, q: RateSchedule.Query) {
    forall kwh: real :: kwh >= 0.0 ==> ResolvesAt(periods, q, kwh)
  }

  ghost predicate ResolvesAt(periods: seq<RateSchedule.Period>, q: RateSchedule.Query, kwh: real) {
    RateSchedule.ResolvesOnce(periods, q.(kwh := kwh))
  }

  lemma {:induction false} AcceptedDraft(periods: seq<RateSchedule.Period>, seasons: seq<RateSchedule.Season>, q: RateSchedule.Query)
    requires RateSchedule.Resolves(periods, seasons) && q.season in seasons && 0 <= q.minute < 1440
    ensures AcceptedAt(periods, q)
  {
    hide RateSchedule.ResolvesOnce;
  }

  /** A period that starts below the usage and does not end below it. */
  predicate Reaches(p: RateSchedule.Period, q: RateSchedule.Query) {
    Matches(p, q) && p.tier.start < q.kwh && (p.tier.end.None? || p.tier.end.value >= q.kwh)
  }

  /** A usage just below: whatever reaches the given usage applies there, and nothing else does. */
  lemma {:induction false} JustBelow(periods: seq<RateSchedule.Period>, q: RateSchedule.Query, i: nat) returns (below: real)
    requires RateSchedule.AllOrdered(periods) && i < |periods| && Reaches(periods[i], q)
    ensures 0.0 <= below < q.kwh
    ensures forall j :: 0 <= j < |periods| ==> (RateSchedule.Applies(periods[j], q.(kwh := below)) <==> Reaches(periods[j], q))
  {
    var tiers := TiersOf(periods);
    TiersOfAt(periods);
    var lower := set b | b in BoundList(tiers) && b < q.kwh;
    var geq := (a: real, b: real) => a >= b;
    assert RateSchedule.Ordered(periods[i]);
    TierBounds(tiers, i);
    BoundListHolds(tiers, tiers[i].span.start);
    BoundListHolds(tiers, 0.0);
    assert 0.0 in lower;
    below := LeastExists(lower, geq);
    assert geq(below, 0.0);
    forall b | b in lower ensures b <= below {
      assert geq(below, b);
    }
    forall j | 0 <= j < |periods| ensures RateSchedule.Applies(periods[j], q.(kwh := below)) <==> Reaches(periods[j], q) {
      var span := periods[j].tier;
      assert tiers[j].span == span;
      TierBounds(tiers, j);
      BoundListHolds(tiers, span.start);
      assert span.start < q.kwh <==> span.start <= below by {
        assert span.start < q.kwh ==> span.start in lower;
      }
      if span.end.Some? {
        BoundListHolds(tiers, span.end.value);
        assert span.end.value < q.kwh ==> span.end.value in lower;
        assert span.end.value >= q.kwh <==> below < span.end.value;
      }
      SameMatches(periods[j], q.(kwh := below));
      assert Matches(periods[j], q.(kwh := below)) <==> Matches(periods[j], q);
    }
  }

  lemma {:induction false} TiersOfAt(periods: seq<RateSchedule.Period>)
    ensures |TiersOf(periods)| == |periods| && forall i :: 0 <= i < |periods| ==> TiersOf(periods)[i] == TierOf(periods[i])
  {
    hide TierOf;
    if periods != [] {
      TiersOfAt(periods[1..]);
    }
  }

  /** Two periods of one rank that both reach a bound are outranked by a third that does. */
  lemma {:induction false} OutrankedBelow(periods: seq<RateSchedule.Period>, q: RateSchedule.Query, i: nat, j: nat) returns (z: int)
    requires RateSchedule.AllOrdered(periods) && AcceptedAt(periods, q) && i < |periods| && j < |periods| && i != j
    requires Reaches(periods[i], q) && Reaches(periods[j], q) && RankOver(q)(periods[i]) == RankOver(q)(periods[j])
    ensures 0 <= z < |periods| && Reaches(periods[z], q) && RateSchedule.Specificity(periods[z], q) > RateSchedule.Specificity(periods[i], q)
  {
    var below := JustBelow(periods, q, i);
    var lower := q.(kwh := below);
    HigherSumHigherRank(periods[i], periods[j], q);
    hide RateSchedule.Applies, RateSchedule.AllOrdered, Reaches, Level;
    assert ResolvesAt(periods, q, below);
    z :| RateSchedule.Wins(periods, lower, z);
    assert RateSchedule.Specificity(periods[i], lower) == RateSchedule.Specificity(periods[i], q);
    assert RateSchedule.Specificity(periods[j], lower) == RateSchedule.Specificity(periods[j], q);
    assert RateSchedule.Specificity(periods[z], lower) == RateSchedule.Specificity(periods[z], q);
  }

  /** No period that ends at the usage outranks the winner there. */
  ghost predicate NoneOutranks(periods: seq<RateSchedule.Period>, q: RateSchedule.Query, w: int)
    requires 0 <= w < |periods|
  {
    forall j :: 0 <= j < |periods| && Ends(periods[j], q) ==> RankOver(q)(periods[j]) <= RankOver(q)(periods[w])
  }

  /** What outranks the winner and reaches the usage ends there. */
  lemma {:induction false} OutrankerEnds(periods: seq<RateSchedule.Period>, q: RateSchedule.Query, w: int, z: int)
    requires RateSchedule.Wins(periods, q, w) && 0 <= z < |periods| && Reaches(periods[z], q)
    requires RateSchedule.Specificity(periods[z], q) > RateSchedule.Specificity(periods[w], q)
    ensures Ends(periods[z], q) && RankOver(q)(periods[z]) > RankOver(q)(periods[w])
  {
    SameMatches(periods[z], q);
    SameMatches(periods[w], q);
    assert !RateSchedule.Applies(periods[z], q);
    HigherSumHigherRank(periods[w], periods[z], q);
  }

  /** Beside an unbeaten winner at most one period of its rank ends there, and then the winner starts there. */
  lemma {:induction false} EnderBeside(periods: seq<RateSchedule.Period>, q: RateSchedule.Query, w: int, j: int)
    requires RateSchedule.AllOrdered(periods) && AcceptedAt(periods, q) && RateSchedule.Wins(periods, q, w) && NoneOutranks(periods, q, w)
    requires 0 <= j < |periods| && Ends(periods[j], q) && RankOver(q)(periods[j]) == RankOver(q)(periods[w])
    ensures j != w && periods[w].tier.start == q.kwh
    ensures forall k :: 0 <= k < |periods| && Ends(periods[k], q) && RankOver(q)(periods[k]) == RankOver(q)(periods[w]) ==> k == j
  {
    SameMatches(periods[w], q);
    assert RateSchedule.Ordered(periods[j]) && RateSchedule.Ordered(periods[w]);
    assert Reaches(periods[j], q);
    HigherSumHigherRank(periods[j], periods[w], q);
    hide Level, Matches;
    if periods[w].tier.start < q.kwh {
      var z := OutrankedBelow(periods, q, w, j);
      OutrankerEnds(periods, q, w, z);
    }
    forall k | 0 <= k < |periods| && Ends(periods[k], q) && RankOver(q)(periods[k]) == RankOver(q)(periods[w]) ensures k == j {
      assert RateSchedule.Ordered(periods[k]);
      assert Reaches(periods[k], q);
      if k != j {
        var z := OutrankedBelow(periods, q, j, k);
        OutrankerEnds(periods, q, w, z);
      }
    }
  }

  // ----- the exact condition -----

  lemma {:induction false} KeptMeans(periods: seq<RateSchedule.Period>, q: RateSchedule.Query, w: int, j: int)
    requires RateSchedule.Wins(periods, q, w) && 0 <= j < |periods|
    ensures KeptAt(q, RankOver(q)(periods[w]))(periods[j]) <==> j == w || (Ends(periods[j], q) && RankOver(q)(periods[j]) == RankOver(q)(periods[w]))
  {
    SameMatches(periods[j], q);
    SameMatches(periods[w], q);
    if Matches(periods[j], q) {
      HigherSumHigherRank(periods[j], periods[w], q);
    }
    hide Level;
  }

  /** The engine's candidates at the winner's rank. */
  lemma {:induction false} LeadingCandidates(rate: Rate, periods: seq<RateSchedule.Period>, q: RateSchedule.Query, w: int)
    requires rate == RateOf(periods) && RateSchedule.AllOrdered(periods) && RateSchedule.Wins(periods, q, w) && NoneOutranks(periods, q, w)
    ensures ScheduledTier(rate, PLAIN, MomentOf(q), q.kwh, true)
         == Pick(rate, PLAIN, TiersOf(Filter(periods, KeptAt(q, RankOver(q)(periods[w])))), q.kwh, true)
  {
    var level := RankOver(q)(periods[w]);
    TiersAreMatching(rate, periods, q);
    forall j | 0 <= j < |periods| && RateSchedule.Applies(periods[j], q) ensures RankOver(q)(periods[j]) <= level {
      SameMatches(periods[j], q);
      SameMatches(periods[w], q);
      HigherSumHigherRank(periods[j], periods[w], q);
    }
    AdmittedTop(rate, periods, q, w);
    AdmittedAtRank(rate, periods, q, level);
    hide Level, Matches, Pick, Admits, TiersInTime, Filter, MaxOf, AtLevel;
  }

  /** An unbeaten winner is what the engine resolves for new energy. */
  lemma {:induction false} UnbeatenWinnerResolves(periods: seq<RateSchedule.Period>, q: RateSchedule.Query, w: int)
    requires RateSchedule.AllOrdered(periods) && AcceptedAt(periods, q) && RateSchedule.Wins(periods, q, w) && NoneOutranks(periods, q, w)
    ensures ScheduledTier(RateOf(periods), PLAIN, MomentOf(q), q.kwh, true) == Some(TierOf(periods[w]))
  {
    var rate, keep := RateOf(periods), KeptAt(q, RankOver(q)(periods[w]));
    LeadingCandidates(rate, periods, q, w);
    forall j | 0 <= j < |periods| ensures keep(periods[j]) <==> j == w || (Ends(periods[j], q) && RankOver(q)(periods[j]) == RankOver(q)(periods[w])) {
      KeptMeans(periods, q, w, j);
    }
    hide RankOver, KeptAt, Kept, ScheduledTier, AcceptedAt, NoneOutranks;
    if j :| 0 <= j < |periods| && Ends(periods[j], q) && RankOver(q)(periods[j]) == RankOver(q)(periods[w]) {
      EnderBeside(periods, q, w, j);
      assert RateSchedule.Ordered(periods[j]);
      if w < j {
        FilterTwo(periods, keep, w, j);
        TiersOfTwo(periods[w], periods[j]);
      } else {
        FilterTwo(periods, keep, j, w);
        TiersOfTwo(periods[j], periods[w]);
      }
    } else {
      FilterOne(periods, keep, w);
      TiersOfOne(periods[w]);
    }
  }

  /** A higher-ranked period that ends at the usage keeps the engine from the winner. */
  lemma {:induction false} BeatenWinnerIsMissed(periods: seq<RateSchedule.Period>, q: RateSchedule.Query, w: int, j: int)
    requires RateSchedule.AllOrdered(periods) && 0 <= w < |periods| && 0 <= j < |periods|
    requires Ends(periods[j], q) && RankOver(q)(periods[j]) > RankOver(q)(periods[w])
    ensures ScheduledTier(RateOf(periods), PLAIN, MomentOf(q), q.kwh, true) != Some(TierOf(periods[w]))
  {
    var rate, m := RateOf(periods), MomentOf(q);
    var tiers, keep := MatchingTiers(periods, q), Admits(rate, PLAIN, q.kwh);
    var admitted, ender := Filter(tiers, keep), TierOf(periods[j]);
    TiersAreMatching(rate, periods, q);
    MatchingMembers(periods, q, ender);
    assert RateSchedule.Ordered(periods[j]);
    AdmittedMeans(rate, PLAIN, ender, q.kwh);
    FilterMembers(tiers, keep);
    assert ender in admitted;
    MaxIsReached(admitted, Levels(m));
    FilterMembers(admitted, AtLevel(m, MaxOf(admitted, Levels(m))));
    hide Level, Matches, Admits, Filter, MaxOf, TiersInTime;
    var resolved := ScheduledTier(rate, PLAIN, m, q.kwh, true);
    assert resolved.Some? ==> resolved.value in Leading(admitted, m);
  }

  /**
   Which accepted drafts the engine resolves for new energy: at the draft check's winner exactly when no higher-ranked period
   ends at that usage.
   */
  lemma {:induction false} DraftResolvesExactly(periods: seq<RateSchedule.Period>, q: RateSchedule.Query, w: int)
    requires RateSchedule.AllOrdered(periods) && AcceptedAt(periods, q) && RateSchedule.Wins(periods, q, w)
    ensures ScheduledTier(RateOf(periods), PLAIN, MomentOf(q), q.kwh, true) == Some(TierOf(periods[w])) <==> NoneOutranks(periods, q, w)
  {
    if NoneOutranks(periods, q, w) {
      UnbeatenWinnerResolves(periods, q, w);
    } else {
      var j :| 0 <= j < |periods| && Ends(periods[j], q) && RankOver(q)(periods[j]) > RankOver(q)(periods[w]);
      BeatenWinnerIsMissed(periods, q, w, j);
    }
  }

  /** A winner stays the winner at a higher usage it covers exactly when no period that applies there is more specific. */
  lemma {:induction false} WinnerStaysExactly(periods: seq<RateSchedule.Period>, q: RateSchedule.Query, w: int, kwh: real)
    requires AcceptedAt(periods, q) && RateSchedule.Wins(periods, q, w) && 0.0 <= kwh && Covers(periods[w].tier, kwh)
    ensures RateSchedule.Wins(periods, q.(kwh := kwh), w)
       <==> forall j :: 0 <= j < |periods| && RateSchedule.Applies(periods[j], q.(kwh := kwh))
                  ==> RateSchedule.Specificity(periods[j], q) <= RateSchedule.Specificity(periods[w], q)
  {
    var there := q.(kwh := kwh);
    assert forall j :: 0 <= j < |periods| ==> RateSchedule.Specificity(periods[j], there) == RateSchedule.Specificity(periods[j], q);
    assert ResolvesAt(periods, q, kwh);
    var z :| RateSchedule.Wins(periods, there, z);
    assert RateSchedule.Applies(periods[w], there);
  }

  // ----- an accepted draft the engine does not resolve -----

  const BOUND := 1_000_000.0

  /** A summer tier below the bound, an all-season tier above it. */
  function SteppedDraft(): seq<RateSchedule.Period> {
    [RateSchedule.Period(Some(RateSchedule.Summer), None, 0, 1440, Span(0.0, Some(BOUND))),
     RateSchedule.Period(None, None, 0, 1440, Span(BOUND, None))]
  }

  lemma {:induction false} SteppedDraftIsAccepted()
    ensures RateSchedule.AllOrdered(SteppedDraft()) && RateSchedule.Resolves(SteppedDraft(), [RateSchedule.Summer])
  {
    var periods := SteppedDraft();
    forall q: RateSchedule.Query | q.season in [RateSchedule.Summer] && 0 <= q.minute < 1440 && q.kwh >= 0.0 ensures RateSchedule.ResolvesOnce(periods, q) {
      assert RateSchedule.Wins(periods, q, if q.kwh < BOUND then 0 else 1);
    }
  }

  /** At the bound the draft check counts on the upper tier, and the engine does not resolve it. */
  lemma {:induction false} SteppedDraftIsMissed(q: RateSchedule.Query)
    requires q.season == RateSchedule.Summer && 0 <= q.minute < 1440 && q.kwh == BOUND
    ensures RateSchedule.Wins(SteppedDraft(), q, 1)
    ensures ScheduledTier(RateOf(SteppedDraft()), PLAIN, MomentOf(q), BOUND, true) != Some(TierOf(SteppedDraft()[1]))
  {
    var periods := SteppedDraft();
    SteppedDraftIsAccepted();
    AcceptedDraft(periods, [RateSchedule.Summer], q);
    assert RateSchedule.Wins(periods, q, 1);
    assert Ends(periods[0], q);
    RankOf(periods[0], q);
    RankOf(periods[1], q);
    BeatenWinnerIsMissed(periods, q, 1, 0);
  }

  // ----- an accepted draft the engine does not split -----

  /** One price everywhere, and another in summer above the bound. */
  function OverlaidDraft(): seq<RateSchedule.Period> {
    [RateSchedule.Period(None, None, 0, 1440, Span(0.0, None)),
     RateSchedule.Period(Some(RateSchedule.Summer), None, 0, 1440, Span(BOUND, None))]
  }

  lemma {:induction false} OverlaidDraftIsAccepted()
    ensures RateSchedule.AllOrdered(OverlaidDraft()) && RateSchedule.Resolves(OverlaidDraft(), [RateSchedule.Summer])
  {
    var periods := OverlaidDraft();
    forall q: RateSchedule.Query | q.season in [RateSchedule.Summer] && 0 <= q.minute < 1440 && q.kwh >= 0.0 ensures RateSchedule.ResolvesOnce(periods, q) {
      assert RateSchedule.Wins(periods, q, if q.kwh < BOUND then 0 else 1);
    }
  }

  /** The engine resolves the summer tier from the bound on, but gives a slice from zero the whole energy, past the bound. */
  lemma {:induction false} OverlaidDraftIsNotSplit(q: RateSchedule.Query, energy: nat)
    requires q.season == RateSchedule.Summer && 0 <= q.minute < 1440
    ensures var rate, lower, upper := RateOf(OverlaidDraft()), TierOf(OverlaidDraft()[0]), TierOf(OverlaidDraft()[1]);
            && ScheduledTier(rate, PLAIN, MomentOf(q), 0.0, true) == Some(lower)
            && ScheduledTier(rate, PLAIN, MomentOf(q), BOUND, true) == Some(upper)
            && CostEngine.SliceEnergy(lower, 0.0, energy) == energy
  {
    var periods := OverlaidDraft();
    var zero, bound := q.(kwh := 0.0), q.(kwh := BOUND);
    OverlaidDraftIsAccepted();
    AcceptedDraft(periods, [RateSchedule.Summer], zero);
    AcceptedDraft(periods, [RateSchedule.Summer], bound);
    assert RateSchedule.Wins(periods, zero, 0) && RateSchedule.Wins(periods, bound, 1);
    UnbeatenWinnerResolves(periods, zero, 0);
    UnbeatenWinnerResolves(periods, bound, 1);
  }
}
