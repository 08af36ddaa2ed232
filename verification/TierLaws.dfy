/** What the engine's resolution means, in the columns of periods and rates (backend/app/services/cost_engine.py). */
module TierLaws {
  import opened Outcomes
  import opened Sums
  import opened TierSpans
  import opened PeriodResolution

  /** The period is on offer at the moment: its season or all, a day type of the day, and its minutes. */
  ghost predicate Runs(p: Period, m: Moment) {
    && p.season in {None, Some(m.season)}
    && (exists i :: 0 <= i < |m.days| && m.days[i] == p.day)
    && p.startMinute <= m.minute && m.minute < p.endMinute
  }

  /** The season counts first; with equal seasons, the day type that comes first in the day's own order. */
  ghost predicate MoreSpecific(q: Period, p: Period, m: Moment) {
    if (q.season == Some(m.season)) != (p.season == Some(m.season)) then q.season == Some(m.season)
    else exists i :: 0 <= i < |m.days| && m.days[i] == q.day && ListedLater(m.days, i, p.day)
  }

  ghost predicate ListedLater(days: seq<Option<int>>, i: int, d: Option<int>) {
    forall j :: 0 <= j <= i < |days| ==> days[j] != d
  }

  /** The tier ends at the position and period, rate and, for account tiers, the account include that bound. */
  ghost predicate EndsInclusively(rate: Rate, ctx: Context, t: Tier, position: real) {
    && t.span.end == Some(position)
    && t.period.inclusive && rate.inclusive && (t.period.accountBased ==> ctx.inclusive)
  }

  ghost predicate Holds(rate: Rate, ctx: Context, t: Tier, position: real) {
    && t.span.start <= position
    && (t.span.end.None? || position < t.span.end.value || EndsInclusively(rate, ctx, t, position))
  }

  lemma {:induction false} FirstIndex(days: seq<Option<int>>, d: Option<int>)
    requires d in days
    ensures IndexOf(days, d) < |days| && days[IndexOf(days, d)] == d
    ensures forall j :: 0 <= j < IndexOf(days, d) ==> days[j] != d
  {
    if days[0] != d {
      FirstIndex(days[1..], d);
      assert forall j :: 0 < j < |days| ==> days[j] == days[1..][j - 1];
    }
  }

  lemma {:induction false} EarlierDay(days: seq<Option<int>>, d: Option<int>, e: Option<int>)
    requires d in days && e in days
    ensures IndexOf(days, d) < IndexOf(days, e) <==> exists i :: 0 <= i < |days| && days[i] == d && ListedLater(days, i, e)
  {
    FirstIndex(days, d);
    FirstIndex(days, e);
    hide IndexOf;
    if IndexOf(days, d) < IndexOf(days, e) {
      assert ListedLater(days, IndexOf(days, d), e);
    }
  }

  lemma {:induction false} LevelMeans(p: Period, q: Period, m: Moment)
    requires p.day in m.days && q.day in m.days
    ensures Level(p, m) < Level(q, m) <==> MoreSpecific(q, p, m)
  {
    LevelIsLexicographic(p, q, m);
    EarlierDay(m.days, q.day, p.day);
    hide Level, IndexOf;
  }

  lemma {:induction false} TiersAreEffective(rate: Rate, ctx: Context, periods: seq<Period>, m: Moment)
    requires TiersInTime(rate, ctx, periods, m).Some?
    ensures forall t :: t in TiersInTime(rate, ctx, periods, m).value <==>
                          t.period in periods && InTime(t.period, m) && EffectiveTier(rate, ctx, t.period) == Some(t)
    ensures forall p :: p in periods && InTime(p, m) ==> EffectiveTier(rate, ctx, p).Some? && EffectiveTier(rate, ctx, p).value.period == p
  {
    if periods != [] {
      hide InTime;
      TiersAreEffective(rate, ctx, periods[1..], m);
      EffectivePeriod(rate, ctx, periods[0]);
      hide EffectiveTier;
      assert periods == [periods[0]] + periods[1..];
    }
  }

  lemma {:induction false} EffectivePeriod(rate: Rate, ctx: Context, p: Period)
    ensures EffectiveTier(rate, ctx, p).Some? ==> EffectiveTier(rate, ctx, p).value.period == p
  {
  }

  lemma {:induction false} LeadingMeans(tiers: seq<Tier>, m: Moment, t: Tier)
    ensures t in Leading(tiers, m) <==> t in tiers && forall u :: u in tiers ==> Level(u.period, m) <= Level(t.period, m)
  {
    if tiers != [] {
      MaxIsReached(tiers, Levels(m));
      FilterMembers(tiers, AtLevel(m, MaxOf(tiers, Levels(m))));
      hide MaxOf, Filter, Level;
      var top :| top in tiers && Levels(m)(top) == MaxOf(tiers, Levels(m));
      assert forall u :: u in tiers ==> Levels(m)(u) <= MaxOf(tiers, Levels(m));
      if t in tiers && forall u :: u in tiers ==> Level(u.period, m) <= Level(t.period, m) {
        assert Levels(m)(top) <= Levels(m)(t);
      }
      if t in Leading(tiers, m) {
        forall u | u in tiers ensures Level(u.period, m) <= Level(t.period, m) {
          assert Levels(m)(u) <= MaxOf(tiers, Levels(m));
        }
      }
    }
  }

  /** The candidates at a position: the tiers of running periods that hold it. */
  lemma {:induction false} CandidatesMean(rate: Rate, ctx: Context, m: Moment, position: real, t: Tier)
    requires TiersInTime(rate, ctx, rate.periods, m).Some?
    ensures t in Filter(TiersInTime(rate, ctx, rate.periods, m).value, Admits(rate, ctx, position)) <==>
              t.period in rate.periods && Runs(t.period, m) && EffectiveTier(rate, ctx, t.period) == Some(t) && Holds(rate, ctx, t, position)
  {
    TiersAreEffective(rate, ctx, rate.periods, m);
    FilterMembers(TiersInTime(rate, ctx, rate.periods, m).value, Admits(rate, ctx, position));
    hide TiersInTime, EffectiveTier, Filter;
    RunsInTime(t.period, m);
    HoldsAdmits(rate, ctx, t, position);
    hide InTime, Admits, Holds, Runs;
  }

  lemma {:induction false} RunsInTime(p: Period, m: Moment)
    ensures Runs(p, m) <==> InTime(p, m)
  {
  }

  lemma {:induction false} HoldsAdmits(rate: Rate, ctx: Context, t: Tier, position: real)
    ensures Admits(rate, ctx, position)(t) <==> Holds(rate, ctx, t, position)
  {
  }

  /** The other one of two tiers that share the position as their bound, of which the lower includes it. */
  ghost predicate SharesBound(rate: Rate, ctx: Context, t: Tier, u: Tier, position: real, incremental: bool) {
    if incremental then EndsInclusively(rate, ctx, u, position) && t.span.start == position
    else EndsInclusively(rate, ctx, t, position) && u.span.start == position
  }

  lemma {:induction false} PickMeans(rate: Rate, ctx: Context, candidates: seq<Tier>, position: real, incremental: bool, t: Tier)
    requires Pick(rate, ctx, candidates, position, incremental) == Some(t)
    ensures t in candidates && forall u :: u in candidates && u != t ==> SharesBound(rate, ctx, t, u, position, incremental)
  {
  }

  /**
   A resolved tier is that of a running period whose bounds in effect hold the position; every running period has bounds in
   effect; and any other whose bounds hold the position is less specific, or shares the position as its bound.
   */
  lemma {:induction false} ResolvedMeans(rate: Rate, ctx: Context, m: Moment, position: real, incremental: bool, t: Tier, p: Period)
    requires ScheduledTier(rate, ctx, m, position, incremental) == Some(t)
    ensures t.period in rate.periods && Runs(t.period, m) && EffectiveTier(rate, ctx, t.period) == Some(t) && Holds(rate, ctx, t, position)
    ensures p in rate.periods && Runs(p, m) ==>
              && EffectiveTier(rate, ctx, p).Some?
              && (var u := EffectiveTier(rate, ctx, p).value;
                  Holds(rate, ctx, u, position) && u != t ==>
                    MoreSpecific(t.period, p, m) || SharesBound(rate, ctx, t, u, position, incremental))
  {
    var tiers := TiersInTime(rate, ctx, rate.periods, m).value;
    var admitted := Filter(tiers, Admits(rate, ctx, position));
    PickMeans(rate, ctx, Leading(admitted, m), position, incremental, t);
    LeadingMeans(admitted, m, t);
    CandidatesMean(rate, ctx, m, position, t);
    TiersAreEffective(rate, ctx, rate.periods, m);
    hide Leading, Pick, TiersInTime, EffectiveTier, Filter, Holds, SharesBound, Admits;
    if p in rate.periods && Runs(p, m) {
      RunsInTime(p, m);
      var u := EffectiveTier(rate, ctx, p).value;
      if Holds(rate, ctx, u, position) && u != t {
        CandidatesMean(rate, ctx, m, position, u);
        LeadingMeans(admitted, m, u);
        RunsInTime(t.period, m);
        LevelMeans(p, t.period, m);
        hide Level, MoreSpecific, Runs;
        if Level(p, m) >= Level(t.period, m) {
          assert u in Leading(admitted, m);
        }
      }
    }
  }

  // ----- the bounds in effect -----

  /** The first account tier ends at the account's threshold and the next starts there, in the threshold's season only. */
  lemma {:induction false} AccountBounds(rate: Rate, ctx: Context, p: Period)
    requires p.accountBased
    ensures EffectiveTier(rate, ctx, p).Some? <==>
              ctx.threshold.Some? && ctx.thresholdSeason.Some? && (p.season == None || p.season == ctx.thresholdSeason)
    ensures EffectiveTier(rate, ctx, p).Some? ==>
              var span := EffectiveTier(rate, ctx, p).value.span;
              && (p.tier.start <= 0.0 ==> span.start == 0.0) && (p.tier.start > 0.0 ==> ctx.threshold == Some(span.start))
              && (p.tier.end.Some? ==> span.end == ctx.threshold) && (p.tier.end.None? ==> span.end.None?)
  {
  }

  /** A bound in effect is the stored one, or the daily threshold over the cycle's days where the stored one is the bound it was derived from. */
  lemma {:induction false} StoredBounds(rate: Rate, ctx: Context, p: Period, threshold: real)
    requires !p.accountBased && (rate.perDay.Some? && ctx.cycleDays.Some? ==> threshold == rate.perDay.value * ctx.cycleDays.value as real)
    ensures EffectiveTier(rate, ctx, p).Some?
    ensures var span := EffectiveTier(rate, ctx, p).value.span;
            if rate.perDay.Some? && ctx.cycleDays.Some? && rate.thresholdSeason.Some? && (p.season == None || p.season == rate.thresholdSeason) then
              && span.start == (if rate.source == Some(p.tier.start) then threshold else p.tier.start)
              && (p.tier.end.None? ==> span.end.None?)
              && (p.tier.end.Some? ==> span.end == if rate.source == p.tier.end then Some(threshold) else p.tier.end)
            else span == p.tier
  {
    if rate.perDay.Some? && ctx.cycleDays.Some? {
      assert Scaled(rate.perDay.value, ctx.cycleDays.value) == threshold;
      hide Scaled;
    }
  }

  // ----- a strictly most specific period is resolved -----

  lemma {:induction false} TiersConcat(rate: Rate, ctx: Context, a: seq<Period>, b: seq<Period>, m: Moment)
    ensures var whole, front, back := TiersInTime(rate, ctx, a + b, m), TiersInTime(rate, ctx, a, m), TiersInTime(rate, ctx, b, m);
            whole == if front.None? || back.None? then None else Some(front.value + back.value)
  {
    if a == [] {
      assert a + b == b;
      var back := TiersInTime(rate, ctx, b, m);
      assert back.Some? ==> [] + back.value == back.value;
    } else {
      hide InTime, EffectiveTier;
      TiersConcat(rate, ctx, a[1..], b, m);
      assert (a + b)[0] == a[0] && (a + b)[1..] == a[1..] + b;
      var tier, front, back := EffectiveTier(rate, ctx, a[0]), TiersInTime(rate, ctx, a[1..], m), TiersInTime(rate, ctx, b, m);
      if tier.Some? && front.Some? && back.Some? {
        assert [tier.value] + (front.value + back.value) == [tier.value] + front.value + back.value;
      }
    }
  }

  lemma {:induction false} AllBounded(rate: Rate, ctx: Context, periods: seq<Period>, m: Moment)
    requires forall p :: p in periods && Runs(p, m) ==> EffectiveTier(rate, ctx, p).Some?
    ensures TiersInTime(rate, ctx, periods, m).Some?
  {
    if periods != [] {
      hide EffectiveTier;
      assert periods[0] in periods;
      RunsInTime(periods[0], m);
      AllBounded(rate, ctx, periods[1..], m);
    }
  }

  /** A running period whose bounds in effect hold the position. */
  ghost predicate Candidate(rate: Rate, ctx: Context, m: Moment, position: real, p: Period) {
    Runs(p, m) && EffectiveTier(rate, ctx, p).Some? && Holds(rate, ctx, EffectiveTier(rate, ctx, p).value, position)
  }

  /** The i-th period is a candidate, and more specific than all others that are. */
  ghost predicate Outranks(rate: Rate, ctx: Context, m: Moment, position: real, i: nat) {
    && i < |rate.periods| && Candidate(rate, ctx, m, position, rate.periods[i])
    && (forall j :: 0 <= j < |rate.periods| && j != i && Candidate(rate, ctx, m, position, rate.periods[j])
          ==> MoreSpecific(rate.periods[i], rate.periods[j], m))
  }

  /** The periods of a list are no candidates of this level. */
  ghost predicate NoneLeads(rate: Rate, ctx: Context, periods: seq<Period>, m: Moment, position: real, level: int) {
    forall p :: p in periods && Candidate(rate, ctx, m, position, p) ==> Level(p, m) != level
  }

  function Leaders(rate: Rate, ctx: Context, tiers: seq<Tier>, m: Moment, position: real, level: int): seq<Tier> {
    Filter(Filter(tiers, Admits(rate, ctx, position)), AtLevel(m, level))
  }

  lemma {:induction false} NoLeaders(rate: Rate, ctx: Context, periods: seq<Period>, m: Moment, position: real, level: int)
    requires TiersInTime(rate, ctx, periods, m).Some? && NoneLeads(rate, ctx, periods, m, position, level)
    ensures Leaders(rate, ctx, TiersInTime(rate, ctx, periods, m).value, m, position, level) == []
  {
    var tiers := TiersInTime(rate, ctx, periods, m).value;
    var admitted := Filter(tiers, Admits(rate, ctx, position));
    TiersAreEffective(rate, ctx, periods, m);
    FilterMembers(tiers, Admits(rate, ctx, position));
    hide TiersInTime, EffectiveTier, Filter, Level;
    forall k | 0 <= k < |admitted| ensures !AtLevel(m, level)(admitted[k]) {
      var t := admitted[k];
      assert t in admitted;
      RunsInTime(t.period, m);
      HoldsAdmits(rate, ctx, t, position);
    }
    FilterNone(admitted, AtLevel(m, level));
  }

  lemma {:induction false} LeadersConcat(rate: Rate, ctx: Context, a: seq<Tier>, b: seq<Tier>, m: Moment, position: real, level: int)
    ensures Leaders(rate, ctx, a + b, m, position, level) == Leaders(rate, ctx, a, m, position, level) + Leaders(rate, ctx, b, m, position, level)
  {
    FilterConcat(a, b, Admits(rate, ctx, position));
    FilterConcat(Filter(a, Admits(rate, ctx, position)), Filter(b, Admits(rate, ctx, position)), AtLevel(m, level));
  }

  lemma {:induction false} OneLeader(rate: Rate, ctx: Context, p: Period, m: Moment, position: real)
    requires Candidate(rate, ctx, m, position, p)
    ensures var tier := EffectiveTier(rate, ctx, p).value;
            && TiersInTime(rate, ctx, [p], m) == Some([tier])
            && Leaders(rate, ctx, [tier], m, position, Level(p, m)) == [tier]
  {
    var tier := EffectiveTier(rate, ctx, p).value;
    EffectivePeriod(rate, ctx, p);
    RunsInTime(p, m);
    HoldsAdmits(rate, ctx, tier, position);
    hide EffectiveTier, InTime, Runs, Level, Admits, Holds;
    assert [p][1..] == [];
    FilterAll([tier], Admits(rate, ctx, position));
    FilterAll([tier], AtLevel(m, Level(p, m)));
  }

  /** A period that runs, holds the position and is more specific than all others that do is the one resolved. */
  lemma {:induction false} MostSpecificResolves(rate: Rate, ctx: Context, m: Moment, position: real, incremental: bool, i: nat)
    requires forall p :: p in rate.periods && Runs(p, m) ==> EffectiveTier(rate, ctx, p).Some?
    requires Outranks(rate, ctx, m, position, i)
    ensures ScheduledTier(rate, ctx, m, position, incremental) == EffectiveTier(rate, ctx, rate.periods[i])
  {
    var p := rate.periods[i];
    var front, back, level := rate.periods[..i], rate.periods[i + 1..], Level(p, m);
    var tier := EffectiveTier(rate, ctx, p).value;
    assert rate.periods == front + ([p] + back);
    AllBounded(rate, ctx, rate.periods, m);
    Outranked(rate, ctx, front, m, position, p);
    Outranked(rate, ctx, back, m, position, p);
    hide Runs, Holds, MoreSpecific, EffectiveTier, Level;
    OneLeader(rate, ctx, p, m, position);
    TiersConcat(rate, ctx, front, [p] + back, m);
    TiersConcat(rate, ctx, [p], back, m);
    hide TiersInTime;
    var tiers := TiersInTime(rate, ctx, rate.periods, m).value;
    var before, after := TiersInTime(rate, ctx, front, m).value, TiersInTime(rate, ctx, back, m).value;
    LeadersConcat(rate, ctx, before, [tier] + after, m, position, level);
    LeadersConcat(rate, ctx, [tier], after, m, position, level);
    NoLeaders(rate, ctx, front, m, position, level);
    NoLeaders(rate, ctx, back, m, position, level);
    assert Leaders(rate, ctx, tiers, m, position, level) == [tier];
    TopLevel(rate, ctx, m, position, i);
  }

  lemma {:induction false} Outranked(rate: Rate, ctx: Context, periods: seq<Period>, m: Moment, position: real, p: Period)
    requires Runs(p, m) && forall q :: q in periods && Candidate(rate, ctx, m, position, q) ==> MoreSpecific(p, q, m)
    ensures NoneLeads(rate, ctx, periods, m, position, Level(p, m))
  {
    RunsInTime(p, m);
    forall q | q in periods && Candidate(rate, ctx, m, position, q) ensures Level(q, m) < Level(p, m) {
      RunsInTime(q, m);
      LevelMeans(q, p, m);
    }
  }

  /** The level of the most specific candidate is the highest among the candidates. */
  lemma {:induction false} TopLevel(rate: Rate, ctx: Context, m: Moment, position: real, i: nat)
    requires TiersInTime(rate, ctx, rate.periods, m).Some? && Outranks(rate, ctx, m, position, i)
    ensures var tiers, p := TiersInTime(rate, ctx, rate.periods, m).value, rate.periods[i];
            Leading(Filter(tiers, Admits(rate, ctx, position)), m) == Leaders(rate, ctx, tiers, m, position, Level(p, m))
  {
    var tiers, p := TiersInTime(rate, ctx, rate.periods, m).value, rate.periods[i];
    var admitted, tier := Filter(tiers, Admits(rate, ctx, position)), EffectiveTier(rate, ctx, p).value;
    EffectivePeriod(rate, ctx, p);
    CandidatesMean(rate, ctx, m, position, tier);
    forall t | t in admitted ensures Level(t.period, m) <= Level(p, m) {
      CandidatesMean(rate, ctx, m, position, t);
      hide Holds, EffectiveTier, TiersInTime, Filter, Level;
      var j :| 0 <= j < |rate.periods| && rate.periods[j] == t.period;
      if j != i {
        RunsInTime(p, m);
        RunsInTime(t.period, m);
        LevelMeans(t.period, p, m);
      }
    }
    hide Runs, Holds, MoreSpecific, EffectiveTier, TiersInTime, Filter, Level;
    MaxIsReached(admitted, Levels(m));
    assert Levels(m)(tier) <= MaxOf(admitted, Levels(m));
    var top :| top in admitted && Levels(m)(top) == MaxOf(admitted, Levels(m));
  }
}
