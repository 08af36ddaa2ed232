/**
 Which price period applies at an instant and a cycle position: the engine's resolution and the publication check behind it
 (backend/app/services/cost_engine.py, backend/app/services/rate_workflow.py). Positions and tier bounds are in mWh.
 */
module PeriodResolution {
  import opened Outcomes
  import opened Sums
  import opened Sorting
  import opened TierSpans

  /** A stored price period; a season or day of None stands for "all". */
  datatype Period = Period(
    season: Option<int>, day: Option<int>, startMinute: int, endMinute: int, price: real, tier: Span, inclusive: bool,
    accountBased: bool)

  datatype DatedPrice = DatedPrice(start: int, end: int, price: real)

  /** The local season, the day types in order of priority, and the local minute. */
  datatype Moment = Moment(season: int, days: seq<Option<int>>, minute: int)

  /** A published rate; moment classifies instants by the rate's calendars, None where they do not resolve. */
  datatype Rate = Rate(
    periods: seq<Period>, dated: seq<DatedPrice>, moment: int -> Option<Moment>, perDay: Option<real>,
    thresholdSeason: Option<int>, source: Option<real>, inclusive: bool, adjustment: real, surcharge: real, credit: real,
    start: int, end: Option<int>)

  /** What the worker knows about the account and its cycle when it prices a group. */
  datatype Context = Context(
    position: real, baseline: real, fullAccount: bool, cycleDays: Option<int>, threshold: Option<real>,
    thresholdSeason: Option<int>, inclusive: bool)

  /** A period with the tier bounds in effect. */
  datatype Tier = Tier(period: Period, span: Span)

  // ----- bounds in effect -----

  /** A threshold per day over the days of a cycle. */
  function Scaled(perDay: real, days: int): real {
    perDay * days as real
  }

  function EffectiveTier(rate: Rate, ctx: Context, p: Period): Option<Tier> {
    if p.accountBased then
      if ctx.threshold.None? || ctx.thresholdSeason.None? || (p.season.Some? && p.season != ctx.thresholdSeason) then None
      else Some(Tier(p, Span(if p.tier.start > 0.0 then ctx.threshold.value else 0.0, if p.tier.end.Some? then ctx.threshold else None)))
    else if rate.perDay.None? || rate.thresholdSeason.None? || rate.source.None? || ctx.cycleDays.None?
            || (p.season.Some? && p.season != rate.thresholdSeason) then Some(Tier(p, p.tier))
    else
      var threshold := Scaled(rate.perDay.value, ctx.cycleDays.value);
      Some(Tier(p, Span(if Some(p.tier.start) == rate.source then threshold else p.tier.start,
                        if p.tier.end == rate.source then Some(threshold) else p.tier.end)))
  }

  predicate Inclusive(rate: Rate, ctx: Context, t: Tier) {
    t.period.inclusive && rate.inclusive && (t.period.accountBased ==> ctx.inclusive)
  }

  // ----- resolution at a moment -----

  function IndexOf(days: seq<Option<int>>, d: Option<int>): (n: nat)
    ensures n <= |days| && (n < |days| <==> d in days)
  {
    if days == [] || days[0] == d then 0 else 1 + IndexOf(days[1..], d)
  }

  predicate InTime(p: Period, m: Moment) {
    (p.season.None? || p.season == Some(m.season)) && p.day in m.days && p.startMinute <= m.minute < p.endMinute
  }

  function SeasonRank(p: Period, m: Moment): int {
    if p.season == Some(m.season) then 1 else 0
  }

  function DayRank(p: Period, m: Moment): int {
    |m.days| - IndexOf(m.days, p.day)
  }

  /** The specificity pair of season rank and day rank as one number. */
  function Level(p: Period, m: Moment): int {
    SeasonRank(p, m) * (|m.days| + 1) + DayRank(p, m)
  }

  /** That number orders periods as the pairs do. */
  lemma {:induction false} LevelIsLexicographic(p: Period, q: Period, m: Moment)
    ensures Level(p, m) < Level(q, m)
       <==> SeasonRank(p, m) < SeasonRank(q, m) || (SeasonRank(p, m) == SeasonRank(q, m) && DayRank(p, m) < DayRank(q, m))
  {
  }

  function Levels(m: Moment): Tier -> int {
    (t: Tier) => Level(t.period, m)
  }

  function AtLevel(m: Moment, level: int): Tier -> bool {
    (t: Tier) => Level(t.period, m) == level
  }

  /** The tiers of highest specificity. */
  function Leading(tiers: seq<Tier>, m: Moment): seq<Tier> {
    if tiers == [] then [] else Filter(tiers, AtLevel(m, MaxOf(tiers, Levels(m))))
  }

  /** The tiers of all periods in time; None when one of their bounds is unresolved. */
  function TiersInTime(rate: Rate, ctx: Context, periods: seq<Period>, m: Moment): Option<seq<Tier>> {
    if periods == [] then Some([])
    else
      var rest := TiersInTime(rate, ctx, periods[1..], m);
      if !InTime(periods[0], m) then rest
      else
        var tier := EffectiveTier(rate, ctx, periods[0]);
        if tier.None? || rest.None? then None else Some([tier.value] + rest.value)
  }

  /** Inside the tier, or exactly at an inclusive upper bound. */
  function Admits(rate: Rate, ctx: Context, position: real): Tier -> bool {
    (t: Tier) =>
      && position >= t.span.start
      && (t.span.end.None? || position < t.span.end.value || (position == t.span.end.value && Inclusive(rate, ctx, t)))
  }

  /** One candidate wins; two win together only at the bound they share, where new energy goes to the upper one. */
  function Pick(rate: Rate, ctx: Context, candidates: seq<Tier>, position: real, incremental: bool): Option<Tier> {
    if |candidates| == 1 then Some(candidates[0])
    else if |candidates| == 2 then
      var first := candidates[0].span.start <= candidates[1].span.start;
      var lower, upper := if first then candidates[0] else candidates[1], if first then candidates[1] else candidates[0];
      if lower.span.end == Some(position) && position == upper.span.start && Inclusive(rate, ctx, lower) then
        Some(if incremental then upper else lower)
      else None
    else None
  }

  function ScheduledTier(rate: Rate, ctx: Context, m: Moment, position: real, incremental: bool): Option<Tier> {
    var tiers := TiersInTime(rate, ctx, rate.periods, m);
    if tiers.None? then None
    else Pick(rate, ctx, Leading(Filter(tiers.value, Admits(rate, ctx, position)), m), position, incremental)
  }

  function DatedTier(d: DatedPrice): Tier {
    Tier(Period(None, None, 0, 1440, d.price, Span(0.0, None), true, false), Span(0.0, None))
  }

  function InDated(instant: int): DatedPrice -> bool {
    (d: DatedPrice) => d.start <= instant < d.end
  }

  /** The engine's resolution; None is an evaluation error. */
  function PeriodFor(rate: Rate, ctx: Context, instant: int, position: real, incremental: bool): Option<Tier> {
    if rate.dated != [] then
      var matches := Filter(rate.dated, InDated(instant));
      if |matches| == 1 then Some(DatedTier(matches[0])) else None
    else if rate.moment(instant).None? then None
    else ScheduledTier(rate, ctx, rate.moment(instant).value, position, incremental)
  }

  /** The candidate loop of the resolution. */
  method ResolvePricePeriod(rate: Rate, ctx: Context, instant: int, position: real, incremental: bool) returns (r: Option<Tier>)
    ensures r == PeriodFor(rate, ctx, instant, position, incremental)
  {
    if rate.dated != [] {
      var matches := Filter(rate.dated, InDated(instant));
      return if |matches| == 1 then Some(DatedTier(matches[0])) else None;
    }
    if rate.moment(instant).None? {
      return None;
    }
    var m := rate.moment(instant).value;
    hide Leading, Pick, InTime, EffectiveTier, Inclusive;
    var candidates: seq<Tier> := [];
    for k := 0 to |rate.periods|
      invariant Gathered(rate, ctx, m, position, candidates, rate.periods[k..])
    {
      var p := rate.periods[k];
      assert rate.periods[k..][0] == p && rate.periods[k..][1..] == rate.periods[k + 1..];
      if !InTime(p, m) {
        continue;
      }
      var tier := EffectiveTier(rate, ctx, p);
      if tier.None? {
        return None;
      }
      if Admits(rate, ctx, position)(tier.value) {
        candidates := candidates + [tier.value];
      }
    }
    assert rate.periods[|rate.periods|..] == [];
    assert candidates + [] == candidates;
    r := Pick(rate, ctx, Leading(candidates, m), position, incremental);
  }

  /** What the loop has gathered, with what the remaining periods will add, is what the resolution filters. */
  ghost predicate Gathered(rate: Rate, ctx: Context, m: Moment, position: real, candidates: seq<Tier>, rest: seq<Period>) {
    var tiers, more := TiersInTime(rate, ctx, rate.periods, m), TiersInTime(rate, ctx, rest, m);
    && (tiers.None? <==> more.None?)
    && (more.Some? ==> Filter(tiers.value, Admits(rate, ctx, position)) == candidates + Filter(more.value, Admits(rate, ctx, position)))
  }

  // ----- axes: one tier for every position -----

  ghost predicate OnlyOwner(tiers: seq<Tier>, position: real, i: int) {
    && 0 <= i < |tiers| && Covers(tiers[i].span, position)
    && (forall j :: 0 <= j < |tiers| && j != i ==> !Covers(tiers[j].span, position))
  }

  ghost predicate OwnedOnce(tiers: seq<Tier>, position: real) {
    exists i :: OnlyOwner(tiers, position, i)
  }

  /** Every non-negative position lies in exactly one tier. */
  ghost predicate Axis(tiers: seq<Tier>) {
    forall position: real :: position >= 0.0 ==> OwnedOnce(tiers, position)
  }

  ghost predicate OrderedTiers(tiers: seq<Tier>) {
    forall i :: 0 <= i < |tiers| ==> OrderedSpan(tiers[i].span)
  }

  /** A tier that ends exactly at the position and includes its bound. */
  ghost predicate EndsAt(rate: Rate, ctx: Context, t: Tier, position: real) {
    t.span.end == Some(position) && Inclusive(rate, ctx, t)
  }

  lemma {:induction false} AdmittedMeans(rate: Rate, ctx: Context, t: Tier, position: real)
    requires OrderedSpan(t.span)
    ensures Admits(rate, ctx, position)(t) <==> Covers(t.span, position) || EndsAt(rate, ctx, t, position)
  {
  }

  /** On an axis, where a tier ends the owner starts, and no other tier ends there. */
  lemma {:induction false} EndMeetsStart(tiers: seq<Tier>, position: real, i: int, j: int)
    requires Axis(tiers) && OrderedTiers(tiers) && OnlyOwner(tiers, position, i)
    requires 0 <= j < |tiers| && tiers[j].span.end == Some(position)
    ensures tiers[i].span.start == position && j != i
    ensures forall k :: 0 <= k < |tiers| && tiers[k].span.end == Some(position) ==> k == j
  {
    assert OrderedSpan(tiers[j].span);
    var below := if tiers[i].span.start > tiers[j].span.start then tiers[i].span.start else tiers[j].span.start;
    assert OwnedOnce(tiers, below);
    var o :| OnlyOwner(tiers, below, o);
    assert tiers[i].span.start < position ==> Covers(tiers[i].span, below) && Covers(tiers[j].span, below);
    forall k | 0 <= k < |tiers| && tiers[k].span.end == Some(position) ensures k == j {
      assert OrderedSpan(tiers[k].span);
      var latest := if tiers[k].span.start > tiers[j].span.start then tiers[k].span.start else tiers[j].span.start;
      assert OwnedOnce(tiers, latest);
      var q :| OnlyOwner(tiers, latest, q);
      assert Covers(tiers[k].span, latest) && Covers(tiers[j].span, latest);
    }
  }

  /** On an axis the admitted tiers are the owner and at most one tier ending there; new energy goes to the owner. */
  lemma {:induction false} PickOnAxis(rate: Rate, ctx: Context, tiers: seq<Tier>, position: real, i: int, incremental: bool)
    requires Axis(tiers) && OrderedTiers(tiers) && OnlyOwner(tiers, position, i)
    ensures var picked := Pick(rate, ctx, Filter(tiers, Admits(rate, ctx, position)), position, incremental);
            if incremental || forall j :: 0 <= j < |tiers| ==> !EndsAt(rate, ctx, tiers[j], position)
            then picked == Some(tiers[i])
            else picked.Some? && picked.value in tiers && EndsAt(rate, ctx, picked.value, position)
  {
    hide Axis, Inclusive;
    var keep := Admits(rate, ctx, position);
    forall j | 0 <= j < |tiers| ensures keep(tiers[j]) <==> j == i || EndsAt(rate, ctx, tiers[j], position) {
      AdmittedMeans(rate, ctx, tiers[j], position);
    }
    if j :| 0 <= j < |tiers| && EndsAt(rate, ctx, tiers[j], position) {
      EndMeetsStart(tiers, position, i, j);
      assert OrderedSpan(tiers[j].span) && tiers[j].span.start < position;
      assert forall k :: 0 <= k < |tiers| && k != i && k != j ==> !keep(tiers[k]);
      if i < j {
        FilterTwo(tiers, keep, i, j);
      } else {
        FilterTwo(tiers, keep, j, i);
      }
    } else {
      FilterOne(tiers, keep, i);
    }
  }

  /** When the leading tiers own every position, admitting by position first and ranking then is the same as the reverse. */
  lemma {:induction false} LeadingAdmitted(rate: Rate, ctx: Context, tiers: seq<Tier>, m: Moment, position: real, i: int)
    requires OnlyOwner(Leading(tiers, m), position, i)
    ensures Leading(Filter(tiers, Admits(rate, ctx, position)), m) == Filter(Leading(tiers, m), Admits(rate, ctx, position))
  {
    var keep, level := Admits(rate, ctx, position), MaxOf(tiers, Levels(m));
    var admitted, owner := Filter(tiers, keep), Leading(tiers, m)[i];
    assert owner in Leading(tiers, m);
    FilterMembers(tiers, AtLevel(m, level));
    FilterMembers(tiers, keep);
    assert keep(owner) && owner in admitted;
    MaxIsReached(tiers, Levels(m));
    MaxIsReached(admitted, Levels(m));
    var top :| top in admitted && Levels(m)(top) == MaxOf(admitted, Levels(m));
    assert Levels(m)(owner) == level && Levels(m)(top) <= level;
    FilterCommutes(tiers, keep, AtLevel(m, level));
  }

  /** The engine resolves the tier that owns the position; at an inclusive bound, energy already used stays below it. */
  lemma {:induction false} ResolvesTheOwner(rate: Rate, ctx: Context, m: Moment, position: real, i: int, incremental: bool)
    requires TiersInTime(rate, ctx, rate.periods, m).Some?
    requires var lead := Leading(TiersInTime(rate, ctx, rate.periods, m).value, m);
             Axis(lead) && OrderedTiers(lead) && OnlyOwner(lead, position, i)
    ensures var lead := Leading(TiersInTime(rate, ctx, rate.periods, m).value, m);
            var resolved := ScheduledTier(rate, ctx, m, position, incremental);
            if incremental || forall j :: 0 <= j < |lead| ==> !EndsAt(rate, ctx, lead[j], position)
            then resolved == Some(lead[i])
            else resolved.Some? && resolved.value in lead && EndsAt(rate, ctx, resolved.value, position)
  {
    hide Leading, TiersInTime, Pick, Axis, EndsAt, Admits;
    var tiers := TiersInTime(rate, ctx, rate.periods, m).value;
    LeadingAdmitted(rate, ctx, tiers, m, position, i);
    PickOnAxis(rate, ctx, Leading(tiers, m), position, i, incremental);
  }

  /** Within a tier the answer for new energy does not change. */
  lemma {:induction false} SteadyWithinTier(rate: Rate, ctx: Context, m: Moment, position: real, later: real, i: int)
    requires TiersInTime(rate, ctx, rate.periods, m).Some?
    requires var lead := Leading(TiersInTime(rate, ctx, rate.periods, m).value, m);
             && Axis(lead) && OrderedTiers(lead) && OnlyOwner(lead, position, i) && 0.0 <= position <= later
             && Covers(lead[i].span, later)
    ensures ScheduledTier(rate, ctx, m, later, true) == ScheduledTier(rate, ctx, m, position, true)
  {
    hide Leading, TiersInTime, ScheduledTier;
    var lead := Leading(TiersInTime(rate, ctx, rate.periods, m).value, m);
    assert OwnedOnce(lead, later);
    var k :| OnlyOwner(lead, later, k);
    assert k == i;
    ResolvesTheOwner(rate, ctx, m, position, i, true);
    ResolvesTheOwner(rate, ctx, m, later, i, true);
  }

  // ----- the publication check -----

  function CoversAt(position: real): Tier -> bool {
    (t: Tier) => Covers(t.span, position)
  }

  function SpansOf(tiers: seq<Tier>): (spans: seq<Span>)
    ensures |spans| == |tiers| && forall i :: 0 <= i < |tiers| ==> spans[i] == tiers[i].span
  {
    seq(|tiers|, i requires 0 <= i < |tiers| => tiers[i].span)
  }

  /** The check of one tier axis: one active tier between any two neighbouring bounds, and an open one beyond. */
  method ValidateTierAxis(tiers: seq<Tier>) returns (ok: bool)
    requires OrderedTiers(tiers)
    ensures ok <==> Axis(tiers)
  {
    hide Axis, OwnedOnce, IsBoundary, Filter, Sorted, Distinct;
    if tiers == [] {
      NoTiersNoAxis(tiers);
      return false;
    }
    var bounds := Boundaries(SpansOf(tiers));
    for k := 0 to |bounds| - 1
      invariant forall c :: 0 <= c < k ==> OwnedOnce(tiers, Middle(bounds, c))
    {
      var active := Filter(tiers, CoversAt(Middle(bounds, k)));
      ActiveDecides(tiers, Middle(bounds, k));
      if |active| != 1 {
        MiddlesDecide(tiers, bounds);
        return false;
      }
    }
    var last := |bounds| - 1;
    var beyond := Filter(tiers, CoversAt(Middle(bounds, last)));
    ActiveDecides(tiers, Middle(bounds, last));
    MiddlesDecide(tiers, bounds);
    if |beyond| != 1 || beyond[0].span.end.Some? {
      if |beyond| == 1 {
        BeyondIsOpen(tiers, bounds, beyond[0]);
      }
      return false;
    }
    ok := true;
  }

  /** The point that stands for the positions from one bound to the next; for the last bound, one unit beyond it. */
  function Middle(bounds: seq<real>, k: int): real
    requires 0 <= k < |bounds|
  {
    if k + 1 < |bounds| then bounds[k] + (bounds[k + 1] - bounds[k]) / 2.0 else bounds[k] + 1.0
  }

  ghost predicate InCell(bounds: seq<real>, k: int, position: real) {
    0 <= k < |bounds| && bounds[k] <= position && (k + 1 < |bounds| ==> position < bounds[k + 1])
  }

  lemma {:induction false} NoTiersNoAxis(tiers: seq<Tier>)
    requires tiers == []
    ensures !Axis(tiers)
  {
    assert !OwnedOnce(tiers, 0.0);
  }

  lemma {:induction false} ActiveDecides(tiers: seq<Tier>, position: real)
    ensures |Filter(tiers, CoversAt(position))| == 1 <==> OwnedOnce(tiers, position)
  {
    var keep := CoversAt(position);
    FilterLeavesOne(tiers, keep);
    hide Covers, Filter;
    if i :| OnlyPosition(tiers, keep, i) {
      assert OnlyOwner(tiers, position, i);
    }
    if i :| OnlyOwner(tiers, position, i) {
      assert OnlyPosition(tiers, keep, i);
    }
  }

  ghost predicate AreBounds(tiers: seq<Tier>, bounds: seq<real>) {
    && bounds != [] && Sorted(bounds, RealLeq()) && Distinct(bounds)
    && (forall t :: t in bounds <==> IsBoundary(SpansOf(tiers), t))
  }

  lemma {:induction false} BoundOrder(bounds: seq<real>, i: int, j: int)
    requires Sorted(bounds, RealLeq()) && Distinct(bounds) && 0 <= i < |bounds| && 0 <= j < |bounds|
    ensures bounds[i] <= bounds[j] <==> i <= j
  {
    assert i < j ==> RealLeq()(bounds[i], bounds[j]);
    assert j < i ==> RealLeq()(bounds[j], bounds[i]);
  }

  /** Compared with a bound, all positions of a cell answer alike. */
  lemma {:induction false} CellBelow(bounds: seq<real>, k: int, position: real, t: real)
    requires Sorted(bounds, RealLeq()) && Distinct(bounds) && InCell(bounds, k, position) && t in bounds
    ensures t <= position <==> t <= bounds[k]
  {
    var j :| 0 <= j < |bounds| && bounds[j] == t;
    BoundOrder(bounds, j, k);
    if k + 1 < |bounds| {
      BoundOrder(bounds, k + 1, j);
    }
  }

  lemma {:induction false} SameCellSameAnswer(tiers: seq<Tier>, bounds: seq<real>, k: int, position: real)
    requires AreBounds(tiers, bounds) && InCell(bounds, k, position)
    ensures OwnedOnce(tiers, position) <==> OwnedOnce(tiers, bounds[k])
  {
    forall i | 0 <= i < |tiers| ensures Covers(tiers[i].span, position) <==> Covers(tiers[i].span, bounds[k]) {
      var s := SpansOf(tiers)[i];
      assert IsBoundary(SpansOf(tiers), s.start) && (s.end.Some? ==> IsBoundary(SpansOf(tiers), s.end.value));
      CellBelow(bounds, k, position, s.start);
      if s.end.Some? {
        CellBelow(bounds, k, position, s.end.value);
      }
    }
    hide Covers;
    if i :| OnlyOwner(tiers, position, i) {
      assert OnlyOwner(tiers, bounds[k], i);
    }
    if i :| OnlyOwner(tiers, bounds[k], i) {
      assert OnlyOwner(tiers, position, i);
    }
  }

  lemma {:induction false} MiddleIsInCell(tiers: seq<Tier>, bounds: seq<real>, k: int)
    requires OrderedTiers(tiers) && AreBounds(tiers, bounds) && 0 <= k < |bounds|
    ensures InCell(bounds, k, Middle(bounds, k)) && bounds[k] >= 0.0
  {
    if k + 1 < |bounds| {
      BoundOrder(bounds, k + 1, k);
    }
    assert bounds[k] in bounds;
    assert IsBoundary(SpansOf(tiers), bounds[k]);
  }

  lemma {:induction false} CellOf(tiers: seq<Tier>, bounds: seq<real>, position: real) returns (k: int)
    requires OrderedTiers(tiers) && AreBounds(tiers, bounds) && position >= 0.0
    ensures InCell(bounds, k, position)
  {
    assert HoldsBoundaries(SpansOf(tiers), bounds) by {
      forall i | 0 <= i < |bounds| ensures bounds[i] >= 0.0 {
        MiddleIsInCell(tiers, bounds, i);
      }
    }
    var t := BoundaryBelow(SpansOf(tiers), bounds, position);
    k :| 0 <= k < |bounds| && bounds[k] == t;
    if k + 1 < |bounds| {
      BoundOrder(bounds, k + 1, k);
      assert bounds[k + 1] in bounds;
    }
  }

  /** The middles of all cells decide every position. */
  lemma {:induction false} MiddlesDecide(tiers: seq<Tier>, bounds: seq<real>)
    requires OrderedTiers(tiers) && AreBounds(tiers, bounds)
    ensures Axis(tiers) <==> forall k :: 0 <= k < |bounds| ==> OwnedOnce(tiers, Middle(bounds, k))
  {
    hide OwnedOnce, AreBounds, OrderedTiers;
    if Axis(tiers) {
      forall k | 0 <= k < |bounds| ensures OwnedOnce(tiers, Middle(bounds, k)) {
        MiddleIsInCell(tiers, bounds, k);
      }
    }
    if forall k :: 0 <= k < |bounds| ==> OwnedOnce(tiers, Middle(bounds, k)) {
      forall position: real | position >= 0.0 ensures OwnedOnce(tiers, position) {
        var k := CellOf(tiers, bounds, position);
        MiddleIsInCell(tiers, bounds, k);
        SameCellSameAnswer(tiers, bounds, k, position);
        SameCellSameAnswer(tiers, bounds, k, Middle(bounds, k));
      }
    }
  }

  lemma {:induction false} BeyondIsOpen(tiers: seq<Tier>, bounds: seq<real>, t: Tier)
    requires OrderedTiers(tiers) && AreBounds(tiers, bounds) && t in Filter(tiers, CoversAt(Middle(bounds, |bounds| - 1)))
    ensures t.span.end.None?
  {
    FilterMembers(tiers, CoversAt(Middle(bounds, |bounds| - 1)));
    if t.span.end.Some? {
      var i :| 0 <= i < |tiers| && tiers[i] == t;
      assert SpansOf(tiers)[i].end == Some(t.span.end.value);
      assert IsBoundary(SpansOf(tiers), t.span.end.value);
      var j :| 0 <= j < |bounds| && bounds[j] == t.span.end.value;
      BoundOrder(bounds, j, |bounds| - 1);
    }
  }

  // ----- a whole day -----

  /** The ranges that publication normalizes every period to. */
  predicate Normal(p: Period) {
    0 <= p.startMinute < p.endMinute <= 1440 && OrderedSpan(p.tier)
  }

  predicate AllNormal(periods: seq<Period>) {
    forall i :: 0 <= i < |periods| ==> Normal(periods[i])
  }

  /** The periods in time, with their stored tiers. */
  function StoredInTime(periods: seq<Period>, m: Moment): seq<Tier> {
    if periods == [] then []
    else (if InTime(periods[0], m) then [Tier(periods[0], periods[0].tier)] else []) + StoredInTime(periods[1..], m)
  }

  ghost predicate GoodAt(periods: seq<Period>, m: Moment) {
    Axis(Leading(StoredInTime(periods, m), m))
  }

  ghost predicate GoodDay(periods: seq<Period>, season: int, days: seq<Option<int>>) {
    forall minute :: 0 <= minute < 1440 ==> GoodAt(periods, Moment(season, days, minute))
  }

  function EligibleFor(season: int, days: seq<Option<int>>): Period -> bool {
    (p: Period) => (p.season.None? || p.season == Some(season)) && p.day in days
  }

  predicate IsMinuteBound(periods: seq<Period>, minute: int) {
    minute == 0 || minute == 1440 || exists i :: 0 <= i < |periods| && (minute == periods[i].startMinute || minute == periods[i].endMinute)
  }

  method MinuteBounds(periods: seq<Period>) returns (ordered: seq<int>)
    ensures ordered != [] && Sorted(ordered, IntLeq()) && Distinct(ordered)
    ensures forall minute :: minute in ordered <==> IsMinuteBound(periods, minute)
  {
    var bounds := {0, 1440};
    for k := 0 to |periods|
      invariant forall minute :: minute in bounds <==> IsMinuteBound(periods[..k], minute)
    {
      MinuteBoundsGrow(periods, k);
      bounds := bounds + {periods[k].startMinute, periods[k].endMinute};
    }
    assert periods[..|periods|] == periods;
    ordered := SortedElements(bounds, IntLeq());
    assert IsMinuteBound(periods, 0) && 0 in ordered;
  }

  lemma {:induction false} MinuteBoundsGrow(periods: seq<Period>, k: nat)
    requires k < |periods|
    ensures forall minute ::
              (IsMinuteBound(periods[..k + 1], minute)
               <==> IsMinuteBound(periods[..k], minute) || minute == periods[k].startMinute || minute == periods[k].endMinute)
  {
    var longer, shorter := periods[..k + 1], periods[..k];
    forall minute ensures IsMinuteBound(longer, minute)
       <==> IsMinuteBound(shorter, minute) || minute == periods[k].startMinute || minute == periods[k].endMinute
    {
      if i :| 0 <= i < |shorter| && (minute == shorter[i].startMinute || minute == shorter[i].endMinute) {
        assert longer[i] == shorter[i];
      }
      if i :| 0 <= i < |longer| && (minute == longer[i].startMinute || minute == longer[i].endMinute) {
        assert i == k || shorter[i] == longer[i];
      }
      assert longer[k] == periods[k];
    }
  }

  /** The check of one season and day: an axis at the middle of every stretch between neighbouring period bounds. */
  method ValidateOneDay(periods: seq<Period>, season: int, days: seq<Option<int>>) returns (ok: bool)
    requires AllNormal(periods)
    ensures ok <==> GoodDay(periods, season, days)
  {
    hide GoodDay, GoodAt, StoredInTime, Leading, IsMinuteBound, Sorted, Distinct, Filter, AllNormal;
    var eligible := Filter(periods, EligibleFor(season, days));
    EligibleAreNormal(periods, season, days);
    var bounds := MinuteBounds(eligible);
    StretchesDecide(periods, season, days, bounds);
    for k := 0 to |bounds| - 1
      invariant forall c :: 0 <= c < k ==> GoodAt(periods, Moment(season, days, MiddleMinute(bounds, c)))
    {
      var m := Moment(season, days, MiddleMinute(bounds, k));
      var candidates := Leading(StoredInTime(eligible, m), m);
      EligibleSuffice(periods, m);
      LeadingIsOrdered(periods, m);
      var valid := ValidateTierAxis(candidates);
      AxisIsGood(periods, m);
      if !valid {
        return false;
      }
    }
    ok := true;
  }

  lemma {:induction false} AxisIsGood(periods: seq<Period>, m: Moment)
    ensures GoodAt(periods, m) <==> Axis(Leading(StoredInTime(periods, m), m))
  {
  }

  function MiddleMinute(bounds: seq<int>, k: int): int
    requires 0 <= k < |bounds| - 1
  {
    bounds[k] + (bounds[k + 1] - bounds[k]) / 2
  }

  lemma {:induction false} EligibleAreNormal(periods: seq<Period>, season: int, days: seq<Option<int>>)
    requires AllNormal(periods)
    ensures AllNormal(Filter(periods, EligibleFor(season, days)))
  {
    var eligible := Filter(periods, EligibleFor(season, days));
    FilterMembers(periods, EligibleFor(season, days));
    forall i | 0 <= i < |eligible| ensures Normal(eligible[i]) {
      assert eligible[i] in periods;
    }
  }

  lemma {:induction false} EligibleSuffice(periods: seq<Period>, m: Moment)
    ensures StoredInTime(Filter(periods, EligibleFor(m.season, m.days)), m) == StoredInTime(periods, m)
  {
    if periods != [] {
      EligibleSuffice(periods[1..], m);
      var rest := Filter(periods[1..], EligibleFor(m.season, m.days));
      assert ([periods[0]] + rest)[1..] == rest && [] + rest == rest;
      assert EligibleFor(m.season, m.days)(periods[0]) ==> Filter(periods, EligibleFor(m.season, m.days)) == [periods[0]] + rest;
      assert !EligibleFor(m.season, m.days)(periods[0]) ==> Filter(periods, EligibleFor(m.season, m.days)) == rest && !InTime(periods[0], m);
    }
  }

  lemma {:induction false} StoredAreOrdered(periods: seq<Period>, m: Moment)
    requires AllNormal(periods)
    ensures OrderedTiers(StoredInTime(periods, m))
  {
    if periods != [] {
      StoredAreOrdered(periods[1..], m);
    }
  }

  lemma {:induction false} LeadingIsOrdered(periods: seq<Period>, m: Moment)
    requires AllNormal(periods)
    ensures OrderedTiers(Leading(StoredInTime(periods, m), m))
  {
    var tiers := StoredInTime(periods, m);
    StoredAreOrdered(periods, m);
    LeadingKeepsOrder(tiers, m);
  }

  lemma {:induction false} LeadingKeepsOrder(tiers: seq<Tier>, m: Moment)
    requires OrderedTiers(tiers)
    ensures OrderedTiers(Leading(tiers, m))
  {
    if tiers != [] {
      var lead := Leading(tiers, m);
      FilterMembers(tiers, AtLevel(m, MaxOf(tiers, Levels(m))));
      forall i | 0 <= i < |lead| ensures OrderedSpan(lead[i].span) {
        assert lead[i] in tiers;
      }
    }
  }

  // ----- why the middles of stretches suffice -----

  ghost predicate InStretch(bounds: seq<int>, k: int, minute: int) {
    0 <= k < |bounds| - 1 && bounds[k] <= minute < bounds[k + 1]
  }

  lemma {:induction false} MinuteOrder(bounds: seq<int>, i: int, j: int)
    requires Sorted(bounds, IntLeq()) && Distinct(bounds) && 0 <= i < |bounds| && 0 <= j < |bounds|
    ensures bounds[i] <= bounds[j] <==> i <= j
  {
    assert i < j ==> IntLeq()(bounds[i], bounds[j]);
    assert j < i ==> IntLeq()(bounds[j], bounds[i]);
  }

  lemma {:induction false} StretchBelow(bounds: seq<int>, k: int, minute: int, t: int)
    requires Sorted(bounds, IntLeq()) && Distinct(bounds) && InStretch(bounds, k, minute) && t in bounds
    ensures t <= minute <==> t <= bounds[k]
  {
    var j :| 0 <= j < |bounds| && bounds[j] == t;
    MinuteOrder(bounds, j, k);
    MinuteOrder(bounds, k + 1, j);
  }

  ghost predicate AreMinuteBounds(periods: seq<Period>, season: int, days: seq<Option<int>>, bounds: seq<int>) {
    && Sorted(bounds, IntLeq()) && Distinct(bounds)
    && (forall minute :: minute in bounds <==> IsMinuteBound(Filter(periods, EligibleFor(season, days)), minute))
  }

  lemma {:induction false} SameStretchInTime(periods: seq<Period>, season: int, days: seq<Option<int>>, bounds: seq<int>, k: int, minute: int, p: Period)
    requires AreMinuteBounds(periods, season, days, bounds) && InStretch(bounds, k, minute) && p in periods
    ensures InTime(p, Moment(season, days, minute)) <==> InTime(p, Moment(season, days, bounds[k]))
  {
    if EligibleFor(season, days)(p) {
      var eligible := Filter(periods, EligibleFor(season, days));
      FilterMembers(periods, EligibleFor(season, days));
      var i :| 0 <= i < |eligible| && eligible[i] == p;
      assert IsMinuteBound(eligible, p.startMinute) && IsMinuteBound(eligible, p.endMinute);
      StretchBelow(bounds, k, minute, p.startMinute);
      StretchBelow(bounds, k, minute, p.endMinute);
    }
  }

  lemma {:induction false} SameInTimeSameTiers(periods: seq<Period>, m: Moment, n: Moment)
    requires forall p :: p in periods ==> (InTime(p, m) <==> InTime(p, n))
    ensures StoredInTime(periods, m) == StoredInTime(periods, n)
  {
    if periods != [] {
      assert periods[0] in periods;
      SameInTimeSameTiers(periods[1..], m, n);
    }
  }

  lemma {:induction false} MinuteDoesNotRank(tiers: seq<Tier>, m: Moment, n: Moment)
    requires m.season == n.season && m.days == n.days
    ensures Leading(tiers, m) == Leading(tiers, n)
  {
    if tiers != [] {
      MaxSame(tiers, Levels(m), Levels(n));
      FilterSame(tiers, AtLevel(m, MaxOf(tiers, Levels(m))), AtLevel(n, MaxOf(tiers, Levels(n))));
    }
  }

  lemma {:induction false} SameStretchSameAnswer(periods: seq<Period>, season: int, days: seq<Option<int>>, bounds: seq<int>, k: int, minute: int)
    requires AreMinuteBounds(periods, season, days, bounds) && InStretch(bounds, k, minute)
    ensures GoodAt(periods, Moment(season, days, minute)) <==> GoodAt(periods, Moment(season, days, bounds[k]))
  {
    hide AreMinuteBounds, InTime;
    var m, n := Moment(season, days, minute), Moment(season, days, bounds[k]);
    forall p | p in periods ensures InTime(p, m) <==> InTime(p, n) {
      SameStretchInTime(periods, season, days, bounds, k, minute, p);
    }
    SameInTimeSameTiers(periods, m, n);
    MinuteDoesNotRank(StoredInTime(periods, m), m, n);
  }

  lemma {:induction false} BoundsStayInDay(periods: seq<Period>, season: int, days: seq<Option<int>>, bounds: seq<int>, k: int)
    requires AllNormal(periods) && AreMinuteBounds(periods, season, days, bounds) && 0 <= k < |bounds|
    ensures 0 <= bounds[k] <= 1440
  {
    var eligible := Filter(periods, EligibleFor(season, days));
    EligibleAreNormal(periods, season, days);
    assert bounds[k] in bounds;
    if i :| 0 <= i < |eligible| && (bounds[k] == eligible[i].startMinute || bounds[k] == eligible[i].endMinute) {
      assert Normal(eligible[i]);
    }
  }

  lemma {:induction false} StretchOf(periods: seq<Period>, season: int, days: seq<Option<int>>, bounds: seq<int>, minute: int) returns (k: int)
    requires AreMinuteBounds(periods, season, days, bounds) && 0 <= minute < 1440
    ensures InStretch(bounds, k, minute)
  {
    var below := set b | b in bounds && b <= minute;
    var geq := (a: int, b: int) => a >= b;
    assert 0 in below && 1440 in bounds;
    var t := LeastExists(below, geq);
    assert forall b :: b in below ==> b <= t by {
      forall b | b in below ensures b <= t {
        assert geq(t, b);
      }
    }
    k :| 0 <= k < |bounds| && bounds[k] == t;
    var last :| 0 <= last < |bounds| && bounds[last] == 1440;
    MinuteOrder(bounds, last, k);
    MinuteOrder(bounds, k + 1, k);
    assert bounds[k + 1] !in below;
    assert bounds[k + 1] in bounds;
  }

  lemma {:induction false} StretchesDecide(periods: seq<Period>, season: int, days: seq<Option<int>>, bounds: seq<int>)
    requires AllNormal(periods) && AreMinuteBounds(periods, season, days, bounds)
    ensures GoodDay(periods, season, days)
       <==> forall k :: 0 <= k < |bounds| - 1 ==> GoodAt(periods, Moment(season, days, MiddleMinute(bounds, k)))
  {
    forall k | 0 <= k < |bounds| - 1 ensures InStretch(bounds, k, MiddleMinute(bounds, k)) && 0 <= MiddleMinute(bounds, k) < 1440 {
      MinuteOrder(bounds, k + 1, k);
      BoundsStayInDay(periods, season, days, bounds, k);
      BoundsStayInDay(periods, season, days, bounds, k + 1);
    }
    hide GoodAt, AreMinuteBounds, AllNormal;
    if forall k :: 0 <= k < |bounds| - 1 ==> GoodAt(periods, Moment(season, days, MiddleMinute(bounds, k))) {
      forall minute | 0 <= minute < 1440 ensures GoodAt(periods, Moment(season, days, minute)) {
        var k := StretchOf(periods, season, days, bounds, minute);
        SameStretchSameAnswer(periods, season, days, bounds, k, minute);
        SameStretchSameAnswer(periods, season, days, bounds, k, MiddleMinute(bounds, k));
      }
    }
  }

  // ----- what publication guarantees the engine -----

  /** A rate-level threshold per day, where it replaces the bound it was derived from. */
  function DailyThreshold(rate: Rate, ctx: Context, p: Period): Option<real> {
    if rate.perDay.Some? && rate.thresholdSeason.Some? && rate.source.Some? && ctx.cycleDays.Some?
       && (p.season.None? || p.season == rate.thresholdSeason)
    then Some(Scaled(rate.perDay.value, ctx.cycleDays.value)) else None
  }

  /** Replacing the source bound keeps a bound on its side. */
  predicate KeepsSide(source: real, threshold: real, bound: real) {
    (bound < source ==> bound < threshold) && (bound > source ==> bound > threshold)
  }

  predicate KeepsSides(rate: Rate, ctx: Context, p: Period) {
    DailyThreshold(rate, ctx, p).Some? ==>
      var source, threshold := rate.source.value, DailyThreshold(rate, ctx, p).value;
      && source > 0.0 && threshold > 0.0 && KeepsSide(source, threshold, p.tier.start)
      && (p.tier.end.Some? ==> KeepsSide(source, threshold, p.tier.end.value))
  }

  predicate OnMarker(p: Period, marker: real) {
    p.tier == Span(0.0, Some(marker)) || p.tier == Span(marker, None)
  }

  /**
   What replacing bounds needs: either all periods are the two account tiers that publication writes, or none is an account
   tier and a rate-level threshold stays between the bounds next to the one it replaces.
   */
  ghost predicate SoundBounds(rate: Rate, ctx: Context, marker: real) {
    || (&& marker > 0.0 && (ctx.threshold.Some? ==> ctx.threshold.value > 0.0)
        && (forall p :: p in rate.periods ==> p.accountBased && OnMarker(p, marker)))
    || (forall p :: p in rate.periods ==> !p.accountBased && KeepsSides(rate, ctx, p))
  }

  /** An account tier without a threshold for its season. */
  predicate Unresolvable(ctx: Context, p: Period) {
    p.accountBased && (ctx.threshold.None? || ctx.thresholdSeason.None? || (p.season.Some? && p.season != ctx.thresholdSeason))
  }

  /** The bounds at a moment are unresolved exactly when an account tier in time has no threshold for its season. */
  lemma {:induction false} UnresolvedExactly(rate: Rate, ctx: Context, periods: seq<Period>, m: Moment)
    ensures TiersInTime(rate, ctx, periods, m).None? <==> exists i :: 0 <= i < |periods| && InTime(periods[i], m) && Unresolvable(ctx, periods[i])
  {
    hide InTime;
    if periods != [] {
      UnresolvedExactly(rate, ctx, periods[1..], m);
      assert forall i :: 0 < i < |periods| ==> periods[i] == periods[1..][i - 1];
      if i :| 0 <= i < |periods[1..]| && InTime(periods[1..][i], m) && Unresolvable(ctx, periods[1..][i]) {
        assert periods[i + 1] == periods[1..][i];
      }
    }
  }

  /** A tier with its bounds in effect; unresolved ones keep the stored bounds. */
  function InEffect(rate: Rate, ctx: Context): Tier -> Tier {
    (t: Tier) => if EffectiveTier(rate, ctx, t.period).Some? then EffectiveTier(rate, ctx, t.period).value else t
  }

  function MapTiers(tiers: seq<Tier>, f: Tier -> Tier): seq<Tier> {
    if tiers == [] then [] else [f(tiers[0])] + MapTiers(tiers[1..], f)
  }

  ghost predicate KeepsPeriods(f: Tier -> Tier) {
    forall t :: f(t).period == t.period
  }

  lemma {:induction false} EffectKeepsPeriods(rate: Rate, ctx: Context)
    ensures KeepsPeriods(InEffect(rate, ctx))
  {
  }

  lemma {:induction false} TiersAreMapped(rate: Rate, ctx: Context, periods: seq<Period>, m: Moment)
    requires TiersInTime(rate, ctx, periods, m).Some?
    ensures TiersInTime(rate, ctx, periods, m).value == MapTiers(StoredInTime(periods, m), InEffect(rate, ctx))
  {
    hide InTime, EffectiveTier;
    if periods != [] {
      var rest := StoredInTime(periods[1..], m);
      TiersAreMapped(rate, ctx, periods[1..], m);
      assert ([Tier(periods[0], periods[0].tier)] + rest)[1..] == rest;
      assert StoredInTime(periods, m) == (if InTime(periods[0], m) then [Tier(periods[0], periods[0].tier)] + rest else rest);
    }
  }

  lemma {:induction false} MappedAt(tiers: seq<Tier>, f: Tier -> Tier)
    ensures |MapTiers(tiers, f)| == |tiers|
    ensures forall i :: 0 <= i < |tiers| ==> MapTiers(tiers, f)[i] == f(tiers[i])
  {
    if tiers != [] {
      MappedAt(tiers[1..], f);
    }
  }

  lemma {:induction false} MappedRank(tiers: seq<Tier>, f: Tier -> Tier, m: Moment)
    requires tiers != [] && KeepsPeriods(f)
    ensures MapTiers(tiers, f) != [] && MaxOf(MapTiers(tiers, f), Levels(m)) == MaxOf(tiers, Levels(m))
  {
    hide Level;
    if |tiers| > 1 {
      MappedRank(tiers[1..], f, m);
    }
  }

  lemma {:induction false} MappedFilter(tiers: seq<Tier>, f: Tier -> Tier, m: Moment, level: int)
    requires KeepsPeriods(f)
    ensures Filter(MapTiers(tiers, f), AtLevel(m, level)) == MapTiers(Filter(tiers, AtLevel(m, level)), f)
  {
    hide Level;
    if tiers != [] {
      var rest := Filter(tiers[1..], AtLevel(m, level));
      MappedFilter(tiers[1..], f, m, level);
      assert ([tiers[0]] + rest)[1..] == rest && [] + rest == rest;
      assert Filter(tiers, AtLevel(m, level)) == (if AtLevel(m, level)(tiers[0]) then [tiers[0]] + rest else rest);
    }
  }

  /** Ranking does not look at bounds. */
  lemma {:induction false} MappedLeading(tiers: seq<Tier>, f: Tier -> Tier, m: Moment)
    requires KeepsPeriods(f)
    ensures Leading(MapTiers(tiers, f), m) == MapTiers(Leading(tiers, m), f)
  {
    if tiers != [] {
      MappedRank(tiers, f, m);
      MappedFilter(tiers, f, m, MaxOf(tiers, Levels(m)));
    }
  }

  // ----- moving bounds in order -----

  function MoveSpan(s: Span, f: real -> real): Span {
    Span(f(s.start), if s.end.Some? then Some(f(s.end.value)) else None)
  }

  ghost predicate KeepsBoundOrder(tiers: seq<Tier>, f: real -> real) {
    && f(0.0) == 0.0
    && (forall x, y :: IsBoundary(SpansOf(tiers), x) && IsBoundary(SpansOf(tiers), y) && x < y ==> f(x) < f(y))
  }

  function BoundList(tiers: seq<Tier>): seq<real> {
    if tiers == [] then [0.0]
    else [tiers[0].span.start] + (if tiers[0].span.end.Some? then [tiers[0].span.end.value] else []) + BoundList(tiers[1..])
  }

  lemma {:induction false} BoundListHolds(tiers: seq<Tier>, x: real)
    ensures x in BoundList(tiers) <==> IsBoundary(SpansOf(tiers), x)
  {
    if tiers != [] {
      BoundListHolds(tiers[1..], x);
      var spans, rest := SpansOf(tiers), SpansOf(tiers[1..]);
      assert forall i :: 0 < i < |spans| ==> spans[i] == rest[i - 1];
      if i :| 0 <= i < |rest| && (x == rest[i].start || rest[i].end == Some(x)) {
        assert spans[i + 1] == rest[i];
      }
      assert spans[0] == tiers[0].span;
    }
  }

  /** The stored position that stands for a position among the moved bounds: the highest bound moved to or below it. */
  lemma {:induction false} StoredPosition(tiers: seq<Tier>, f: real -> real, position: real) returns (stored: real)
    requires KeepsBoundOrder(tiers, f) && OrderedTiers(tiers) && position >= 0.0
    ensures stored >= 0.0
    ensures forall b :: IsBoundary(SpansOf(tiers), b) ==> (f(b) <= position <==> b <= stored)
  {
    var below := set b | b in BoundList(tiers) && f(b) <= position;
    var geq := (a: real, b: real) => a >= b;
    BoundListHolds(tiers, 0.0);
    assert 0.0 in below;
    stored := LeastExists(below, geq);
    BoundListHolds(tiers, stored);
    forall b | IsBoundary(SpansOf(tiers), b) ensures f(b) <= position <==> b <= stored {
      BoundListHolds(tiers, b);
      assert b in below ==> geq(stored, b);
    }
    assert geq(stored, 0.0);
  }

  /** Moving bounds without changing their order keeps an axis. */
  lemma {:induction false} MovedAxis(tiers: seq<Tier>, moved: seq<Tier>, f: real -> real)
    requires Axis(tiers) && OrderedTiers(tiers) && KeepsBoundOrder(tiers, f) && |moved| == |tiers|
    requires forall i :: 0 <= i < |tiers| ==> moved[i].span == MoveSpan(tiers[i].span, f)
    ensures Axis(moved) && OrderedTiers(moved)
  {
    forall i | 0 <= i < |tiers| ensures OrderedSpan(moved[i].span) {
      TierBounds(tiers, i);
      assert OrderedSpan(tiers[i].span) && IsBoundary(SpansOf(tiers), 0.0);
    }
    forall position: real | position >= 0.0 ensures OwnedOnce(moved, position) {
      var stored := StoredPosition(tiers, f, position);
      assert OwnedOnce(tiers, stored);
      forall i | 0 <= i < |tiers| ensures Covers(moved[i].span, position) <==> Covers(tiers[i].span, stored) {
        TierBounds(tiers, i);
      }
      var i :| OnlyOwner(tiers, stored, i);
      assert OnlyOwner(moved, position, i);
    }
  }

  lemma {:induction false} TierBounds(tiers: seq<Tier>, i: nat)
    requires i < |tiers|
    ensures IsBoundary(SpansOf(tiers), tiers[i].span.start)
    ensures tiers[i].span.end.Some? ==> IsBoundary(SpansOf(tiers), tiers[i].span.end.value)
  {
    assert SpansOf(tiers)[i] == tiers[i].span;
  }

  lemma {:induction false} BoundIsOfTier(tiers: seq<Tier>, x: real)
    requires IsBoundary(SpansOf(tiers), x) && x != 0.0
    ensures exists i :: 0 <= i < |tiers| && (tiers[i].span.start == x || tiers[i].span.end == Some(x))
  {
    var i :| 0 <= i < |SpansOf(tiers)| && (x == SpansOf(tiers)[i].start || SpansOf(tiers)[i].end == Some(x));
    assert tiers[i].span == SpansOf(tiers)[i];
  }

  lemma {:induction false} StoredTierOf(periods: seq<Period>, m: Moment)
    ensures forall t :: t in StoredInTime(periods, m) ==> t.period in periods && InTime(t.period, m) && t.span == t.period.tier
  {
    hide InTime;
    if periods != [] {
      StoredTierOf(periods[1..], m);
    }
  }

  lemma {:induction false} LeadingAreTiers(tiers: seq<Tier>, m: Moment)
    ensures forall t :: t in Leading(tiers, m) ==> t in tiers
  {
    if tiers != [] {
      FilterMembers(tiers, AtLevel(m, MaxOf(tiers, Levels(m))));
    }
  }

  /** Leading periods carry the same season, or all none. */
  lemma {:induction false} LeadersShareSeason(periods: seq<Period>, m: Moment, t: Tier, u: Tier)
    requires t in Leading(StoredInTime(periods, m), m) && u in Leading(StoredInTime(periods, m), m)
    ensures t.period.season == u.period.season
    ensures t.period in periods && InTime(t.period, m) && t.span == t.period.tier
  {
    var tiers := StoredInTime(periods, m);
    FilterMembers(tiers, AtLevel(m, MaxOf(tiers, Levels(m))));
    StoredTierOf(periods, m);
    LevelIsLexicographic(t.period, u.period, m);
    LevelIsLexicographic(u.period, t.period, m);
  }

  /** How bounds move for one leading period, and so for all. */
  function Moves(rate: Rate, ctx: Context, p: Period): real -> real {
    if p.accountBased then (x: real) => if x > 0.0 && ctx.threshold.Some? then ctx.threshold.value else 0.0
    else if DailyThreshold(rate, ctx, p).Some? then (x: real) => if Some(x) == rate.source then DailyThreshold(rate, ctx, p).value else x
    else (x: real) => x
  }

  lemma {:induction false} EffectiveIsMoved(rate: Rate, ctx: Context, p: Period, q: Period)
    requires OrderedSpan(p.tier) && !Unresolvable(ctx, p) && p.season == q.season && p.accountBased == q.accountBased
    ensures EffectiveTier(rate, ctx, p) == Some(Tier(p, MoveSpan(p.tier, Moves(rate, ctx, q))))
  {
    hide Scaled;
  }

  lemma {:induction false} AccountMovesInOrder(rate: Rate, ctx: Context, lead: seq<Tier>, q: Period, marker: real)
    requires marker > 0.0 && ctx.threshold.Some? && ctx.threshold.value > 0.0 && q.accountBased
    requires forall i :: 0 <= i < |lead| ==> lead[i].span == Span(0.0, Some(marker)) || lead[i].span == Span(marker, None)
    ensures KeepsBoundOrder(lead, Moves(rate, ctx, q))
  {
    forall x | IsBoundary(SpansOf(lead), x) ensures x == 0.0 || x == marker {
      if x != 0.0 {
        BoundIsOfTier(lead, x);
      }
    }
  }

  lemma {:induction false} StoredMovesInOrder(rate: Rate, ctx: Context, lead: seq<Tier>, q: Period)
    requires !q.accountBased
    requires DailyThreshold(rate, ctx, q).Some? ==>
               var source, threshold := rate.source.value, DailyThreshold(rate, ctx, q).value;
               && source > 0.0 && threshold > 0.0
               && (forall i :: 0 <= i < |lead| ==> KeepsSide(source, threshold, lead[i].span.start))
               && (forall i :: 0 <= i < |lead| && lead[i].span.end.Some? ==> KeepsSide(source, threshold, lead[i].span.end.value))
    ensures KeepsBoundOrder(lead, Moves(rate, ctx, q))
  {
    if DailyThreshold(rate, ctx, q).Some? {
      var source, threshold := rate.source.value, DailyThreshold(rate, ctx, q).value;
      forall x | IsBoundary(SpansOf(lead), x) ensures KeepsSide(source, threshold, x) {
        if x != 0.0 {
          BoundIsOfTier(lead, x);
        }
      }
    }
  }

  /** The bounds in effect form an axis wherever publication found the stored ones to form one. */
  lemma {:induction false} EffectiveAxis(rate: Rate, ctx: Context, m: Moment, marker: real)
    requires AllNormal(rate.periods) && GoodAt(rate.periods, m) && SoundBounds(rate, ctx, marker)
    requires TiersInTime(rate, ctx, rate.periods, m).Some?
    ensures var lead := Leading(TiersInTime(rate, ctx, rate.periods, m).value, m); Axis(lead) && OrderedTiers(lead)
  {
    var stored := Leading(StoredInTime(rate.periods, m), m);
    var lead := Leading(TiersInTime(rate, ctx, rate.periods, m).value, m);
    EffectKeepsPeriods(rate, ctx);
    TiersAreMapped(rate, ctx, rate.periods, m);
    MappedLeading(StoredInTime(rate.periods, m), InEffect(rate, ctx), m);
    MappedAt(stored, InEffect(rate, ctx));
    LeadingIsOrdered(rate.periods, m);
    assert Axis(stored);
    hide Axis, Leading, StoredInTime, TiersInTime, MapTiers, GoodAt;
    LeadersExist(stored);
    var q := stored[0].period;
    LeadMoves(rate, ctx, m, stored, marker);
    forall i | 0 <= i < |stored| ensures lead[i].span == MoveSpan(stored[i].span, Moves(rate, ctx, q)) {
      LeadIsMoved(rate, ctx, m, stored, marker, i);
    }
    MovedAxis(stored, lead, Moves(rate, ctx, q));
  }

  lemma {:induction false} LeadersExist(tiers: seq<Tier>)
    requires Axis(tiers)
    ensures tiers != []
  {
    assert OwnedOnce(tiers, 0.0);
  }

  lemma {:induction false} LeadIsMoved(rate: Rate, ctx: Context, m: Moment, stored: seq<Tier>, marker: real, i: nat)
    requires AllNormal(rate.periods) && SoundBounds(rate, ctx, marker) && TiersInTime(rate, ctx, rate.periods, m).Some?
    requires stored == Leading(StoredInTime(rate.periods, m), m) && i < |stored|
    ensures InEffect(rate, ctx)(stored[i]).span == MoveSpan(stored[i].span, Moves(rate, ctx, stored[0].period))
  {
    hide Leading, StoredInTime, TiersInTime, InTime, EffectiveTier, Moves;
    var p, q := stored[i].period, stored[0].period;
    assert stored[i] in stored && stored[0] in stored;
    LeadersShareSeason(rate.periods, m, stored[i], stored[0]);
    LeadersShareSeason(rate.periods, m, stored[0], stored[i]);
    UnresolvedExactly(rate, ctx, rate.periods, m);
    var k :| 0 <= k < |rate.periods| && rate.periods[k] == p;
    assert Normal(rate.periods[k]);
    EffectiveIsMoved(rate, ctx, p, q);
  }

  lemma {:induction false} LeadMoves(rate: Rate, ctx: Context, m: Moment, stored: seq<Tier>, marker: real)
    requires SoundBounds(rate, ctx, marker) && TiersInTime(rate, ctx, rate.periods, m).Some?
    requires stored == Leading(StoredInTime(rate.periods, m), m) && stored != []
    ensures KeepsBoundOrder(stored, Moves(rate, ctx, stored[0].period))
  {
    hide Leading, StoredInTime, TiersInTime, InTime, Moves, KeepsBoundOrder;
    var q := stored[0].period;
    forall i | 0 <= i < |stored| ensures stored[i].period in rate.periods && InTime(stored[i].period, m) && stored[i].span == stored[i].period.tier && stored[i].period.season == q.season {
      assert stored[i] in stored && stored[0] in stored;
      LeadersShareSeason(rate.periods, m, stored[i], stored[0]);
    }
    if q.accountBased {
      UnresolvedExactly(rate, ctx, rate.periods, m);
      var k :| 0 <= k < |rate.periods| && rate.periods[k] == q;
      assert InTime(rate.periods[k], m);
      AccountMovesInOrder(rate, ctx, stored, q, marker);
    } else {
      StoredMovesInOrder(rate, ctx, stored, q);
    }
  }

  /** A published schedule resolves one period exactly where its bounds resolve; for new energy, the tier that covers it. */
  lemma {:induction false} PublishedScheduleResolves(rate: Rate, ctx: Context, m: Moment, marker: real, position: real, incremental: bool)
    requires AllNormal(rate.periods) && GoodDay(rate.periods, m.season, m.days) && 0 <= m.minute < 1440 && position >= 0.0
    requires SoundBounds(rate, ctx, marker)
    ensures ScheduledTier(rate, ctx, m, position, incremental).Some? <==> TiersInTime(rate, ctx, rate.periods, m).Some?
    ensures incremental && TiersInTime(rate, ctx, rate.periods, m).Some? ==> Covers(ScheduledTier(rate, ctx, m, position, true).value.span, position)
  {
    if TiersInTime(rate, ctx, rate.periods, m).Some? {
      assert GoodAt(rate.periods, Moment(m.season, m.days, m.minute));
      hide GoodAt, ScheduledTier, TiersInTime, Leading, SoundBounds, AllNormal;
      EffectiveAxis(rate, ctx, m, marker);
      var lead := Leading(TiersInTime(rate, ctx, rate.periods, m).value, m);
      assert OwnedOnce(lead, position);
      var i :| OnlyOwner(lead, position, i);
      ResolvesTheOwner(rate, ctx, m, position, i, incremental);
    }
  }

  // ----- the check of a whole schedule -----

  const WEEKDAY := Some(0)
  const WEEKEND := Some(1)
  const HOLIDAY := Some(2)
  const EVENT_DAY := Some(3)
  const NON_EVENT_DAY := Some(4)
  const ALL_DAYS: Option<int> := None

  function RegularDays(explicitHolidays: bool): seq<Option<int>> {
    if explicitHolidays then [WEEKDAY, WEEKEND, HOLIDAY] else [WEEKDAY, WEEKEND]
  }

  /** The day-type priorities an instant can be classified with. */
  ghost predicate IsPriority(explicitHolidays: bool, eventAware: bool, days: seq<Option<int>>) {
    exists d :: d in RegularDays(explicitHolidays)
      && days in (if eventAware then {[EVENT_DAY, d, ALL_DAYS], [NON_EVENT_DAY, d, ALL_DAYS]} else {[d, ALL_DAYS]})
  }

  predicate EventAware(periods: seq<Period>) {
    exists i :: 0 <= i < |periods| && periods[i].day in {EVENT_DAY, NON_EVENT_DAY}
  }

  ghost predicate GoodSeason(periods: seq<Period>, season: int, explicitHolidays: bool) {
    forall days :: IsPriority(explicitHolidays, EventAware(periods), days) ==> GoodDay(periods, season, days)
  }

  /** The publication check accepts exactly the schedules that resolve in every listed season on every kind of day. */
  method ValidateSchedule(periods: seq<Period>, seasons: seq<int>, explicitHolidays: bool) returns (ok: bool)
    requires AllNormal(periods)
    ensures ok <==> forall s :: 0 <= s < |seasons| ==> GoodSeason(periods, seasons[s], explicitHolidays)
  {
    for s := 0 to |seasons|
      invariant forall k :: 0 <= k < s ==> GoodSeason(periods, seasons[k], explicitHolidays)
    {
      var valid := ValidateSeason(periods, seasons[s], explicitHolidays);
      if !valid {
        return false;
      }
    }
    ok := true;
  }

  method ValidateSeason(periods: seq<Period>, season: int, explicitHolidays: bool) returns (ok: bool)
    requires AllNormal(periods)
    ensures ok <==> GoodSeason(periods, season, explicitHolidays)
  {
    hide GoodDay, AllNormal, EventAware;
    var regular, eventAware := RegularDays(explicitHolidays), EventAware(periods);
    for k := 0 to |regular|
      invariant forall c :: 0 <= c < k ==> GoodDay(periods, season, OrdinaryPriority(eventAware, regular[c]))
    {
      var valid := ValidateOneDay(periods, season, OrdinaryPriority(eventAware, regular[k]));
      if !valid {
        assert IsPriority(explicitHolidays, eventAware, OrdinaryPriority(eventAware, regular[k]));
        return false;
      }
    }
    if eventAware {
      for k := 0 to |regular|
        invariant forall c :: 0 <= c < k ==> GoodDay(periods, season, [EVENT_DAY, regular[c], ALL_DAYS])
      {
        var valid := ValidateOneDay(periods, season, [EVENT_DAY, regular[k], ALL_DAYS]);
        if !valid {
          assert IsPriority(explicitHolidays, eventAware, [EVENT_DAY, regular[k], ALL_DAYS]);
          return false;
        }
      }
    }
    ok := true;
  }

  function OrdinaryPriority(eventAware: bool, d: Option<int>): seq<Option<int>> {
    if eventAware then [NON_EVENT_DAY, d, ALL_DAYS] else [d, ALL_DAYS]
  }
}
