/** The tier position of an interval within its billing cycle (worker/app/jobs.py, _cost_context). */
module TierPosition {
  import opened Outcomes
  import opened Sums

  datatype Interval = Interval(
    device: int, start: int, end: int, energy: Option<nat>, authenticated: bool, current: bool, finalized: bool)

  datatype EventKind = GapRecovered | GapUnresolved | CounterReset

  datatype BillingStatus = Included | Unresolved | Excluded

  datatype Event = Event(
    device: int, kind: EventKind, status: BillingStatus, gapStart: Option<int>, gapEnd: Option<int>, recovered: Option<nat>)

  /** A verified cycle-to-date seed; through is None when its evidence does not parse. */
  datatype Seed = Seed(energy: nat, through: Option<int>)

  /** What one group of member devices has recorded, and the seed of the cycle it is in. */
  datatype Cycle = Cycle(members: set<int>, start: int, seed: Option<Seed>, intervals: seq<Interval>, events: seq<Event>)

  function EnergyOf(x: Interval): int {
    if x.energy.Some? then x.energy.value else 0
  }

  function RecoveredOf(e: Event): int {
    if e.recovered.Some? then e.recovered.value else 0
  }

  /** Where automatic accumulation starts: at the cycle, or at the end of what the seed covers. */
  function AutomaticStart(c: Cycle): int {
    if c.seed.Some? && c.seed.value.through.Some? then c.seed.value.through.value else c.start
  }

  predicate Straddles(c: Cycle, x: Interval) {
    x.device in c.members && x.authenticated && x.start < AutomaticStart(c) < x.end
  }

  predicate SeedUsable(c: Cycle, at: int) {
    c.seed.Some? ==>
      && c.seed.value.through.Some?
      && c.start <= c.seed.value.through.value <= at
      && (forall i :: 0 <= i < |c.intervals| ==> !Straddles(c, c.intervals[i]))
  }

  predicate Blocks(c: Cycle, at: int, e: Event) {
    && e.device in c.members
    && e.status == Unresolved
    && (e.gapEnd.Some? ==> e.gapEnd.value > AutomaticStart(c))
    && (e.gapStart.Some? ==> e.gapStart.value < at)
  }

  predicate Measured(c: Cycle, x: Interval) {
    x.device in c.members && x.current && x.authenticated && x.start >= AutomaticStart(c)
  }

  /** Measured energy that ended in (from, to]. */
  function EndedIn(c: Cycle, from: int, to: int): Interval -> bool {
    (x: Interval) => Measured(c, x) && from < x.end <= to
  }

  function EndedBy(c: Cycle, at: int): Interval -> bool {
    (x: Interval) => Measured(c, x) && x.end <= at
  }

  /** Recovered energy whose gap ended in (from, to]. */
  function RecoveredIn(c: Cycle, from: int, to: int): Event -> bool {
    (e: Event) =>
      && e.device in c.members && e.kind == GapRecovered && e.status == Included
      && e.gapEnd.Some? && from < e.gapEnd.value <= to
  }

  function MeasuredEnergy(c: Cycle, from: int, to: int): int {
    SumOf(Filter(c.intervals, EndedIn(c, from, to)), EnergyOf)
  }

  function RecoveredEnergy(c: Cycle, from: int, to: int): int {
    SumOf(Filter(c.events, RecoveredIn(c, from, to)), RecoveredOf)
  }

  /** The cumulative mWh before an interval starting at the given time; None when no context can be given. */
  function PositionAt(c: Cycle, at: int): Option<int> {
    if !SeedUsable(c, at) || exists i :: 0 <= i < |c.events| && Blocks(c, at, c.events[i]) then None
    else
      var seeded := if c.seed.Some? then c.seed.value.energy else 0;
      Some(seeded
           + SumOf(Filter(c.intervals, EndedBy(c, at)), EnergyOf)
           + RecoveredEnergy(c, AutomaticStart(c), at))
  }

  /** Time order of intervals is a database constraint. */
  ghost predicate Ordered(c: Cycle) {
    forall i :: 0 <= i < |c.intervals| ==> c.intervals[i].start < c.intervals[i].end
  }

  // ----- definedness -----

  /** A later interval with a context means an earlier one past the seed has one too. */
  lemma {:induction false} EarlierIsDefined(c: Cycle, one: int, two: int)
    requires AutomaticStart(c) <= one <= two && PositionAt(c, two).Some?
    ensures PositionAt(c, one).Some?
  {
    forall i | 0 <= i < |c.events| ensures !Blocks(c, one, c.events[i]) {
      assert !Blocks(c, two, c.events[i]);
    }
  }

  // ----- telescoping -----

  /** Each position is the earlier one plus exactly what ended in between. */
  lemma {:induction false} PositionTelescopes(c: Cycle, one: int, two: int)
    requires AutomaticStart(c) <= one <= two
    requires PositionAt(c, one).Some? && PositionAt(c, two).Some?
    ensures PositionAt(c, two).value == PositionAt(c, one).value + MeasuredEnergy(c, one, two) + RecoveredEnergy(c, one, two)
  {
    var auto := AutomaticStart(c);
    SumFilterSplit(c.intervals, EndedBy(c, two), EndedBy(c, one), EndedIn(c, one, two), EnergyOf);
    SumFilterSplit(c.events, RecoveredIn(c, auto, two), RecoveredIn(c, auto, one), RecoveredIn(c, one, two), RecoveredOf);
  }

  lemma {:induction false} IncrementsAreNonNegative(c: Cycle, from: int, to: int)
    ensures MeasuredEnergy(c, from, to) >= 0 && RecoveredEnergy(c, from, to) >= 0
  {
    SumOfNonNegative(Filter(c.intervals, EndedIn(c, from, to)), EnergyOf);
    SumOfNonNegative(Filter(c.events, RecoveredIn(c, from, to)), RecoveredOf);
  }

  /** Within a cycle the position never falls as intervals start later. */
  lemma {:induction false} PositionIsMonotone(c: Cycle, one: int, two: int)
    requires one <= two && AutomaticStart(c) <= one
    requires PositionAt(c, one).Some? && PositionAt(c, two).Some?
    ensures PositionAt(c, one).value <= PositionAt(c, two).value
  {
    PositionTelescopes(c, one, two);
    IncrementsAreNonNegative(c, one, two);
  }

  /** The intervals priced as one group: finalized member intervals with these bounds and an energy. */
  function InGroup(c: Cycle, start: int, end: int): Interval -> bool {
    (x: Interval) =>
      && x.device in c.members && x.current && x.authenticated && x.finalized && x.energy.Some?
      && x.start == start && x.end == end
  }

  function GroupEnergy(c: Cycle, start: int, end: int): int {
    SumOf(Filter(c.intervals, InGroup(c, start, end)), EnergyOf)
  }

  /** Everything the members measured that ended within (start, end] belongs to that one group. */
  ghost predicate Aligned(c: Cycle, start: int, end: int) {
    forall i :: 0 <= i < |c.intervals| && EndedIn(c, start, end)(c.intervals[i]) ==> InGroup(c, start, end)(c.intervals[i])
  }

  lemma {:induction false} AlignedEnergy(c: Cycle, start: int, end: int)
    requires AutomaticStart(c) <= start < end && Aligned(c, start, end)
    ensures MeasuredEnergy(c, start, end) == GroupEnergy(c, start, end)
  {
    forall x | x in c.intervals ensures EndedIn(c, start, end)(x) == InGroup(c, start, end)(x) {
      var i :| 0 <= i < |c.intervals| && c.intervals[i] == x;
    }
    FilterSame(c.intervals, EndedIn(c, start, end), InGroup(c, start, end));
  }

  /** The boundaries of adjacent aligned groups. */
  ghost predicate Chain(c: Cycle, bounds: seq<int>) {
    && bounds != [] && AutomaticStart(c) <= bounds[0]
    && (forall k, m :: 0 <= k < m < |bounds| ==> bounds[k] < bounds[m])
    && (forall k, m :: 0 <= k && m == k + 1 < |bounds| ==> Aligned(c, bounds[k], bounds[m]))
  }

  function ChainEnergy(c: Cycle, bounds: seq<int>): int {
    if |bounds| < 2 then 0
    else
      GroupEnergy(c, bounds[0], bounds[1]) + RecoveredEnergy(c, bounds[0], bounds[1]) + ChainEnergy(c, bounds[1..])
  }

  /** Over adjacent aligned groups the last position is the first plus every group's energy and the energy recovered between. */
  lemma {:induction false} ChainTelescopes(c: Cycle, bounds: seq<int>)
    requires Chain(c, bounds) && PositionAt(c, bounds[|bounds| - 1]).Some?
    ensures PositionAt(c, bounds[0]).Some?
    ensures PositionAt(c, bounds[|bounds| - 1]).value == PositionAt(c, bounds[0]).value + ChainEnergy(c, bounds)
    decreases |bounds|
  {
    if |bounds| > 1 {
      var rest := bounds[1..];
      assert forall k, m :: 0 <= k && m == k + 1 < |rest| ==> rest[k] == bounds[k + 1] && rest[m] == bounds[m + 1];
      ChainTelescopes(c, rest);
      EarlierIsDefined(c, bounds[0], bounds[1]);
      PositionTelescopes(c, bounds[0], bounds[1]);
      AlignedEnergy(c, bounds[0], bounds[1]);
    }
  }

  // ----- the seed -----

  /** Under a seed, an interval that ended by then is either wholly covered by the seed or wholly counted. */
  lemma {:induction false} SeedCountsOnce(c: Cycle, at: int, x: Interval)
    requires Ordered(c) && c.seed.Some? && PositionAt(c, at).Some?
    requires x in c.intervals && x.device in c.members && x.current && x.authenticated && x.end <= at
    ensures EndedBy(c, at)(x) <==> x.end > c.seed.value.through.value
    ensures EndedBy(c, at)(x) <==> x.start >= c.seed.value.through.value
  {
    var i :| 0 <= i < |c.intervals| && c.intervals[i] == x;
    assert !Straddles(c, c.intervals[i]);
  }

  /** At the seed's own boundary the position is exactly the seeded energy. */
  lemma {:induction false} SeedIsTheStart(c: Cycle)
    requires Ordered(c) && c.seed.Some? && PositionAt(c, AutomaticStart(c)).Some?
    ensures PositionAt(c, AutomaticStart(c)).value == c.seed.value.energy
  {
    var auto := AutomaticStart(c);
    forall i | 0 <= i < |c.intervals| ensures !EndedBy(c, auto)(c.intervals[i]) {
    }
    FilterNone(c.intervals, EndedBy(c, auto));
    FilterNone(c.events, RecoveredIn(c, auto, auto));
  }

  // ----- what counts, one by one -----

  /** One more interval moves the position by its energy exactly if it is a member's, current, authentic, and lies within. */
  lemma {:induction false} OneMoreInterval(c: Cycle, x: Interval, at: int)
    requires var more := c.(intervals := c.intervals + [x]); PositionAt(c, at).Some? && PositionAt(more, at).Some?
    ensures var more := c.(intervals := c.intervals + [x]);
            var from := if c.seed.Some? && c.seed.value.through.Some? then c.seed.value.through.value else c.start;
            PositionAt(more, at).value - PositionAt(c, at).value
            == if x.device in c.members && x.current && x.authenticated && from <= x.start && x.end <= at && x.energy.Some? then x.energy.value else 0
  {
    var more := c.(intervals := c.intervals + [x]);
    var keep := EndedBy(c, at);
    FilterSame(more.intervals, EndedBy(more, at), keep);
    FilterConcat(c.intervals, [x], keep);
    SumOfConcat(Filter(c.intervals, keep), Filter([x], keep), EnergyOf);
    FilterSame(c.events, RecoveredIn(more, AutomaticStart(c), at), RecoveredIn(c, AutomaticStart(c), at));
    OneFiltered(x, keep);
  }

  lemma {:induction false} OneFiltered(x: Interval, keep: Interval -> bool)
    ensures SumOf(Filter([x], keep), EnergyOf) == if keep(x) && x.energy.Some? then x.energy.value else 0
  {
    assert [x][1..] == [];
    assert Filter([x], keep) == (if keep(x) then [x] else []);
  }

  /** One more event moves it by its recovered energy exactly if it is a member's included recovery whose gap ended within. */
  lemma {:induction false} OneMoreEvent(c: Cycle, e: Event, at: int)
    requires var more := c.(events := c.events + [e]); PositionAt(c, at).Some? && PositionAt(more, at).Some?
    ensures var more := c.(events := c.events + [e]);
            var from := if c.seed.Some? && c.seed.value.through.Some? then c.seed.value.through.value else c.start;
            var counts := && e.device in c.members && e.kind == GapRecovered && e.status == Included
                          && e.gapEnd.Some? && from < e.gapEnd.value <= at && e.recovered.Some?;
            PositionAt(more, at).value - PositionAt(c, at).value == if counts then e.recovered.value else 0
  {
    var more := c.(events := c.events + [e]);
    var keep := RecoveredIn(c, AutomaticStart(c), at);
    FilterSame(c.intervals, EndedBy(more, at), EndedBy(c, at));
    FilterSame(more.events, RecoveredIn(more, AutomaticStart(c), at), keep);
    FilterConcat(c.events, [e], keep);
    SumOfConcat(Filter(c.events, keep), Filter([e], keep), RecoveredOf);
    assert [e][1..] == [];
    assert Filter([e], keep) == (if keep(e) then [e] else []);
  }

  /** With nothing measured or recovered the position is what the seed says, or zero. */
  lemma {:induction false} NothingMeasured(c: Cycle, at: int)
    requires c.intervals == [] && c.events == [] && PositionAt(c, at).Some?
    ensures PositionAt(c, at).value == if c.seed.Some? then c.seed.value.energy else 0
  {
  }

  /** There is no position exactly for an unusable seed, an interval across its end, or an unresolved event that may matter. */
  lemma {:induction false} RefusedExactly(c: Cycle, at: int)
    ensures var from := if c.seed.Some? && c.seed.value.through.Some? then c.seed.value.through.value else c.start;
            PositionAt(c, at).None? <==>
              || (c.seed.Some? && (c.seed.value.through.None? || from < c.start || from > at))
              || (c.seed.Some? && exists x :: x in c.intervals && x.device in c.members && x.authenticated && x.start < from < x.end)
              || (exists e :: e in c.events && e.device in c.members && e.status == Unresolved
                    && (e.gapEnd.None? || e.gapEnd.value > from) && (e.gapStart.None? || e.gapStart.value < at))
  {
    var from := AutomaticStart(c);
    if i :| 0 <= i < |c.intervals| && Straddles(c, c.intervals[i]) {
      assert c.intervals[i] in c.intervals;
    }
    if x :| x in c.intervals && x.device in c.members && x.authenticated && x.start < from < x.end {
      var i :| 0 <= i < |c.intervals| && c.intervals[i] == x;
      assert Straddles(c, c.intervals[i]);
    }
    if i :| 0 <= i < |c.events| && Blocks(c, at, c.events[i]) {
      assert c.events[i] in c.events;
    }
    if e :| e in c.events && e.device in c.members && e.status == Unresolved && (e.gapEnd.None? || e.gapEnd.value > from) && (e.gapStart.None? || e.gapStart.value < at) {
      var i :| 0 <= i < |c.events| && c.events[i] == e;
      assert Blocks(c, at, c.events[i]);
    }
  }
}
