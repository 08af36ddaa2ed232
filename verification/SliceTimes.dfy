/** When the slices of a priced interval start and end (backend/app/services/cost_engine.py). */
module SliceTimes {
  import opened Outcomes
  import opened Sums
  import opened PeriodResolution
  import opened CostEngine

  /** The slices follow one another in time without gap, from one instant to another. */
  ghost predicate Contiguous(slices: seq<Slice>, from: int, to: int) {
    && slices != [] && slices[0].start == from && slices[|slices| - 1].end == to
    && (forall i :: 0 <= i < |slices| ==> slices[i].start <= slices[i].end)
    && (forall i :: 0 < i < |slices| ==> slices[i - 1].end == slices[i].start)
  }

  /** The slices lie in a stretch of time, each after the other. */
  ghost predicate InOrder(slices: seq<Slice>, from: int, to: int) {
    && (forall i :: 0 <= i < |slices| ==> from <= slices[i].start <= slices[i].end <= to)
    && (forall i, j :: 0 <= i < j < |slices| ==> slices[i].end <= slices[j].start)
  }

  lemma {:induction false} OrderedProducts(a: int, b: int, c: int)
    requires a <= b && c >= 0
    ensures c * a <= c * b
  {
  }

  lemma {:induction false} OrderedQuotients(a: int, b: int, d: int)
    requires a <= b && d > 0
    ensures a / d <= b / d
  {
    DivisionIdentity(a, d);
    DivisionIdentity(b, d);
    if a / d > b / d {
      OrderedProducts(b / d + 1, a / d, d);
    }
  }

  /** The more of a bucket is consumed, the later the slice ends, and never past the bucket. */
  lemma {:induction false} EndsInOrder(left: int, right: int, bucket: int, consumed: int, more: int)
    requires left < right && bucket > 0 && consumed <= more
    ensures left <= SliceEnd(left, right, bucket, consumed) <= SliceEnd(left, right, bucket, more) < right
  {
    OrderedProducts(consumed, more, right - left);
    OrderedQuotients((right - left) * consumed, (right - left) * more, bucket);
  }

  /** Where the next slice of a bucket starts: at its start, or where the consumed part ends. */
  ghost predicate StartsAt(left: int, right: int, bucket: int, remaining: int, from: int) {
    from == left || (bucket > 0 && from == SliceEnd(left, right, bucket, bucket - remaining))
  }

  lemma {:induction false} NextTimes(rate: Rate, ctx: Context, left: int, right: int, bucket: int, remaining: int, from: int, m: Meter)
    requires left < right && 0 < remaining <= bucket && StartsAt(left, right, bucket, remaining, from)
    requires NextSlice(rate, ctx, left, right, bucket, remaining, from, m).Some?
    ensures var s := NextSlice(rate, ctx, left, right, bucket, remaining, from, m).value;
            && 0 < s.energy <= remaining && s.start == from <= s.end
            && (s.energy == remaining ==> s.end == right)
            && (s.energy < remaining ==> StartsAt(left, right, bucket, remaining - s.energy, s.end))
  {
    var s := NextSlice(rate, ctx, left, right, bucket, remaining, from, m).value;
    SliceAdvances(rate, ctx, left, right, bucket, remaining, from, m);
    EndsInOrder(left, right, bucket, bucket - remaining, bucket - remaining + s.energy);
    hide SliceEnd, PeriodFor, Amount, Credited, Capacity;
  }

  lemma {:induction false} Prepend(s: Slice, rest: seq<Slice>, from: int, to: int)
    requires s.start == from <= s.end && Contiguous(rest, s.end, to)
    ensures Contiguous([s] + rest, from, to)
  {
  }

  /** The slices of a bucket with energy cover it from its start to its end without gap. */
  lemma {:induction false} BucketIsCovered(rate: Rate, ctx: Context, left: int, right: int, bucket: int, remaining: int, from: int, m: Meter) returns (added: seq<Slice>)
    requires left < right && 0 < remaining <= bucket && StartsAt(left, right, bucket, remaining, from)
    requires SliceBucket(rate, ctx, left, right, bucket, remaining, from, m).Some?
    ensures SliceBucket(rate, ctx, left, right, bucket, remaining, from, m).value.slices == m.slices + added && Contiguous(added, from, right)
    decreases remaining
  {
    hide NextSlice, StartsAt, Contiguous;
    var s := NextSlice(rate, ctx, left, right, bucket, remaining, from, m).value;
    NextTimes(rate, ctx, left, right, bucket, remaining, from, m);
    if s.energy == remaining {
      added := [s];
      OneSlice(s);
    } else {
      var rest := BucketIsCovered(rate, ctx, left, right, bucket, remaining - s.energy, s.end, Record(m, s));
      added := [s] + rest;
      Prepend(s, rest, from, right);
      assert m.slices + [s] + rest == m.slices + added;
    }
  }

  lemma {:induction false} OneSlice(s: Slice)
    requires s.start <= s.end
    ensures Contiguous([s], s.start, s.end)
  {
  }

  lemma {:induction false} ContiguousIsInOrder(slices: seq<Slice>, from: int, to: int)
    requires Contiguous(slices, from, to)
    ensures InOrder(slices, from, to) && from <= to
  {
    if |slices| > 1 {
      var rest := slices[1..];
      assert forall i :: 0 <= i < |rest| ==> rest[i] == slices[i + 1];
      ContiguousIsInOrder(rest, slices[0].end, to);
      forall i, j | 0 <= i < j < |slices| ensures slices[i].end <= slices[j].start {
        if i > 0 {
          assert rest[i - 1].end <= rest[j - 1].start;
        } else {
          assert slices[0].end <= rest[j - 1].start;
        }
      }
      forall i | 0 <= i < |slices| ensures from <= slices[i].start <= slices[i].end <= to {
        if i > 0 {
          assert slices[0].end <= rest[i - 1].start <= rest[i - 1].end <= to;
        }
      }
    }
  }

  // ----- the whole interval -----

  lemma {:induction false} OrderAppends(slices: seq<Slice>, added: seq<Slice>, from: int, middle: int, to: int)
    requires InOrder(slices, from, middle) && InOrder(added, middle, to) && from <= middle <= to
    ensures InOrder(slices + added, from, to)
  {
    var all := slices + added;
    forall i, j | 0 <= i < j < |all| ensures all[i].end <= all[j].start {
      if i < |slices| <= j {
        assert all[i] == slices[i] && all[j] == added[j - |slices|];
      }
    }
  }

  lemma {:induction false} ChainAppends(slices: seq<Slice>, added: seq<Slice>, from: int, middle: int, to: int)
    requires Contiguous(slices, from, middle) && Contiguous(added, middle, to)
    ensures Contiguous(slices + added, from, to)
  {
  }

  /** What holds of the slices of the first k buckets. */
  ghost predicate Timed(bounds: seq<int>, energies: seq<int>, k: nat, slices: seq<Slice>)
    requires |bounds| == |energies| + 1 && k <= |energies|
  {
    && InOrder(slices, bounds[0], bounds[k])
    && (k == 0 ==> slices == [])
    && (k > 0 && (forall i :: 0 <= i < k ==> energies[i] > 0) ==> Contiguous(slices, bounds[0], bounds[k]))
  }

  lemma {:induction false} BucketIsTimed(rate: Rate, ctx: Context, bounds: seq<int>, energies: seq<int>, k: nat, m: Meter)
    requires |bounds| == |energies| + 1 && k < |energies| && Ascending(bounds) && energies[k] >= 0 && Timed(bounds, energies, k, m.slices)
    requires SliceBucket(rate, ctx, bounds[k], bounds[k + 1], energies[k], energies[k], bounds[k], m).Some?
    ensures Timed(bounds, energies, k + 1, SliceBucket(rate, ctx, bounds[k], bounds[k + 1], energies[k], energies[k], bounds[k], m).value.slices)
  {
    hide NextSlice, Contiguous, InOrder;
    var left, right := bounds[k], bounds[k + 1];
    var after := SliceBucket(rate, ctx, left, right, energies[k], energies[k], left, m).value;
    if energies[k] > 0 {
      var added := BucketIsCovered(rate, ctx, left, right, energies[k], energies[k], left, m);
      ContiguousIsInOrder(added, left, right);
      OrderAppends(m.slices, added, bounds[0], left, right);
      if k == 0 {
        assert [] + added == added;
      } else if forall i :: 0 <= i < k ==> energies[i] > 0 {
        ChainAppends(m.slices, added, bounds[0], left, right);
      }
    } else if m.slices == [] {
      EmptySlice(rate, ctx, left, right, m);
      OrderAppends(m.slices, after.slices, bounds[0], left, right);
      assert [] + after.slices == after.slices;
    } else {
      StaysInOrder(m.slices, bounds[0], left, right);
    }
  }

  lemma {:induction false} StaysInOrder(slices: seq<Slice>, from: int, to: int, later: int)
    requires InOrder(slices, from, to) && to <= later
    ensures InOrder(slices, from, later)
  {
  }

  lemma {:induction false} EmptySlice(rate: Rate, ctx: Context, left: int, right: int, m: Meter)
    requires left < right && m.slices == [] && SliceBucket(rate, ctx, left, right, 0, 0, left, m).Some?
    ensures InOrder(SliceBucket(rate, ctx, left, right, 0, 0, left, m).value.slices, left, right)
  {
    hide PeriodFor;
    var s := NextSlice(rate, ctx, left, right, 0, 0, left, m).value;
    assert s.start == left && s.end == right;
    assert SliceBucket(rate, ctx, left, right, 0, 0, left, m).value.slices == [s];
  }

  lemma {:induction false} BucketsAreTimed(rate: Rate, ctx: Context, bounds: seq<int>, energies: seq<int>, k: nat, m: Meter)
    requires |bounds| == |energies| + 1 && k <= |energies| && Ascending(bounds) && Timed(bounds, energies, k, m.slices)
    requires forall i :: 0 <= i < |energies| ==> energies[i] >= 0
    requires SliceFrom(rate, ctx, bounds, energies, k, m).Some?
    ensures Timed(bounds, energies, |energies|, SliceFrom(rate, ctx, bounds, energies, k, m).value.slices)
    decreases |energies| - k
  {
    hide SliceBucket, Timed;
    if k < |energies| {
      BucketIsTimed(rate, ctx, bounds, energies, k, m);
      BucketsAreTimed(rate, ctx, bounds, energies, k + 1,
                      SliceBucket(rate, ctx, bounds[k], bounds[k + 1], energies[k], energies[k], bounds[k], m).value);
    }
  }

  /** The energies of the buckets of an interval. */
  ghost function BucketEnergies(rate: Rate, start: int, end: int, energy: int): seq<int>
    requires start < end
  {
    BoundsAscend(rate, start, end);
    DurationsArePositive(Bounds(rate, start, end));
    Energies(Bounds(rate, start, end), energy)
  }

  /** The slices of a bill lie in its interval in order of time, and cover it without gap if every bucket got energy. */
  lemma {:induction false} SlicesFollowTime(rate: Rate, ctx: Context, start: int, end: int, energy: int)
    requires PriceInterval(rate, ctx, start, end, energy).Some?
    ensures var slices, energies := PriceInterval(rate, ctx, start, end, energy).value.slices, BucketEnergies(rate, start, end, energy);
            && InOrder(slices, start, end)
            && ((forall i :: 0 <= i < |energies| ==> energies[i] > 0) ==> Contiguous(slices, start, end))
  {
    BoundsEnd(rate, start, end);
    BucketsConserveEnergy(Bounds(rate, start, end), energy);
    BillIsSliced(rate, ctx, start, end, energy);
    hide *;
    var bounds, energies, initial := Bounds(rate, start, end), BucketEnergies(rate, start, end, energy), Meter(ctx.position, ctx.baseline, []);
    NothingIsTimed(bounds, energies);
    BucketsAreTimed(rate, ctx, bounds, energies, 0, initial);
    TimedAtTheEnd(bounds, energies, PriceInterval(rate, ctx, start, end, energy).value.slices);
  }

  lemma {:induction false} BoundsEnd(rate: Rate, start: int, end: int)
    requires start < end
    ensures var bounds := Bounds(rate, start, end);
            Ascending(bounds) && |bounds| >= 2 && bounds[0] == start && bounds[|bounds| - 1] == end
  {
    BoundsAscend(rate, start, end);
  }

  lemma {:induction false} BillIsSliced(rate: Rate, ctx: Context, start: int, end: int, energy: int)
    requires PriceInterval(rate, ctx, start, end, energy).Some?
    ensures start < end && energy >= 0
    ensures |Bounds(rate, start, end)| == |BucketEnergies(rate, start, end, energy)| + 1
    ensures BucketEnergies(rate, start, end, energy) == (BoundsAscend(rate, start, end); DurationsArePositive(Bounds(rate, start, end)); Energies(Bounds(rate, start, end), energy))
    ensures var meter := SliceFrom(rate, ctx, Bounds(rate, start, end), BucketEnergies(rate, start, end, energy), 0, Meter(ctx.position, ctx.baseline, []));
            meter.Some? && PriceInterval(rate, ctx, start, end, energy).value.slices == meter.value.slices
  {
    hide Bounds, Energies, SliceFrom;
  }

  lemma {:induction false} NothingIsTimed(bounds: seq<int>, energies: seq<int>)
    requires |bounds| == |energies| + 1
    ensures Timed(bounds, energies, 0, [])
  {
  }

  lemma {:induction false} TimedAtTheEnd(bounds: seq<int>, energies: seq<int>, slices: seq<Slice>)
    requires |bounds| == |energies| + 1 && |energies| > 0 && Timed(bounds, energies, |energies|, slices)
    ensures InOrder(slices, bounds[0], bounds[|bounds| - 1])
    ensures (forall i :: 0 <= i < |energies| ==> energies[i] > 0) ==> Contiguous(slices, bounds[0], bounds[|bounds| - 1])
  {
  }
}
