/** What the history view reports, from rows and instants (backend/app/routes/dashboard.py). */
module HistoryLaws {
  import opened Outcomes
  import opened Sums
  import opened Sorting
  import opened HistoryView

  /** Some row of the device covers the instant. */
  ghost predicate DeviceCovered(rows: seq<Row>, device: int, t: int) {
    exists i :: 0 <= i < |rows| && rows[i].device == device && rows[i].start <= t < rows[i].end
  }

  /** Every device covers every instant of the range. */
  ghost predicate AllCovered(q: Selection) {
    forall d, t :: d in q.devices && q.start <= t < q.end ==> DeviceCovered(q.rows, d, t)
  }

  // ----- buckets on the line -----

  lemma {:induction false} Distribute(a: int, b: int, c: int)
    ensures (a + b) * c == a * c + b * c
  {
  }

  /** The bounds of the k-th bucket. */
  lemma {:induction false} BucketBounds(q: Selection, k: int)
    requires q.bucket > 0
    ensures BucketStart(q, k) == (q.start / q.bucket + k) * q.bucket
    ensures BucketStart(q, k + 1) == BucketStart(q, k) + q.bucket
  {
    Distribute(q.start / q.bucket, k, q.bucket);
    Distribute(k, 1, q.bucket);
  }

  lemma {:induction false} MonotoneProduct(a: int, b: int, d: int)
    requires d > 0
    ensures a < b ==> a * d + d <= b * d
  {
    if a < b {
      Distribute(a, 1, d);
      LessTimes(a + 1, b, d);
    }
  }

  lemma {:induction false} LessTimes(a: int, b: int, d: int)
    requires a <= b && d > 0
    ensures a * d <= b * d
  {
  }

  /** An instant lies in one bucket only. */
  lemma {:induction false} OneBucket(q: Selection, k: int, m: int, t: int)
    requires q.bucket > 0 && BucketStart(q, k) <= t < BucketStart(q, k) + q.bucket && BucketStart(q, m) <= t < BucketStart(q, m) + q.bucket
    ensures k == m
  {
    MonotoneProduct(k, m, q.bucket);
    MonotoneProduct(m, k, q.bucket);
  }

  /** Every instant of the range lies in a bucket of the answer. */
  lemma {:induction false} BucketOf(q: Selection, t: int) returns (k: int)
    requires ValidSelection(q) && q.start <= t < q.end
    ensures 0 <= k < BucketCount(q.start, q.end, q.bucket) && BucketStart(q, k) <= t < BucketStart(q, k) + q.bucket
  {
    var origin := Origin(q.start, q.bucket);
    CountIsPositive(q.start, q.end, q.bucket);
    k := (t - origin) / q.bucket;
    FloorBelowCeiling(t - origin, q.end - origin, q.bucket);
    DivisionIdentity(t - origin, q.bucket);
  }

  /** The first bucket holds the start, and every bucket of the answer reaches into the range. */
  lemma {:induction false} BucketReachesIn(q: Selection, k: int)
    requires ValidSelection(q) && 0 <= k < BucketCount(q.start, q.end, q.bucket)
    ensures BucketStart(q, k) < q.end && q.start < BucketStart(q, k) + q.bucket
  {
    var origin := Origin(q.start, q.bucket);
    CountIsPositive(q.start, q.end, q.bucket);
    DivisionIdentity(q.start, q.bucket);
    DivisionIdentity(q.end - origin + q.bucket - 1, q.bucket);
    MonotoneProduct(k, BucketCount(q.start, q.end, q.bucket), q.bucket);
    LessTimes(0, k, q.bucket);
  }

  // ----- the points -----

  /** The energy measured by rows that start in a stretch of time. */
  function EnergyWithin(rows: seq<Row>, from: int, to: int): int {
    if rows == [] then 0
    else (if from <= rows[0].start < to && rows[0].energy.Some? then rows[0].energy.value else 0) + EnergyWithin(rows[1..], from, to)
  }

  function CostWithin(rows: seq<Row>, from: int, to: int): int {
    if rows == [] then 0
    else (if from <= rows[0].start < to && rows[0].cost.Some? then rows[0].cost.value else 0) + CostWithin(rows[1..], from, to)
  }

  lemma {:induction false} IndexMeans(q: Selection, r: Row, k: int)
    requires q.bucket > 0 && q.start <= r.start
    ensures IndexOf(Origin(q.start, q.bucket), q.bucket, r) == k <==> BucketStart(q, k) <= r.start < BucketStart(q, k) + q.bucket
  {
    var origin := Origin(q.start, q.bucket);
    DivisionIdentity(q.start, q.bucket);
    DivisionIdentity(r.start - origin, q.bucket);
    if BucketStart(q, k) <= r.start < BucketStart(q, k) + q.bucket {
      OneBucket(q, k, (r.start - origin) / q.bucket, r.start);
    }
  }

  lemma {:induction false} BucketSums(q: Selection, rows: seq<Row>, k: int)
    requires q.bucket > 0 && forall i :: 0 <= i < |rows| ==> q.start <= rows[i].start
    ensures var keep, from := InBucket(Origin(q.start, q.bucket), q.bucket, k), BucketStart(q, k);
            && SumOf(Filter(rows, keep), EnergyOf) == EnergyWithin(rows, from, from + q.bucket)
            && SumOf(Filter(rows, keep), CostOf) == CostWithin(rows, from, from + q.bucket)
  {
    if rows != [] {
      var keep := InBucket(Origin(q.start, q.bucket), q.bucket, k);
      var rest := Filter(rows[1..], keep);
      BucketSums(q, rows[1..], k);
      IndexMeans(q, rows[0], k);
      hide IndexOf, BucketStart, Origin;
      assert ([rows[0]] + rest)[1..] == rest;
      assert Filter(rows, keep) == (if keep(rows[0]) then [rows[0]] + rest else rest);
    }
  }

  lemma {:induction false} PointsAt(q: Selection, n: nat, k: nat)
    requires q.bucket > 0 && k < n
    ensures Points(q, n)[k] == PointAt(q, k)
  {
    hide PointAt;
    if k < n - 1 {
      PointsAt(q, n - 1, k);
    }
  }

  /** What a point is: aligned to its bucket, inside the range, with the energy of the rows that start in it and their cost, if reported. */
  lemma {:induction false} PointMeans(q: Selection, k: nat)
    requires ValidSelection(q) && k < |Answer(q).points|
    ensures var point := Answer(q).points[k];
            && point.start % q.bucket == 0 && point.start == Answer(q).points[0].start + k * q.bucket
            && point.start < q.end && q.start < point.start + q.bucket
            && point.energy == EnergyWithin(q.rows, point.start, point.start + q.bucket)
            && (point.cost.Some? ==> point.cost.value == CostWithin(q.rows, point.start, point.start + q.bucket))
  {
    var count := BucketCount(q.start, q.end, q.bucket);
    CountIsPositive(q.start, q.end, q.bucket);
    PointsAt(q, count, k);
    PointsAt(q, count, 0);
    BucketReachesIn(q, k);
    BucketBounds(q, k);
    BucketSums(q, q.rows, k);
    MultipleOf(q.start / q.bucket + k, q.bucket);
  }

  /** Every instant of the range lies in the bucket of exactly one point. */
  lemma {:induction false} OnePointPerInstant(q: Selection, t: int)
    requires ValidSelection(q) && q.start <= t < q.end
    ensures exists k :: InPoint(q, k, t) && forall m :: InPoint(q, m, t) ==> m == k
  {
    var count := BucketCount(q.start, q.end, q.bucket);
    var k := BucketOf(q, t);
    forall m: nat | m < count ensures Points(q, count)[m].start == BucketStart(q, m) {
      PointsAt(q, count, m);
    }
    hide Points, BucketCount, BucketStart;
    forall m | InPoint(q, m, t) ensures m == k {
      OneBucket(q, k, m, t);
    }
    assert InPoint(q, k, t);
  }

  ghost predicate InPoint(q: Selection, k: int, t: int)
    requires q.bucket > 0
  {
    0 <= k < |Answer(q).points| && Answer(q).points[k].start <= t < Answer(q).points[k].start + q.bucket
  }

  lemma {:induction false} MultipleOf(a: int, d: int)
    requires d > 0
    ensures a * d % d == 0
  {
    if a >= 0 {
      MultipleOfNat(a, d);
    } else {
      MultipleOfNat(-a, d);
      assert a * d == -((-a) * d);
    }
  }

  lemma {:induction false} MultipleOfNat(a: nat, d: int)
    requires d > 0
    ensures a * d % d == 0 && -(a * d) % d == 0
  {
    if a > 0 {
      MultipleOfNat(a - 1, d);
      Distribute(a - 1, 1, d);
      StepMod((a - 1) * d, d);
    }
  }

  lemma {:induction false} StepMod(x: int, d: int)
    requires d > 0 && x % d == 0 && -x % d == 0
    ensures (x + d) % d == 0 && -(x + d) % d == 0
  {
    DivisionIdentity(x, d);
    DivisionIdentity(-x, d);
    Distribute(x / d, 1, d);
    Distribute(-x / d, -1, d);
    ExactQuotient(x + d, x / d + 1, d);
    ExactQuotient(-(x + d), -x / d - 1, d);
  }

  lemma {:induction false} ExactQuotient(x: int, a: int, d: int)
    requires d > 0 && x == a * d
    ensures x % d == 0
  {
    DivisionIdentity(x, d);
    MonotoneProduct(a, x / d, d);
    MonotoneProduct(x / d, a, d);
  }

  // ----- measured time and covered instants -----

  function Stretch(from: int, until: int): (instants: set<int>)
    ensures forall t :: t in instants <==> from <= t < until
    decreases until - from
  {
    if from >= until then {} else Stretch(from, until - 1) + {until - 1}
  }

  lemma {:induction false} StretchSize(from: int, until: int)
    requires from <= until
    ensures |Stretch(from, until)| == until - from
    decreases until - from
  {
    if from < until {
      StretchSize(from, until - 1);
    }
  }

  /** No two rows overlap. */
  ghost predicate Apart(rows: seq<Row>) {
    forall i, j :: 0 <= i < j < |rows| ==> rows[i].end <= rows[j].start || rows[j].end <= rows[i].start
  }

  /** No two rows of one device overlap. */
  ghost predicate DevicesApart(rows: seq<Row>) {
    forall i, j :: 0 <= i < j < |rows| && rows[i].device == rows[j].device ==>
      rows[i].end <= rows[j].start || rows[j].end <= rows[i].start
  }

  function Instants(rows: seq<Row>): set<int> {
    if rows == [] then {} else Stretch(rows[0].start, rows[0].end) + Instants(rows[1..])
  }

  lemma {:induction false} InstantsAreCovered(rows: seq<Row>, t: int)
    ensures t in Instants(rows) <==> Covered(rows, t)
  {
    if rows != [] {
      InstantsAreCovered(rows[1..], t);
      if Covered(rows[1..], t) {
        var i :| 0 <= i < |rows[1..]| && rows[1..][i].start <= t < rows[1..][i].end;
        assert rows[i + 1] == rows[1..][i];
      }
      if Covered(rows, t) && !(rows[0].start <= t < rows[0].end) {
        var i :| 0 <= i < |rows| && rows[i].start <= t < rows[i].end;
        assert rows[1..][i - 1] == rows[i];
      }
    }
  }

  lemma {:induction false} SizeOfUnion(a: set<int>, b: set<int>)
    ensures |a + b| <= |a| + |b| && (a !! b ==> |a + b| == |a| + |b|)
  {
    assert a + b == a + (b - a);
    assert |b - a| <= |b| by {
      SizeOfSubset(b - a, b);
    }
    assert a !! b ==> b - a == b;
  }

  lemma {:induction false} SizeOfSubset(a: set<int>, b: set<int>)
    requires a <= b
    ensures |a| <= |b| && (|a| == |b| ==> a == b)
  {
    assert b == a + (b - a);
    assert |b| == |a| + |b - a|;
  }

  lemma {:induction false} HeadIsApart(rows: seq<Row>)
    requires rows != [] && Apart(rows)
    ensures Apart(rows[1..]) && Stretch(rows[0].start, rows[0].end) !! Instants(rows[1..])
  {
    forall t | t in Instants(rows[1..]) ensures t !in Stretch(rows[0].start, rows[0].end) {
      InstantsAreCovered(rows[1..], t);
      var i :| 0 <= i < |rows[1..]| && rows[1..][i].start <= t < rows[1..][i].end;
      assert rows[i + 1] == rows[1..][i];
    }
  }

  /** Durations add up to at least the covered time, and to exactly that when no two rows overlap. */
  lemma {:induction false} DurationsMeasure(rows: seq<Row>)
    requires forall i :: 0 <= i < |rows| ==> rows[i].start <= rows[i].end
    ensures |Instants(rows)| <= SumOf(rows, Duration)
    ensures Apart(rows) ==> |Instants(rows)| == SumOf(rows, Duration)
  {
    if rows != [] {
      DurationsMeasure(rows[1..]);
      StretchSize(rows[0].start, rows[0].end);
      SizeOfUnion(Stretch(rows[0].start, rows[0].end), Instants(rows[1..]));
      if Apart(rows) {
        HeadIsApart(rows);
      }
    }
  }

  /** Rows inside a window that do not overlap last as long as the window exactly when they cover it. */
  lemma {:induction false} FullWindow(rows: seq<Row>, from: int, to: int)
    requires from <= to && Apart(rows) && forall i :: 0 <= i < |rows| ==> from <= rows[i].start <= rows[i].end <= to
    ensures SumOf(rows, Duration) >= to - from <==> forall t :: from <= t < to ==> Covered(rows, t)
  {
    DurationsMeasure(rows);
    StretchSize(from, to);
    forall t ensures t in Instants(rows) <==> Covered(rows, t) {
      InstantsAreCovered(rows, t);
    }
    assert Instants(rows) <= Stretch(from, to);
    SizeOfSubset(Instants(rows), Stretch(from, to));
    if SumOf(rows, Duration) < to - from {
      assert Instants(rows) != Stretch(from, to);
      var t :| t in Stretch(from, to) && t !in Instants(rows);
    }
  }

  lemma {:induction false} FilterIsApart(rows: seq<Row>, keep: Row -> bool, d: int)
    requires DevicesApart(rows) && forall r :: keep(r) ==> r.device == d
    ensures Apart(Filter(rows, keep))
  {
    if rows != [] {
      var rest := Filter(rows[1..], keep);
      FilterIsApart(rows[1..], keep, d);
      FilterMembers(rows[1..], keep);
      forall j | 0 <= j < |rest| && keep(rows[0]) ensures rows[0].end <= rest[j].start || rest[j].end <= rows[0].start {
        assert rest[j] in rows[1..];
      }
    }
  }

  lemma {:induction false} FilterBoth(rows: seq<Row>, a: Row -> bool, b: Row -> bool)
    ensures Filter(Filter(rows, a), b) == Filter(rows, (r: Row) => a(r) && b(r))
  {
    if rows != [] {
      FilterBoth(rows[1..], a, b);
      FilterConcat(if a(rows[0]) then [rows[0]] else [], Filter(rows[1..], a), b);
    }
  }

  // ----- when an aggregate reports -----

  /** Rows of one device do not overlap, and no row crosses a bound of buckets. */
  ghost predicate Orderly(q: Selection)
    requires q.bucket > 0
  {
    && DevicesApart(q.rows)
    && (forall i, t :: 0 <= i < |q.rows| && Inside(q.rows[i], t) ==> t % q.bucket != 0)
  }

  ghost predicate Inside(r: Row, t: int) {
    r.start < t < r.end
  }

  /** The visible part of the k-th bucket is covered by every device. */
  ghost predicate WindowCovered(q: Selection, k: int)
    requires q.bucket > 0
  {
    forall d, t :: d in q.devices && q.start <= t < q.end && BucketStart(q, k) <= t < BucketStart(q, k) + q.bucket
      ==> DeviceCovered(q.rows, d, t)
  }

  lemma {:induction false} BoundsAreMultiples(q: Selection, k: int)
    requires q.bucket > 0
    ensures BucketStart(q, k) % q.bucket == 0 && (BucketStart(q, k) + q.bucket) % q.bucket == 0
  {
    BucketBounds(q, k);
    BucketBounds(q, k + 1);
    MultipleOf(q.start / q.bucket + k, q.bucket);
    MultipleOf(q.start / q.bucket + (k + 1), q.bucket);
  }

  /** The rows of a device in a bucket: those that start in it, which lie in its visible part. */
  lemma {:induction false} DeviceBucket(q: Selection, d: int, k: int)
    requires ValidSelection(q) && Orderly(q) && d in q.devices
    ensures var rows, from := Filter(RowsIn(q, k), OfDevice(d)), BucketStart(q, k);
            && Apart(rows)
            && (forall r :: r in rows <==> r in q.rows && r.device == d && from <= r.start < from + q.bucket)
            && (forall r :: r in rows ==> q.start <= r.start < r.end <= q.end && r.end <= from + q.bucket)
  {
    var keep := InBucket(Origin(q.start, q.bucket), q.bucket, k);
    FilterBoth(q.rows, keep, OfDevice(d));
    FilterIsApart(q.rows, (r: Row) => keep(r) && OfDevice(d)(r), d);
    FilterMembers(q.rows, keep);
    FilterMembers(RowsIn(q, k), OfDevice(d));
    BoundsAreMultiples(q, k);
    hide Origin, IndexOf, BucketStart, Apart, Filter;
    forall r | r in q.rows ensures keep(r) <==> BucketStart(q, k) <= r.start < BucketStart(q, k) + q.bucket {
      IndexMeans(q, r, k);
    }
    forall r | r in q.rows && BucketStart(q, k) <= r.start < BucketStart(q, k) + q.bucket ensures r.end <= BucketStart(q, k) + q.bucket {
      assert !Inside(r, BucketStart(q, k) + q.bucket);
    }
  }

  /** A row that covers an instant of a bucket starts in the bucket. */
  lemma {:induction false} StartsInBucket(q: Selection, r: Row, k: int, t: int)
    requires ValidSelection(q) && Orderly(q) && r in q.rows && r.start <= t < r.end && BucketStart(q, k) <= t
    ensures BucketStart(q, k) <= r.start
  {
    BoundsAreMultiples(q, k);
    hide BucketStart;
    assert !Inside(r, BucketStart(q, k));
  }

  /** In the visible part of a bucket only the rows of the bucket cover. */
  lemma {:induction false} CoveredInBucket(q: Selection, d: int, k: int, t: int)
    requires ValidSelection(q) && Orderly(q) && d in q.devices && BucketStart(q, k) <= t < BucketStart(q, k) + q.bucket
    ensures Covered(Filter(RowsIn(q, k), OfDevice(d)), t) <==> DeviceCovered(q.rows, d, t)
  {
    DeviceBucket(q, d, k);
    hide BucketStart, Filter, RowsIn, Apart, Orderly, Within;
    var rows := Filter(RowsIn(q, k), OfDevice(d));
    if Covered(rows, t) {
      var i :| 0 <= i < |rows| && rows[i].start <= t < rows[i].end;
      assert rows[i] in rows;
    }
    if DeviceCovered(q.rows, d, t) {
      var i :| 0 <= i < |q.rows| && q.rows[i].device == d && q.rows[i].start <= t < q.rows[i].end;
      StartsInBucket(q, q.rows[i], k, t);
      assert q.rows[i] in rows;
    }
  }

  lemma {:induction false} DeviceIsComplete(q: Selection, d: int, k: int)
    requires ValidSelection(q) && Orderly(q) && d in q.devices && 0 <= k < BucketCount(q.start, q.end, q.bucket)
    ensures SumOf(Filter(RowsIn(q, k), OfDevice(d)), Duration) >= Visible(q.start, q.end, BucketStart(q, k), q.bucket)
       <==> forall t :: q.start <= t < q.end && BucketStart(q, k) <= t < BucketStart(q, k) + q.bucket ==> DeviceCovered(q.rows, d, t)
  {
    BucketReachesIn(q, k);
    DeviceBucket(q, d, k);
    var bound := BucketStart(q, k);
    var from := if q.start >= bound then q.start else bound;
    var to := if q.end <= bound + q.bucket then q.end else bound + q.bucket;
    hide *;
    var rows := Filter(RowsIn(q, k), OfDevice(d));
    forall i | 0 <= i < |rows| ensures from <= rows[i].start <= rows[i].end <= to {
      assert rows[i] in rows;
    }
    FullWindow(rows, from, to);
    VisibleMeans(q.start, q.end, bound, q.bucket);
    if SumOf(rows, Duration) >= to - from {
      forall t | q.start <= t < q.end && bound <= t < bound + q.bucket ensures DeviceCovered(q.rows, d, t) {
        CoveredInBucket(q, d, k, t);
      }
    }
    if forall t :: q.start <= t < q.end && bound <= t < bound + q.bucket ==> DeviceCovered(q.rows, d, t) {
      forall t | from <= t < to ensures Covered(rows, t) {
        CoveredInBucket(q, d, k, t);
      }
    }
  }

  lemma {:induction false} VisibleMeans(start: int, end: int, bound: int, bucket: int)
    requires start < end && bucket > 0 && bound < end && start < bound + bucket
    ensures Visible(start, end, bound, bucket)
         == (if end <= bound + bucket then end else bound + bucket) - (if start >= bound then start else bound)
  {
  }

  /** A bucket is complete exactly when every device covers its visible part. */
  lemma {:induction false} CompleteIsCovered(q: Selection, k: int)
    requires ValidSelection(q) && Orderly(q) && 0 <= k < BucketCount(q.start, q.end, q.bucket)
    ensures CompleteAt(q, k) <==> WindowCovered(q, k)
  {
    forall d | d in q.devices
      ensures SumOf(Filter(RowsIn(q, k), OfDevice(d)), Duration) >= Visible(q.start, q.end, BucketStart(q, k), q.bucket)
         <==> forall t :: q.start <= t < q.end && BucketStart(q, k) <= t < BucketStart(q, k) + q.bucket ==> DeviceCovered(q.rows, d, t)
    {
      DeviceIsComplete(q, d, k);
    }
    hide BucketStart, Filter, RowsIn, Visible, SumOf, DeviceCovered, Orderly;
  }

  lemma {:induction false} WindowsMakeTheRange(q: Selection)
    requires ValidSelection(q)
    ensures AllCovered(q) <==> forall k :: 0 <= k < BucketCount(q.start, q.end, q.bucket) ==> WindowCovered(q, k)
  {
    hide DeviceCovered, BucketCount, BucketStart;
    if forall k :: 0 <= k < BucketCount(q.start, q.end, q.bucket) ==> WindowCovered(q, k) {
      forall d, t | d in q.devices && q.start <= t < q.end ensures DeviceCovered(q.rows, d, t) {
        var k := BucketOf(q, t);
        assert WindowCovered(q, k);
      }
    }
  }

  /** An aggregate of orderly rows reports its energy exactly when something was measured and every instant is covered for every device, and its cost exactly when, besides, all is priced. */
  lemma {:induction false} AggregateReportsExactly(q: Selection)
    requires ValidSelection(q) && q.aggregate && Orderly(q)
    ensures Answer(q).energy.Some? <==> (exists i :: 0 <= i < |q.rows| && q.rows[i].energy.Some?) && AllCovered(q)
    ensures Answer(q).cost.Some? <==> q.rows != [] && (forall i :: 0 <= i < |q.rows| ==> q.rows[i].cost.Some?) && AllCovered(q)
  {
    CountIsPositive(q.start, q.end, q.bucket);
    WindowsMakeTheRange(q);
    forall k | 0 <= k < BucketCount(q.start, q.end, q.bucket) ensures CompleteAt(q, k) <==> WindowCovered(q, k) {
      CompleteIsCovered(q, k);
    }
    hide CompleteAt, WindowCovered, AllCovered, Points, BucketCount, Orderly;
  }

  /** How long the device measured in rows that start in a stretch of time. */
  function MeasuredWithin(rows: seq<Row>, d: int, from: int, to: int): int {
    if rows == [] then 0
    else (if rows[0].device == d && from <= rows[0].start < to then rows[0].end - rows[0].start else 0) + MeasuredWithin(rows[1..], d, from, to)
  }

  lemma {:induction false} MeasuredInBucket(q: Selection, rows: seq<Row>, d: int, k: int)
    requires q.bucket > 0 && forall i :: 0 <= i < |rows| ==> q.start <= rows[i].start
    ensures SumOf(Filter(Filter(rows, InBucket(Origin(q.start, q.bucket), q.bucket, k)), OfDevice(d)), Duration)
         == MeasuredWithin(rows, d, BucketStart(q, k), BucketStart(q, k) + q.bucket)
  {
    var keep := InBucket(Origin(q.start, q.bucket), q.bucket, k);
    if rows != [] {
      MeasuredInBucket(q, rows[1..], d, k);
      IndexMeans(q, rows[0], k);
      hide IndexOf, BucketStart, Origin;
      FilterBoth(rows, keep, OfDevice(d));
      FilterBoth(rows[1..], keep, OfDevice(d));
      SumFilterHead(rows, (r: Row) => keep(r) && OfDevice(d)(r), Duration);
    }
  }

  /** The device measured, in the rows that start in the bucket, for at least as long as the bucket is visible. */
  ghost predicate MeasuredLongEnough(q: Selection, d: int, from: int) {
    MeasuredWithin(q.rows, d, from, from + q.bucket)
      >= (if q.end <= from + q.bucket then q.end else from + q.bucket) - (if q.start >= from then q.start else from)
  }

  lemma {:induction false} CompleteIsMeasured(q: Selection, k: int)
    requires ValidSelection(q) && 0 <= k < BucketCount(q.start, q.end, q.bucket)
    ensures CompleteAt(q, k) <==> forall d :: d in q.devices ==> MeasuredLongEnough(q, d, BucketStart(q, k))
  {
    BucketReachesIn(q, k);
    VisibleMeans(q.start, q.end, BucketStart(q, k), q.bucket);
    forall d ensures SumOf(Filter(RowsIn(q, k), OfDevice(d)), Duration) == MeasuredWithin(q.rows, d, BucketStart(q, k), BucketStart(q, k) + q.bucket) {
      MeasuredInBucket(q, q.rows, d, k);
    }
    hide BucketStart, RowsIn, SumOf, MeasuredWithin, Visible, BucketCount;
  }

  /** Any aggregate, orderly or not, reports exactly when each device measured long enough in each bucket. */
  lemma {:induction false} AggregateReportsMeasured(q: Selection)
    requires ValidSelection(q) && q.aggregate
    ensures var long := forall k, d :: 0 <= k < |Answer(q).points| && d in q.devices ==> MeasuredLongEnough(q, d, Answer(q).points[k].start);
            && (Answer(q).energy.Some? <==> (exists i :: 0 <= i < |q.rows| && q.rows[i].energy.Some?) && long)
            && (Answer(q).cost.Some? <==> q.rows != [] && (forall i :: 0 <= i < |q.rows| ==> q.rows[i].cost.Some?) && long)
  {
    var count := BucketCount(q.start, q.end, q.bucket);
    CountIsPositive(q.start, q.end, q.bucket);
    forall k: nat | k < count
      ensures (CompleteAt(q, k) <==> forall d :: d in q.devices ==> MeasuredLongEnough(q, d, Points(q, count)[k].start))
    {
      CompleteIsMeasured(q, k);
      PointsAt(q, count, k);
      hide CompleteAt, MeasuredLongEnough, Points, BucketCount;
    }
    hide CompleteAt, MeasuredLongEnough, Points, BucketCount;
  }

  lemma {:induction false} MeasuredOfOne(r: Row, d: int, from: int, to: int)
    ensures MeasuredWithin([r], d, from, to) == (if r.device == d && from <= r.start < to then r.end - r.start else 0)
    ensures SumOf([r], EnergyOf) == EnergyOf(r)
  {
    assert [r][1..] == [];
  }

  lemma {:induction false} MeasuredOfTwo(r: Row, d: int, from: int, to: int)
    ensures MeasuredWithin([r, r], d, from, to) == 2 * MeasuredWithin([r], d, from, to)
    ensures SumOf([r, r], EnergyOf) == 2 * EnergyOf(r)
  {
    assert [r, r][1..] == [r];
    MeasuredOfOne(r, d, from, to);
  }

  lemma {:induction false} SecondPoint(q: Selection)
    requires q.start == 0 && q.end == 600 && q.bucket == 300
    ensures |Answer(q).points| == 2 && Answer(q).points[1].start == 300
  {
    PointsAt(q, 2, 1);
    hide Points;
  }

  lemma {:induction false} OneRowCovers(q: Selection, row: Row)
    requires q.rows == [row] && q.devices == [row.device] && row.start == q.start && row.end == q.end
    ensures AllCovered(q)
  {
    forall d, t | d in q.devices && q.start <= t < q.end ensures DeviceCovered(q.rows, d, t) {
      assert q.rows[0].device == d;
    }
  }

  /** A device without a row that starts in some bucket hides the totals of an aggregate. */
  lemma {:induction false} EmptyBucketHidesTotals(q: Selection, d: int, k: nat)
    requires ValidSelection(q) && q.aggregate && d in q.devices && k < |Answer(q).points|
    requires MeasuredWithin(q.rows, d, Answer(q).points[k].start, Answer(q).points[k].start + q.bucket) == 0
    ensures Answer(q).energy == None && Answer(q).cost == None
  {
    PointMeans(q, k);
    AggregateReportsMeasured(q);
    hide Answer, MeasuredWithin, EnergyWithin, CostWithin, ValidSelection;
    assert !MeasuredLongEnough(q, d, Answer(q).points[k].start);
  }

  /** A row across a bound of buckets leaves the second bucket empty: everything is covered and no total is reported. */
  lemma {:induction false} CrossingRowHidesTotals(q: Selection, row: Row)
    requires q.rows == [row] && q.devices == [row.device] && q.aggregate
    requires row.start == q.start == 0 && row.end == q.end == 600 && q.bucket == 300
    ensures AllCovered(q) && Answer(q).energy == None && Answer(q).cost == None
  {
    SecondPoint(q);
    MeasuredOfOne(row, row.device, 300, 600);
    hide Answer, MeasuredWithin, AllCovered;
    assert row.device in q.devices;
    EmptyBucketHidesTotals(q, row.device, 1);
    OneRowCovers(q, row);
  }

  /** Overlapping rows count twice: half a bucket is uncovered and the total is reported. */
  lemma {:induction false} OverlapCountsTwice(q: Selection, row: Row)
    requires row == Row(1, 0, 150, Some(10), Some(5)) && q == Selection([row, row], [1], true, 0, 300, 300)
    ensures !AllCovered(q) && Answer(q).energy.Some?
  {
    assert |Answer(q).points| == 1;
    PointMeans(q, 0);
    AggregateReportsMeasured(q);
    MeasuredOfOne(row, 1, 0, 300);
    MeasuredOfTwo(row, 1, 0, 300);
    hide Answer, MeasuredWithin, EnergyWithin, CostWithin, ValidSelection;
    assert 1 in q.devices && !DeviceCovered(q.rows, 1, 200);
    assert MeasuredLongEnough(q, 1, Answer(q).points[0].start);
    assert q.rows[0].energy.Some?;
  }

  /** Some row starts in the stretch, and all that do are priced. */
  ghost predicate PricedWithin(rows: seq<Row>, from: int, to: int) {
    && (exists i :: 0 <= i < |rows| && from <= rows[i].start < to)
    && (forall i :: 0 <= i < |rows| && from <= rows[i].start < to ==> rows[i].cost.Some?)
  }

  lemma {:induction false} BucketPriced(q: Selection, k: int)
    requires ValidSelection(q)
    ensures RowsIn(q, k) != [] && AllPriced(RowsIn(q, k)) <==> PricedWithin(q.rows, BucketStart(q, k), BucketStart(q, k) + q.bucket)
  {
    var keep, values := InBucket(Origin(q.start, q.bucket), q.bucket, k), RowsIn(q, k);
    FilterMembers(q.rows, keep);
    forall r | r in q.rows ensures r in values <==> BucketStart(q, k) <= r.start < BucketStart(q, k) + q.bucket {
      IndexMeans(q, r, k);
    }
    hide BucketStart, Filter, Origin, IndexOf, RowsIn;
    forall i | 0 <= i < |values| ensures values[i] in q.rows {
      assert values[i] in values;
    }
    if PricedWithin(q.rows, BucketStart(q, k), BucketStart(q, k) + q.bucket) {
      var i :| 0 <= i < |q.rows| && BucketStart(q, k) <= q.rows[i].start < BucketStart(q, k) + q.bucket;
      assert q.rows[i] in values;
    }
    if values != [] && AllPriced(values) {
      assert values[0] in values;
      var i :| 0 <= i < |q.rows| && q.rows[i] == values[0];
      forall j | 0 <= j < |q.rows| && BucketStart(q, k) <= q.rows[j].start < BucketStart(q, k) + q.bucket ensures q.rows[j].cost.Some? {
        assert q.rows[j] in values;
      }
    }
  }

  /** A point reports a cost exactly when the rows of its bucket are priced and, for an aggregate, every device covers its visible part. */
  lemma {:induction false} PointReportsExactly(q: Selection, k: nat)
    requires ValidSelection(q) && k < |Answer(q).points| && (q.aggregate ==> Orderly(q))
    ensures var from := Answer(q).points[k].start;
            Answer(q).points[k].cost.Some? <==>
              && PricedWithin(q.rows, from, from + q.bucket)
              && (q.aggregate ==> forall d, t :: d in q.devices && q.start <= t < q.end && from <= t < from + q.bucket ==> DeviceCovered(q.rows, d, t))
  {
    var count := BucketCount(q.start, q.end, q.bucket);
    CountIsPositive(q.start, q.end, q.bucket);
    PointsAt(q, count, k);
    BucketPriced(q, k);
    if q.aggregate {
      CompleteIsCovered(q, k);
    }
    hide BucketStart, Filter, RowsIn, CompleteAt, DeviceCovered, Orderly, PricedWithin;
  }

  /** A selected device without rows hides every total and every point cost of an aggregate. */
  lemma {:induction false} SilentDeviceHidesTotals(q: Selection, d: int)
    requires ValidSelection(q) && q.aggregate && d in q.devices && forall i :: 0 <= i < |q.rows| ==> q.rows[i].device != d
    ensures Answer(q).energy == None && Answer(q).cost == None
    ensures forall k :: 0 <= k < |Answer(q).points| ==> Answer(q).points[k].cost == None
  {
    var count := BucketCount(q.start, q.end, q.bucket);
    CountIsPositive(q.start, q.end, q.bucket);
    forall k: nat | k < count ensures !CompleteAt(q, k) && Points(q, count)[k].cost == None {
      SilentBucket(q, d, k);
      PointsAt(q, count, k);
      hide CompleteAt, Points, BucketCount;
    }
    hide CompleteAt, Points, BucketCount;
    assert !CompleteAt(q, 0);
  }

  lemma {:induction false} SilentBucket(q: Selection, d: int, k: int)
    requires ValidSelection(q) && d in q.devices && forall i :: 0 <= i < |q.rows| ==> q.rows[i].device != d
    requires 0 <= k < BucketCount(q.start, q.end, q.bucket)
    ensures !CompleteAt(q, k)
  {
    BucketReachesIn(q, k);
    FilterMembers(q.rows, InBucket(Origin(q.start, q.bucket), q.bucket, k));
    hide BucketCount, BucketStart;
    var values := RowsIn(q, k);
    forall i | 0 <= i < |values| ensures !OfDevice(d)(values[i]) {
      assert values[i] in q.rows;
    }
    FilterNone(values, OfDevice(d));
    assert Visible(q.start, q.end, BucketStart(q, k), q.bucket) > 0;
  }

  /** Nothing is missing exactly when every instant is covered for every device. */
  lemma {:induction false} NothingMissing(q: Selection, missing: seq<Range>)
    requires Reported(missing, q.rows, q.devices, |q.devices|, q.start, q.end)
    ensures missing == [] <==> AllCovered(q)
  {
    forall d, t ensures Covered(Filter(q.rows, OfDevice(d)), t) <==> DeviceCovered(q.rows, d, t) {
      CoveredByDevice(q.rows, d, t);
    }
    hide Covered, DeviceCovered, Filter;
    if missing == [] {
      forall d, t | d in q.devices && q.start <= t < q.end ensures DeviceCovered(q.rows, d, t) {
        var c :| 0 <= c < |q.devices| && q.devices[c] == d;
        NoneOfNone(d);
        assert !InRanges([], t);
      }
    } else {
      var d := missing[0].device.value;
      FilterMembers(missing, Tagged(d));
      var c :| 0 <= c < |q.devices| && q.devices[c] == d;
      var ranges := Filter(missing, Tagged(d));
      assert missing[0] in ranges;
      var i :| 0 <= i < |ranges| && ranges[i] == missing[0];
      assert InRanges(ranges, missing[0].start);
    }
  }

  lemma {:induction false} NoneOfNone(d: int)
    ensures Filter([], Tagged(d)) == []
  {
  }

  lemma {:induction false} CoveredByDevice(rows: seq<Row>, d: int, t: int)
    ensures Covered(Filter(rows, OfDevice(d)), t) <==> DeviceCovered(rows, d, t)
  {
    var mine := Filter(rows, OfDevice(d));
    FilterMembers(rows, OfDevice(d));
    if Covered(mine, t) {
      var i :| 0 <= i < |mine| && mine[i].start <= t < mine[i].end;
      assert mine[i] in mine;
    }
    if DeviceCovered(rows, d, t) {
      var i :| 0 <= i < |rows| && rows[i].device == d && rows[i].start <= t < rows[i].end;
      assert rows[i] in mine;
    }
  }
}
