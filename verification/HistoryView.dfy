/** The history view: buckets, totals and missing ranges (backend/app/routes/dashboard.py). Times are whole seconds. */
module HistoryView {
  import opened Outcomes
  import opened Sums
  import opened Sorting

  /** A normalized interval of the queried range with its selected cost, if priced. */
  datatype Row = Row(device: int, start: int, end: int, energy: Option<nat>, cost: Option<int>)

  datatype Range = Range(device: Option<int>, start: int, end: int)

  datatype HistoryError = BadRange | UnsupportedResolution | TooManyPoints

  /** What the row query guarantees: ordered intervals inside the range. */
  ghost predicate Within(rows: seq<Row>, start: int, end: int) {
    forall i :: 0 <= i < |rows| ==> start <= rows[i].start < rows[i].end <= end
  }

  // ----- missing ranges -----

  function StartLeq(): (Row, Row) -> bool {
    (a: Row, b: Row) => a.start <= b.start
  }

  function OfDevice(device: int): Row -> bool {
    (r: Row) => r.device == device
  }

  ghost predicate Covered(rows: seq<Row>, t: int) {
    exists i :: 0 <= i < |rows| && rows[i].start <= t < rows[i].end
  }

  ghost predicate InRanges(ranges: seq<Range>, t: int) {
    exists i :: 0 <= i < |ranges| && ranges[i].start <= t < ranges[i].end
  }

  /** Non-empty ranges in order, with covered time between any two. */
  ghost predicate Separated(ranges: seq<Range>) {
    && (forall i :: 0 <= i < |ranges| ==> ranges[i].start < ranges[i].end)
    && (forall i, j :: 0 <= i < j < |ranges| ==> ranges[i].end < ranges[j].start)
  }

  /** The exact complement of the device's intervals in the range. */
  ghost predicate IsComplement(ranges: seq<Range>, rows: seq<Row>, device: int, start: int, end: int) {
    && Separated(ranges)
    && (forall i :: 0 <= i < |ranges| ==> ranges[i].device == Some(device))
    && (forall t :: InRanges(ranges, t) <==> start <= t < end && !Covered(rows, t))
  }

  /** The sweep of one device. */
  method SweepDevice(rows: seq<Row>, device: int, start: int, end: int) returns (missing: seq<Range>)
    requires start < end && Within(rows, start, end)
    ensures IsComplement(missing, Filter(rows, OfDevice(device)), device, start, end)
  {
    hide Sort, Filter, IsComplement;
    var deviceRows := Sort(Filter(rows, OfDevice(device)), StartLeq());
    SortedRows(rows, device, start, end);
    missing := SweepSorted(deviceRows, device, start, end);
    SameComplement(missing, deviceRows, Filter(rows, OfDevice(device)), device, start, end);
  }

  method SweepSorted(deviceRows: seq<Row>, device: int, start: int, end: int) returns (missing: seq<Range>)
    requires start < end && Within(deviceRows, start, end) && Sorted(deviceRows, StartLeq())
    ensures IsComplement(missing, deviceRows, device, start, end)
  {
    hide Swept, IsComplement;
    SweptNothing(deviceRows, device, start);
    missing := [];
    var prior := start;
    for k := 0 to |deviceRows|
      invariant start <= prior <= end
      invariant Swept(missing, deviceRows[..k], device, start, prior)
      invariant forall i :: 0 <= i < k ==> deviceRows[i].end <= prior
    {
      var row := deviceRows[k];
      assert forall i :: 0 <= i < k ==> StartLeq()(deviceRows[i], deviceRows[k]);
      SweepStep(missing, deviceRows, k, device, start, prior);
      if row.start > prior {
        missing := missing + [Range(Some(device), prior, row.start)];
      }
      prior := if prior >= row.end then prior else row.end;
    }
    assert deviceRows[..|deviceRows|] == deviceRows;
    SweepEnds(missing, deviceRows, device, start, prior, end);
    if end > prior {
      missing := missing + [Range(Some(device), prior, end)];
    }
  }

  lemma {:induction false} SweptNothing(rows: seq<Row>, device: int, start: int)
    ensures Swept([], rows[..0], device, start, start)
  {
  }

  lemma {:induction false} SameComplement(ranges: seq<Range>, rows: seq<Row>, others: seq<Row>, device: int, start: int, end: int)
    requires forall t :: Covered(rows, t) <==> Covered(others, t)
    requires IsComplement(ranges, rows, device, start, end)
    ensures IsComplement(ranges, others, device, start, end)
  {
  }

  /** The sweep up to prior: what is uncovered before prior has been reported, and prior itself was just covered. */
  ghost predicate Swept(missing: seq<Range>, rows: seq<Row>, device: int, start: int, prior: int) {
    && IsComplement(missing, rows, device, start, prior)
    && (prior > start ==> Covered(rows, prior - 1))
    && (forall i :: 0 <= i < |missing| ==> missing[i].end < prior)
  }

  lemma {:induction false} CoveredNext(rows: seq<Row>, k: nat, t: int)
    requires k < |rows|
    ensures Covered(rows[..k + 1], t) <==> Covered(rows[..k], t) || rows[k].start <= t < rows[k].end
  {
    var longer, shorter := rows[..k + 1], rows[..k];
    if Covered(shorter, t) {
      var i :| 0 <= i < |shorter| && shorter[i].start <= t < shorter[i].end;
      assert longer[i] == shorter[i];
    }
    if Covered(longer, t) {
      var i :| 0 <= i < |longer| && longer[i].start <= t < longer[i].end;
      assert i == k || shorter[i] == longer[i];
    }
    assert longer[k] == rows[k];
  }

  lemma {:induction false} InRangesNext(ranges: seq<Range>, r: Range, t: int)
    ensures InRanges(ranges + [r], t) <==> InRanges(ranges, t) || r.start <= t < r.end
  {
    var longer := ranges + [r];
    if InRanges(ranges, t) {
      var i :| 0 <= i < |ranges| && ranges[i].start <= t < ranges[i].end;
      assert longer[i] == ranges[i];
    }
    assert longer[|ranges|] == r;
  }

  /** One more interval: the gap before it, if any, is the only new uncovered time. */
  lemma {:induction false} SweepStep(missing: seq<Range>, rows: seq<Row>, k: nat, device: int, start: int, prior: int)
    requires k < |rows| && Swept(missing, rows[..k], device, start, prior) && start <= prior
    requires start <= rows[k].start < rows[k].end
    requires forall i :: 0 <= i < k ==> rows[i].start <= rows[k].start && rows[i].end <= prior
    ensures var gap := Range(Some(device), prior, rows[k].start);
            Swept(if rows[k].start > prior then missing + [gap] else missing, rows[..k + 1], device, start,
                  if prior >= rows[k].end then prior else rows[k].end)
  {
    hide Covered, InRanges;
    var row := rows[k];
    var gap := Range(Some(device), prior, row.start);
    var longer := if row.start > prior then missing + [gap] else missing;
    var next := if prior >= row.end then prior else row.end;
    forall t ensures InRanges(longer, t) <==> start <= t < next && !Covered(rows[..k + 1], t) {
      CoveredNext(rows, k, t);
      InRangesNext(missing, gap, t);
      NothingPast(rows, k, prior, t);
      PartlyCovered(rows, k, prior, t);
    }
    CoveredNext(rows, k, next - 1);
  }

  lemma {:induction false} NothingPast(rows: seq<Row>, k: nat, prior: int, t: int)
    requires k <= |rows| && forall i :: 0 <= i < k ==> rows[i].end <= prior
    ensures t >= prior ==> !Covered(rows[..k], t)
  {
  }

  lemma {:induction false} PartlyCovered(rows: seq<Row>, k: nat, prior: int, t: int)
    requires k < |rows| && forall i :: 0 <= i < k ==> rows[i].start <= rows[k].start
    ensures rows[k].start <= t < prior && Covered(rows[..k], prior - 1) ==> Covered(rows[..k], t)
  {
    if rows[k].start <= t < prior && Covered(rows[..k], prior - 1) {
      var i :| 0 <= i < k && rows[..k][i].start <= prior - 1 < rows[..k][i].end;
      assert rows[..k][i] == rows[i];
    }
  }

  lemma {:induction false} SweepEnds(missing: seq<Range>, rows: seq<Row>, device: int, start: int, prior: int, end: int)
    requires Swept(missing, rows, device, start, prior) && start <= prior <= end
    requires forall i :: 0 <= i < |rows| ==> rows[i].end <= prior
    ensures IsComplement(if end > prior then missing + [Range(Some(device), prior, end)] else missing, rows, device, start, end)
  {
    var last := Range(Some(device), prior, end);
    var longer := if end > prior then missing + [last] else missing;
    forall t ensures InRanges(longer, t) <==> start <= t < end && !Covered(rows, t) {
      InRangesNext(missing, last, t);
      assert rows[..|rows|] == rows;
      NothingPast(rows, |rows|, prior, t);
    }
  }

  /** Sorting a device's rows keeps their bounds and what they cover. */
  lemma {:induction false} SortedRows(rows: seq<Row>, device: int, start: int, end: int)
    requires Within(rows, start, end)
    ensures var mine := Filter(rows, OfDevice(device));
            var sorted := Sort(mine, StartLeq());
            && Within(sorted, start, end) && Sorted(sorted, StartLeq())
            && (forall t :: Covered(sorted, t) <==> Covered(mine, t))
  {
    var mine := Filter(rows, OfDevice(device));
    var sorted := Sort(mine, StartLeq());
    FilterMembers(rows, OfDevice(device));
    SortPermutes(mine, StartLeq());
    SortSorts(mine, StartLeq());
    forall r ensures r in sorted <==> r in mine {
      assert r in sorted <==> r in multiset(sorted);
      assert r in mine <==> r in multiset(mine);
    }
    forall i | 0 <= i < |sorted| ensures start <= sorted[i].start < sorted[i].end <= end {
      assert sorted[i] in rows;
    }
    forall t ensures Covered(sorted, t) <==> Covered(mine, t) {
      if i :| 0 <= i < |sorted| && sorted[i].start <= t < sorted[i].end {
        assert sorted[i] in mine;
      }
      if i :| 0 <= i < |mine| && mine[i].start <= t < mine[i].end {
        assert mine[i] in sorted;
      }
    }
  }

  function Tagged(device: int): Range -> bool {
    (r: Range) => r.device == Some(device)
  }

  /** The first k devices are reported, each by its exact complement, and nothing else is. */
  ghost predicate Reported(missing: seq<Range>, rows: seq<Row>, devices: seq<int>, k: nat, start: int, end: int)
    requires k <= |devices|
  {
    && (forall i :: 0 <= i < |missing| ==> missing[i].device.Some? && missing[i].device.value in devices[..k])
    && (forall c :: 0 <= c < k ==>
          IsComplement(Filter(missing, Tagged(devices[c])), Filter(rows, OfDevice(devices[c])), devices[c], start, end))
  }

  /** All missing ranges, device by device. */
  method MissingRanges(rows: seq<Row>, devices: seq<int>, start: int, end: int) returns (missing: seq<Range>)
    requires start < end && Within(rows, start, end) && Distinct(devices)
    ensures devices == [] ==> missing == [Range(None, start, end)]
    ensures devices != [] ==> Reported(missing, rows, devices, |devices|, start, end)
  {
    missing := [];
    if devices == [] {
      missing := [Range(None, start, end)];
      return;
    }
    for k := 0 to |devices|
      invariant Reported(missing, rows, devices, k, start, end)
    {
      hide Reported, IsComplement, Filter;
      var swept := SweepDevice(rows, devices[k], start, end);
      ReportedNext(missing, swept, rows, devices, k, start, end);
      missing := missing + swept;
    }
  }

  lemma {:induction false} ReportedNext(missing: seq<Range>, swept: seq<Range>, rows: seq<Row>, devices: seq<int>, k: nat, start: int, end: int)
    requires Distinct(devices) && k < |devices| && Reported(missing, rows, devices, k, start, end)
    requires IsComplement(swept, Filter(rows, OfDevice(devices[k])), devices[k], start, end)
    ensures Reported(missing + swept, rows, devices, k + 1, start, end)
  {
    hide Filter, Separated;
    var longer := missing + swept;
    forall c | 0 <= c <= k
      ensures IsComplement(Filter(longer, Tagged(devices[c])), Filter(rows, OfDevice(devices[c])), devices[c], start, end)
    {
      TaggedApart(missing, swept, devices, k, c);
    }
    forall i | 0 <= i < |longer| ensures longer[i].device.Some? && longer[i].device.value in devices[..k + 1] {
      assert devices[..k + 1][k] == devices[k];
      if i < |missing| {
        var c :| 0 <= c < k && devices[..k][c] == missing[i].device.value;
        assert devices[..k + 1][c] == devices[..k][c];
      }
    }
  }

  lemma {:induction false} TaggedApart(missing: seq<Range>, swept: seq<Range>, devices: seq<int>, k: nat, c: nat)
    requires Distinct(devices) && c <= k < |devices|
    requires forall i :: 0 <= i < |missing| ==> missing[i].device.Some? && missing[i].device.value in devices[..k]
    requires forall i :: 0 <= i < |swept| ==> swept[i].device == Some(devices[k])
    ensures Filter(missing + swept, Tagged(devices[c])) == if c < k then Filter(missing, Tagged(devices[c])) else swept
  {
    FilterConcat(missing, swept, Tagged(devices[c]));
    if c < k {
      FilterNone(swept, Tagged(devices[c]));
    } else {
      FilterNone(missing, Tagged(devices[c]));
      FilterAll(swept, Tagged(devices[c]));
    }
  }

  // ----- buckets -----

  datatype Point = Point(start: int, energy: int, cost: Option<int>)

  datatype Response = Response(points: seq<Point>, energyTotal: int, energy: Option<int>, cost: Option<int>, bucket: int)

  function BucketSeconds(start: int, end: int, requested: Option<int>): (r: Result<int, HistoryError>)
    ensures r.Err? <==> requested.Some? && requested.value !in {0, 60, 300, 900, 3600, 86400}
    ensures requested.Some? && requested.value in {60, 300, 900, 3600, 86400} ==> r == Ok(requested.value)
    ensures requested in {None, Some(0)} ==>
              && r.Ok? && r.value in {300, 900, 3600, 86400}
              && (r.value == 300 <==> end - start <= 86_400)
              && (r.value <= 900 <==> end - start <= 7 * 86_400)
              && (r.value <= 3600 <==> end - start <= 31 * 86_400)
  {
    if requested.Some? && requested.value != 0 then
      if requested.value in {60, 300, 900, 3600, 86400} then Ok(requested.value) else Err(UnsupportedResolution)
    else if end - start <= 86_400 then Ok(300)
    else if end - start <= 7 * 86_400 then Ok(900)
    else if end - start <= 31 * 86_400 then Ok(3600)
    else Ok(86_400)
  }

  function Origin(start: int, bucket: int): int
    requires bucket > 0
  {
    start / bucket * bucket
  }

  function BucketCount(start: int, end: int, bucket: int): int
    requires bucket > 0
  {
    (end - Origin(start, bucket) + bucket - 1) / bucket
  }

  function IndexOf(origin: int, bucket: int, r: Row): int
    requires bucket > 0
  {
    (if r.start - origin >= 0 then r.start - origin else 0) / bucket
  }

  function InBucket(origin: int, bucket: int, k: int): Row -> bool
    requires bucket > 0
  {
    (r: Row) => IndexOf(origin, bucket, r) == k
  }

  function BeforeBucket(origin: int, bucket: int, k: int): Row -> bool
    requires bucket > 0
  {
    (r: Row) => 0 <= IndexOf(origin, bucket, r) < k
  }

  function EnergyOf(r: Row): int {
    if r.energy.Some? then r.energy.value else 0
  }

  function CostOf(r: Row): int {
    if r.cost.Some? then r.cost.value else 0
  }

  function Duration(r: Row): int {
    r.end - r.start
  }

  predicate AllPriced(rows: seq<Row>) {
    forall i :: 0 <= i < |rows| ==> rows[i].cost.Some?
  }

  /** Whether every selected device covers the visible part of a bucket. */
  predicate MembershipComplete(values: seq<Row>, devices: seq<int>, visible: int) {
    forall d :: d in devices ==> SumOf(Filter(values, OfDevice(d)), Duration) >= visible
  }

  function Visible(start: int, end: int, bucketStart: int, bucket: int): int {
    var from := if start >= bucketStart then start else bucketStart;
    var to := if end <= bucketStart + bucket then end else bucketStart + bucket;
    if to - from >= 0 then to - from else 0
  }

  function PointEnergy(p: Point): int {
    p.energy
  }

  function PointCost(p: Point): int {
    if p.cost.Some? then p.cost.value else 0
  }

  /** The point of one bucket, from the rows in it. */
  function PointOf(values: seq<Row>, bucketStart: int, complete: bool): Point {
    Point(bucketStart, SumOf(values, EnergyOf),
          if complete && values != [] && AllPriced(values) then Some(SumOf(values, CostOf)) else None)
  }

  /** A bucket of the dictionary; absent means empty. */
  function Held(buckets: map<int, seq<Row>>, k: int): seq<Row> {
    if k in buckets then buckets[k] else []
  }

  method FillBuckets(rows: seq<Row>, origin: int, bucket: int) returns (buckets: map<int, seq<Row>>)
    requires bucket > 0
    ensures forall k :: Held(buckets, k) == Filter(rows, InBucket(origin, bucket, k))
  {
    buckets := map[];
    for c := 0 to |rows|
      invariant forall k :: Held(buckets, k) == Filter(rows[..c], InBucket(origin, bucket, k))
    {
      var i := IndexOf(origin, bucket, rows[c]);
      var before := buckets;
      buckets := buckets[i := Held(buckets, i) + [rows[c]]];
      forall k ensures Held(buckets, k) == Filter(rows[..c + 1], InBucket(origin, bucket, k)) {
        hide Filter, IndexOf;
        BucketStep(rows, c, origin, bucket, k);
        assert Held(before, k) == Filter(rows[..c], InBucket(origin, bucket, k));
      }
    }
    assert rows[..|rows|] == rows;
  }

  lemma {:induction false} BucketStep(rows: seq<Row>, c: nat, origin: int, bucket: int, k: int)
    requires bucket > 0 && c < |rows|
    ensures Filter(rows[..c + 1], InBucket(origin, bucket, k))
         == Filter(rows[..c], InBucket(origin, bucket, k)) + (if k == IndexOf(origin, bucket, rows[c]) then [rows[c]] else [])
  {
    hide IndexOf;
    assert rows[..c + 1] == rows[..c] + [rows[c]];
    FilterConcat(rows[..c], [rows[c]], InBucket(origin, bucket, k));
    assert Filter([rows[c]], InBucket(origin, bucket, k)) == (if k == IndexOf(origin, bucket, rows[c]) then [rows[c]] else []);
  }

  /** What a history request selects: the rows, the devices, and the bucketed range. */
  datatype Selection = Selection(rows: seq<Row>, devices: seq<int>, aggregate: bool, start: int, end: int, bucket: int)

  ghost predicate ValidSelection(q: Selection) {
    q.bucket > 0 && q.start < q.end && Within(q.rows, q.start, q.end)
  }

  function RowsIn(q: Selection, k: int): seq<Row>
    requires q.bucket > 0
  {
    Filter(q.rows, InBucket(Origin(q.start, q.bucket), q.bucket, k))
  }

  function RowsBefore(q: Selection, k: int): seq<Row>
    requires q.bucket > 0
  {
    Filter(q.rows, BeforeBucket(Origin(q.start, q.bucket), q.bucket, k))
  }

  function BucketStart(q: Selection, k: int): int
    requires q.bucket > 0
  {
    Origin(q.start, q.bucket) + k * q.bucket
  }

  predicate CompleteAt(q: Selection, k: int)
    requires q.bucket > 0
  {
    MembershipComplete(RowsIn(q, k), q.devices, Visible(q.start, q.end, BucketStart(q, k), q.bucket))
  }

  function PointAt(q: Selection, k: int): Point
    requires q.bucket > 0
  {
    PointOf(RowsIn(q, k), BucketStart(q, k), CompleteAt(q, k) || !q.aggregate)
  }

  function Points(q: Selection, n: nat): (points: seq<Point>)
    requires q.bucket > 0
    ensures |points| == n
  {
    if n == 0 then [] else Points(q, n - 1) + [PointAt(q, n - 1)]
  }

  /** Whether totals are reported: always for one sensor, for an aggregate only when every bucket is complete. */
  predicate OverallComplete(q: Selection, n: nat)
    requires q.bucket > 0
  {
    !q.aggregate || forall k :: 0 <= k < n ==> CompleteAt(q, k)
  }

  function Assemble(rows: seq<Row>, points: seq<Point>, overall: bool, bucket: int): Response {
    var total := SumOf(rows, EnergyOf);
    Response(
      points, total,
      if overall && exists i :: 0 <= i < |rows| && rows[i].energy.Some? then Some(total) else None,
      if overall && rows != [] && AllPriced(rows) then Some(SumOf(rows, CostOf)) else None,
      bucket)
  }

  /** The response as a function of the selection. */
  function Answer(q: Selection): Response
    requires q.bucket > 0
  {
    var count := BucketCount(q.start, q.end, q.bucket);
    var n: nat := if count >= 0 then count else 0;
    Assemble(q.rows, Points(q, n), OverallComplete(q, n), q.bucket)
  }

  method BuildPoints(q: Selection, buckets: map<int, seq<Row>>, count: nat) returns (points: seq<Point>, allComplete: bool)
    requires q.bucket > 0 && forall k :: Held(buckets, k) == RowsIn(q, k)
    ensures points == Points(q, count)
    ensures allComplete <==> forall k :: 0 <= k < count ==> CompleteAt(q, k)
  {
    hide RowsIn, BucketStart, MembershipComplete, Visible, PointOf, Held;
    points := [];
    allComplete := true;
    for k := 0 to count
      invariant points == Points(q, k)
      invariant allComplete <==> forall i :: 0 <= i < k ==> CompleteAt(q, i)
    {
      var values, bucketStart := Held(buckets, k), BucketStart(q, k);
      var complete := MembershipComplete(values, q.devices, Visible(q.start, q.end, bucketStart, q.bucket));
      assert complete == CompleteAt(q, k);
      allComplete := allComplete && complete;
      points := points + [PointOf(values, bucketStart, complete || !q.aggregate)];
    }
  }

  /** A history request: refused for its range, its resolution or its size, and answered otherwise. */
  function Respond(rows: seq<Row>, devices: seq<int>, aggregate: bool, start: int, end: int, requested: Option<int>): Result<Response, HistoryError> {
    var bucket := BucketSeconds(start, end, requested);
    if end <= start || end - start > 366 * 86_400 then Err(BadRange)
    else if bucket.Err? then Err(UnsupportedResolution)
    else if BucketCount(start, end, bucket.value) > 20_000 then Err(TooManyPoints)
    else Ok(Answer(Selection(rows, devices, aggregate, start, end, bucket.value)))
  }

  method History(rows: seq<Row>, devices: seq<int>, aggregate: bool, start: int, end: int, requested: Option<int>)
    returns (r: Result<Response, HistoryError>)
    ensures r == Respond(rows, devices, aggregate, start, end, requested)
  {
    if end <= start || end - start > 366 * 86_400 {
      return Err(BadRange);
    }
    var chosen := BucketSeconds(start, end, requested);
    if chosen.Err? {
      return Err(chosen.error);
    }
    var q := Selection(rows, devices, aggregate, start, end, chosen.value);
    var count := BucketCount(start, end, q.bucket);
    if count > 20_000 {
      return Err(TooManyPoints);
    }
    CountIsPositive(start, end, q.bucket);
    var buckets := FillBuckets(rows, Origin(start, q.bucket), q.bucket);
    hide BucketSeconds, BucketCount, Origin, Points, CompleteAt, Assemble, Filter, InBucket, Held;
    var points, allComplete := BuildPoints(q, buckets, count);
    r := Ok(Assemble(rows, points, allComplete || !aggregate, q.bucket));
  }

  // ----- every row has its bucket -----

  lemma {:induction false} ScaledOrder(a: int, b: int, d: int)
    requires d > 0
    ensures a <= b ==> a * d <= b * d
  {
  }

  /** Whole buckets before a point are fewer than the buckets needed to reach past it. */
  lemma {:induction false} FloorBelowCeiling(a: int, b: int, d: int)
    requires d > 0 && 0 <= a < b
    ensures 0 <= a / d < (b + d - 1) / d
  {
    DivisionIdentity(a, d);
    DivisionIdentity(b + d - 1, d);
    ScaledOrder((b + d - 1) / d, a / d, d);
    ScaledOrder(a / d + 1, 0, d);
  }

  lemma {:induction false} CountIsPositive(start: int, end: int, bucket: int)
    requires bucket > 0 && start < end
    ensures Origin(start, bucket) <= start && BucketCount(start, end, bucket) > 0
  {
    DivisionIdentity(start, bucket);
    FloorBelowCeiling(0, end - Origin(start, bucket), bucket);
  }

  /** Every row falls in exactly one bucket of the answer. */
  lemma {:induction false} RowHasItsBucket(q: Selection, i: nat)
    requires ValidSelection(q) && i < |q.rows|
    ensures var origin := Origin(q.start, q.bucket);
            var k := IndexOf(origin, q.bucket, q.rows[i]);
            && 0 <= k < BucketCount(q.start, q.end, q.bucket)
            && origin + k * q.bucket <= q.rows[i].start < origin + (k + 1) * q.bucket
  {
    var origin := Origin(q.start, q.bucket);
    CountIsPositive(q.start, q.end, q.bucket);
    var offset := q.rows[i].start - origin;
    FloorBelowCeiling(offset, q.end - origin, q.bucket);
    DivisionIdentity(offset, q.bucket);
    Spread(offset / q.bucket, q.bucket);
  }

  lemma {:induction false} Spread(k: int, d: int)
    ensures (k + 1) * d == k * d + d
  {
  }

  // ----- conservation -----

  lemma {:induction false} NextBucket(q: Selection, n: nat, f: Row -> int)
    requires q.bucket > 0
    ensures SumOf(RowsBefore(q, n + 1), f) == SumOf(RowsBefore(q, n), f) + SumOf(RowsIn(q, n), f)
  {
    var origin := Origin(q.start, q.bucket);
    SumFilterSplit(q.rows, BeforeBucket(origin, q.bucket, n + 1), BeforeBucket(origin, q.bucket, n), InBucket(origin, q.bucket, n), f);
  }

  lemma {:induction false} NoBucket(q: Selection)
    requires q.bucket > 0
    ensures RowsBefore(q, 0) == []
  {
    FilterNone(q.rows, BeforeBucket(Origin(q.start, q.bucket), q.bucket, 0));
  }

  lemma {:induction false} AllBuckets(q: Selection)
    requires ValidSelection(q)
    ensures RowsBefore(q, BucketCount(q.start, q.end, q.bucket)) == q.rows
  {
    forall i | 0 <= i < |q.rows|
      ensures BeforeBucket(Origin(q.start, q.bucket), q.bucket, BucketCount(q.start, q.end, q.bucket))(q.rows[i])
    {
      RowHasItsBucket(q, i);
    }
    FilterAll(q.rows, BeforeBucket(Origin(q.start, q.bucket), q.bucket, BucketCount(q.start, q.end, q.bucket)));
  }

  lemma {:induction false} EnergyUpTo(q: Selection, n: nat)
    requires q.bucket > 0
    ensures SumOf(Points(q, n), PointEnergy) == SumOf(RowsBefore(q, n), EnergyOf)
  {
    if n == 0 {
      NoBucket(q);
    } else {
      EnergyUpTo(q, n - 1);
      NextBucket(q, n - 1, EnergyOf);
      SumOfConcat(Points(q, n - 1), [PointAt(q, n - 1)], PointEnergy);
    }
  }

  lemma {:induction false} CostUpTo(q: Selection, n: nat)
    requires q.bucket > 0 && AllPriced(q.rows) && OverallComplete(q, n)
    ensures SumOf(Points(q, n), PointCost) == SumOf(RowsBefore(q, n), CostOf)
  {
    if n == 0 {
      NoBucket(q);
    } else {
      CostUpTo(q, n - 1);
      NextBucket(q, n - 1, CostOf);
      SumOfConcat(Points(q, n - 1), [PointAt(q, n - 1)], PointCost);
      BucketIsPriced(q, n - 1);
    }
  }

  lemma {:induction false} BucketIsPriced(q: Selection, k: nat)
    requires q.bucket > 0 && AllPriced(q.rows) && (CompleteAt(q, k) || !q.aggregate)
    ensures PointCost(PointAt(q, k)) == SumOf(RowsIn(q, k), CostOf)
  {
    var values := RowsIn(q, k);
    FilterMembers(q.rows, InBucket(Origin(q.start, q.bucket), q.bucket, k));
    forall i | 0 <= i < |values| ensures values[i].cost.Some? {
      assert values[i] in q.rows;
    }
  }

  /** The points add up: to the energy total always, and to the total cost whenever one is reported. */
  lemma {:induction false} BucketingConserves(q: Selection)
    requires ValidSelection(q)
    ensures var r := Answer(q);
            && SumOf(r.points, PointEnergy) == r.energyTotal
            && (r.energy.Some? ==> r.energy.value == SumOf(r.points, PointEnergy))
            && (r.cost.Some? ==> r.cost.value == SumOf(r.points, PointCost))
  {
    var count := BucketCount(q.start, q.end, q.bucket);
    CountIsPositive(q.start, q.end, q.bucket);
    AllBuckets(q);
    EnergyUpTo(q, count);
    if Answer(q).cost.Some? {
      CostUpTo(q, count);
    }
  }

  /** For one sensor the total is reported exactly when there are rows and all are priced. */
  lemma {:induction false} SingleSensorCost(q: Selection)
    requires ValidSelection(q) && !q.aggregate
    ensures Answer(q).cost.Some? <==> q.rows != [] && AllPriced(q.rows)
    ensures q.rows != [] && AllPriced(q.rows) ==> SumOf(Answer(q).points, PointCost) == SumOf(q.rows, CostOf)
  {
    BucketingConserves(q);
  }
}
