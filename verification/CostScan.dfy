/** The pending-cost scan and its durable cursor (worker/app/jobs.py, start of calculate_pending_costs). */
module CostScan {
  import opened Outcomes
  import opened Sums
  import opened Sorting

  /** The scan order of a pending interval: start time, then row identity in the database's order. */
  datatype Key = Key(start: int, id: int)

  predicate Less(a: Key, b: Key) {
    a.start < b.start || (a.start == b.start && a.id < b.id)
  }

  ghost predicate Ascending(s: seq<Key>) {
    forall i, j :: 0 <= i < j < |s| ==> Less(s[i], s[j])
  }

  predicate PastCursor(cursor: Option<Key>, k: Key) {
    cursor.None? || Less(cursor.value, k)
  }

  function Min(a: int, b: int): int {
    if a <= b then a else b
  }

  /** A filtered, ordered query with a row limit. */
  function Query(pending: seq<Key>, keep: Key -> bool, limit: nat): seq<Key> {
    var rows := Filter(pending, keep);
    rows[..Min(limit, |rows|)]
  }

  function AfterKey(c: Key): Key -> bool {
    k => Less(c, k)
  }

  function ThroughKey(c: Key): Key -> bool {
    k => !Less(c, k)
  }

  /** How many pending keys the cursor has already passed. */
  function Passed(pending: seq<Key>, cursor: Option<Key>): (n: nat)
    ensures n <= |pending|
  {
    if pending == [] || PastCursor(cursor, pending[0]) then 0 else 1 + Passed(pending[1..], cursor)
  }

  /** The pending list, rotated so that it starts just past the cursor. */
  function Rotation(pending: seq<Key>, cursor: Option<Key>): seq<Key> {
    var k := Passed(pending, cursor);
    pending[k..] + pending[..k]
  }

  function Scanned(pending: seq<Key>, cursor: Option<Key>, limit: nat): seq<Key> {
    Rotation(pending, cursor)[..Min(limit, |pending|)]
  }

  function NextCursor(pending: seq<Key>, cursor: Option<Key>, limit: nat): Option<Key> {
    var scanned := Scanned(pending, cursor, limit);
    if scanned == [] then cursor else Some(scanned[|scanned| - 1])
  }

  class PendingScan {
    /** Whether a cursor directory is configured; without one every scan starts at the front. */
    const durable: bool
    var cursor: Option<Key>

    constructor (durable: bool)
      ensures this.durable == durable && cursor == None
    {
      this.durable := durable;
      cursor := None;
    }

    method Scan(pending: seq<Key>, limit: int) returns (intervals: seq<Key>)
      requires Ascending(pending)
      modifies this`cursor
      ensures limit <= 0 ==> intervals == [] && cursor == old(cursor)
      ensures limit > 0 && durable ==>
                intervals == Scanned(pending, old(cursor), limit) && cursor == NextCursor(pending, old(cursor), limit)
      ensures limit > 0 && !durable ==> intervals == Scanned(pending, None, limit) && cursor == old(cursor)
    {
      intervals := [];
      if limit <= 0 {
        return;
      }
      var from := if durable then cursor else None;
      if from.None? {
        intervals := pending[..Min(limit, |pending|)];
      } else {
        QueriesAreScanned(pending, from.value, limit);
        intervals := Query(pending, AfterKey(from.value), limit);
        if |intervals| < limit {
          intervals := intervals + Query(pending, ThroughKey(from.value), limit - |intervals|);
        }
      }
      if intervals != [] && durable {
        cursor := Some(intervals[|intervals| - 1]);
      }
    }
  }

  /** On an ascending list the two filtered queries are the two halves of the rotation. */
  lemma {:induction false} FilterSplits(pending: seq<Key>, c: Key)
    requires Ascending(pending)
    ensures var k := Passed(pending, Some(c));
            && Filter(pending, AfterKey(c)) == pending[k..]
            && Filter(pending, ThroughKey(c)) == pending[..k]
  {
    var k := Passed(pending, Some(c));
    var front, back := pending[..k], pending[k..];
    PassedSplits(pending, Some(c));
    assert pending == front + back;
    FilterConcat(front, back, AfterKey(c));
    FilterConcat(front, back, ThroughKey(c));
    FilterNone(front, AfterKey(c));
    FilterAll(back, AfterKey(c));
    FilterAll(front, ThroughKey(c));
    FilterNone(back, ThroughKey(c));
  }

  lemma {:induction false} QueriesAreScanned(pending: seq<Key>, c: Key, limit: nat)
    requires Ascending(pending)
    ensures var first := Query(pending, AfterKey(c), limit);
            && |first| <= limit
            && Scanned(pending, Some(c), limit)
            == if |first| < limit then first + Query(pending, ThroughKey(c), limit - |first|) else first
  {
    FilterSplits(pending, c);
  }

  // ----- every scan -----

  /** The rotation order: keys past the cursor first, ascending within each half. */
  predicate Sooner(cursor: Option<Key>, a: Key, b: Key) {
    if PastCursor(cursor, a) == PastCursor(cursor, b) then Less(a, b) else PastCursor(cursor, a)
  }

  lemma {:induction false} PassedSplits(pending: seq<Key>, cursor: Option<Key>)
    requires Ascending(pending)
    ensures forall i :: 0 <= i < |pending| ==> (PastCursor(cursor, pending[i]) <==> i >= Passed(pending, cursor))
  {
    if pending == [] {
    } else if PastCursor(cursor, pending[0]) {
      assert forall i :: 0 < i < |pending| ==> Less(pending[0], pending[i]);
    } else {
      PassedSplits(pending[1..], cursor);
      forall i | 0 <= i < |pending| ensures PastCursor(cursor, pending[i]) <==> i >= Passed(pending, cursor) {
        if i > 0 { assert pending[i] == pending[1..][i - 1]; }
      }
    }
  }

  lemma {:induction false} RotationIsOrdered(pending: seq<Key>, cursor: Option<Key>)
    requires Ascending(pending)
    ensures var r := Rotation(pending, cursor);
            && |r| == |pending|
            && (forall k :: k in r <==> k in pending)
            && (forall i, j :: 0 <= i < j < |r| ==> Sooner(cursor, r[i], r[j]))
  {
    PassedSplits(pending, cursor);
    var k := Passed(pending, cursor);
    assert pending == pending[..k] + pending[k..];
  }

  /** Each scan is duplicate-free, has length min(limit, n), and takes the soonest pending keys. */
  lemma {:induction false} ScanIsSoonestPrefix(pending: seq<Key>, cursor: Option<Key>, limit: nat)
    requires Ascending(pending)
    ensures var scanned := Scanned(pending, cursor, limit);
            && |scanned| == Min(limit, |pending|)
            && Distinct(scanned)
            && (forall k :: k in scanned ==> k in pending)
            && (forall a, b :: a in scanned && b in pending && b !in scanned ==> Sooner(cursor, a, b))
  {
    RotationIsOrdered(pending, cursor);
    var r, scanned := Rotation(pending, cursor), Scanned(pending, cursor, limit);
    forall a, b | a in scanned && b in pending && b !in scanned ensures Sooner(cursor, a, b) {
      assert b in r;
      var i :| 0 <= i < |scanned| && scanned[i] == a;
      var j :| 0 <= j < |r| && r[j] == b;
      assert forall c :: 0 <= c < |scanned| ==> r[c] in scanned;
      assert r[i] == a;
    }
  }

  // ----- starvation freedom -----

  /** The pending keys that will be reached before x. */
  ghost function Ahead(pending: seq<Key>, cursor: Option<Key>, x: Key): set<Key> {
    set y | y in pending && Sooner(cursor, y, x)
  }

  lemma {:induction false} DistinctCount(s: seq<Key>)
    requires Distinct(s)
    ensures |set k | k in s| == |s|
  {
    if s == [] {
    } else {
      DistinctCount(s[1..]);
      assert (set k | k in s) == {s[0]} + (set k | k in s[1..]);
    }
  }

  lemma {:induction false} SubsetCount(a: set<Key>, b: set<Key>)
    requires a <= b
    ensures |b - a| == |b| - |a|
  {
    assert a + (b - a) == b;
  }

  lemma {:induction false} MissFillsTheLimit(pending: seq<Key>, cursor: Option<Key>, limit: nat, x: Key)
    requires Ascending(pending) && x in pending && x !in Scanned(pending, cursor, limit)
    ensures |Scanned(pending, cursor, limit)| == limit
  {
    RotationIsOrdered(pending, cursor);
    assert Rotation(pending, cursor)[..|pending|] == Rotation(pending, cursor);
  }

  lemma {:induction false} LastIsLatest(pending: seq<Key>, cursor: Option<Key>, limit: nat, y: Key)
    requires Ascending(pending) && y in Scanned(pending, cursor, limit)
    ensures var scanned := Scanned(pending, cursor, limit);
            !Sooner(cursor, scanned[|scanned| - 1], y)
  {
    RotationIsOrdered(pending, cursor);
    var scanned := Scanned(pending, cursor, limit);
    var i :| 0 <= i < |scanned| && scanned[i] == y;
    assert i == |scanned| - 1 || Sooner(cursor, scanned[i], scanned[|scanned| - 1]);
  }

  lemma {:induction false} NewlyAheadWasAhead(pending: seq<Key>, next: seq<Key>, cursor: Option<Key>, limit: nat, x: Key)
    requires Ascending(pending) && limit > 0 && x in pending && Among(next, pending)
    requires x !in Scanned(pending, cursor, limit)
    ensures Ahead(next, NextCursor(pending, cursor, limit), x)
         <= Ahead(pending, cursor, x) - (set k | k in Scanned(pending, cursor, limit))
  {
    ScanIsSoonestPrefix(pending, cursor, limit);
    MissFillsTheLimit(pending, cursor, limit, x);
    var scanned := Scanned(pending, cursor, limit);
    var last := scanned[limit - 1];
    assert last in scanned;
    forall y | y in Ahead(next, Some(last), x) ensures y in Ahead(pending, cursor, x) && y !in scanned {
      CyclicStep(cursor, last, y, x);
      if y in scanned {
        LastIsLatest(pending, cursor, limit, y);
      }
    }
  }

  /** If a scan misses x, the cursor has moved at least limit keys closer to it. */
  lemma {:induction false} MissBringsCloser(pending: seq<Key>, next: seq<Key>, cursor: Option<Key>, limit: nat, x: Key)
    requires Ascending(pending) && limit > 0 && x in pending && Among(next, pending)
    requires x !in Scanned(pending, cursor, limit)
    ensures |Ahead(next, NextCursor(pending, cursor, limit), x)| <= |Ahead(pending, cursor, x)| - limit
  {
    ScanIsSoonestPrefix(pending, cursor, limit);
    MissFillsTheLimit(pending, cursor, limit, x);
    NewlyAheadWasAhead(pending, next, cursor, limit, x);
    var scanned, ahead := Scanned(pending, cursor, limit), Ahead(pending, cursor, x);
    var seen := set k | k in scanned;
    DistinctCount(scanned);
    assert seen <= ahead;
    SubsetCount(seen, ahead);
    SubsetCount(Ahead(next, NextCursor(pending, cursor, limit), x), ahead - seen);
  }

  /** Moving the cursor to a key before x keeps the rest of the way to x unchanged. */
  lemma {:induction false} CyclicStep(cursor: Option<Key>, last: Key, y: Key, x: Key)
    requires Sooner(cursor, last, x) && Sooner(Some(last), y, x)
    ensures Sooner(cursor, last, y) && Sooner(cursor, y, x)
  {
  }

  /** The cursor in force before cycle t, when pendings[t] is what cycle t finds pending. */
  function CursorAt(pendings: seq<seq<Key>>, cursor: Option<Key>, limit: nat, t: nat): Option<Key>
    requires t <= |pendings|
  {
    if t == 0 then cursor else CursorAt(pendings[1..], NextCursor(pendings[0], cursor, limit), limit, t - 1)
  }

  ghost predicate Among(a: seq<Key>, b: seq<Key>) {
    forall k :: k in a ==> k in b
  }

  /** No new arrivals: each cycle finds a subset of what the previous one found. */
  ghost predicate OnlyShrinks(pendings: seq<seq<Key>>) {
    && (forall t :: 0 <= t < |pendings| ==> Ascending(pendings[t]))
    && (forall t, u :: 0 <= t < u < |pendings| ==> Among(pendings[u], pendings[t]))
  }

  ghost predicate StaysPending(pendings: seq<seq<Key>>, x: Key) {
    forall t :: 0 <= t < |pendings| ==> x in pendings[t]
  }

  /** How many keys a number of full scans can cover. */
  function Capacity(cycles: nat, limit: nat): nat {
    if cycles == 0 then 0 else limit + Capacity(cycles - 1, limit)
  }

  lemma {:induction false} CapacityIsProduct(cycles: nat, limit: nat)
    ensures Capacity(cycles, limit) == cycles * limit
  {
    if cycles > 0 {
      CapacityIsProduct(cycles - 1, limit);
      assert cycles * limit == (cycles - 1) * limit + limit;
    }
  }

  lemma {:induction false} LaterCycles(pendings: seq<seq<Key>>, x: Key)
    requires OnlyShrinks(pendings) && StaysPending(pendings, x) && pendings != []
    ensures OnlyShrinks(pendings[1..]) && StaysPending(pendings[1..], x)
    ensures |pendings| > 1 ==> Among(pendings[1], pendings[0])
  {
    var rest := pendings[1..];
    forall t, u | 0 <= t < u < |rest| ensures Among(rest[u], rest[t]) {
      assert rest[u] == pendings[u + 1] && rest[t] == pendings[t + 1];
    }
  }

  /** A key that stays pending is scanned once the cycles have room for everything ahead of it. */
  lemma {:induction false} ReachedInTime(pendings: seq<seq<Key>>, cursor: Option<Key>, limit: nat, x: Key) returns (t: nat)
    requires OnlyShrinks(pendings) && StaysPending(pendings, x) && limit > 0 && pendings != []
    requires |Ahead(pendings[0], cursor, x)| < Capacity(|pendings|, limit)
    ensures t < |pendings| && x in Scanned(pendings[t], CursorAt(pendings, cursor, limit, t), limit)
    decreases |pendings|
  {
    if x in Scanned(pendings[0], cursor, limit) {
      return 0;
    }
    var rest := pendings[1..];
    LaterCycles(pendings, x);
    var next := if rest == [] then [] else pendings[1];
    MissBringsCloser(pendings[0], next, cursor, limit, x);
    assert rest != [];
    var u := ReachedInTime(rest, NextCursor(pendings[0], cursor, limit), limit, x);
    t := u + 1;
  }

  /** Starvation freedom: ceil(n / limit) cycles suffice, whatever the cursor was and whatever else is priced. */
  lemma {:induction false} NoStarvation(pendings: seq<seq<Key>>, cursor: Option<Key>, limit: nat, x: Key) returns (t: nat)
    requires OnlyShrinks(pendings) && StaysPending(pendings, x) && limit > 0 && pendings != []
    requires |pendings| * limit >= |pendings[0]|
    ensures t < |pendings| && x in Scanned(pendings[t], CursorAt(pendings, cursor, limit, t), limit)
  {
    var first := pendings[0];
    assert Distinct(first) by {
      assert forall i, j :: 0 <= i < j < |first| ==> Less(first[i], first[j]);
    }
    DistinctCount(first);
    SubsetCount(Ahead(first, cursor, x), (set k | k in first) - {x});
    CapacityIsProduct(|pendings|, limit);
    t := ReachedInTime(pendings, cursor, limit, x);
  }

  // ----- without a cursor directory -----

  ghost function Smaller(pending: seq<Key>, x: Key): set<Key> {
    set y | y in pending && Less(y, x)
  }

  lemma {:induction false} SmallerIsPrefix(pending: seq<Key>, i: nat)
    requires Ascending(pending) && i < |pending|
    ensures |Smaller(pending, pending[i])| == i
  {
    var front := pending[..i];
    assert Distinct(front) by {
      assert forall a, b :: 0 <= a < b < i ==> Less(pending[a], pending[b]);
    }
    DistinctCount(front);
    forall y ensures y in Smaller(pending, pending[i]) <==> y in front {
      if y in Smaller(pending, pending[i]) {
        var j :| 0 <= j < |pending| && pending[j] == y;
        assert j >= i ==> j == i || Less(pending[i], pending[j]);
        assert front[j] == y;
      }
      if y in front {
        var j :| 0 <= j < i && front[j] == y;
        assert pending[j] == y && Less(pending[j], pending[i]);
      }
    }
    assert Smaller(pending, pending[i]) == (set k | k in front);
  }

  /** A scan from the front takes exactly the pending keys with fewer than limit smaller ones. */
  lemma {:induction false} ScannedFromTheFront(pending: seq<Key>, limit: nat, x: Key)
    requires Ascending(pending)
    ensures x in Scanned(pending, None, limit) <==> x in pending && |Smaller(pending, x)| < limit
  {
    var scanned := Scanned(pending, None, limit);
    assert Rotation(pending, None) == pending;
    if x in pending {
      var i :| 0 <= i < |pending| && pending[i] == x;
      SmallerIsPrefix(pending, i);
      assert i < limit ==> scanned[i] == x;
      if x in scanned {
        var j :| 0 <= j < |scanned| && scanned[j] == x;
        SmallerIsPrefix(pending, j);
      }
    }
  }

  /** Without a cursor a key is never scanned if and only if every cycle that finds it pending also finds limit smaller ones. */
  lemma {:induction false} StarvesExactly(pendings: seq<seq<Key>>, limit: nat, x: Key)
    requires forall t :: 0 <= t < |pendings| ==> Ascending(pendings[t])
    ensures (forall t :: 0 <= t < |pendings| ==> x !in Scanned(pendings[t], None, limit))
       <==> (forall t :: 0 <= t < |pendings| ==> x in pendings[t] ==> |Smaller(pendings[t], x)| >= limit)
  {
    forall t | 0 <= t < |pendings|
      ensures x !in Scanned(pendings[t], None, limit) <==> (x in pendings[t] ==> |Smaller(pendings[t], x)| >= limit)
    {
      ScannedFromTheFront(pendings[t], limit, x);
    }
  }

  /** For example, at limit one the second of two unpriceable intervals, which a cursor would reach next. */
  lemma {:induction false} WithoutCursorStarves(a: Key, b: Key)
    requires Less(a, b)
    ensures b !in Scanned([a, b], None, 1)
    ensures b in Scanned([a, b], NextCursor([a, b], None, 1), 1)
  {
    assert Rotation([a, b], None) == [a, b];
    assert Passed([a, b], Some(a)) == 1 by { assert [a, b][1..] == [b]; }
    assert Rotation([a, b], Some(a)) == [b, a];
  }
}
