/** Rate assignments of a utility account (backend/alembic/versions/20260815_0011, worker/app/jobs.py). */
module RateAssignments {
  import opened Outcomes
  import opened GuardedStore

  datatype Assignment = Assignment(account: int, version: int, start: int, end: Option<int>)

  datatype Version = Version(published: bool, start: int, end: Option<int>)

  /** An instant of the half-open effective range; an open end is infinity. */
  predicate Covers(start: int, end: Option<int>, instant: int) {
    start <= instant && (end.None? || instant < end.value)
  }

  predicate Overlaps(a: Assignment, b: Assignment) {
    && a.account == b.account
    && (b.end.None? || a.start < b.end.value)
    && (a.end.None? || b.start < a.end.value)
  }

  predicate Ordered(a: Assignment) {
    a.end.None? || a.end.value > a.start
  }

  /** Inserts and updates are guarded under the account's row lock; deletes are free. */
  function Guard(): Rules<Assignment> {
    Rules((a: Assignment) => a.account, Overlaps, Ordered, false)
  }

  /** The trigger function. */
  predicate OverlapGuardRaises(view: map<int, Assignment>, newId: int, row: Assignment) {
    exists id :: id in view && view[id].account == row.account && id != newId
      && (row.end.None? || view[id].start < row.end.value)
      && (view[id].end.None? || row.start < view[id].end.value)
  }

  lemma {:induction false} GuardDecidesAdmission(view: map<int, Assignment>, id: int, row: Assignment)
    requires Ordered(row)
    ensures Admits(Guard(), view, id, row) <==> !OverlapGuardRaises(view, id, row)
  {
  }

  lemma {:induction false} AccountLockCoversConflicts()
    ensures LocksCoverConflicts(Guard())
  {
  }

  // ----- what the ranges mean -----

  /** No instant of an account is covered by two assignments. */
  ghost predicate NeverOverlap(rows: map<int, Assignment>) {
    forall i, j, instant ::
      (&& i in rows && j in rows && rows[i].account == rows[j].account
       && Covers(rows[i].start, rows[i].end, instant) && Covers(rows[j].start, rows[j].end, instant))
      ==> i == j
  }

  ghost predicate AllOrdered(rows: map<int, Assignment>) {
    forall i :: i in rows ==> Ordered(rows[i])
  }

  /** The migration's two assignment queries find nothing. */
  ghost predicate PreflightPasses(rows: map<int, Assignment>) {
    && !(exists a, b :: a in rows && b in rows && rows[a].account == rows[b].account && a < b
           && (rows[b].end.None? || rows[a].start < rows[b].end.value)
           && (rows[a].end.None? || rows[b].start < rows[a].end.value))
    && !(exists a :: a in rows && rows[a].end.Some? && rows[a].end.value <= rows[a].start)
  }

  lemma {:induction false} CommonInstant(a: Assignment, b: Assignment)
    requires Ordered(a) && Ordered(b) && a.account == b.account
    ensures Overlaps(a, b) <==> exists instant :: Covers(a.start, a.end, instant) && Covers(b.start, b.end, instant)
  {
    var latest := if a.start >= b.start then a.start else b.start;
    assert Overlaps(a, b) ==> Covers(a.start, a.end, latest) && Covers(b.start, b.end, latest);
  }

  lemma {:induction false} CleanNeverOverlaps(rows: map<int, Assignment>)
    ensures Clean(Guard(), rows) <==> AllOrdered(rows) && NeverOverlap(rows)
  {
    if AllOrdered(rows) {
      forall i, j | i in rows && j in rows && rows[i].account == rows[j].account
        ensures Overlaps(rows[i], rows[j])
           <==> exists instant :: Covers(rows[i].start, rows[i].end, instant) && Covers(rows[j].start, rows[j].end, instant)
      {
        CommonInstant(rows[i], rows[j]);
      }
    }
  }

  lemma {:induction false} PreflightDecides(rows: map<int, Assignment>)
    ensures PreflightPasses(rows) <==> AllOrdered(rows) && NeverOverlap(rows)
  {
    CleanNeverOverlaps(rows);
    if PreflightPasses(rows) {
      forall i, j | i in rows && j in rows && i != j ensures !Overlaps(rows[i], rows[j]) {
        assert i < j || j < i;
      }
    }
  }

  /** In every interleaving of inserts, updates and deletes, an account's ranges never overlap. */
  lemma {:induction false} AssignmentsNeverOverlap(rows: map<int, Assignment>, steps: seq<Step<Assignment>>)
    requires PreflightPasses(rows)
    ensures var after := Run(Guard(), Store(rows, map[]), steps).committed;
            AllOrdered(after) && NeverOverlap(after)
  {
    AccountLockCoversConflicts();
    PreflightDecides(rows);
    CleanNeverOverlaps(rows);
    EveryRunStaysClean(Guard(), Store(rows, map[]), steps);
    CleanNeverOverlaps(Run(Guard(), Store(rows, map[]), steps).committed);
  }

  // ----- the worker's lookup -----

  predicate Spans(start: int, end: Option<int>, from: int, to: int) {
    start <= from && (end.None? || end.value >= to)
  }

  /** The rows of the worker's query: published versions assigned over the whole interval. */
  function Candidates(rows: map<int, Assignment>, versions: map<int, Version>, account: int, from: int, to: int): set<int> {
    set id |
      && id in rows
      && rows[id].account == account
      && rows[id].version in versions
      && versions[rows[id].version].published
      && Spans(rows[id].start, rows[id].end, from, to)
      && Spans(versions[rows[id].version].start, versions[rows[id].version].end, from, to)
  }

  /** A published version is assigned to the account over the whole interval, instant by instant. */
  ghost predicate AssignedThroughout(rows: map<int, Assignment>, versions: map<int, Version>, account: int, from: int, to: int, id: int) {
    && id in rows && rows[id].account == account
    && rows[id].version in versions && versions[rows[id].version].published
    && (forall t :: from <= t < to ==>
          Covers(rows[id].start, rows[id].end, t) && Covers(versions[rows[id].version].start, versions[rows[id].version].end, t))
  }

  /** The account has no other such assignment. */
  ghost predicate OnlyAssigned(rows: map<int, Assignment>, versions: map<int, Version>, account: int, from: int, to: int, id: int) {
    && AssignedThroughout(rows, versions, account, from, to, id)
    && (forall other :: AssignedThroughout(rows, versions, account, from, to, other) ==> other == id)
  }

  /** The assignment the worker prices with: the only one that holds throughout, or none. */
  method LookUp(rows: map<int, Assignment>, versions: map<int, Version>, account: int, from: int, to: int) returns (found: Option<int>)
    ensures var candidates := Candidates(rows, versions, account, from, to);
            && (found.Some? ==> candidates == {found.value})
            && (found.None? ==> |candidates| != 1)
    ensures from < to ==> forall id :: found == Some(id) <==> OnlyAssigned(rows, versions, account, from, to, id)
  {
    var candidates := Candidates(rows, versions, account, from, to);
    if from < to {
      OnlyIsSingleton(rows, versions, account, from, to);
    }
    hide OnlyAssigned, Candidates;
    if |candidates| != 1 {
      return None;
    }
    var id := OnlyElement(candidates);
    found := Some(id);
  }

  lemma {:induction false} OnlyIsSingleton(rows: map<int, Assignment>, versions: map<int, Version>, account: int, from: int, to: int)
    requires from < to
    ensures forall id :: OnlyAssigned(rows, versions, account, from, to, id) <==> Candidates(rows, versions, account, from, to) == {id}
  {
    CandidatesAreAssigned(rows, versions, account, from, to);
    hide AssignedThroughout, Candidates;
    forall id ensures OnlyAssigned(rows, versions, account, from, to, id) <==> Candidates(rows, versions, account, from, to) == {id} {
      var candidates := Candidates(rows, versions, account, from, to);
      if OnlyAssigned(rows, versions, account, from, to, id) {
        assert forall other :: other in candidates <==> other == id;
      }
    }
  }

  /** A range spans an interval exactly when it covers each of its instants. */
  lemma {:induction false} SpanIsCoverage(start: int, end: Option<int>, from: int, to: int)
    requires from < to
    ensures Spans(start, end, from, to) <==> forall t :: from <= t < to ==> Covers(start, end, t)
  {
    if forall t :: from <= t < to ==> Covers(start, end, t) {
      assert Covers(start, end, from) && Covers(start, end, to - 1);
    }
  }

  lemma {:induction false} CandidatesAreAssigned(rows: map<int, Assignment>, versions: map<int, Version>, account: int, from: int, to: int)
    requires from < to
    ensures forall id :: id in Candidates(rows, versions, account, from, to) <==> AssignedThroughout(rows, versions, account, from, to, id)
  {
    forall id ensures id in Candidates(rows, versions, account, from, to) <==> AssignedThroughout(rows, versions, account, from, to, id) {
      if id in rows && rows[id].version in versions {
        SpanIsCoverage(rows[id].start, rows[id].end, from, to);
        SpanIsCoverage(versions[rows[id].version].start, versions[rows[id].version].end, from, to);
      }
    }
  }

  method OnlyElement<T(==)>(s: set<T>) returns (x: T)
    requires |s| == 1
    ensures s == {x}
  {
    x :| x in s;
    assert |s - {x}| == 0;
    assert s == {x};
  }

  lemma {:induction false} AtMostOne<T(!new)>(s: set<T>)
    requires forall x, y :: x in s && y in s ==> x == y
    ensures |s| <= 1
  {
    if s != {} {
      var x :| x in s;
      assert s == {x};
    }
  }

  /** So after any run the lookup is never ambiguous: it finds nothing, or the one assignment that covers the interval. */
  lemma {:induction false} LookUpIsNeverAmbiguous(
    rows: map<int, Assignment>, steps: seq<Step<Assignment>>, versions: map<int, Version>, account: int, from: int, to: int)
    requires PreflightPasses(rows) && from < to
    ensures var after := Run(Guard(), Store(rows, map[]), steps).committed;
            |Candidates(after, versions, account, from, to)| <= 1
  {
    AssignmentsNeverOverlap(rows, steps);
    var after := Run(Guard(), Store(rows, map[]), steps).committed;
    var candidates := Candidates(after, versions, account, from, to);
    forall i, j | i in candidates && j in candidates ensures i == j {
      assert Covers(after[i].start, after[i].end, from) && Covers(after[j].start, after[j].end, from);
    }
    AtMostOne(candidates);
  }
}
