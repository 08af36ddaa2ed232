/** Raw readings and permanent-loss ranges of a device (backend/alembic/versions/20260815_0008 and 20260815_0010). */
module EvidenceGuards {
  import opened Outcomes
  import opened GuardedStore

  /** A row of raw_readings or of unavailable_sequence_ranges; identities are distinct across the two tables. */
  datatype Evidence = Reading(device: int, sequence: int) | Loss(device: int, first: int, last: int)

  predicate Between(n: int, e: Evidence) {
    e.Loss? && e.first <= n <= e.last
  }

  /** What the two triggers and the unique sequence constraint forbid side by side. */
  predicate Conflicts(a: Evidence, b: Evidence) {
    && a.device == b.device
    && (match (a, b)
        case (Reading(_, m), Reading(_, n)) => m == n
        case (Reading(_, n), Loss(_, first, last)) => first <= n <= last
        case (Loss(_, first, last), Reading(_, n)) => first <= n <= last
        case (Loss(_, first, last), Loss(_, first', last')) => first <= last' && last >= first')
  }

  predicate Allowed(e: Evidence) {
    if e.Reading? then e.sequence > 0 else e.first > 0 && e.last >= e.first
  }

  /** The overlap guards under the device's row lock; immutable once updates and deletes are refused as well. */
  function Guards(immutable: bool): Rules<Evidence> {
    Rules((e: Evidence) => e.device, Conflicts, Allowed, immutable)
  }

  // ----- the trigger functions -----

  predicate RawReadingGuardRaises(view: map<int, Evidence>, row: Evidence)
    requires row.Reading?
  {
    exists id :: id in view && view[id].Loss? && view[id].device == row.device && view[id].first <= row.sequence <= view[id].last
  }

  predicate PermanentLossGuardRaises(view: map<int, Evidence>, newId: int, row: Evidence)
    requires row.Loss?
  {
    || (exists id :: id in view && view[id].Reading? && view[id].device == row.device && row.first <= view[id].sequence <= row.last)
    || (exists id :: id in view && view[id].Loss? && view[id].device == row.device && id != newId
          && view[id].first <= row.last && view[id].last >= row.first)
  }

  predicate SequenceTaken(view: map<int, Evidence>, row: Evidence)
    requires row.Reading?
  {
    exists id :: id in view && view[id] == row
  }

  /** An insert is admitted exactly when its columns are in order, its sequence is new and the table's trigger does not raise. */
  lemma {:induction false} GuardsDecideAdmission(view: map<int, Evidence>, id: int, row: Evidence)
    requires id !in view
    ensures Admits(Guards(true), view, id, row) <==>
              if row.Reading? then row.sequence > 0 && !RawReadingGuardRaises(view, row) && !SequenceTaken(view, row)
              else 0 < row.first <= row.last && !PermanentLossGuardRaises(view, id, row)
  {
  }

  lemma {:induction false} DeviceLockCoversConflicts(immutable: bool)
    ensures LocksCoverConflicts(Guards(immutable))
  {
  }

  // ----- what the evidence means -----

  ghost predicate IsRead(rows: map<int, Evidence>, device: int, n: int) {
    exists id :: id in rows && rows[id] == Reading(device, n)
  }

  ghost predicate IsLostIn(rows: map<int, Evidence>, id: int, device: int, n: int) {
    id in rows && rows[id].device == device && Between(n, rows[id])
  }

  /** No sequence of a device is both read and lost, and none is lost twice. */
  ghost predicate Consistent(rows: map<int, Evidence>) {
    && (forall device, n, id :: IsLostIn(rows, id, device, n) ==> !IsRead(rows, device, n))
    && (forall device, n, i, j :: IsLostIn(rows, i, device, n) && IsLostIn(rows, j, device, n) ==> i == j)
  }

  /** Column and unique constraints that hold independently of the triggers. */
  ghost predicate Constrained(rows: map<int, Evidence>) {
    && (forall id :: id in rows ==> Allowed(rows[id]))
    && (forall i, j :: i in rows && j in rows && i != j && rows[i].Reading? ==> rows[i] != rows[j])
  }

  /** The migration's two conflict queries, the second over identity-ordered pairs, find nothing. */
  ghost predicate PreflightPasses(rows: map<int, Evidence>) {
    && !(exists i, j :: i in rows && j in rows && rows[i].Reading? && rows[j].Loss?
           && rows[j].device == rows[i].device && rows[j].first <= rows[i].sequence <= rows[j].last)
    && !(exists i, j :: i in rows && j in rows && rows[i].Loss? && rows[j].Loss? && rows[j].device == rows[i].device && j > i
           && rows[i].first <= rows[j].last && rows[i].last >= rows[j].first)
  }

  lemma {:induction false} CleanIsConsistent(rows: map<int, Evidence>, immutable: bool)
    requires Constrained(rows)
    ensures Clean(Guards(immutable), rows) <==> Consistent(rows)
  {
    if Consistent(rows) {
      forall i, j | i in rows && j in rows && i != j ensures !Conflicts(rows[i], rows[j]) {
        SharedSequence(rows, i, j);
      }
    }
  }

  /** Two conflicting rows have a sequence in common. */
  lemma {:induction false} SharedSequence(rows: map<int, Evidence>, i: int, j: int)
    requires Constrained(rows) && Consistent(rows) && i in rows && j in rows && i != j
    ensures !Conflicts(rows[i], rows[j])
  {
    var a, b := rows[i], rows[j];
    if a.Loss? && b.Loss? && a.device == b.device {
      var n := if a.first >= b.first then a.first else b.first;
      assert Between(n, a) && Between(n, b) ==> IsLostIn(rows, i, a.device, n) && IsLostIn(rows, j, a.device, n);
    } else if a.Reading? && b.Loss? && a.device == b.device {
      assert IsRead(rows, a.device, a.sequence);
      assert IsLostIn(rows, j, a.device, a.sequence) <==> Between(a.sequence, b);
    } else if a.Loss? && b.Reading? && a.device == b.device {
      assert IsRead(rows, b.device, b.sequence);
      assert IsLostIn(rows, i, b.device, b.sequence) <==> Between(b.sequence, a);
    }
  }

  /** The preflight accepts exactly the consistent tables. */
  lemma {:induction false} PreflightDecides(rows: map<int, Evidence>)
    requires Constrained(rows)
    ensures PreflightPasses(rows) <==> Consistent(rows)
  {
    CleanIsConsistent(rows, true);
    if PreflightPasses(rows) {
      forall i, j | i in rows && j in rows && i != j ensures !Conflicts(rows[i], rows[j]) {
        assert i < j || j < i;
      }
    }
  }

  /** From a table that passed the preflight, every interleaving keeps the evidence consistent, with or without updates. */
  lemma {:induction false} EvidenceStaysConsistent(immutable: bool, rows: map<int, Evidence>, steps: seq<Step<Evidence>>)
    requires Constrained(rows) && PreflightPasses(rows)
    ensures Consistent(Run(Guards(immutable), Store(rows, map[]), steps).committed)
  {
    DeviceLockCoversConflicts(immutable);
    PreflightDecides(rows);
    CleanIsConsistent(rows, immutable);
    EveryRunStaysClean(Guards(immutable), Store(rows, map[]), steps);
    CleanIsConsistent(Run(Guards(immutable), Store(rows, map[]), steps).committed, immutable);
  }

  /** Once updates and deletes are refused, no committed evidence is ever lost or rewritten. */
  lemma {:induction false} EvidenceIsForever(rows: map<int, Evidence>, steps: seq<Step<Evidence>>)
    requires Constrained(rows) && PreflightPasses(rows)
    ensures Extends(rows, Run(Guards(true), Store(rows, map[]), steps).committed)
  {
    DeviceLockCoversConflicts(true);
    PreflightDecides(rows);
    CleanIsConsistent(rows, true);
    CommittedRowsAreForever(Guards(true), Store(rows, map[]), steps);
  }

  /** Were readings and losses locked separately, a reading inside a lost range could commit. */
  lemma {:induction false} DeviceLockIsNeeded()
    ensures var separate := Guards(true).(parent := (e: Evidence) => if e.Reading? then 1 else 2);
            !Consistent(Run(separate, Store(map[], map[]), Race(Reading(5, 3), Loss(5, 1, 9))).committed)
  {
    var separate := Guards(true).(parent := (e: Evidence) => if e.Reading? then 1 else 2);
    var reading, loss := Reading(5, 3), Loss(5, 1, 9);
    RaceCommitsBoth(separate, reading, loss);
    var after := Run(separate, Store(map[], map[]), Race(reading, loss)).committed;
    assert after[1] == reading && IsLostIn(after, 2, 5, 3) && IsRead(after, 5, 3);
  }
}
