/**
 Concurrent transactions over a guarded table, as PostgreSQL runs them at READ COMMITTED: a write first locks its row
 and its parent row, then a trigger checks everything committed so far and the transaction's own writes, then the row
 is written; other transactions see it only after commit. A step that would block leaves the store as it is.
 */
module GuardedStore {
  import opened Outcomes

  /** What guards a table: the locked parent, the rows that may not coexist, check constraints, and whether rows are immutable. */
  datatype Rules<!R> = Rules(parent: R -> int, conflict: (R, R) -> bool, allowed: R -> bool, insertOnly: bool)

  datatype Write<R> = Put(row: R) | Remove

  datatype Attempt<R> = Attempt(id: int, row: R)

  datatype Txn<R> = Txn(writes: map<int, Write<R>>, locks: set<int>, attempt: Option<Attempt<R>>)

  datatype Store<R> = Store(committed: map<int, R>, live: map<int, Txn<R>>)

  datatype Step<R> =
    | Begin(t: int)
    | Lock(t: int, id: int, row: R)
    | Check(t: int)
    | Delete(t: int, id: int)
    | Commit(t: int)
    | Abort(t: int)

  /** The rows a transaction sees: the committed ones, overridden by its own writes. */
  function View<R>(committed: map<int, R>, writes: map<int, Write<R>>): map<int, R> {
    map id | id in committed.Keys + writes.Keys && (id in writes ==> writes[id].Put?) ::
      if id in writes then writes[id].row else committed[id]
  }

  /** The trigger's question: may this row join the visible ones? */
  predicate Admits<R>(rules: Rules<R>, view: map<int, R>, id: int, row: R) {
    && rules.allowed(row)
    && (rules.insertOnly ==> id !in view)
    && (forall other :: other in view && other != id ==> !rules.conflict(view[other], row))
  }

  /** The row identities a transaction has written or is about to write. */
  function Reserved<R>(txn: Txn<R>): set<int> {
    txn.writes.Keys + (if txn.attempt.Some? then {txn.attempt.value.id} else {})
  }

  predicate RowFree<R>(s: Store<R>, t: int, id: int) {
    forall u :: u in s.live && u != t ==> id !in Reserved(s.live[u])
  }

  predicate ParentFree<R>(s: Store<R>, t: int, parent: int) {
    forall u :: u in s.live && u != t ==> parent !in s.live[u].locks
  }

  function Checked<R>(rules: Rules<R>, committed: map<int, R>, txn: Txn<R>): Txn<R>
    requires txn.attempt.Some?
  {
    var a := txn.attempt.value;
    if Admits(rules, View(committed, txn.writes), a.id, a.row) then
      txn.(writes := txn.writes[a.id := Put(a.row)], attempt := None)
    else txn.(attempt := None)
  }

  function Next<R>(rules: Rules<R>, s: Store<R>, step: Step<R>): Store<R> {
    var t := step.t;
    match step
    case Begin(_) =>
      if t in s.live then s else s.(live := s.live[t := Txn(map[], {}, None)])
    case Lock(_, id, row) =>
      if t in s.live && s.live[t].attempt.None? && RowFree(s, t, id) && ParentFree(s, t, rules.parent(row)) then
        var txn := s.live[t];
        s.(live := s.live[t := txn.(locks := txn.locks + {rules.parent(row)}, attempt := Some(Attempt(id, row)))])
      else s
    case Check(_) =>
      if t in s.live && s.live[t].attempt.Some? then s.(live := s.live[t := Checked(rules, s.committed, s.live[t])]) else s
    case Delete(_, id) =>
      if t in s.live && s.live[t].attempt.None? && !rules.insertOnly && RowFree(s, t, id) then
        var txn := s.live[t];
        s.(live := s.live[t := txn.(writes := txn.writes[id := Remove])])
      else s
    case Commit(_) =>
      if t in s.live && s.live[t].attempt.None? then Store(View(s.committed, s.live[t].writes), s.live - {t}) else s
    case Abort(_) => s.(live := s.live - {t})
  }

  function Run<R>(rules: Rules<R>, s: Store<R>, steps: seq<Step<R>>): Store<R>
    decreases |steps|
  {
    if steps == [] then s else Run(rules, Next(rules, s, steps[0]), steps[1..])
  }

  /** The table as the server holds it: each method is one atomic step of one transaction. */
  class Table<R(!new)> {
    const rules: Rules<R>
    var committed: map<int, R>
    var live: map<int, Txn<R>>

    constructor (rules: Rules<R>, rows: map<int, R>)
      ensures this.rules == rules && Snapshot() == Store(rows, map[])
    {
      this.rules := rules;
      committed := rows;
      live := map[];
    }

    function Snapshot(): Store<R>
      reads this
    {
      Store(committed, live)
    }

    method BeginTransaction(t: int)
      modifies this
      ensures Snapshot() == Next(rules, old(Snapshot()), Begin(t))
    {
      if t !in live {
        live := live[t := Txn(map[], {}, None)];
      }
    }

    /** Takes the row lock and the parent's FOR UPDATE lock; false means that the caller has to wait. */
    method LockForWrite(t: int, id: int, row: R) returns (granted: bool)
      requires t in live && live[t].attempt.None?
      modifies this
      ensures Snapshot() == Next(rules, old(Snapshot()), Lock(t, id, row))
      ensures granted <==> RowFree(old(Snapshot()), t, id) && ParentFree(old(Snapshot()), t, rules.parent(row))
    {
      granted := RowFree(Snapshot(), t, id) && ParentFree(Snapshot(), t, rules.parent(row));
      if granted {
        live := live[t := live[t].(locks := live[t].locks + {rules.parent(row)}, attempt := Some(Attempt(id, row)))];
      }
    }

    /** Runs the trigger and, if it does not raise, writes the row. */
    method GuardAndWrite(t: int) returns (raised: bool)
      requires t in live && live[t].attempt.Some?
      modifies this
      ensures Snapshot() == Next(rules, old(Snapshot()), Check(t))
      ensures var txn := old(live)[t];
              raised <==> !Admits(rules, View(old(committed), txn.writes), txn.attempt.value.id, txn.attempt.value.row)
    {
      var txn := live[t];
      raised := !Admits(rules, View(committed, txn.writes), txn.attempt.value.id, txn.attempt.value.row);
      if raised {
        live := live[t := txn.(attempt := None)];
      } else {
        live := live[t := txn.(writes := txn.writes[txn.attempt.value.id := Put(txn.attempt.value.row)], attempt := None)];
      }
    }

    /** Deletes a row no other transaction has written; an insert-only table raises. */
    method DeleteRow(t: int, id: int) returns (done: bool)
      requires t in live && live[t].attempt.None?
      modifies this
      ensures Snapshot() == Next(rules, old(Snapshot()), Delete(t, id))
      ensures done <==> !rules.insertOnly && RowFree(old(Snapshot()), t, id)
    {
      done := !rules.insertOnly && RowFree(Snapshot(), t, id);
      if done {
        live := live[t := live[t].(writes := live[t].writes[id := Remove])];
      }
    }

    method AbortTransaction(t: int)
      modifies this
      ensures Snapshot() == Next(rules, old(Snapshot()), Abort(t))
    {
      live := live - {t};
    }

    method CommitTransaction(t: int)
      requires t in live && live[t].attempt.None?
      modifies this
      ensures Snapshot() == Next(rules, old(Snapshot()), Commit(t))
    {
      committed := View(committed, live[t].writes);
      live := live - {t};
    }
  }

  // ----- the invariant -----

  /** Conflicts are symmetric and only arise under one parent. */
  ghost predicate LocksCoverConflicts<R(!new)>(rules: Rules<R>) {
    forall a, b :: rules.conflict(a, b) ==> rules.conflict(b, a) && rules.parent(a) == rules.parent(b)
  }

  ghost predicate Clean<R>(rules: Rules<R>, rows: map<int, R>) {
    && (forall i :: i in rows ==> rules.allowed(rows[i]))
    && (forall i, j :: i in rows && j in rows && i != j ==> !rules.conflict(rows[i], rows[j]))
  }

  ghost predicate Covered<R>(rules: Rules<R>, txn: Txn<R>) {
    && (forall id :: id in txn.writes && txn.writes[id].Put? ==> rules.parent(txn.writes[id].row) in txn.locks)
    && (txn.attempt.Some? ==> rules.parent(txn.attempt.value.row) in txn.locks)
  }

  ghost predicate Apart<R>(a: Txn<R>, b: Txn<R>) {
    a.locks !! b.locks && Reserved(a) !! Reserved(b)
  }

  ghost predicate Inv<R>(rules: Rules<R>, s: Store<R>) {
    && Clean(rules, s.committed)
    && (forall t :: t in s.live ==> Covered(rules, s.live[t]) && Clean(rules, View(s.committed, s.live[t].writes)))
    && (forall t, u :: t in s.live && u in s.live && t != u ==> Apart(s.live[t], s.live[u]))
  }

  /** Replacing one transaction by one that reserves no contested row or parent keeps the invariant. */
  lemma {:induction false} TxnStep<R(!new)>(rules: Rules<R>, s: Store<R>, t: int, txn: Txn<R>)
    requires Inv(rules, s)
    requires Covered(rules, txn) && Clean(rules, View(s.committed, txn.writes))
    requires forall u :: u in s.live && u != t ==> Apart(txn, s.live[u])
    ensures Inv(rules, s.(live := s.live[t := txn]))
  {
    var live := s.live[t := txn];
    forall a, b | a in live && b in live && a != b ensures Apart(live[a], live[b]) {
      if a == t { assert Apart(txn, s.live[b]); }
      if b == t { assert Apart(txn, s.live[a]); }
    }
  }

  lemma {:induction false} WriteKeepsClean<R(!new)>(rules: Rules<R>, committed: map<int, R>, writes: map<int, Write<R>>, id: int, row: R)
    requires LocksCoverConflicts(rules) && Clean(rules, View(committed, writes))
    requires Admits(rules, View(committed, writes), id, row)
    ensures Clean(rules, View(committed, writes[id := Put(row)]))
  {
    var before, after := View(committed, writes), View(committed, writes[id := Put(row)]);
    assert after == before[id := row];
  }

  lemma {:induction false} DeleteKeepsClean<R>(rules: Rules<R>, committed: map<int, R>, writes: map<int, Write<R>>, id: int)
    requires Clean(rules, View(committed, writes))
    ensures Clean(rules, View(committed, writes[id := Remove]))
  {
    var before, after := View(committed, writes), View(committed, writes[id := Remove]);
    assert forall i :: i in after ==> i in before && after[i] == before[i];
  }

  /** After another transaction commits, what this one sees is still clean. */
  lemma {:induction false} OthersStayClean<R(!new)>(rules: Rules<R>, committed: map<int, R>, a: Txn<R>, b: Txn<R>)
    requires LocksCoverConflicts(rules) && Covered(rules, a) && Covered(rules, b) && Apart(a, b)
    requires Clean(rules, View(committed, a.writes)) && Clean(rules, View(committed, b.writes))
    ensures Clean(rules, View(View(committed, a.writes), b.writes))
  {
    var seenA, seenB := View(committed, a.writes), View(committed, b.writes);
    var both := View(seenA, b.writes);
    forall i | i in both ensures (i in a.writes ==> i !in b.writes) && (i !in b.writes ==> i in seenA && both[i] == seenA[i]) && (i !in a.writes ==> i in seenB && both[i] == seenB[i]) {
    }
    forall i, j | i in both && j in both && i != j ensures !rules.conflict(both[i], both[j]) {
      if i in a.writes && j in b.writes {
        assert rules.parent(both[i]) in a.locks && rules.parent(both[j]) in b.locks;
      } else if i in b.writes && j in a.writes {
        assert rules.parent(both[i]) in b.locks && rules.parent(both[j]) in a.locks;
      }
    }
  }

  lemma {:induction false} CommitKeepsInv<R(!new)>(rules: Rules<R>, s: Store<R>, t: int)
    requires LocksCoverConflicts(rules) && Inv(rules, s) && t in s.live
    ensures Inv(rules, Store(View(s.committed, s.live[t].writes), s.live - {t}))
  {
    forall u | u in s.live - {t} ensures Clean(rules, View(View(s.committed, s.live[t].writes), s.live[u].writes)) {
      OthersStayClean(rules, s.committed, s.live[t], s.live[u]);
    }
  }

  lemma {:induction false} StepKeepsInv<R(!new)>(rules: Rules<R>, s: Store<R>, step: Step<R>)
    requires LocksCoverConflicts(rules) && Inv(rules, s)
    ensures Inv(rules, Next(rules, s, step))
  {
    var t := step.t;
    match step
    case Begin(_) =>
      assert View(s.committed, map[]) == s.committed;
      TxnStep(rules, s, t, if t in s.live then s.live[t] else Txn(map[], {}, None));
    case Lock(_, id, row) =>
      if t in s.live && RowFree(s, t, id) && ParentFree(s, t, rules.parent(row)) {
        var txn := s.live[t];
        TxnStep(rules, s, t, txn.(locks := txn.locks + {rules.parent(row)}, attempt := Some(Attempt(id, row))));
      }
    case Check(_) =>
      if t in s.live && s.live[t].attempt.Some? {
        var a := s.live[t].attempt.value;
        if Admits(rules, View(s.committed, s.live[t].writes), a.id, a.row) {
          WriteKeepsClean(rules, s.committed, s.live[t].writes, a.id, a.row);
        }
        TxnStep(rules, s, t, Checked(rules, s.committed, s.live[t]));
      }
    case Delete(_, id) =>
      if t in s.live && s.live[t].attempt.None? && !rules.insertOnly && RowFree(s, t, id) {
        var txn := s.live[t];
        DeleteKeepsClean(rules, s.committed, txn.writes, id);
        TxnStep(rules, s, t, txn.(writes := txn.writes[id := Remove]));
      }
    case Commit(_) =>
      if t in s.live {
        CommitKeepsInv(rules, s, t);
      }
    case Abort(_) =>
  }

  /** In every interleaving, from any clean table, the committed rows stay pairwise free of conflict. */
  lemma {:induction false} EveryRunStaysClean<R(!new)>(rules: Rules<R>, s: Store<R>, steps: seq<Step<R>>)
    requires LocksCoverConflicts(rules) && Inv(rules, s)
    ensures Inv(rules, Run(rules, s, steps))
    decreases |steps|
  {
    if steps != [] {
      StepKeepsInv(rules, s, steps[0]);
      EveryRunStaysClean(rules, Next(rules, s, steps[0]), steps[1..]);
    }
  }

  // ----- immutability -----

  /** In an insert-only table a live transaction only adds rows. */
  ghost predicate OnlyInserts<R>(s: Store<R>) {
    forall t, id :: t in s.live && id in s.live[t].writes ==> s.live[t].writes[id].Put? && id !in s.committed
  }

  ghost predicate Extends<R>(before: map<int, R>, after: map<int, R>) {
    forall id :: id in before ==> id in after && after[id] == before[id]
  }

  lemma {:induction false} StepOnlyInserts<R(!new)>(rules: Rules<R>, s: Store<R>, step: Step<R>)
    requires rules.insertOnly && OnlyInserts(s) && Inv(rules, s)
    ensures OnlyInserts(Next(rules, s, step)) && Extends(s.committed, Next(rules, s, step).committed)
  {
    if step.Commit? && step.t in s.live {
      forall u, id | u in s.live && u != step.t && id in s.live[u].writes
        ensures id !in View(s.committed, s.live[step.t].writes)
      {
        assert Apart(s.live[step.t], s.live[u]);
      }
    } else if step.Check? && step.t in s.live && s.live[step.t].attempt.Some? {
      InsertsAreNew(rules, s.committed, s.live[step.t]);
    }
  }

  lemma {:induction false} InsertsAreNew<R(!new)>(rules: Rules<R>, committed: map<int, R>, txn: Txn<R>)
    requires rules.insertOnly && txn.attempt.Some?
    requires forall id :: id in txn.writes ==> txn.writes[id].Put? && id !in committed
    ensures var after := Checked(rules, committed, txn).writes;
            forall id :: id in after ==> after[id].Put? && id !in committed
  {
    var a := txn.attempt.value;
    assert a.id in committed ==> a.id in View(committed, txn.writes);
  }

  /** Once updates and deletes are refused, a committed row is there for good. */
  lemma {:induction false} CommittedRowsAreForever<R(!new)>(rules: Rules<R>, s: Store<R>, steps: seq<Step<R>>)
    requires rules.insertOnly && OnlyInserts(s) && LocksCoverConflicts(rules) && Inv(rules, s)
    ensures Extends(s.committed, Run(rules, s, steps).committed)
    decreases |steps|
  {
    if steps != [] {
      var next := Next(rules, s, steps[0]);
      StepOnlyInserts(rules, s, steps[0]);
      StepKeepsInv(rules, s, steps[0]);
      CommittedRowsAreForever(rules, next, steps[1..]);
    }
  }

  // ----- why the parent lock is needed -----

  /** Two transactions that lock, check and commit side by side. */
  function Race<R>(a: R, b: R): seq<Step<R>> {
    [Begin(1), Begin(2), Lock(1, 1, a), Lock(2, 2, b), Check(1), Check(2), Commit(1), Commit(2)]
  }

  function Idle<R>(): Txn<R> {
    Txn(map[], {}, None)
  }

  lemma {:induction false} RaceLocks<R>(rules: Rules<R>, a: R, b: R)
    requires rules.parent(a) != rules.parent(b)
    ensures var after := Next(rules, Next(rules, Store(map[], map[1 := Idle(), 2 := Idle()]), Lock(1, 1, a)), Lock(2, 2, b));
            && after.committed == map[] && after.live.Keys == {1, 2}
            && after.live[1].writes == map[] && after.live[1].attempt == Some(Attempt(1, a))
            && after.live[2].writes == map[] && after.live[2].attempt == Some(Attempt(2, b))
  {
    var s := Store(map[], map[1 := Idle(), 2 := Idle()]);
    var s' := Next(rules, s, Lock(1, 1, a));
    assert s'.live[1] == Txn(map[], {rules.parent(a)}, Some(Attempt(1, a))) && s'.live[2] == Idle();
    assert RowFree(s', 2, 2) && ParentFree(s', 2, rules.parent(b));
  }

  lemma {:induction false} RaceChecks<R>(rules: Rules<R>, a: R, b: R, s: Store<R>)
    requires rules.allowed(a) && rules.allowed(b) && s.committed == map[] && s.live.Keys == {1, 2}
    requires s.live[1].writes == map[] && s.live[1].attempt == Some(Attempt(1, a))
    requires s.live[2].writes == map[] && s.live[2].attempt == Some(Attempt(2, b))
    ensures var after := Next(rules, Next(rules, s, Check(1)), Check(2));
            && after.committed == map[] && after.live.Keys == {1, 2}
            && after.live[1].writes == map[1 := Put(a)] && after.live[1].attempt.None?
            && after.live[2].writes == map[2 := Put(b)] && after.live[2].attempt.None?
  {
    var none: map<int, R> := map[];
    assert View(none, map[]) == none;
    assert Checked(rules, none, s.live[1]).writes == map[1 := Put(a)];
    assert Checked(rules, none, s.live[2]).writes == map[2 := Put(b)];
  }

  lemma {:induction false} RaceCommits<R>(rules: Rules<R>, a: R, b: R, s: Store<R>)
    requires s.committed == map[] && s.live.Keys == {1, 2}
    requires s.live[1].writes == map[1 := Put(a)] && s.live[1].attempt.None?
    requires s.live[2].writes == map[2 := Put(b)] && s.live[2].attempt.None?
    ensures Next(rules, Next(rules, s, Commit(1)), Commit(2)).committed == map[1 := a, 2 := b]
  {
    var none: map<int, R> := map[];
    assert View(none, s.live[1].writes) == map[1 := a];
    assert View(map[1 := a], s.live[2].writes) == map[1 := a, 2 := b];
  }

  lemma {:induction false} RaceBegins<R>(rules: Rules<R>)
    ensures Next(rules, Next(rules, Store(map[], map[]), Begin(1)), Begin(2)) == Store(map[], map[1 := Idle(), 2 := Idle()])
  {
  }

  lemma {:induction false} RunDone<R>(rules: Rules<R>, s: Store<R>)
    ensures Run(rules, s, []) == s
  {
  }

  lemma {:induction false} RunStep<R>(rules: Rules<R>, s: Store<R>, steps: seq<Step<R>>, i: nat)
    requires i < |steps|
    ensures Run(rules, s, steps[i..]) == Run(rules, Next(rules, s, steps[i]), steps[i + 1..])
  {
    assert steps[i..][1..] == steps[i + 1..];
  }

  /** If two admissible rows share no parent, nothing keeps both from committing, whether they conflict or not. */
  lemma {:induction false} RaceCommitsBoth<R>(rules: Rules<R>, a: R, b: R)
    requires rules.allowed(a) && rules.allowed(b) && rules.parent(a) != rules.parent(b)
    ensures Run(rules, Store(map[], map[]), Race(a, b)).committed == map[1 := a, 2 := b]
  {
    hide Next, Run;
    var s0: Store<R>, steps := Store(map[], map[]), Race(a, b);
    var s2 := Next(rules, Next(rules, s0, Begin(1)), Begin(2));
    RaceBegins(rules);
    var s4 := Next(rules, Next(rules, s2, Lock(1, 1, a)), Lock(2, 2, b));
    RaceLocks(rules, a, b);
    var s6 := Next(rules, Next(rules, s4, Check(1)), Check(2));
    RaceChecks(rules, a, b, s4);
    RaceCommits(rules, a, b, s6);
    assert steps[0..] == steps && steps[8..] == [];
    RunStep(rules, s0, steps, 0);
    RunStep(rules, Next(rules, s0, steps[0]), steps, 1);
    RunStep(rules, s2, steps, 2);
    RunStep(rules, Next(rules, s2, steps[2]), steps, 3);
    RunStep(rules, s4, steps, 4);
    RunStep(rules, Next(rules, s4, steps[4]), steps, 5);
    RunStep(rules, s6, steps, 6);
    RunStep(rules, Next(rules, s6, steps[6]), steps, 7);
    RunDone(rules, Next(rules, Next(rules, s6, steps[6]), steps[7]));
  }
}
