/**
 Replay protection of device requests: the timestamp window, the unique nonce row and its cleanup
 (backend/app/security/protocol.py, backend/app/security/device_auth.py, worker/app/jobs.py). Instants are microseconds.
 */
module NonceStore {

  const SECOND := 1_000_000

  /** Window and retention in seconds, and the digest under which nonces are stored. */
  datatype Policy = Policy(window: nat, retention: nat, digest: int -> int)

  /** A signed request: its clock check happens at one instant, its nonce insertion at that instant or later. */
  datatype Request = Request(device: int, nonce: int, timestamp: int, checked: int, inserted: int, commits: bool)

  datatype Event = Arrive(request: Request) | Cleanup(at: int)

  datatype Key = Key(device: int, digest: int)

  /** The stored nonces with the instant each was seen. */
  type Rows = map<Key, int>

  function KeyOf(p: Policy, r: Request): Key {
    Key(r.device, p.digest(r.nonce))
  }

  predicate InWindow(p: Policy, r: Request) {
    var difference := r.checked / SECOND - r.timestamp;
    difference <= p.window && difference >= 0 - p.window
  }

  predicate Accepts(p: Policy, rows: Rows, r: Request) {
    InWindow(p, r) && KeyOf(p, r) !in rows
  }

  function Kept(p: Policy, rows: Rows, at: int): Rows {
    map k | k in rows && rows[k] >= at - p.retention * SECOND :: rows[k]
  }

  function Next(p: Policy, rows: Rows, e: Event): Rows {
    match e
    case Arrive(r) => if Accepts(p, rows, r) && r.commits then rows[KeyOf(p, r) := r.inserted] else rows
    case Cleanup(at) => Kept(p, rows, at)
  }

  class DeviceNonces {
    const policy: Policy
    var rows: Rows

    constructor (policy: Policy)
      ensures this.policy == policy && rows == map[]
    {
      this.policy := policy;
      rows := map[];
    }

    /** Authentication of a correctly signed request; commits says whether its transaction later commits. */
    method Authenticate(r: Request) returns (accepted: bool)
      modifies this
      ensures accepted <==> Accepts(policy, old(rows), r)
      ensures rows == Next(policy, old(rows), Arrive(r))
    {
      var difference := r.checked / SECOND - r.timestamp;
      if difference > policy.window || -difference > policy.window {
        return false;
      }
      if KeyOf(policy, r) in rows {
        return false;
      }
      if r.commits {
        rows := rows[KeyOf(policy, r) := r.inserted];
      }
      accepted := true;
    }

    method CleanupNonces(now: int) returns (removed: nat)
      modifies this
      ensures rows == Next(policy, old(rows), Cleanup(now))
      ensures removed == |old(rows)| - |rows|
    {
      var cutoff := now - policy.retention * SECOND;
      var before := rows;
      rows := map k | k in rows && rows[k] >= cutoff :: rows[k];
      SmallerMap(before, rows);
      removed := |before| - |rows|;
    }
  }

  lemma {:induction false} SmallerMap(a: Rows, b: Rows)
    requires forall k :: k in b ==> k in a
    ensures |b| <= |a|
  {
    var rest := a.Keys - b.Keys;
    assert a.Keys == b.Keys + rest;
    assert |a.Keys| == |b.Keys| + |rest|;
  }

  // ----- runs -----

  function RowsAfter(p: Policy, events: seq<Event>): Rows {
    if events == [] then map[] else Next(p, RowsAfter(p, events[..|events| - 1]), events[|events| - 1])
  }

  function InstantOf(e: Event): int {
    match e
    case Arrive(r) => r.inserted
    case Cleanup(at) => at
  }

  /** A run on a clock that never goes back, in which no insertion comes later than lag after the second it was checked in. */
  ghost predicate IsRun(events: seq<Event>, lag: nat) {
    && (forall i, j :: 0 <= i < j < |events| ==> InstantOf(events[i]) <= InstantOf(events[j]))
    && (forall i :: 0 <= i < |events| && events[i].Arrive? ==>
          var r := events[i].request; r.checked <= r.inserted <= r.checked / SECOND * SECOND + lag)
  }

  ghost predicate AcceptedAt(p: Policy, events: seq<Event>, i: int) {
    0 <= i < |events| && events[i].Arrive? && Accepts(p, RowsAfter(p, events[..i]), events[i].request)
  }

  predicate SameMessage(a: Request, b: Request) {
    a.device == b.device && a.nonce == b.nonce && a.timestamp == b.timestamp
  }

  /** No message whose acceptance was committed is accepted again. */
  ghost predicate AtMostOnce(p: Policy, events: seq<Event>) {
    forall i, j :: 0 <= i < j && AcceptedAt(p, events, i) && AcceptedAt(p, events, j) && events[i].request.commits
      ==> !SameMessage(events[i].request, events[j].request)
  }

  lemma {:induction false} RowsStep(p: Policy, events: seq<Event>, m: nat)
    requires m < |events|
    ensures RowsAfter(p, events[..m + 1]) == Next(p, RowsAfter(p, events[..m]), events[m])
  {
    assert events[..m + 1][..m] == events[..m];
  }

  /** A committed nonce is still stored at any event no later than the retention after it was seen. */
  lemma {:induction false} NonceIsKept(p: Policy, events: seq<Event>, lag: nat, i: nat, m: nat)
    requires IsRun(events, lag) && AcceptedAt(p, events, i) && events[i].request.commits
    requires i < m <= |events|
    requires forall c :: i < c < m ==> InstantOf(events[c]) <= events[i].request.inserted + p.retention * SECOND
    ensures var k, rows := KeyOf(p, events[i].request), RowsAfter(p, events[..m]);
            k in rows && rows[k] == events[i].request.inserted
    decreases m
  {
    RowsStep(p, events, m - 1);
    if m > i + 1 {
      NonceIsKept(p, events, lag, i, m - 1);
    }
  }

  lemma {:induction false} WindowSpan(p: Policy, a: Request, b: Request, lag: nat)
    requires InWindow(p, a) && InWindow(p, b) && a.timestamp == b.timestamp
    requires a.checked <= a.inserted && b.inserted <= b.checked / SECOND * SECOND + lag
    ensures b.inserted <= a.inserted + 2 * p.window * SECOND + lag
  {
  }

  /** With enough retention no run accepts a committed message twice. */
  lemma {:induction false} RetentionSuffices(p: Policy, events: seq<Event>, lag: nat)
    requires IsRun(events, lag) && 2 * p.window * SECOND + lag <= p.retention * SECOND
    ensures AtMostOnce(p, events)
  {
    forall i, j | 0 <= i < j && AcceptedAt(p, events, i) && AcceptedAt(p, events, j) && events[i].request.commits
      ensures !SameMessage(events[i].request, events[j].request)
    {
      var a, b := events[i].request, events[j].request;
      if SameMessage(a, b) {
        WindowSpan(p, a, b, lag);
        forall c | i < c < j ensures InstantOf(events[c]) <= a.inserted + p.retention * SECOND {
          assert InstantOf(events[c]) <= InstantOf(events[j]);
        }
        NonceIsKept(p, events, lag, i, j);
      }
    }
  }

  /** The worst case: accepted at the early edge of the window, cleaned up, and presented again at its late edge. */
  function Replay(p: Policy, lag: nat): seq<Event> {
    var span := 2 * p.window * SECOND;
    [Arrive(Request(1, 1, p.window, 0, 0, true)), Cleanup(span + lag), Arrive(Request(1, 1, p.window, span, span + lag, true))]
  }

  lemma {:induction false} ReplaySucceeds(p: Policy, lag: nat)
    requires 2 * p.window * SECOND + lag > p.retention * SECOND
    ensures IsRun(Replay(p, lag), lag) && !AtMostOnce(p, Replay(p, lag))
  {
    var events := Replay(p, lag);
    var first, second := events[0].request, events[2].request;
    var span := 2 * p.window * SECOND;
    assert span / SECOND == 2 * p.window;
    assert events[..0] == [] && events[..3] == events;
    RowsStep(p, events, 0);
    RowsStep(p, events, 1);
    assert RowsAfter(p, events[..1]) == map[KeyOf(p, first) := 0];
    assert RowsAfter(p, events[..2]) == map[];
    assert AcceptedAt(p, events, 0) && AcceptedAt(p, events, 2);
    assert SameMessage(first, second);
  }

  /** The exact bound: acceptance is at most once in every run with this lag if and only if retention covers both windows and the lag. */
  lemma {:induction false} AtMostOnceExactly(p: Policy, lag: nat)
    ensures (forall events :: IsRun(events, lag) ==> AtMostOnce(p, events))
       <==> 2 * p.window * SECOND + lag <= p.retention * SECOND
  {
    if 2 * p.window * SECOND + lag <= p.retention * SECOND {
      forall events | IsRun(events, lag) ensures AtMostOnce(p, events) {
        RetentionSuffices(p, events, lag);
      }
    } else {
      ReplaySucceeds(p, lag);
    }
  }

  /** The deployed values: a 300 second window and 10 minutes of retention. */
  function Deployed(digest: int -> int): Policy {
    Policy(300, 600, digest)
  }

  /** So the server is safe exactly on a whole-second clock; any lag within the second admits a replay. */
  lemma {:induction false} SafeExactlyOnWholeSeconds(digest: int -> int, lag: nat)
    ensures (forall events :: IsRun(events, lag) ==> AtMostOnce(Deployed(digest), events)) <==> lag == 0
  {
    AtMostOnceExactly(Deployed(digest), lag);
  }
}
