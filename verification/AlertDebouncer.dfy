/** The alert debouncer of one scope (worker/app/jobs.py, _apply_alert_observation). */
module AlertDebouncer {
  import opened Outcomes

  datatype Observation = Observation(active: bool, key: Option<int>, debounce: int, minimum: int)

  datatype Condition = Condition(active: bool, firstSeen: Option<int>, count: int, lastKey: Option<int>)

  datatype AlertState = Open | Acknowledged | Resolved

  datatype EventCode = OpenedEvent | ResolvedEvent | AcknowledgedEvent

  /** Everything stored for one scope. */
  datatype Scope = Scope(condition: Option<Condition>, alerts: seq<AlertState>, events: seq<EventCode>)

  /** What can happen to a scope: an observation at a time, inside a maintenance window or not, or an operator's acknowledgement. */
  datatype Step = Observe(o: Observation, now: int, window: bool) | Acknowledge(alert: nat)

  const FRESH := Scope(None, [], [])

  /** The unresolved alert, if any. */
  function FindUnresolved(alerts: seq<AlertState>): (r: Option<nat>)
    ensures r.Some? ==> r.value < |alerts| && alerts[r.value] != Resolved
    ensures r.None? ==> forall i :: 0 <= i < |alerts| ==> alerts[i] == Resolved
  {
    if alerts == [] then None
    else if alerts[0] != Resolved then Some(0)
    else
      var rest := FindUnresolved(alerts[1..]);
      if rest.None? then
        assert forall i :: 0 < i < |alerts| ==> alerts[i] == alerts[1..][i - 1];
        None
      else Some(rest.value + 1)
  }

  function Cleared(condition: Option<Condition>): Option<Condition> {
    if condition.None? then None else Some(Condition(false, None, 0, None))
  }

  /** The condition after one more active observation. */
  function Noted(condition: Option<Condition>, o: Observation, now: int): Condition {
    if condition.None? then Condition(true, Some(now), 1, o.key)
    else
      var c := if condition.value.active then condition.value else Condition(true, Some(now), 0, None);
      if o.key.None? || o.key != c.lastKey then Condition(true, c.firstSeen, c.count + 1, o.key) else c
  }

  predicate Ready(c: Condition, o: Observation, now: int) {
    var first := if c.firstSeen.Some? then c.firstSeen.value else now;
    now - first >= o.debounce && c.count >= o.minimum
  }

  /** The scope after a step, and whether the step opened or resolved an alert. */
  function Next(s: Scope, step: Step): (Scope, nat) {
    var existing := FindUnresolved(s.alerts);
    match step
    case Acknowledge(i) =>
      if i < |s.alerts| && s.alerts[i] != Resolved then
        (s.(alerts := s.alerts[i := Acknowledged], events := s.events + [AcknowledgedEvent]), 0)
      else (s, 0)
    case Observe(o, now, window) =>
      if !o.active then
        if existing.None? then (s.(condition := Cleared(s.condition)), 0)
        else (Scope(Cleared(s.condition), s.alerts[existing.value := Resolved], s.events + [ResolvedEvent]), 1)
      else
        var c := Noted(s.condition, o, now);
        if Ready(c, o, now) && !window && existing.None? then
          (Scope(Some(c), s.alerts + [Open], s.events + [OpenedEvent]), 1)
        else (s.(condition := Some(c)), 0)
  }

  class AlertScope {
    var condition: Option<Condition>
    var alerts: seq<AlertState>
    var events: seq<EventCode>

    constructor ()
      ensures Snapshot() == FRESH
    {
      condition, alerts, events := None, [], [];
    }

    function Snapshot(): Scope
      reads this
    {
      Scope(condition, alerts, events)
    }

    method Apply(o: Observation, now: int, window: bool) returns (changed: nat)
      modifies this
      ensures (Snapshot(), changed) == Next(old(Snapshot()), Observe(o, now, window))
    {
      var existing := FindUnresolved(alerts);
      if !o.active {
        if condition.Some? {
          condition := Some(Condition(false, None, 0, None));
        }
        if existing.None? {
          return 0;
        }
        alerts := alerts[existing.value := Resolved];
        events := events + [ResolvedEvent];
        return 1;
      }
      if condition.None? {
        condition := Some(Condition(true, Some(now), 1, o.key));
      } else {
        var c := condition.value;
        if !c.active {
          c := Condition(true, Some(now), 0, None);
        }
        if o.key.None? || o.key != c.lastKey {
          c := c.(count := c.count + 1, lastKey := o.key);
        }
        condition := Some(c);
      }
      var first := if condition.value.firstSeen.Some? then condition.value.firstSeen.value else now;
      var ready := now - first >= o.debounce && condition.value.count >= o.minimum;
      if !ready {
        return 0;
      }
      if window {
        return 0;
      }
      if existing.Some? {
        return 0;
      }
      alerts := alerts + [Open];
      events := events + [OpenedEvent];
      changed := 1;
    }

    method AcknowledgeAlert(i: nat) returns (accepted: bool)
      modifies this
      ensures Snapshot() == Next(old(Snapshot()), Acknowledge(i)).0
      ensures accepted <==> i < |old(alerts)| && old(alerts)[i] != Resolved
    {
      if i >= |alerts| || alerts[i] == Resolved {
        return false;
      }
      alerts := alerts[i := Acknowledged];
      events := events + [AcknowledgedEvent];
      accepted := true;
    }
  }

  // ----- histories -----

  function Last<T>(s: seq<T>): T
    requires s != []
  {
    s[|s| - 1]
  }

  function Init<T>(s: seq<T>): seq<T>
    requires s != []
  {
    s[..|s| - 1]
  }

  /** The scope after a whole history, and the sum of what the steps returned. */
  function Run(history: seq<Step>): (Scope, nat) {
    if history == [] then (FRESH, 0)
    else
      var before := Run(Init(history));
      var after := Next(before.0, Last(history));
      (after.0, before.1 + after.1)
  }

  datatype Sighting = Sighting(o: Observation, now: int, window: bool)

  /** The active observations since the last inactive one. */
  function Streak(history: seq<Step>): seq<Sighting> {
    if history == [] then []
    else
      match Last(history)
      case Acknowledge(_) => Streak(Init(history))
      case Observe(o, now, window) => if o.active then Streak(Init(history)) + [Sighting(o, now, window)] else []
  }

  /** The observations of a streak that count: the first, and each one with no key or a key other than its predecessor's. */
  ghost function Counted(streak: seq<Sighting>): set<int> {
    set i | 0 <= i < |streak| && Counts(streak, i)
  }

  predicate Counts(streak: seq<Sighting>, i: int)
    requires 0 <= i < |streak|
  {
    i == 0 || streak[i].o.key.None? || streak[i].o.key != streak[i - 1].o.key
  }

  /** The j-th observation of the streak met its debounce age and count outside maintenance. */
  ghost predicate Qualifies(streak: seq<Sighting>, j: int) {
    && 0 <= j < |streak|
    && streak[j].now - streak[0].now >= streak[j].o.debounce
    && |Counted(streak[..j + 1])| >= streak[j].o.minimum
    && !streak[j].window
  }

  ghost predicate SomeQualifies(streak: seq<Sighting>) {
    exists j :: Qualifies(streak, j)
  }

  function Unresolved(alerts: seq<AlertState>): nat {
    if alerts == [] then 0 else Unresolved(Init(alerts)) + (if Last(alerts) != Resolved then 1 else 0)
  }

  function Tally(events: seq<EventCode>, code: EventCode): nat {
    if events == [] then 0 else Tally(Init(events), code) + (if Last(events) == code then 1 else 0)
  }

  // ----- the invariant behind the theorem -----

  ghost predicate ConditionMatches(condition: Option<Condition>, streak: seq<Sighting>) {
    if streak == [] then condition.None? || condition == Some(Condition(false, None, 0, None))
    else condition == Some(Condition(true, Some(streak[0].now), |Counted(streak)|, Last(streak).o.key))
  }

  /** Only the newest alert can be unresolved. */
  ghost predicate OnlyLastUnresolved(alerts: seq<AlertState>) {
    forall i :: 0 <= i < |alerts| - 1 ==> alerts[i] == Resolved
  }

  lemma {:induction false} CountedGrows(streak: seq<Sighting>, x: Sighting)
    ensures var novel := streak == [] || x.o.key.None? || x.o.key != Last(streak).o.key;
            |Counted(streak + [x])| == |Counted(streak)| + (if novel then 1 else 0)
  {
    var n, longer := |streak|, streak + [x];
    forall i | 0 <= i < n ensures Counts(longer, i) == Counts(streak, i) {
      assert longer[i] == streak[i] && (i > 0 ==> longer[i - 1] == streak[i - 1]);
    }
    assert longer[n] == x && (n > 0 ==> longer[n - 1] == Last(streak));
    assert Counts(longer, n) <==> streak == [] || x.o.key.None? || x.o.key != Last(streak).o.key;
    hide Counts, Last;
    if Counts(longer, n) {
      assert Counted(longer) == Counted(streak) + {n};
    } else {
      assert Counted(longer) == Counted(streak);
    }
  }

  lemma {:induction false} NotedMatches(condition: Option<Condition>, streak: seq<Sighting>, x: Sighting)
    requires ConditionMatches(condition, streak)
    ensures ConditionMatches(Some(Noted(condition, x.o, x.now)), streak + [x])
  {
    CountedGrows(streak, x);
    if streak == [] {
      assert Counted(streak) == {};
    }
  }

  lemma {:induction false} QualifiesGrows(streak: seq<Sighting>, x: Sighting, c: Condition)
    requires ConditionMatches(Some(c), streak + [x])
    ensures SomeQualifies(streak + [x]) <==> SomeQualifies(streak) || (Ready(c, x.o, x.now) && !x.window)
  {
    var n, longer := |streak|, streak + [x];
    assert longer[..n + 1] == longer;
    assert Qualifies(longer, n) <==> Ready(c, x.o, x.now) && !x.window;
    forall j | 0 <= j < n ensures Qualifies(longer, j) <==> Qualifies(streak, j) {
      assert longer[..j + 1] == streak[..j + 1];
    }
    if SomeQualifies(longer) {
      var j :| Qualifies(longer, j);
      assert j < n ==> Qualifies(streak, j);
    }
    if SomeQualifies(streak) {
      var j :| Qualifies(streak, j);
      assert Qualifies(longer, j);
    }
  }

  lemma {:induction false} FoundIsLast(alerts: seq<AlertState>)
    requires OnlyLastUnresolved(alerts)
    ensures FindUnresolved(alerts) == (if alerts != [] && Last(alerts) != Resolved then Some(|alerts| - 1) else None)
    ensures Unresolved(alerts) == (if FindUnresolved(alerts).Some? then 1 else 0)
  {
    if alerts != [] {
      AllResolved(Init(alerts));
    }
  }

  lemma {:induction false} AllResolved(alerts: seq<AlertState>)
    requires forall i :: 0 <= i < |alerts| ==> alerts[i] == Resolved
    ensures Unresolved(alerts) == 0
  {
    if alerts != [] {
      AllResolved(Init(alerts));
    }
  }

  lemma {:induction false} TallyGrows(events: seq<EventCode>, added: EventCode, code: EventCode)
    ensures Tally(events + [added], code) == Tally(events, code) + (if added == code then 1 else 0)
  {
    assert Init(events + [added]) == events;
  }

  lemma {:induction false} EventsTallied(events: seq<EventCode>, added: EventCode)
    ensures forall code :: Tally(events + [added], code) == Tally(events, code) + (if added == code then 1 else 0)
  {
    forall code ensures Tally(events + [added], code) == Tally(events, code) + (if added == code then 1 else 0) {
      TallyGrows(events, added, code);
    }
  }

  /** What holds after every history. */
  ghost predicate Faithful(s: Scope, total: nat, streak: seq<Sighting>) {
    && ConditionMatches(s.condition, streak)
    && OnlyLastUnresolved(s.alerts)
    && (FindUnresolved(s.alerts).Some? <==> SomeQualifies(streak))
    && Tally(s.events, OpenedEvent) == |s.alerts|
    && Tally(s.events, ResolvedEvent) == |s.alerts| - Unresolved(s.alerts)
    && total == Tally(s.events, OpenedEvent) + Tally(s.events, ResolvedEvent)
  }

  lemma {:induction false} AcknowledgeKeeps(s: Scope, total: nat, streak: seq<Sighting>, i: nat)
    requires Faithful(s, total, streak)
    ensures Faithful(Next(s, Acknowledge(i)).0, total, streak)
  {
    var after := Next(s, Acknowledge(i)).0;
    FoundIsLast(s.alerts);
    FoundIsLast(after.alerts);
    EventsTallied(s.events, AcknowledgedEvent);
  }

  lemma {:induction false} InactiveResolves(s: Scope, total: nat, streak: seq<Sighting>, o: Observation, now: int, window: bool)
    requires Faithful(s, total, streak) && !o.active
    ensures var after := Next(s, Observe(o, now, window)); Faithful(after.0, total + after.1, [])
  {
    var after := Next(s, Observe(o, now, window)).0;
    FoundIsLast(s.alerts);
    FoundIsLast(after.alerts);
    EventsTallied(s.events, ResolvedEvent);
    assert !SomeQualifies([]);
  }

  lemma {:induction false} ActiveMayOpen(s: Scope, total: nat, streak: seq<Sighting>, x: Sighting)
    requires Faithful(s, total, streak) && x.o.active
    ensures var after := Next(s, Observe(x.o, x.now, x.window)); Faithful(after.0, total + after.1, streak + [x])
  {
    hide ConditionMatches, SomeQualifies, Noted, Ready, Tally;
    var after := Next(s, Observe(x.o, x.now, x.window)).0;
    NotedMatches(s.condition, streak, x);
    QualifiesGrows(streak, x, Noted(s.condition, x.o, x.now));
    FoundIsLast(s.alerts);
    FoundIsLast(after.alerts);
    EventsTallied(s.events, OpenedEvent);
  }

  lemma {:induction false} RunIsFaithful(history: seq<Step>)
    ensures Faithful(Run(history).0, Run(history).1, Streak(history))
  {
    if history == [] {
      assert !SomeQualifies([]);
    } else {
      var s, total, streak := Run(Init(history)).0, Run(Init(history)).1, Streak(Init(history));
      RunIsFaithful(Init(history));
      match Last(history)
      case Acknowledge(i) => AcknowledgeKeeps(s, total, streak, i);
      case Observe(o, now, window) =>
        if o.active {
          ActiveMayOpen(s, total, streak, Sighting(o, now, window));
        } else {
          InactiveResolves(s, total, streak, o, now, window);
        }
    }
  }

  /** The debouncer over any history: one unresolved alert exactly when the current streak qualified, none otherwise. */
  lemma {:induction false} UnresolvedExactlyWhenQualified(history: seq<Step>)
    ensures Unresolved(Run(history).0.alerts) == (if SomeQualifies(Streak(history)) then 1 else 0)
  {
    RunIsFaithful(history);
    FoundIsLast(Run(history).0.alerts);
  }

  /** The returned ones count exactly the opened and resolved events, and every alert was opened once and resolved at most once. */
  lemma {:induction false} ReturnsCountEvents(history: seq<Step>)
    ensures var (s, total) := Run(history);
            && total == Tally(s.events, OpenedEvent) + Tally(s.events, ResolvedEvent)
            && Tally(s.events, OpenedEvent) == |s.alerts|
            && Tally(s.events, OpenedEvent) - Tally(s.events, ResolvedEvent) == (if SomeQualifies(Streak(history)) then 1 else 0)
  {
    RunIsFaithful(history);
    FoundIsLast(Run(history).0.alerts);
  }
}
