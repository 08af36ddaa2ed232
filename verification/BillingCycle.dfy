/** Billing cycles on local civil dates (worker/app/jobs.py, backend/app/routes/dashboard.py). */
module BillingCycle {

  datatype Date = Date(year: int, month: int, day: int)

  predicate Leap(year: int) {
    year % 4 == 0 && (year % 100 != 0 || year % 400 == 0)
  }

  function DaysInMonth(year: int, month: int): int {
    if month == 2 then (if Leap(year) then 29 else 28)
    else if month in {4, 6, 9, 11} then 30 else 31
  }

  predicate Valid(d: Date) {
    1 <= d.month <= 12 && 1 <= d.day <= DaysInMonth(d.year, d.month)
  }

  /** Days in the months of the year before the given one. */
  function DaysBeforeMonth(year: int, month: int): int
    decreases month
  {
    if month <= 1 then 0 else DaysBeforeMonth(year, month - 1) + DaysInMonth(year, month - 1)
  }

  function DaysBeforeYear(year: int): int {
    var y := year - 1;
    365 * y + y / 4 - y / 100 + y / 400
  }

  /** The proleptic Gregorian ordinal, on which date differences are taken. */
  function Ordinal(d: Date): int {
    DaysBeforeYear(d.year) + DaysBeforeMonth(d.year, d.month) + d.day
  }

  predicate BillingDay(day: int) {
    1 <= day <= 28
  }

  // ----- the worker's computation -----

  function CycleStart(d: Date, billingDay: int): Date {
    if d.day >= billingDay then Date(d.year, d.month, billingDay)
    else if d.month == 1 then Date(d.year - 1, 12, billingDay)
    else Date(d.year, d.month - 1, billingDay)
  }

  function CycleEnd(start: Date, billingDay: int): Date {
    if start.month == 12 then Date(start.year + 1, 1, billingDay) else Date(start.year, start.month + 1, billingDay)
  }

  function CycleDays(start: Date, billingDay: int): int {
    Ordinal(CycleEnd(start, billingDay)) - Ordinal(start)
  }

  method WorkerCycleStart(local: Date, billingDay: int) returns (start: Date)
    requires Valid(local) && BillingDay(billingDay)
    ensures start == CycleStart(local, billingDay)
    ensures Valid(start) && start.day == billingDay
  {
    var year := local.year;
    var month := local.month;
    if local.day < billingDay {
      month := month - 1;
      if month == 0 {
        month := 12;
        year := year - 1;
      }
    }
    start := Date(year, month, billingDay);
  }

  /** The dashboard computes the same start on its own. */
  method DashboardCycleStart(local: Date, billingDay: int) returns (start: Date)
    requires Valid(local) && BillingDay(billingDay)
    ensures start == CycleStart(local, billingDay)
    ensures Ordinal(start) <= Ordinal(local) < Ordinal(CycleEnd(start, billingDay))
  {
    var year, month := local.year, local.month;
    if local.day < billingDay {
      month := month - 1;
      if month == 0 {
        year := year - 1;
        month := 12;
      }
    }
    start := Date(year, month, billingDay);
    DateIsInItsCycle(local, billingDay);
  }

  // ----- the calendar -----

  lemma {:induction false} YearLength(year: int)
    ensures DaysBeforeYear(year + 1) - DaysBeforeYear(year) == (if Leap(year) then 366 else 365)
  {
    hide Leap;
    Quotient(year - 1, 4);
    Quotient(year - 1, 100);
    Quotient(year - 1, 400);
    Centuries(year);
    ExtraDays(year);
  }

  /** The leap days a year adds are counted by its divisors. */
  lemma {:induction false} ExtraDays(year: int)
    requires (year % 100 == 0 ==> year % 4 == 0) && (year % 400 == 0 ==> year % 100 == 0)
    ensures (if Leap(year) then 1 else 0)
         == (if year % 4 == 0 then 1 else 0) - (if year % 100 == 0 then 1 else 0) + (if year % 400 == 0 then 1 else 0)
  {
  }

  lemma {:induction false} Centuries(year: int)
    ensures (year % 100 == 0 ==> year % 4 == 0) && (year % 400 == 0 ==> year % 100 == 0)
  {
    if year % 100 == 0 {
      HundredsAreFours(year, year / 100);
    }
    if year % 400 == 0 {
      FourHundredsAreHundreds(year, year / 400);
    }
  }

  lemma {:induction false} HundredsAreFours(year: int, century: int)
    requires year == 100 * century
    ensures year % 4 == 0
  {
    assert year == 4 * (25 * century);
  }

  lemma {:induction false} FourHundredsAreHundreds(year: int, cycle: int)
    requires year == 400 * cycle
    ensures year % 100 == 0
  {
    assert year == 100 * (4 * cycle);
  }

  lemma {:induction false} Quotient(y: int, d: int)
    requires d in {4, 100, 400}
    ensures (y + 1) / d - y / d == (if (y + 1) % d == 0 then 1 else 0)
  {
  }

  lemma {:induction false} MonthsOfYear(year: int)
    ensures DaysBeforeMonth(year, 2) == 31
    ensures DaysBeforeMonth(year, 12) == (if Leap(year) then 335 else 334)
  {
    var feb := DaysInMonth(year, 2);
    assert DaysBeforeMonth(year, 1) == 0;
    assert DaysBeforeMonth(year, 2) == 31;
    assert DaysBeforeMonth(year, 3) == 31 + feb;
    assert DaysBeforeMonth(year, 4) == 62 + feb;
    assert DaysBeforeMonth(year, 5) == 92 + feb;
    assert DaysBeforeMonth(year, 6) == 123 + feb;
    assert DaysBeforeMonth(year, 7) == 153 + feb;
    assert DaysBeforeMonth(year, 8) == 184 + feb;
    assert DaysBeforeMonth(year, 9) == 215 + feb;
    assert DaysBeforeMonth(year, 10) == 245 + feb;
    assert DaysBeforeMonth(year, 11) == 276 + feb;
    assert DaysBeforeMonth(year, 12) == 306 + feb;
  }

  /** The same day of the next month is as many days later as this month has. */
  lemma {:induction false} NextMonth(start: Date, billingDay: int)
    requires 1 <= start.month <= 12 && start.day == billingDay
    ensures CycleDays(start, billingDay) == DaysInMonth(start.year, start.month)
  {
    if start.month == 12 {
      YearLength(start.year);
      MonthsOfYear(start.year);
    }
  }

  // ----- tiling -----

  ghost predicate IsCycle(start: Date, billingDay: int) {
    1 <= start.month <= 12 && start.day == billingDay
  }

  ghost predicate InCycle(d: Date, start: Date, billingDay: int) {
    Ordinal(start) <= Ordinal(d) < Ordinal(CycleEnd(start, billingDay))
  }

  /** Every local date lies in the cycle computed for it. */
  lemma {:induction false} DateIsInItsCycle(d: Date, billingDay: int)
    requires Valid(d) && BillingDay(billingDay)
    ensures var start := CycleStart(d, billingDay);
            Valid(start) && IsCycle(start, billingDay) && InCycle(d, start, billingDay)
  {
    var start := CycleStart(d, billingDay);
    NextMonth(start, billingDay);
    if d.day < billingDay {
      var ours := Date(d.year, d.month, billingDay);
      assert CycleEnd(start, billingDay) == ours;
      assert Ordinal(d) == Ordinal(ours) - billingDay + d.day;
    }
  }

  /** Cycles are between 28 and 31 days long: as long as the month they start in. */
  lemma {:induction false} CycleLength(start: Date, billingDay: int)
    requires IsCycle(start, billingDay)
    ensures 28 <= CycleDays(start, billingDay) <= 31
    ensures CycleDays(start, billingDay) == DaysInMonth(start.year, start.month)
  {
    NextMonth(start, billingDay);
  }

  /** The end of a cycle is the start of the next one. */
  lemma {:induction false} EndStartsTheNextCycle(start: Date, billingDay: int)
    requires IsCycle(start, billingDay) && BillingDay(billingDay)
    ensures var next := CycleEnd(start, billingDay);
            Valid(next) && IsCycle(next, billingDay) && CycleStart(next, billingDay) == next && CycleStart(start, billingDay) == start
  {
  }

  /** Months counted on one line. */
  function MonthIndex(d: Date): int {
    12 * d.year + d.month
  }

  function AtIndex(index: int, billingDay: int): Date {
    Date((index - 1) / 12, (index - 1) % 12 + 1, billingDay)
  }

  lemma {:induction false} IndexRoundTrip(start: Date, billingDay: int)
    requires IsCycle(start, billingDay)
    ensures AtIndex(MonthIndex(start), billingDay) == start
    ensures CycleEnd(start, billingDay) == AtIndex(MonthIndex(start) + 1, billingDay)
    ensures MonthIndex(CycleEnd(start, billingDay)) == MonthIndex(start) + 1
  {
  }

  lemma {:induction false} NextIndex(index: int, billingDay: int)
    ensures Ordinal(AtIndex(index, billingDay)) + 28 <= Ordinal(AtIndex(index + 1, billingDay))
  {
    var start := AtIndex(index, billingDay);
    assert MonthIndex(start) == index;
    IndexRoundTrip(start, billingDay);
    CycleLength(start, billingDay);
  }

  /** Earlier cycles end no later than later cycles start. */
  lemma {:induction false} CyclesAreOrdered(a: int, b: int, billingDay: int)
    requires a < b
    ensures Ordinal(AtIndex(a + 1, billingDay)) <= Ordinal(AtIndex(b, billingDay))
    decreases b - a
  {
    hide Ordinal, AtIndex;
    if a + 1 < b {
      CyclesAreOrdered(a, b - 1, billingDay);
      NextIndex(b - 1, billingDay);
    }
  }

  /** Every date lies in exactly one cycle. */
  lemma {:induction false} ExactlyOneCycle(d: Date, start: Date, billingDay: int)
    requires Valid(d) && BillingDay(billingDay) && IsCycle(start, billingDay)
    ensures InCycle(d, start, billingDay) <==> start == CycleStart(d, billingDay)
  {
    DateIsInItsCycle(d, billingDay);
    hide Ordinal, AtIndex, CycleEnd, CycleStart, MonthIndex;
    var own := CycleStart(d, billingDay);
    IndexRoundTrip(start, billingDay);
    IndexRoundTrip(own, billingDay);
    if MonthIndex(start) < MonthIndex(own) {
      CyclesAreOrdered(MonthIndex(start), MonthIndex(own), billingDay);
    } else if MonthIndex(own) < MonthIndex(start) {
      CyclesAreOrdered(MonthIndex(own), MonthIndex(start), billingDay);
    }
  }

  predicate Before(a: Date, b: Date) {
    a.year < b.year || (a.year == b.year && (a.month < b.month || (a.month == b.month && a.day < b.day)))
  }

  lemma {:induction false} WithinMonth(d: Date)
    requires Valid(d)
    ensures Ordinal(AtIndex(MonthIndex(d), 1)) <= Ordinal(d) < Ordinal(AtIndex(MonthIndex(d) + 1, 1))
    ensures Ordinal(d) == Ordinal(AtIndex(MonthIndex(d), 1)) + d.day - 1
  {
    var first := Date(d.year, d.month, 1);
    IndexRoundTrip(first, 1);
    CycleLength(first, 1);
  }

  lemma {:induction false} EarlierMonth(a: Date, b: Date)
    requires Valid(a) && Valid(b) && Before(a, b)
    ensures MonthIndex(a) < MonthIndex(b) || (MonthIndex(a) == MonthIndex(b) && a.day < b.day)
  {
  }

  lemma {:induction false} OrdinalGrows(a: Date, b: Date)
    requires Valid(a) && Valid(b) && Before(a, b)
    ensures Ordinal(a) < Ordinal(b)
  {
    hide Ordinal, AtIndex, MonthIndex;
    EarlierMonth(a, b);
    WithinMonth(a);
    WithinMonth(b);
    if MonthIndex(a) < MonthIndex(b) {
      CyclesAreOrdered(MonthIndex(a), MonthIndex(b), 1);
    }
  }

  /** Ordinals order dates as the calendar does. */
  lemma {:induction false} OrdinalIsCalendarOrder(a: Date, b: Date)
    requires Valid(a) && Valid(b)
    ensures Ordinal(a) < Ordinal(b) <==> Before(a, b)
  {
    hide Ordinal;
    if Before(a, b) {
      OrdinalGrows(a, b);
    } else if a != b {
      OrdinalGrows(b, a);
    }
  }
}
