/**
 * Due dates of recurring maintenance. Dates are JavaScript time values (milliseconds)
 * read in a zone with a fixed offset; setMonth and setFullYear overflow into the
 * following month as MakeDay does (section 21.4.1 of ECMA-262).
 */
module Calendar {
  import opened Prelude

  const MS_PER_DAY := 86_400_000

  // ----- the calendar of ECMA-262 -----

  /** The day number of 1 January, counted from 1 January 1970. */
  function DayFromYear(y: int): int {
    365 * (y - 1970) + (y - 1969) / 4 - (y - 1901) / 100 + (y - 1601) / 400
  }

  predicate Leap(y: int) {
    y % 4 == 0 && (y % 100 != 0 || y % 400 == 0)
  }

  function DaysInYear(y: int): int {
    if Leap(y) then 366 else 365
  }

  /** Months are numbered from 0. */
  function DaysInMonth(y: int, m: int): (d: int)
    ensures 28 <= d <= 31
  {
    if m == 1 then (if Leap(y) then 29 else 28)
    else if m == 3 || m == 5 || m == 8 || m == 10 then 30
    else 31
  }

  /** Days of the year before the month starts. */
  function DaysBefore(y: int, m: int): int
    requires 0 <= m <= 12
    decreases m
  {
    if m <= 0 then 0 else DaysBefore(y, m - 1) + DaysInMonth(y, m - 1)
  }

  /** MakeDay: months outside 0..11 carry into the year, days run on freely. */
  function MakeDay(y: int, m: int, d: int): int {
    DayFromYear(y + m / 12) + DaysBefore(y + m / 12, m % 12) + d - 1
  }

  /** The year that contains a day, searched upwards or downwards from `y`. */
  function YearUp(day: int, y: int): int
    requires DayFromYear(y) <= day
    decreases day - DayFromYear(y)
  {
    YearLength(y);
    if day < DayFromYear(y + 1) then y else YearUp(day, y + 1)
  }

  function YearDown(day: int, y: int): int
    requires day < DayFromYear(y)
    decreases DayFromYear(y) - day
  {
    YearLength(y - 1);
    if DayFromYear(y - 1) <= day then y - 1 else YearDown(day, y - 1)
  }

  function YearFromDay(day: int): int {
    if DayFromYear(1970) <= day then YearUp(day, 1970) else YearDown(day, 1970)
  }

  function MonthSearch(y: int, n: int, m: int): (r: int)
    requires 0 <= m <= 11 && DaysBefore(y, m) <= n
    ensures m <= r <= 11
    decreases 12 - m
  {
    if m == 11 || n < DaysBefore(y, m + 1) then m else MonthSearch(y, n, m + 1)
  }

  function MonthFromDay(day: int): (m: int)
    ensures 0 <= m <= 11
  {
    YearContains(day);
    MonthSearch(YearFromDay(day), day - DayFromYear(YearFromDay(day)), 0)
  }

  function DateFromDay(day: int): int {
    day - DayFromYear(YearFromDay(day)) - DaysBefore(YearFromDay(day), MonthFromDay(day)) + 1
  }

  lemma FourthYears(y: int)
    ensures (y - 1968) / 4 == (y - 1969) / 4 + if y % 4 == 0 then 1 else 0
  {
  }

  lemma Centuries(y: int)
    ensures (y - 1900) / 100 == (y - 1901) / 100 + if y % 100 == 0 then 1 else 0
  {
  }

  lemma QuarterMillennia(y: int)
    ensures (y - 1600) / 400 == (y - 1601) / 400 + if y % 400 == 0 then 1 else 0
  {
  }

  lemma LeapDays(y: int)
    ensures DaysInYear(y)
            == 365 + (if y % 4 == 0 then 1 else 0) - (if y % 100 == 0 then 1 else 0) + (if y % 400 == 0 then 1 else 0)
  {
    if y % 400 == 0 { WholeCenturies(y); }
    if y % 100 == 0 { FourthsOfCenturies(y); }
  }

  lemma WholeCenturies(y: int)
    requires y % 400 == 0
    ensures y % 100 == 0
  {
    assert y == 100 * (4 * (y / 400));
  }

  lemma FourthsOfCenturies(y: int)
    requires y % 100 == 0
    ensures y % 4 == 0
  {
    assert y == 4 * (25 * (y / 100));
  }

  lemma YearLength(y: int)
    ensures DayFromYear(y + 1) == DayFromYear(y) + DaysInYear(y)
  {
    hide DaysInYear, Leap;
    FourthYears(y);
    Centuries(y);
    QuarterMillennia(y);
    LeapDays(y);
  }

  lemma YearUpContains(day: int, y: int)
    requires DayFromYear(y) <= day
    ensures DayFromYear(YearUp(day, y)) <= day < DayFromYear(YearUp(day, y) + 1)
    decreases day - DayFromYear(y)
  {
    hide DayFromYear, Leap;
    YearLength(y);
    if day >= DayFromYear(y + 1) {
      YearUpContains(day, y + 1);
    }
  }

  lemma YearDownContains(day: int, y: int)
    requires day < DayFromYear(y)
    ensures DayFromYear(YearDown(day, y)) <= day < DayFromYear(YearDown(day, y) + 1)
    decreases DayFromYear(y) - day
  {
    hide DayFromYear, Leap;
    YearLength(y - 1);
    if day < DayFromYear(y - 1) {
      YearDownContains(day, y - 1);
    }
  }

  lemma YearContains(day: int)
    ensures DayFromYear(YearFromDay(day)) <= day < DayFromYear(YearFromDay(day) + 1)
  {
    if DayFromYear(1970) <= day {
      YearUpContains(day, 1970);
    } else {
      YearDownContains(day, 1970);
    }
  }

  lemma {:induction false} YearsAscend(y: int, z: int)
    requires y <= z
    ensures DayFromYear(y) + 365 * (z - y) <= DayFromYear(z)
    decreases z - y
  {
    if y < z {
      YearLength(z - 1);
      YearsAscend(y, z - 1);
    }
  }

  lemma WholeYear(y: int)
    ensures DaysBefore(y, 12) == DaysInYear(y)
  {
    assert DaysBefore(y, 3) == if Leap(y) then 91 else 90;
    assert DaysBefore(y, 6) == DaysBefore(y, 3) + 91;
    assert DaysBefore(y, 9) == DaysBefore(y, 6) + 92;
  }

  lemma {:induction false} MonthsAscend(y: int, m: int, n: int)
    requires 0 <= m <= n <= 12
    ensures DaysBefore(y, m) + 28 * (n - m) <= DaysBefore(y, n)
    decreases n - m
  {
    if m < n {
      MonthsAscend(y, m, n - 1);
    }
  }

  lemma {:induction false} MonthSearchContains(y: int, n: int, m: int)
    requires 0 <= m <= 11 && DaysBefore(y, m) <= n < DaysInYear(y)
    ensures var r := MonthSearch(y, n, m);
            0 <= r <= 11 && DaysBefore(y, r) <= n < DaysBefore(y, r + 1)
    decreases 12 - m
  {
    hide DaysBefore, DaysInYear;
    WholeYear(y);
    if m < 11 && n >= DaysBefore(y, m + 1) {
      MonthSearchContains(y, n, m + 1);
    }
  }

  lemma MonthContains(day: int)
    ensures 1 <= DateFromDay(day) <= DaysInMonth(YearFromDay(day), MonthFromDay(day))
  {
    var y := YearFromDay(day);
    YearContains(day);
    YearLength(y);
    MonthSearchContains(y, day - DayFromYear(y), 0);
  }

  /** Days are counted from the first of January 1970, which is day 0. */
  lemma Epoch()
    ensures MakeDay(1970, 0, 1) == 0
    ensures YearFromDay(0) == 1970 && MonthFromDay(0) == 0 && DateFromDay(0) == 1
  {
    hide MakeDay, YearFromDay, MonthFromDay, DateFromDay, DaysInMonth;
    EpochDay();
    DateRoundTrip(1970, 0, 1);
  }

  lemma EpochDay()
    ensures MakeDay(1970, 0, 1) == 0 && DaysInMonth(1970, 0) == 31
  {
    EpochYear();
    FirstOfMonth(1970);
    hide DayFromYear, DaysBefore, YearFromDay, MonthFromDay, DateFromDay, Leap, MakeDay;
  }

  lemma EpochYear()
    ensures DayFromYear(1970) == 0
  {
    hide DaysBefore, DaysInYear, MakeDay;
  }

  lemma FirstOfMonth(y: int)
    ensures MakeDay(y, 0, 1) == DayFromYear(y) && DaysInMonth(y, 0) == 31
  {
    hide DayFromYear, DaysInYear, Leap;
    assert 0 / 12 == 0 && 0 % 12 == 0;
  }

  /** Taking a day apart and putting it together gives the day back. */
  lemma FieldsRoundTrip(day: int)
    ensures 1 <= DateFromDay(day) <= DaysInMonth(YearFromDay(day), MonthFromDay(day))
    ensures MakeDay(YearFromDay(day), MonthFromDay(day), DateFromDay(day)) == day
  {
    hide DayFromYear, YearFromDay, DaysBefore, MonthFromDay;
    MonthContains(day);
  }

  /** Every calendar date is the date of its own day. */
  lemma DateRoundTrip(y: int, m: int, d: int)
    requires 0 <= m <= 11 && 1 <= d <= DaysInMonth(y, m)
    ensures var day := MakeDay(y, m, d);
            YearFromDay(day) == y && MonthFromDay(day) == m && DateFromDay(day) == d
  {
    hide DayFromYear, YearFromDay, MonthFromDay, DaysInMonth;
    var day := MakeDay(y, m, d);
    WholeYear(y);
    YearLength(y);
    MonthsAscend(y, 0, m);
    MonthsAscend(y, m + 1, 12);
    assert DaysBefore(y, m + 1) == DaysBefore(y, m) + DaysInMonth(y, m);
    YearContains(day);
    SameYear(day, y, YearFromDay(day));
    SameMonth(day, y, m);
  }

  lemma SameYear(day: int, y: int, z: int)
    requires DayFromYear(y) <= day < DayFromYear(y + 1) && DayFromYear(z) <= day < DayFromYear(z + 1)
    ensures y == z
  {
    hide DayFromYear;
    if y < z { YearsAscend(y + 1, z); } else if z < y { YearsAscend(z + 1, y); }
  }

  lemma SameMonth(day: int, y: int, m: int)
    requires 0 <= m <= 11 && y == YearFromDay(day)
    requires DaysBefore(y, m) <= day - DayFromYear(y) < DaysBefore(y, m + 1)
    ensures MonthFromDay(day) == m
  {
    hide DayFromYear, YearFromDay, DaysBefore, DaysInMonth, Leap, MonthSearch;
    YearContains(day);
    YearLength(y);
    NothingBefore(y);
    MonthSearchContains(y, day - DayFromYear(y), 0);
    var r := MonthFromDay(day);
    if r < m { MonthsAscend(y, r + 1, m); } else if m < r { MonthsAscend(y, m + 1, r); }
  }

  lemma NothingBefore(y: int)
    ensures DaysBefore(y, 0) == 0
  {
  }

  // ----- due dates -----

  datatype Frequency = Weekly | Monthly | Quarterly | SemiAnnual | Annual | Custom

  function FloorDay(t: int): int {
    t / MS_PER_DAY
  }

  /** setDate, setMonth and setFullYear keep the time within the day. */
  function WithDay(local: int, day: int): int {
    day * MS_PER_DAY + local % MS_PER_DAY
  }

  function NextDay(day: int, f: Frequency, intervalDays: nat): int {
    var y, m, d := YearFromDay(day), MonthFromDay(day), DateFromDay(day);
    match f
    case Weekly => MakeDay(y, m, d + 7)
    case Monthly => MakeDay(y, m + 1, d)
    case Quarterly => MakeDay(y, m + 3, d)
    case SemiAnnual => MakeDay(y, m + 6, d)
    case Annual => MakeDay(y + 1, m, d)
    case Custom => MakeDay(y, m, d + Max(1, if intervalDays == 0 then 30 else intervalDays))
  }

  /** The due date after `base`, in a zone `offset` milliseconds ahead of UTC. */
  function NextDueDate(base: int, offset: int, f: Frequency, intervalDays: nat): int {
    WithDay(base + offset, NextDay(FloorDay(base + offset), f, intervalDays)) - offset
  }

  /** The lengths of n consecutive months. */
  function MonthLengths(y: int, m: int, n: nat): int
    requires 0 <= m <= 11
    decreases n
  {
    if n == 0 then 0
    else DaysInMonth(y, m) + if m == 11 then MonthLengths(y + 1, 0, n - 1) else MonthLengths(y, m + 1, n - 1)
  }

  /** How far each frequency moves a date: stated by month and year lengths, not by day numbers. */
  function Advance(day: int, f: Frequency, intervalDays: nat): int {
    var y, m := YearFromDay(day), MonthFromDay(day);
    match f
    case Weekly => 7
    case Monthly => DaysInMonth(y, m)
    case Quarterly => MonthLengths(y, m, 3)
    case SemiAnnual => MonthLengths(y, m, 6)
    case Annual => DaysInYear(if m <= 1 then y else y + 1)
    case Custom => if intervalDays == 0 then 30 else intervalDays
  }

  lemma MonthStart(y: int, m: int)
    requires 0 <= m <= 11
    ensures MakeDay(y, m + 1, 1) == MakeDay(y, m, 1) + DaysInMonth(y, m)
  {
    hide DayFromYear, DaysInMonth;
    if m == 11 {
      WholeYear(y);
      YearLength(y);
      assert (m + 1) / 12 == 1 && (m + 1) % 12 == 0;
      assert DaysBefore(y, 12) == DaysBefore(y, 11) + DaysInMonth(y, 11);
    }
  }

  lemma CarryMonth(y: int, m: int, d: int)
    ensures MakeDay(y, m + 12, d) == MakeDay(y + 1, m, d)
  {
  }

  lemma DaysRunOn(y: int, m: int, d: int, k: int)
    ensures MakeDay(y, m, d + k) == MakeDay(y, m, d) + k
  {
  }

  lemma {:induction false} MonthsAhead(y: int, m: int, n: nat, d: int)
    requires 0 <= m <= 11
    ensures MakeDay(y, m + n, d) == MakeDay(y, m, d) + MonthLengths(y, m, n)
    decreases n
  {
    hide MakeDay, DaysInMonth;
    if n > 0 {
      MonthStart(y, m);
      DaysRunOn(y, m + 1, 1, d - 1);
      DaysRunOn(y, m, 1, d - 1);
      if m == 11 {
        MonthsAhead(y + 1, 0, n - 1, d);
        CarryMonth(y, 0, d);
        CarryMonth(y, n - 1, d);
      } else {
        MonthsAhead(y, m + 1, n - 1, d);
      }
    }
  }

  lemma YearAhead(y: int, m: int, d: int)
    requires 0 <= m <= 11
    ensures MakeDay(y + 1, m, d) == MakeDay(y, m, d) + DaysInYear(if m <= 1 then y else y + 1)
  {
    hide DayFromYear, DaysBefore, Leap;
    YearLength(y);
    YearLength(y + 1);
    LeapShift(y, m);
    assert m / 12 == 0 && m % 12 == m;
  }

  lemma {:induction false} LeapShift(y: int, m: int)
    requires 0 <= m <= 11
    ensures m <= 1 ==> DaysBefore(y, m) == DaysBefore(y + 1, m)
    ensures m > 1 ==> DaysBefore(y + 1, m) - DaysBefore(y, m) == DaysInYear(y + 1) - DaysInYear(y)
    decreases m
  {
    if m > 0 {
      LeapShift(y, m - 1);
    }
  }

  /** Every frequency moves every day by exactly its advance. */
  lemma NextDayAdvances(day: int, f: Frequency, intervalDays: nat)
    ensures NextDay(day, f, intervalDays) == day + Advance(day, f, intervalDays)
  {
    hide MakeDay, YearFromDay, MonthFromDay, DateFromDay, DaysInMonth;
    FieldsRoundTrip(day);
    var y, m, d := YearFromDay(day), MonthFromDay(day), DateFromDay(day);
    match f
    case Weekly => DaysRunOn(y, m, d, 7);
    case Monthly =>
      MonthsAhead(y, m, 1, d);
      OneMonth(y, m);
    case Quarterly => MonthsAhead(y, m, 3, d);
    case SemiAnnual => MonthsAhead(y, m, 6, d);
    case Annual => YearAhead(y, m, d);
    case Custom => DaysRunOn(y, m, d, Max(1, if intervalDays == 0 then 30 else intervalDays));
  }

  lemma OneMonth(y: int, m: int)
    requires 0 <= m <= 11
    ensures MonthLengths(y, m, 1) == DaysInMonth(y, m)
  {
  }

  function NextMonth(y: int, m: int): (int, int) {
    if m == 11 then (y + 1, 0) else (y, m + 1)
  }

  lemma MonthLengthsStep(y: int, m: int, n: nat)
    requires 0 <= m <= 11
    ensures MonthLengths(y, m, n + 1) == DaysInMonth(y, m) + MonthLengths(NextMonth(y, m).0, NextMonth(y, m).1, n)
  {
  }

  /** The length of a month in a year that is not a leap year. */
  function CommonLength(m: int): int {
    if m == 1 then 28 else if m == 3 || m == 5 || m == 8 || m == 10 then 30 else 31
  }

  lemma LengthOfMonth(y: int, m: int)
    requires 0 <= m <= 11
    ensures DaysInMonth(y, m) == CommonLength(m) + if m == 1 && Leap(y) then 1 else 0
  {
  }

  lemma ThreeMonths(y: int, m: int)
    requires 0 <= m <= 11
    ensures MonthLengths(y, m, 3) == CommonLength(m) + CommonLength((m + 1) % 12) + CommonLength((m + 2) % 12)
                                     + LeapDayIn(y, m, 3)
    ensures 89 <= MonthLengths(y, m, 3) <= 92
  {
    hide MonthLengths, DaysInMonth, Leap;
    var (y1, m1) := NextMonth(y, m);
    var (y2, m2) := NextMonth(y1, m1);
    MonthLengthsStep(y, m, 2);
    MonthLengthsStep(y1, m1, 1);
    OneMonth(y2, m2);
    LengthOfMonth(y, m);
    LengthOfMonth(y1, m1);
    LengthOfMonth(y2, m2);
  }

  /** One when the n months, at most twelve, from this one on include a 29th of February. */
  function LeapDayIn(y: int, m: int, n: nat): int {
    if m <= 1 < m + n && Leap(y) then 1
    else if m > 1 && 13 < m + n && Leap(y + 1) then 1
    else 0
  }

  lemma SixMonths(y: int, m: int)
    requires 0 <= m <= 11
    ensures 181 <= MonthLengths(y, m, 6) <= 184
  {
    hide DaysInMonth, Leap, MonthLengths;
    var (y1, m1) := NextMonth(y, m);
    var (y2, m2) := NextMonth(y1, m1);
    var (y3, m3) := NextMonth(y2, m2);
    MonthLengthsStep(y, m, 5);
    MonthLengthsStep(y1, m1, 4);
    MonthLengthsStep(y2, m2, 3);
    LengthOfMonth(y, m);
    LengthOfMonth(y1, m1);
    LengthOfMonth(y2, m2);
    ThreeMonths(y3, m3);
  }

  /**
   * Calendar advance: a defaulted due date is a whole number of days after the base, the
   * number given by month and year lengths, hence strictly later, for every time value,
   * zone offset, frequency and interval.
   */
  lemma DueDateAdvances(base: int, offset: int, f: Frequency, intervalDays: nat)
    ensures var days := Advance(FloorDay(base + offset), f, intervalDays);
            NextDueDate(base, offset, f, intervalDays) == base + days * 86_400_000
            && (f == Weekly ==> days == 7)
            && (f == Monthly ==> 28 <= days <= 31)
            && (f == Quarterly ==> 89 <= days <= 92)
            && (f == SemiAnnual ==> 181 <= days <= 184)
            && (f == Annual ==> days == 365 || days == 366)
            && days >= 1
    ensures NextDueDate(base, offset, f, intervalDays) > base
  {
    hide Advance, NextDay;
    var local := base + offset;
    var day := FloorDay(local);
    NextDayAdvances(day, f, intervalDays);
    AdvanceRange(day, f, intervalDays);
    var days := Advance(day, f, intervalDays);
    assert local == day * MS_PER_DAY + local % MS_PER_DAY;
    assert (day + days) * MS_PER_DAY == day * MS_PER_DAY + days * MS_PER_DAY;
    assert days * MS_PER_DAY >= MS_PER_DAY;
  }

  lemma AdvanceRange(day: int, f: Frequency, intervalDays: nat)
    ensures var days := Advance(day, f, intervalDays);
            days >= 1
            && (f == Weekly ==> days == 7)
            && (f == Monthly ==> 28 <= days <= 31)
            && (f == Quarterly ==> 89 <= days <= 92)
            && (f == SemiAnnual ==> 181 <= days <= 184)
            && (f == Annual ==> days == 365 || days == 366)
  {
    hide YearFromDay, MonthFromDay, MonthLengths;
    var y, m := YearFromDay(day), MonthFromDay(day);
    ThreeMonths(y, m);
    SixMonths(y, m);
  }

  /** The day of the month survives a monthly step exactly when the next month has that day. */
  lemma MonthlyKeepsTheDate(day: int)
    ensures var y, m, d := YearFromDay(day), MonthFromDay(day), DateFromDay(day);
            var (y', m') := if m == 11 then (y + 1, 0) else (y, m + 1);
            var next := NextDay(day, Monthly, 0);
            DateFromDay(next) == d <==> d <= DaysInMonth(y', m')
  {
    hide YearFromDay, MonthFromDay, DateFromDay, DaysInMonth, MakeDay;
    MonthContains(day);
    var y, m, d := YearFromDay(day), MonthFromDay(day), DateFromDay(day);
    var (y', m') := if m == 11 then (y + 1, 0) else (y, m + 1);
    if m == 11 { CarryMonth(y, 0, d); }
    assert NextDay(day, Monthly, 0) == MakeDay(y', m', d);
    var length := DaysInMonth(y', m');
    if d <= length {
      DateRoundTrip(y', m', d);
    } else {
      var excess := d - length;
      MonthLimits(y, m);
      MonthLimits(y', m');
      MonthStart(y', m');
      DaysRunOn(y', m', 1, d - 1);
      DaysRunOn(y', m' + 1, 1, excess - 1);
      assert MakeDay(y', m', d) == MakeDay(y', m' + 1, excess);
      if m' == 11 {
        CarryMonth(y', 0, excess);
        MonthLimits(y' + 1, 0);
        DateRoundTrip(y' + 1, 0, excess);
      } else {
        MonthLimits(y', m' + 1);
        DateRoundTrip(y', m' + 1, excess);
      }
    }
  }

  lemma MonthLimits(y: int, m: int)
    ensures 28 <= DaysInMonth(y, m) <= 31
  {
  }

  // ----- completing a plan -----

  datatype Plan = Plan(frequency: Frequency, intervalDays: nat, nextDueAt: int, lastCompletedAt: Option<int>)

  datatype RunStatus = Due | Scheduled | Completed

  datatype MaintenanceRun = MaintenanceRun(dueAt: int, status: RunStatus, completedAt: Option<int>)

  /** One plan with its runs in the order of the table. */
  class PlanBook {
    var plan: Plan
    var runs: seq<MaintenanceRun>

    constructor (plan: Plan)
      ensures this.plan == plan && runs == []
    {
      this.plan := plan;
      runs := [];
    }

    /**
     * Completes the given run, or the open run that was due first, or records a completed
     * run when none is open, and moves the plan on; the plan's next due date is later than
     * the completion unless the caller chose it. A run that is not the plan's is refused.
     */
    method CompletePlan(completedAt: int, offset: int, chosen: Option<int>, given: Option<nat>) returns (ok: bool)
      modifies this
      ensures ok <==> given.None? || given.value < |old(runs)|
      ensures !ok ==> plan == old(plan) && runs == old(runs)
      ensures ok ==> plan == old(plan).(lastCompletedAt := Some(completedAt), nextDueAt := plan.nextDueAt)
      ensures ok ==> plan.nextDueAt == if chosen.Some? then chosen.value
                                       else NextDueDate(completedAt, offset, old(plan).frequency,
                                           old(plan).intervalDays)
      ensures ok && chosen.None? ==> plan.nextDueAt > completedAt
      ensures ok && given.Some? ==> Completes(old(runs), given.value, completedAt, runs)
      ensures given.None? && (forall i | 0 <= i < |old(runs)| :: old(runs)[i].status == Completed) ==>
                runs == old(runs) + [MaintenanceRun(old(plan).nextDueAt, Completed, Some(completedAt))]
      ensures given.None? && (exists i :: 0 <= i < |old(runs)| && old(runs)[i].status != Completed) ==>
                exists k: nat :: IsEarliestOpen(old(runs), k) && Completes(old(runs), k, completedAt, runs)
    {
      if given.Some? && given.value >= |runs| {
        return false;
      }
      ok := true;
      var nextDueAt := if chosen.Some? then chosen.value
          else NextDueDate(completedAt, offset, plan.frequency, plan.intervalDays);
      DueDateAdvances(completedAt, offset, plan.frequency, plan.intervalDays);
      if given.Some? {
        runs := Completing(runs, given.value, completedAt);
        plan := plan.(lastCompletedAt := Some(completedAt), nextDueAt := nextDueAt);
        return;
      }
      var pending := -1;
      var i := 0;
      while i < |runs|
        invariant 0 <= i <= |runs|
        invariant -1 <= pending < i
        invariant pending == -1 ==> forall j | 0 <= j < i :: runs[j].status == Completed
        invariant pending >= 0 ==> runs[pending].status != Completed
        invariant pending >= 0 ==> forall j | 0 <= j < i ::
                  runs[j].status != Completed
                  ==> runs[pending].dueAt <= runs[j].dueAt
      {
        if runs[i].status != Completed && (pending == -1 || runs[i].dueAt < runs[pending].dueAt) {
          pending := i;
        }
        i := i + 1;
      }
      if pending >= 0 {
        assert IsEarliestOpen(runs, pending);
        runs := Completing(runs, pending, completedAt);
      } else {
        runs := runs + [MaintenanceRun(plan.nextDueAt, Completed, Some(completedAt))];
      }
      plan := plan.(lastCompletedAt := Some(completedAt), nextDueAt := nextDueAt);
    }
  }

  /** Run k is completed at that time with its due date as it was, and every other run is as it was. */
  predicate Completes(before: seq<MaintenanceRun>, k: nat, completedAt: int, after: seq<MaintenanceRun>) {
    && k < |before| == |after|
    && after[k] == MaintenanceRun(before[k].dueAt, Completed, Some(completedAt))
    && forall j | 0 <= j < |before| && j != k :: after[j] == before[j]
  }

  /** One run completed, the others as they were. */
  function Completing(runs: seq<MaintenanceRun>, k: nat, completedAt: int): seq<MaintenanceRun>
    requires k < |runs|
  {
    runs[k := runs[k].(status := Completed, completedAt := Some(completedAt))]
  }

  predicate IsEarliestOpen(runs: seq<MaintenanceRun>, k: nat) {
    k < |runs| && runs[k].status != Completed
    && forall j | 0 <= j < |runs| :: runs[j].status != Completed ==> runs[k].dueAt <= runs[j].dueAt
  }
}
