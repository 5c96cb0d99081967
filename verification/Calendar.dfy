/** Due dates and candidate periods of reminders/sweep.py, on the proleptic Gregorian calendar. */
module Calendar {
  import opened Periods

  // ----- day numbers: `date.toordinal` -----

  function DaysBeforeYear(y: nat): int
    requires y >= 1
  {
    (y - 1) * 365 + (y - 1) / 4 - (y - 1) / 100 + (y - 1) / 400
  }

  function DaysBeforeMonth(y: nat, m: nat): nat
    requires 1 <= m
  {
    if m == 1 then 0 else DaysBeforeMonth(y, m - 1) + DaysIn(y, m - 1)
  }

  function Ordinal(t: Date): int
    requires ValidPeriod(Period(t.y, t.m))
  {
    DaysBeforeYear(t.y) + DaysBeforeMonth(t.y, t.m) + t.d
  }

  function NextMonth(p: Period): Period { if p.m == 12 then Period(p.y + 1, 1) else Period(p.y, p.m + 1) }

  /** Months numbered consecutively. */
  function Index(p: Period): int { 12 * p.y + p.m }

  /** The day number of a month's first day. */
  function First(p: Period): int
    requires ValidPeriod(p)
  {
    Ordinal(Date(p.y, p.m, 1))
  }

  lemma YearLength(y: nat)
    requires y >= 1
    ensures DaysBeforeYear(y + 1) == DaysBeforeYear(y) + if Leap(y) then 366 else 365
    ensures DaysBeforeMonth(y, 12) + 31 == if Leap(y) then 366 else 365
  {
    assert DaysBeforeMonth(y, 2) == 31;
    assert DaysBeforeMonth(y, 3) == 31 + DaysIn(y, 2);
    assert DaysBeforeMonth(y, 5) == DaysBeforeMonth(y, 3) + 61;
    assert DaysBeforeMonth(y, 7) == DaysBeforeMonth(y, 5) + 61;
    assert DaysBeforeMonth(y, 9) == DaysBeforeMonth(y, 7) + 62;
    assert DaysBeforeMonth(y, 11) == DaysBeforeMonth(y, 9) + 61;
    LeapSteps(y);
  }

  lemma LeapSteps(y: nat)
    requires y >= 1
    ensures y / 4 - (y - 1) / 4 == (if y % 4 == 0 then 1 else 0)
    ensures y / 100 - (y - 1) / 100 == (if y % 100 == 0 then 1 else 0)
    ensures y / 400 - (y - 1) / 400 == (if y % 400 == 0 then 1 else 0)
    ensures (y % 100 == 0 ==> y % 4 == 0) && (y % 400 == 0 ==> y % 100 == 0)
  {
    FourStep(y);
    HundredStep(y);
    FourHundredStep(y);
    CenturiesDivide(y);
  }

  lemma FourStep(y: nat)
    requires y >= 1
    ensures y / 4 - (y - 1) / 4 == (if y % 4 == 0 then 1 else 0)
  {
  }

  lemma HundredStep(y: nat)
    requires y >= 1
    ensures y / 100 - (y - 1) / 100 == (if y % 100 == 0 then 1 else 0)
  {
  }

  lemma FourHundredStep(y: nat)
    requires y >= 1
    ensures y / 400 - (y - 1) / 400 == (if y % 400 == 0 then 1 else 0)
  {
  }

  lemma CenturiesDivide(y: nat)
    ensures (y % 100 == 0 ==> y % 4 == 0) && (y % 400 == 0 ==> y % 100 == 0)
  {
    if y % 100 == 0 {
      MultipleOfFour(25 * (y / 100));
    }
    if y % 400 == 0 {
      MultipleOfHundred(4 * (y / 400));
    }
  }

  lemma MultipleOfFour(k: nat)
    ensures (4 * k) % 4 == 0
  {
  }

  lemma MultipleOfHundred(k: nat)
    ensures (100 * k) % 100 == 0
  {
  }

  /** Months follow each other without gap or overlap, leap years and year ends included. */
  lemma FirstOfNext(p: Period)
    requires ValidPeriod(p)
    ensures First(NextMonth(p)) == First(p) + DaysIn(p.y, p.m)
  {
    if p.m == 12 {
      YearLength(p.y);
    }
  }

  lemma {:induction false} FirstMonotone(p: Period, q: Period)
    requires ValidPeriod(p) && ValidPeriod(q) && Index(p) <= Index(q)
    ensures First(p) + 28 * (Index(q) - Index(p)) <= First(q)
    decreases Index(q) - Index(p)
  {
    if Index(p) == Index(q) {
      assert p == q;
    } else {
      FirstOfNext(p);
      FirstMonotone(NextMonth(p), q);
    }
  }

  /** The lengths of the months, with February's by the Gregorian rule. */
  lemma MonthLengths(y: nat, m: nat)
    requires 1 <= m <= 12
    ensures DaysIn(y, m) ==
      [31, if (y % 4 == 0 && y % 100 != 0) || y % 400 == 0 then 29 else 28,
       31, 30, 31, 30, 31, 31, 30, 31, 30, 31][m - 1]
  {
    CenturiesDivide(y);
  }

  /** Day numbers count the days one by one, over the ends of months and years. */
  lemma NextDay(t: Date)
    requires ValidDate(t)
    ensures Ordinal(if t.d < DaysIn(t.y, t.m) then Date(t.y, t.m, t.d + 1)
                    else if t.m < 12 then Date(t.y, t.m + 1, 1)
                    else Date(t.y + 1, 1, 1)) == Ordinal(t) + 1
  {
    FirstOfNext(Period(t.y, t.m));
  }

  // ----- due dates -----

  /** `_compute_due_date` once a day is configured: in the following month, clamped to its length. */
  function DueDate(day: nat, p: Period): (t: Date)
    requires day >= 1 && ValidPeriod(p)
    ensures ValidDate(t) && Period(t.y, t.m) == NextMonth(p)
    ensures t.d == day || (t.d == DaysIn(t.y, t.m) && t.d < day)
  {
    var n := NextMonth(p);
    Date(n.y, n.m, if day <= DaysIn(n.y, n.m) then day else DaysIn(n.y, n.m))
  }

  /** `(due - today).days`. */
  function DaysOut(due: Date, today: Date): int
    requires ValidDate(due) && ValidDate(today)
  {
    Ordinal(due) - Ordinal(today)
  }

  const THRESHOLDS: seq<int> := [7, 3, 1, 0]

  // ----- candidate periods -----

  /** The period `n` months before a date's own month, for dates from year 2 on. */
  function Back(t: Date, n: nat): Period
    requires n <= 2 && t.y >= 2 && 1 <= t.m <= 12
  {
    if t.m > n then Period(t.y, t.m - n) else Period(t.y - 1, t.m + 12 - n)
  }

  function Candidates(today: Date): seq<Period>
    requires today.y >= 2 && 1 <= today.m <= 12
  {
    [Back(today, 0), Back(today, 1), Back(today, 2)]
  }

  /** `_prev`: subtract months, borrowing years in a loop. */
  method Prev(y0: nat, m0: nat, n: nat) returns (p: Period)
    requires n <= 2 && y0 >= 2 && 1 <= m0 <= 12
    ensures p == Back(Date(y0, m0, 1), n)
  {
    var y, m: int := y0, m0 - n;
    while m < 1
      invariant 12 * y + m == 12 * y0 + m0 - n && y <= y0 && m <= 12 && y >= 1
      invariant y < y0 ==> m >= 1
      decreases -m
    {
      m := m + 12;
      y := y - 1;
    }
    p := Period(y, m);
  }

  method CandidatePeriods(today: Date) returns (out: seq<Period>)
    requires today.y >= 2 && 1 <= today.m <= 12
    ensures out == Candidates(today)
  {
    out := [];
    for n := 0 to 3
      invariant out == Candidates(today)[..n]
    {
      var p := Prev(today.y, today.m, n);
      out := out + [p];
    }
  }

  lemma CandidatesDistinct(today: Date)
    requires today.y >= 2 && 1 <= today.m <= 12
    ensures forall i, j :: 0 <= i < j < 3 ==> Candidates(today)[i] != Candidates(today)[j]
  {
  }

  /** No due date is missed: whatever the configured day, a period whose clamped due date is today or up to
      27 days ahead is today's own month or the one before it. */
  lemma UpcomingIsCandidate(today: Date, p: Period, day: nat)
    requires ValidDate(today) && today.y >= 2 && ValidPeriod(p) && day >= 1
    requires 0 <= DaysOut(DueDate(day, p), today) <= 27
    ensures p == Candidates(today)[0] || p == Candidates(today)[1]
  {
    var due := DueDate(day, p);
    var here, there := Period(today.y, today.m), NextMonth(p);
    InMonth(today);
    InMonth(due);
    MonthsBetween(here, there, Ordinal(today), Ordinal(due));
    NearMonths(today, p);
  }

  lemma NearMonths(today: Date, p: Period)
    requires 1 <= today.m <= 12 && today.y >= 2 && ValidPeriod(p)
    requires Index(Period(today.y, today.m)) <= Index(NextMonth(p)) <= Index(Period(today.y, today.m)) + 1
    ensures p == Candidates(today)[0] || p == Candidates(today)[1]
  {
  }

  /** A date lies between the first of its month and the first of the next. */
  lemma InMonth(t: Date)
    requires ValidDate(t)
    ensures var p := Period(t.y, t.m); First(p) <= Ordinal(t) < First(NextMonth(p)) == First(p) + DaysIn(t.y, t.m)
  {
    FirstOfNext(Period(t.y, t.m));
  }

  lemma MonthsBetween(here: Period, there: Period, a: int, b: int)
    requires ValidPeriod(here) && ValidPeriod(there)
    requires First(here) <= a < First(NextMonth(here)) && First(there) <= b < First(NextMonth(there))
    requires 0 <= b - a <= 27
    ensures Index(here) <= Index(there) <= Index(here) + 1
  {
    if Index(there) < Index(here) {
      FirstMonotone(NextMonth(there), here);
    } else if Index(there) > Index(here) + 1 {
      FirstMonotone(NextMonth(here), there);
    }
  }

  /** In particular at every threshold; and the third candidate never reaches one, because its due date
      lies in a month already over. */
  lemma NoDueDateMissed(today: Date, p: Period, day: nat)
    requires ValidDate(today) && today.y >= 2 && ValidPeriod(p) && day >= 1
    ensures DaysOut(DueDate(day, p), today) in THRESHOLDS ==> p in Candidates(today)
    ensures p == Candidates(today)[2] ==> DaysOut(DueDate(day, p), today) < 0
  {
    if DaysOut(DueDate(day, p), today) in THRESHOLDS {
      UpcomingIsCandidate(today, p, day);
    }
    if p == Candidates(today)[2] {
      FirstOfNext(NextMonth(p));
      assert NextMonth(NextMonth(p)) == Period(today.y, today.m);
    }
  }
}
