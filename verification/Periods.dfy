/** Returns, return periods and calendar dates, on the proleptic Gregorian calendar. */
module Periods {

  datatype ReturnType = GSTR1 | GSTR3B

  datatype Date = Date(y: nat, m: nat, d: nat)

  /** A return period, `YYYYMM`. */
  datatype Period = Period(y: nat, m: nat)

  predicate Leap(y: nat) { y % 4 == 0 && (y % 100 != 0 || y % 400 == 0) }

  /** `calendar.monthrange(y, m)[1]`. */
  function DaysIn(y: nat, m: nat): (n: nat)
    ensures 28 <= n <= 31
  {
    if m == 2 then (if Leap(y) then 29 else 28)
    else if m == 4 || m == 6 || m == 9 || m == 11 then 30 else 31
  }

  predicate ValidPeriod(p: Period) { p.y >= 1 && 1 <= p.m <= 12 }

  predicate ValidDate(t: Date) { ValidPeriod(Period(t.y, t.m)) && 1 <= t.d <= DaysIn(t.y, t.m) }

  /** The dates that Python's `date` can hold. */
  predicate Representable(t: Date) { ValidDate(t) && t.y <= 9999 }
}
