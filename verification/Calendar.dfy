/** The proleptic Gregorian calendar, as days and as year-month-day. */
module Calendar {

  /** Months run from 1 to 12. */
  datatype Date = Date(y: int, m: int, d: int)

  /** The leap-year rule of appendix C of RFC 3339. */
  predicate IsLeap(y: int) {
    y % 4 == 0 && (y % 100 != 0 || y % 400 == 0)
  }

  function DaysInMonth(y: int, m: int): int
    requires 1 <= m <= 12
  {
    if m == 2 then (if IsLeap(y) then 29 else 28)
    else if m == 4 || m == 6 || m == 9 || m == 11 then 30
    else 31
  }

  predicate Valid(c: Date) {
    1 <= c.m <= 12 && 1 <= c.d <= DaysInMonth(c.y, c.m)
  }

  function DaysBeforeYear(y: int): int {
    365 * y + (y - 1) / 4 - (y - 1) / 100 + (y - 1) / 400
  }

  function DaysBeforeMonth(y: int, m: int): int
    requires 1 <= m <= 12
  {
    (if m == 1 then 0 else if m == 2 then 31 else if m == 3 then 59 else if m == 4 then 90
     else if m == 5 then 120 else if m == 6 then 151 else if m == 7 then 181 else if m == 8 then 212
     else if m == 9 then 243 else if m == 10 then 273 else if m == 11 then 304 else 334)
    + (if m > 2 && IsLeap(y) then 1 else 0)
  }

  function DayNumber(c: Date): int
    requires 1 <= c.m <= 12
  {
    DaysBeforeYear(c.y) + DaysBeforeMonth(c.y, c.m) + c.d
  }

  /** Earlier or the same, read field by field. */
  predicate Le(a: Date, b: Date) {
    a.y < b.y || (a.y == b.y && (a.m < b.m || (a.m == b.m && a.d <= b.d)))
  }

  lemma FourthYears(y: int)
    ensures y / 4 - (y - 1) / 4 == if y % 4 == 0 then 1 else 0
  {
  }

  lemma Centuries(y: int)
    ensures y / 100 - (y - 1) / 100 == if y % 100 == 0 then 1 else 0
  {
  }

  lemma FourthCenturies(y: int)
    ensures y / 400 - (y - 1) / 400 == if y % 400 == 0 then 1 else 0
  {
  }

  lemma EveryCenturyIsAFourthYear(y: int)
    ensures y % 100 == 0 ==> y % 4 == 0
  {
    if y % 100 == 0 { assert y == 4 * (25 * (y / 100)); }
  }

  lemma EveryFourthCenturyIsACentury(y: int)
    ensures y % 400 == 0 ==> y % 100 == 0
  {
    if y % 400 == 0 { assert y == 100 * (4 * (y / 400)); }
  }

  /** Counting the leap days up to a year counts one more exactly in the years the rule names. */
  lemma YearLength(y: int)
    ensures DaysBeforeYear(y + 1) == DaysBeforeYear(y) + (if IsLeap(y) then 366 else 365)
  {
    FourthYears(y);
    Centuries(y);
    FourthCenturies(y);
    EveryCenturyIsAFourthYear(y);
    EveryFourthCenturyIsACentury(y);
  }

  lemma {:induction false} YearsAhead(y: int, z: int)
    requires y < z
    ensures DaysBeforeYear(y) + (if IsLeap(y) then 366 else 365) <= DaysBeforeYear(z)
    decreases z - y
  {
    YearLength(y);
    if y + 1 < z { YearsAhead(y + 1, z); }
  }

  /** Months follow each other without a gap, across the year's end too. */
  lemma MonthLength(y: int, m: int)
    requires 1 <= m <= 12
    ensures var next := if m == 12 then Date(y + 1, 1, 1) else Date(y, m + 1, 1);
            DayNumber(next) == DayNumber(Date(y, m, 1)) + DaysInMonth(y, m)
  {
    YearLength(y);
  }

  lemma MonthsAhead(y: int, m: int, n: int)
    requires 1 <= m < n <= 12
    ensures DaysBeforeMonth(y, m) + DaysInMonth(y, m) <= DaysBeforeMonth(y, n)
  {
  }

  /** The day number orders dates exactly as their fields do, so it tells them apart. */
  lemma DayNumberOrders(a: Date, b: Date)
    requires Valid(a) && Valid(b)
    ensures DayNumber(a) <= DayNumber(b) <==> Le(a, b)
    ensures DayNumber(a) == DayNumber(b) ==> a == b
  {
    StrictlyOrders(a, b);
    StrictlyOrders(b, a);
  }

  lemma StrictlyOrders(a: Date, b: Date)
    requires Valid(a) && Valid(b)
    ensures Le(a, b) && a != b ==> DayNumber(a) < DayNumber(b)
  {
    if a.y < b.y {
      YearsAhead(a.y, b.y);
      MonthLength(a.y, 12);
      if a.m < 12 { MonthsAhead(a.y, a.m, 12); }
    } else if a.y == b.y && a.m < b.m {
      MonthsAhead(a.y, a.m, b.m);
    }
  }

  function NextDay(c: Date): (r: Date)
    requires Valid(c)
    ensures Valid(r)
  {
    if c.d < DaysInMonth(c.y, c.m) then Date(c.y, c.m, c.d + 1)
    else if c.m < 12 then Date(c.y, c.m + 1, 1)
    else Date(c.y + 1, 1, 1)
  }

  function PreviousDay(c: Date): (r: Date)
    requires Valid(c)
    ensures Valid(r)
  {
    if c.d > 1 then Date(c.y, c.m, c.d - 1)
    else if c.m > 1 then Date(c.y, c.m - 1, DaysInMonth(c.y, c.m - 1))
    else Date(c.y - 1, 12, 31)
  }

  lemma NextDayNumber(c: Date)
    requires Valid(c)
    ensures DayNumber(NextDay(c)) == DayNumber(c) + 1
  {
    MonthLength(c.y, c.m);
  }

  lemma PreviousDayNumber(c: Date)
    requires Valid(c)
    ensures DayNumber(PreviousDay(c)) == DayNumber(c) - 1
  {
    if c.m > 1 { MonthLength(c.y, c.m - 1); } else { MonthLength(c.y - 1, 12); }
  }

  /** The date `k` days after `c`, or before it when `k` is negative. */
  function AddDays(c: Date, k: int): (r: Date)
    requires Valid(c)
    ensures Valid(r)
    decreases if k < 0 then -k else k
  {
    if k == 0 then c
    else if k > 0 then AddDays(NextDay(c), k - 1)
    else AddDays(PreviousDay(c), k + 1)
  }

  lemma {:induction false} AddDaysNumber(c: Date, k: int)
    requires Valid(c)
    ensures DayNumber(AddDays(c, k)) == DayNumber(c) + k
    decreases if k < 0 then -k else k
  {
    if k > 0 {
      NextDayNumber(c);
      AddDaysNumber(NextDay(c), k - 1);
    } else if k < 0 {
      PreviousDayNumber(c);
      AddDaysNumber(PreviousDay(c), k + 1);
    }
  }

  /** `AddDays` is the only way to be that many days later. */
  lemma AddDaysIs(c: Date, k: int, r: Date)
    requires Valid(c) && Valid(r) && DayNumber(r) == DayNumber(c) + k
    ensures AddDays(c, k) == r
  {
    AddDaysNumber(c, k);
    DayNumberOrders(AddDays(c, k), r);
  }

  const EPOCH := Date(1970, 1, 1)

  /** The date of a day number. */
  function Civil(n: int): (r: Date)
    ensures Valid(r)
  {
    AddDays(EPOCH, n - DayNumber(EPOCH))
  }

  /** Dates and day numbers are in bijection. */
  lemma CivilInverts(n: int, c: Date)
    ensures DayNumber(Civil(n)) == n
    ensures Valid(c) ==> Civil(DayNumber(c)) == c
  {
    AddDaysNumber(EPOCH, n - DayNumber(EPOCH));
    if Valid(c) { AddDaysIs(EPOCH, DayNumber(c) - DayNumber(EPOCH), c); }
  }

  /** The calendar repeats after 400 years, which have 146097 days, 97 of them leap days. */
  lemma GregorianCycle(c: Date)
    requires 1 <= c.m <= 12
    ensures DayNumber(Date(c.y + 400, c.m, c.d)) == DayNumber(c) + 146097
    ensures IsLeap(c.y + 400) <==> IsLeap(c.y)
    ensures DaysInMonth(c.y + 400, c.m) == DaysInMonth(c.y, c.m)
  {
    SameLeap(c.y);
    hide IsLeap;
    Quotients(c.y - 1);
  }

  lemma Quotients(n: int)
    ensures (n + 400) / 4 == n / 4 + 100 && (n + 400) / 100 == n / 100 + 4 && (n + 400) / 400 == n / 400 + 1
  {
  }

  lemma SameLeap(y: int)
    ensures IsLeap(y + 400) <==> IsLeap(y)
  {
    assert (y + 400) % 4 == y % 4;
    assert (y + 400) % 100 == y % 100;
    assert (y + 400) % 400 == y % 400;
  }
}
