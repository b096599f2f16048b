/** src/frontend/src/api/period-to-date-range.ts: the windows of the period picker, on local
    civil days. */
module PeriodRange {
  import opened Common
  import opened Calendar
  import opened ISODate

  const MAX_DATE_RANGE_DAYS := 400

  datatype Period = Week | Month | Quarter | Year

  datatype DateRange = DateRange(from: string, to: string)

  datatype Reason = InvalidDate | Inverted | TooLong | Future

  datatype Validation = Accepted(days: int) | Refused(reason: Reason)

  // ---- what a Date setter does with a month or a day outside its range ----

  /** Day `d` of month `monthIndex` (from 0) of year `y`, rolling over both. */
  function Rolled(y: int, monthIndex: int, d: int): (r: Date)
    ensures Valid(r)
  {
    AddDays(Date(y + monthIndex / 12, monthIndex % 12 + 1, 1), d - 1)
  }

  /** Days of a month that exists move from its first, and nothing else is the same day. */
  lemma RolledIs(y: int, monthIndex: int, d: int, first: Date, c: Date)
    requires first == Date(y + monthIndex / 12, monthIndex % 12 + 1, 1)
    requires Valid(c) && DayNumber(c) == DayNumber(first) + d - 1
    ensures Rolled(y, monthIndex, d) == c
  {
    AddDaysIs(first, d - 1, c);
  }

  lemma RolledInRange(c: Date, k: int)
    requires Valid(c)
    ensures Rolled(c.y, c.m - 1, c.d + k) == AddDays(c, k)
  {
    AddDaysNumber(c, k);
    RolledIs(c.y, c.m - 1, c.d + k, Date(c.y, c.m, 1), AddDays(c, k));
  }

  /** Day 0 of the next month is the last day of this one. */
  lemma DayZero(y: int, m: int)
    requires 1 <= m <= 12
    ensures Rolled(y, m, 0) == Date(y, m, DaysInMonth(y, m))
  {
    MonthLength(y, m);
    RolledIs(y, m, 0, if m == 12 then Date(y + 1, 1, 1) else Date(y, m + 1, 1), Date(y, m, DaysInMonth(y, m)));
  }

  // ---- the windows, on values ----

  function Min(a: int, b: int): int { if a < b then a else b }

  /** `months` earlier, clamped to the last day of the month that lands in. */
  function ClampMonths(c: Date, months: nat): (r: Date)
    requires Valid(c)
    ensures Valid(r)
  {
    var index := c.m - 1 - months;
    var y, m := c.y + index / 12, index % 12 + 1;
    Date(y, m, Min(c.d, DaysInMonth(y, m)))
  }

  /** The year before, with Feb 29 rolling over to Mar 1. */
  function YearBack(c: Date): (r: Date)
    requires Valid(c)
    ensures Valid(r)
  {
    Rolled(c.y - 1, c.m - 1, c.d)
  }

  /** One period of the kind `p` earlier. */
  function Shift(c: Date, p: Period): (r: Date)
    requires Valid(c)
    ensures Valid(r)
  {
    match p
    case Week => AddDays(c, -7)
    case Month => ClampMonths(c, 1)
    case Quarter => ClampMonths(c, 3)
    case Year => YearBack(c)
  }

  /** The first day of the preset window that ends on `last`. */
  function PresetStart(last: Date, p: Period): (r: Date)
    requires Valid(last)
    ensures Valid(r)
  {
    AddDays(Shift(last, p), 1)
  }

  function PresetRange(today: Date, p: Period): DateRange
    requires Valid(today)
  {
    var last := AddDays(today, -1);
    DateRange(ToISODate(PresetStart(last, p)), ToISODate(last))
  }

  function ShiftISO(iso: string, p: Period): string
    requires Parse(iso).Some?
  {
    ToISODate(Shift(Parse(iso).value, p))
  }

  /** Whole days from `a` to `b`, both included. */
  function Days(a: Date, b: Date): int
    requires Valid(a) && Valid(b)
  {
    DayNumber(b) - DayNumber(a) + 1
  }

  function PrecedingRange(range: DateRange): DateRange
    requires Parse(range.from).Some? && Parse(range.to).Some?
  {
    var from := Parse(range.from).value;
    var days := Days(from, Parse(range.to).value);
    DateRange(ToISODate(AddDays(from, -days)), ToISODate(AddDays(from, -1)))
  }

  function ComparisonRange(range: DateRange, p: Period, custom: bool): DateRange
    requires Parse(range.from).Some? && Parse(range.to).Some?
  {
    if custom then PrecedingRange(range) else DateRange(ShiftISO(range.from, p), ShiftISO(range.to, p))
  }

  function ValidateDateRange(range: DateRange, latest: Date): Validation
    requires Valid(latest)
  {
    var from, to := Parse(range.from), Parse(range.to);
    if from.None? || to.None? then Refused(InvalidDate)
    else if DayNumber(from.value) > DayNumber(to.value) then Refused(Inverted)
    else if DayNumber(to.value) > DayNumber(latest) then Refused(Future)
    else if Days(from.value, to.value) > MAX_DATE_RANGE_DAYS then Refused(TooLong)
    else Accepted(Days(from.value, to.value))
  }

  /** The later of the local and the UTC day. */
  function LatestPickableDay(localDay: Date, utcDay: Date): (r: Date)
    requires Valid(localDay) && Valid(utcDay)
    ensures Valid(r) && DayNumber(localDay) <= DayNumber(r)
  {
    if DayNumber(utcDay) > DayNumber(localDay) then utcDay else localDay
  }

  // ---- the source's form: Date objects whose setters roll over ----

  /** A local Date at midnight. */
  class LocalDate {
    var date: Date

    /** The constructor reads the years 0 to 99 as 1900 to 1999; nobody here asks it to. */
    constructor (y: int, monthIndex: int, d: int)
      requires y >= 100
      ensures date == Rolled(y, monthIndex, d)
    {
      date := Rolled(y, monthIndex, d);
    }

    constructor Copy(other: LocalDate)
      ensures date == other.date
    {
      date := other.date;
    }

    method SetDate(d: int)
      modifies this
      ensures date == Rolled(old(date).y, old(date).m - 1, d)
    {
      date := Rolled(date.y, date.m - 1, d);
    }

    method SetMonth(monthIndex: int)
      modifies this
      ensures date == Rolled(old(date).y, monthIndex, old(date).d)
    {
      date := Rolled(date.y, monthIndex, date.d);
    }

    method SetFullYear(y: int)
      modifies this
      ensures date == Rolled(y, old(date).m - 1, old(date).d)
    {
      date := Rolled(y, date.m - 1, date.d);
    }
  }

  /** The four settings of a clamped shift, one after the other. */
  lemma ClampSteps(c: Date, months: nat)
    requires Valid(c)
    ensures var r := ClampMonths(c, months);
            && Rolled(c.y, c.m - 1, 1) == Date(c.y, c.m, 1)
            && Rolled(c.y, c.m - 1 - months, 1) == Date(r.y, r.m, 1)
            && Rolled(r.y, r.m, 0) == Date(r.y, r.m, DaysInMonth(r.y, r.m))
            && Rolled(r.y, r.m - 1, r.d) == r
            && (months <= 12 ==> c.y - 1 <= r.y)
  {
    var r := ClampMonths(c, months);
    RolledInRange(Date(c.y, c.m, 1), 0);
    RolledIs(c.y, c.m - 1 - months, 1, Date(r.y, r.m, 1), Date(r.y, r.m, 1));
    DayZero(r.y, r.m);
    RolledInRange(r, 0);
  }

  /** Moves `out` to the same day `months` earlier, clamped; `SubtractMonths` and the shift of
      `PreviousPeriodRange` both take these steps. */
  method ClampBack(out: LocalDate, months: nat)
    requires Valid(out.date) && out.date.y >= 1000 && months <= 12
    modifies out
    ensures out.date == ClampMonths(old(out.date), months)
  {
    hide Rolled;
    ClampSteps(out.date, months);
    var targetMonth := out.date.m - 1 - months;
    var originalDay := out.date.d;
    out.SetDate(1);
    out.SetMonth(targetMonth);
    var endOfMonth := new LocalDate(out.date.y, out.date.m, 0);
    var lastDay := endOfMonth.date.d;
    out.SetDate(if originalDay < lastDay then originalDay else lastDay);
  }

  method SubtractMonths(d: LocalDate, months: nat) returns (out: LocalDate)
    requires Valid(d.date) && d.date.y >= 1000 && months <= 12
    ensures fresh(out) && out.date == ClampMonths(d.date, months)
  {
    out := new LocalDate.Copy(d);
    ClampBack(out, months);
  }

  method MoveDays(out: LocalDate, k: int)
    requires Valid(out.date)
    modifies out
    ensures out.date == AddDays(old(out.date), k)
  {
    RolledInRange(out.date, k);
    out.SetDate(out.date.d + k);
  }

  lemma Yesterday(c: Date)
    requires Valid(c)
    ensures c.y - 1 <= AddDays(c, -1).y
  {
    AddDaysNumber(c, -1);
    YearNearby(AddDays(c, -1), c);
  }

  /** The switch of `periodToDateRange`: the first day of the window that ends on `to`. */
  method StartOf(to: LocalDate, p: Period) returns (from: LocalDate)
    requires Valid(to.date) && to.date.y >= 1000
    ensures fresh(from) && from.date == PresetStart(to.date, p)
  {
    hide Rolled, AddDays, ClampMonths, DayNumber, Valid;
    if p.Week? {
      from := new LocalDate.Copy(to);
      MoveDays(from, -6);
      AddDaysAdds(to.date, -7, 1);
    } else if p.Month? {
      from := SubtractMonths(to, 1);
      MoveDays(from, 1);
    } else if p.Quarter? {
      from := SubtractMonths(to, 3);
      MoveDays(from, 1);
    } else {
      from := new LocalDate.Copy(to);
      from.SetFullYear(from.date.y - 1);
      MoveDays(from, 1);
    }
  }

  method PeriodToDateRange(today: LocalDate, p: Period) returns (range: DateRange)
    requires Valid(today.date) && today.date.y >= 1001
    ensures range == PresetRange(today.date, p)
  {
    hide AddDays, PresetStart, ToISODate;
    var to := new LocalDate.Copy(today);
    MoveDays(to, -1);
    Yesterday(today.date);
    var from := StartOf(to, p);
    return DateRange(ToISODate(from.date), ToISODate(to.date));
  }

  /** The shift of `previousPeriodRange`: its switch, on the Date it has just built. */
  method ShiftInPlace(out: LocalDate, p: Period)
    requires Valid(out.date) && out.date.y >= 1000
    modifies out
    ensures out.date == Shift(old(out.date), p)
  {
    hide Rolled, AddDays, ClampMonths, DayNumber, Valid;
    if p.Week? {
      MoveDays(out, -7);
    } else if p.Month? {
      ClampBack(out, 1);
    } else if p.Quarter? {
      ClampBack(out, 3);
    } else {
      out.SetFullYear(out.date.y - 1);
    }
  }

  method ShiftBack(iso: string, p: Period) returns (out: string)
    requires Parse(iso).Some? && Parse(iso).value.y >= 1000
    ensures out == ShiftISO(iso, p)
  {
    hide Parse, Shift, ToISODate;
    var c := Parse(iso).value;
    var date := new LocalDate(c.y, c.m - 1, c.d);
    RolledInRange(c, 0);
    ShiftInPlace(date, p);
    return ToISODate(date.date);
  }

  method PreviousPeriodRange(range: DateRange, p: Period) returns (previous: DateRange)
    requires Parse(range.from).Some? && Parse(range.from).value.y >= 1000
    requires Parse(range.to).Some? && Parse(range.to).value.y >= 1000
    ensures previous == ComparisonRange(range, p, false)
  {
    var from := ShiftBack(range.from, p);
    var to := ShiftBack(range.to, p);
    return DateRange(from, to);
  }

  lemma AddDaysAdds(c: Date, j: int, k: int)
    requires Valid(c)
    ensures AddDays(AddDays(c, j), k) == AddDays(c, j + k)
  {
    AddDaysNumber(c, j);
    AddDaysNumber(c, j + k);
    AddDaysIs(AddDays(c, j), k, AddDays(c, j + k));
  }

  lemma BeforeYearsEnd(c: Date)
    requires Valid(c)
    ensures DaysBeforeYear(c.y) < DayNumber(c) <= DaysBeforeYear(c.y) + (if IsLeap(c.y) then 366 else 365)
  {
    YearLength(c.y);
    MonthLength(c.y, 12);
    if c.m < 12 { MonthsAhead(c.y, c.m, 12); }
  }

  /** A year either way stays within a year of where it started. */
  lemma YearNearby(a: Date, b: Date)
    requires Valid(a) && Valid(b) && DayNumber(a) <= DayNumber(b) <= DayNumber(a) + 365
    ensures a.y <= b.y <= a.y + 1
  {
    DayNumberOrders(a, b);
    BeforeYearsEnd(a);
    BeforeYearsEnd(b);
    if b.y > a.y + 1 {
      YearsAhead(a.y, a.y + 1);
      YearsAhead(a.y + 1, b.y);
    }
  }
}
