/** What the period windows promise: presets that always validate and have the length of their
    name, comparison windows that end the day before and are never inverted. */
module PeriodRangeLaws {
  import opened Common
  import opened Calendar
  import opened ISODate
  import opened PeriodRange

  function MinDays(p: Period): int {
    match p case Week => 7 case Month => 28 case Quarter => 89 case Year => 365
  }

  function MaxDays(p: Period): int {
    match p case Week => 7 case Month => 31 case Quarter => 92 case Year => 366
  }

  function FirstOf(c: Date): Date { Date(c.y, c.m, 1) }

  function NextMonth(c: Date): Date {
    if c.m == 12 then Date(c.y + 1, 1, 1) else Date(c.y, c.m + 1, 1)
  }

  /** A clamped shift lands in the month that many months earlier, on the same day if that month has
      it and on its last day if not. */
  lemma ClampLandsOn(c: Date, months: nat)
    requires Valid(c)
    ensures var r := ClampMonths(c, months);
            && 12 * r.y + r.m == 12 * c.y + c.m - months
            && r.d == (if c.d <= DaysInMonth(r.y, r.m) then c.d else DaysInMonth(r.y, r.m))
  {
    MonthIndex(c.y, c.m - 1 - months);
  }

  /** A year back is the same day of the same month, except that Feb 29 becomes Mar 1. */
  lemma YearBackLandsOn(c: Date)
    requires Valid(c)
    ensures YearBack(c) == if c.m == 2 && c.d == 29 then Date(c.y - 1, 3, 1) else Date(c.y - 1, c.m, c.d)
  {
    hide DayNumber, IsLeap;
    var first := Date(c.y - 1, c.m, 1);
    if c.m == 2 && c.d == 29 {
      NoLeapBefore(c.y);
      MonthLength(c.y - 1, 2);
      RolledIs(c.y - 1, c.m - 1, c.d, first, Date(c.y - 1, 3, 1));
    } else {
      FromFirst(Date(c.y - 1, c.m, c.d));
      RolledIs(c.y - 1, c.m - 1, c.d, first, Date(c.y - 1, c.m, c.d));
    }
  }

  lemma NoLeapBefore(y: int)
    ensures IsLeap(y) ==> !IsLeap(y - 1)
  {
  }

  lemma ClampMonotone(a: Date, b: Date, months: nat)
    requires Valid(a) && Valid(b) && Le(a, b)
    ensures Le(ClampMonths(a, months), ClampMonths(b, months))
  {
    var i, j := a.m - 1 - months, b.m - 1 - months;
    var indexA, indexB := 12 * a.y + i, 12 * b.y + j;
    MonthIndex(a.y, i);
    MonthIndex(b.y, j);
    assert indexA <= indexB;
    assert indexA / 12 <= indexB / 12;
  }

  lemma MonthIndex(y: int, i: int)
    ensures y + i / 12 == (12 * y + i) / 12 && i % 12 == (12 * y + i) % 12
  {
  }

  lemma YearBackNumber(c: Date)
    requires Valid(c)
    ensures DayNumber(YearBack(c)) == DayNumber(Date(c.y - 1, c.m, 1)) + c.d - 1
  {
    hide DayNumber, AddDays;
    AddDaysNumber(Date(c.y - 1, c.m, 1), c.d - 1);
  }

  lemma NextMonthNumber(c: Date)
    requires 1 <= c.m <= 12
    ensures DayNumber(NextMonth(c)) == DayNumber(FirstOf(c)) + DaysInMonth(c.y, c.m)
  {
    MonthLength(c.y, c.m);
  }

  lemma FromFirst(c: Date)
    requires 1 <= c.m <= 12
    ensures DayNumber(c) == DayNumber(FirstOf(c)) + c.d - 1
  {
  }

  lemma MonthSpan(c: Date)
    requires Valid(c)
    ensures 28 <= DayNumber(c) - DayNumber(ClampMonths(c, 1)) <= 31
  {
    hide DayNumber;
    var r := ClampMonths(c, 1);
    assert NextMonth(r) == FirstOf(c);
    NextMonthNumber(r);
    FromFirst(c);
    FromFirst(r);
  }

  lemma QuarterTarget(c: Date)
    requires Valid(c)
    ensures NextMonth(NextMonth(NextMonth(ClampMonths(c, 3)))) == FirstOf(c)
  {
  }

  lemma QuarterSpan(c: Date)
    requires Valid(c)
    ensures 89 <= DayNumber(c) - DayNumber(ClampMonths(c, 3)) <= 92
  {
    hide DayNumber;
    QuarterTarget(c);
    var r := ClampMonths(c, 3);
    var one := NextMonth(r);
    var two := NextMonth(one);
    NextMonthNumber(r);
    NextMonthNumber(one);
    NextMonthNumber(two);
    FromFirst(c);
    FromFirst(r);
    hide ClampMonths;
    var days := DaysInMonth(r.y, r.m) + DaysInMonth(one.y, one.m) + DaysInMonth(two.y, two.m);
    assert DayNumber(FirstOf(c)) == DayNumber(FirstOf(r)) + days;
  }

  lemma YearSpan(c: Date)
    requires Valid(c)
    ensures 365 <= DayNumber(c) - DayNumber(YearBack(c)) <= 366
  {
    YearBackNumber(c);
    YearLength(c.y - 1);
  }

  /** Where one period back lands: the same weekday a week earlier; the same day one month or three months
      earlier, or that month's last; the same day a year earlier, or Mar 1 for Feb 29. */
  lemma ShiftLandsOn(c: Date, p: Period)
    requires Valid(c)
    ensures var r := Shift(c, p);
            match p
            case Week => DayNumber(r) == DayNumber(c) - 7
            case Year => r == if c.m == 2 && c.d == 29 then Date(c.y - 1, 3, 1) else Date(c.y - 1, c.m, c.d)
            case _ => && 12 * r.y + r.m == 12 * c.y + c.m - (if p.Month? then 1 else 3)
                      && r.d == (if c.d <= DaysInMonth(r.y, r.m) then c.d else DaysInMonth(r.y, r.m))
  {
    hide DayNumber, AddDays, YearBack, ClampMonths;
    match p
    case Week => AddDaysNumber(c, -7);
    case Month => ClampLandsOn(c, 1);
    case Quarter => ClampLandsOn(c, 3);
    case Year => YearBackLandsOn(c);
  }

  /** How far back one period reaches. */
  lemma ShiftLength(c: Date, p: Period)
    requires Valid(c)
    ensures MinDays(p) <= DayNumber(c) - DayNumber(Shift(c, p)) <= MaxDays(p)
  {
    hide DayNumber, ClampMonths, YearBack, AddDays;
    match p
    case Week => AddDaysNumber(c, -7);
    case Month => MonthSpan(c);
    case Quarter => QuarterSpan(c);
    case Year => YearSpan(c);
  }

  lemma YearBackMonotone(a: Date, b: Date)
    requires Valid(a) && Valid(b) && Le(a, b)
    ensures DayNumber(YearBack(a)) <= DayNumber(YearBack(b))
  {
    YearBackNumber(a);
    YearBackNumber(b);
    hide DayNumber, YearBack;
    if a.y != b.y || a.m != b.m { MonthBackGap(a, b); }
  }

  /** A month of the year before is as long, or a day shorter: what rolls over from its end does
      not pass the first of a later one. */
  lemma MonthBackGap(a: Date, b: Date)
    requires Valid(a) && Valid(b) && (a.y < b.y || (a.y == b.y && a.m < b.m))
    ensures DayNumber(Date(a.y - 1, a.m, 1)) + a.d - 1 <= DayNumber(Date(b.y - 1, b.m, 1))
  {
    hide DayNumber;
    var a', b' := Date(a.y - 1, a.m, 1), Date(b.y - 1, b.m, 1);
    NextMonthNumber(a');
    DayNumberOrders(NextMonth(a'), b');
    assert a.d - 1 <= DaysInMonth(a'.y, a'.m);
  }

  /** A later day is never shifted to an earlier one. */
  lemma ShiftMonotone(a: Date, b: Date, p: Period)
    requires Valid(a) && Valid(b) && DayNumber(a) <= DayNumber(b)
    ensures DayNumber(Shift(a, p)) <= DayNumber(Shift(b, p))
  {
    DayNumberOrders(a, b);
    hide DayNumber, ClampMonths, YearBack, AddDays, Le, Valid;
    match p
    case Week =>
      AddDaysNumber(a, -7);
      AddDaysNumber(b, -7);
    case Month =>
      ClampMonotone(a, b, 1);
      DayNumberOrders(ClampMonths(a, 1), ClampMonths(b, 1));
    case Quarter =>
      ClampMonotone(a, b, 3);
      DayNumberOrders(ClampMonths(a, 3), ClampMonths(b, 3));
    case Year => YearBackMonotone(a, b);
  }

  predicate FourDigits(c: Date) { 1000 <= c.y <= 9999 }

  /** The days of a preset window lie in the range its name says. */
  lemma PresetLength(last: Date, p: Period)
    requires Valid(last)
    ensures MinDays(p) <= Days(PresetStart(last, p), last) <= MaxDays(p)
  {
    hide DayNumber, Shift, AddDays;
    ShiftLength(last, p);
    AddDaysNumber(Shift(last, p), 1);
  }

  /** A preset runs from the day after that up to yesterday. */
  lemma PresetWindow(today: Date, p: Period)
    requires Valid(today)
    requires FourDigits(AddDays(today, -1)) && FourDigits(PresetStart(AddDays(today, -1), p))
    ensures var range := PresetRange(today, p);
            && Parse(range.from).Some? && Parse(range.to).Some?
            && DayNumber(Parse(range.to).value) == DayNumber(today) - 1
            && DayNumber(Parse(range.from).value) == DayNumber(Shift(Parse(range.to).value, p)) + 1
  {
    hide DayNumber, Shift, AddDays, ToISODate, Parse, Valid;
    var last := AddDays(today, -1);
    AddDaysNumber(today, -1);
    AddDaysNumber(Shift(last, p), 1);
    ParsePrinted(last);
    ParsePrinted(PresetStart(last, p));
  }

  /** The verdicts, in days. Two real dates are inverted, in the future or too long in this order: `from` after
      `to`, `to` after the latest day, more than 400 days with both ends counted; all else is accepted, with
      that count. A text that is no date is refused before anything else. */
  lemma Verdicts(range: DateRange, latest: Date, from: Date, to: Date)
    requires Valid(latest)
    ensures (ValidateDateRange(range, latest) == Refused(InvalidDate) <==>
               Parse(range.from).None? || Parse(range.to).None?)
    ensures Parse(range.from) == Some(from) && Parse(range.to) == Some(to) ==>
              var verdict, days := ValidateDateRange(range, latest), DayNumber(to) - DayNumber(from) + 1;
              && (verdict == Refused(Inverted) <==> !Le(from, to))
              && (verdict == Refused(Future) <==> Le(from, to) && !Le(to, latest))
              && (verdict == Refused(TooLong) <==> Le(from, to) && Le(to, latest) && days > 400)
              && (verdict.Accepted? <==> Le(from, to) && Le(to, latest) && days <= 400)
              && (verdict.Accepted? ==> verdict.days == days)
  {
    hide DayNumber, Parse, Le, Valid;
    if Parse(range.from) == Some(from) && Parse(range.to) == Some(to) {
      DayNumberOrders(from, to);
      DayNumberOrders(to, latest);
    }
  }

  /** The latest day that can be picked is the local one or the UTC one, and neither is later. */
  lemma LatestIsTheLater(localDay: Date, utcDay: Date)
    requires Valid(localDay) && Valid(utcDay)
    ensures var latest := LatestPickableDay(localDay, utcDay);
            && latest in {localDay, utcDay} && Le(localDay, latest) && Le(utcDay, latest)
  {
    hide DayNumber, Le;
    DayNumberOrders(localDay, utcDay);
    DayNumberOrders(utcDay, localDay);
    DayNumberOrders(localDay, localDay);
    DayNumberOrders(utcDay, utcDay);
  }

  /** What validation makes of two printed dates. */
  lemma ValidatePrinted(from: Date, to: Date, latest: Date)
    requires Valid(from) && Valid(to) && Valid(latest)
    requires 1 <= Days(from, to) <= MAX_DATE_RANGE_DAYS && DayNumber(to) <= DayNumber(latest)
    ensures ValidateDateRange(DateRange(ToISODate(from), ToISODate(to)), latest)
            == if FourDigits(from) && FourDigits(to) then Accepted(Days(from, to)) else Refused(InvalidDate)
  {
    hide DayNumber, ToISODate, Parse, Valid;
    ParsePrinted(from);
    ParsePrinted(to);
  }

  /** Whatever the day, every preset window is accepted, with a length its name allows; it is
      refused only where a year does not have four digits. */
  lemma PresetIsAccepted(today: Date, utcDay: Date, p: Period)
    requires Valid(today) && Valid(utcDay)
    ensures var last := AddDays(today, -1);
            var days := Days(PresetStart(last, p), last);
            && MinDays(p) <= days <= MaxDays(p)
            && ValidateDateRange(PresetRange(today, p), LatestPickableDay(today, utcDay))
               == if FourDigits(PresetStart(last, p)) && FourDigits(last) then Accepted(days) else Refused(InvalidDate)
  {
    hide DayNumber, AddDays, PresetStart, ToISODate, ValidateDateRange, Valid;
    var last := AddDays(today, -1);
    AddDaysNumber(today, -1);
    PresetLength(last, p);
    ValidatePrinted(PresetStart(last, p), last, LatestPickableDay(today, utcDay));
  }

  /** The window compared with a preset ends the day before it starts and has itself a length the
      preset's name allows, despite clamped months and Feb 29. */
  lemma ComparisonEndsTheDayBefore(today: Date, utcDay: Date, p: Period)
    requires Valid(today) && Valid(utcDay)
    requires var last := AddDays(today, -1);
             FourDigits(last) && FourDigits(PresetStart(last, p)) && FourDigits(Shift(PresetStart(last, p), p))
    ensures var last := AddDays(today, -1);
            var from := PresetStart(last, p);
            var range := PresetRange(today, p);
            && Parse(range.from) == Some(from) && Parse(range.to) == Some(last)
            && var comparison := ComparisonRange(range, p, false);
            && Parse(comparison.to) == Some(AddDays(from, -1))
            && Parse(comparison.from) == Some(Shift(from, p))
            && MinDays(p) <= Days(Shift(from, p), AddDays(from, -1)) <= MaxDays(p)
  {
    hide DayNumber, AddDays, Shift, ToISODate, Parse, Valid;
    var last := AddDays(today, -1);
    var from := PresetStart(last, p);
    ParsePrinted(from);
    ParsePrinted(last);
    assert AddDays(from, -1) == Shift(last, p) by {
      AddDaysNumber(Shift(last, p), 1);
      AddDaysIs(from, -1, Shift(last, p));
    }
    ShiftLength(from, p);
    ShiftLength(last, p);
    AddDaysNumber(from, -1);
    YearBetween(Shift(from, p), Shift(last, p), last);
    ParsePrinted(Shift(from, p));
    ParsePrinted(Shift(last, p));
  }

  lemma YearBetween(a: Date, b: Date, c: Date)
    requires Valid(a) && Valid(b) && Valid(c) && DayNumber(a) <= DayNumber(b) <= DayNumber(c)
    ensures a.y <= b.y <= c.y
  {
    DayNumberOrders(a, b);
    DayNumberOrders(b, c);
  }

  /** Shifting any window back by a period shifts both ends, and never inverts it. */
  lemma ShiftedRangeIsNotInverted(range: DateRange, p: Period)
    requires Parse(range.from).Some? && Parse(range.to).Some?
    requires DayNumber(Parse(range.from).value) <= DayNumber(Parse(range.to).value)
    requires FourDigits(Shift(Parse(range.from).value, p)) && FourDigits(Parse(range.to).value)
    ensures var comparison := ComparisonRange(range, p, false);
            && Parse(comparison.from) == Some(Shift(Parse(range.from).value, p))
            && Parse(comparison.to) == Some(Shift(Parse(range.to).value, p))
            && DayNumber(Parse(comparison.from).value) <= DayNumber(Parse(comparison.to).value)
  {
    hide DayNumber, Shift, ToISODate, Parse, Valid;
    var from, to := Parse(range.from).value, Parse(range.to).value;
    ShiftMonotone(from, to, p);
    ShiftLength(to, p);
    YearBetween(Shift(from, p), Shift(to, p), to);
    ParsePrinted(Shift(from, p));
    ParsePrinted(Shift(to, p));
  }

  /** The window compared with an accepted custom one ends the day before it starts, has the same
      number of days, and is accepted too. */
  lemma CustomComparison(range: DateRange, latest: Date, p: Period)
    requires Valid(latest) && ValidateDateRange(range, latest).Accepted?
    requires var from := Parse(range.from).value;
             FourDigits(AddDays(from, -ValidateDateRange(range, latest).days)) && FourDigits(from)
    ensures var comparison := ComparisonRange(range, p, true);
            && Parse(comparison.to) == Some(AddDays(Parse(range.from).value, -1))
            && ValidateDateRange(comparison, latest) == ValidateDateRange(range, latest)
  {
    hide DayNumber, AddDays, ToISODate, Parse, Valid;
    var from := Parse(range.from).value;
    var days := ValidateDateRange(range, latest).days;
    var start, end := AddDays(from, -days), AddDays(from, -1);
    AddDaysNumber(from, -days);
    AddDaysNumber(from, -1);
    YearBetween(start, end, from);
    ParsePrinted(end);
    ValidatePrinted(start, end, latest);
  }
}
