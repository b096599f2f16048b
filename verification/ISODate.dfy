/** Printing and reading dates as the full-date of section 5.6 of RFC 3339. */
module ISODate {
  import opened Common
  import opened Calendar
  import opened Digits

  function Digit(n: int): char
    requires 0 <= n < 10
  {
    "0123456789"[n]
  }

  function Decimal(n: nat): string {
    if n < 10 then [Digit(n)] else Decimal(n / 10) + [Digit(n % 10)]
  }

  /** `String(n)` of an integer. */
  function Printed(n: int): string {
    if n < 0 then "-" + Decimal(-n) else Decimal(n)
  }

  /** `padStart(2, "0")`. */
  function Pad2(s: string): string {
    if |s| == 0 then "00" else if |s| == 1 then "0" + s else s
  }

  function ToISODate(c: Date): string {
    Printed(c.y) + "-" + Pad2(Printed(c.m)) + "-" + Pad2(Printed(c.d))
  }

  predicate LooksLikeDate(s: string) {
    && |s| == 10 && s[4] == '-' && s[7] == '-'
    && AllDigits(s[..4]) && AllDigits(s[5..7]) && AllDigits(s[8..])
  }

  /** A real calendar date, or none: the shape alone does not make `2026-02-30` one. */
  function Parse(s: string): (r: Option<Date>)
    ensures r.Some? ==> Valid(r.value)
  {
    if !LooksLikeDate(s) then None
    else
      var c := Date(Value(s[..4]), Value(s[5..7]), Value(s[8..]));
      if Valid(c) then Some(c) else None
  }

  lemma {:induction false} DecimalReads(n: nat)
    ensures AllDigits(Decimal(n)) && Value(Decimal(n)) == n && Decimal(n) != ""
  {
    if n >= 10 {
      DecimalReads(n / 10);
      assert Decimal(n)[..|Decimal(n)| - 1] == Decimal(n / 10);
    }
  }

  lemma DecimalWidth(n: nat)
    ensures |Decimal(n)| == 1 <==> n < 10
    ensures |Decimal(n)| == 2 <==> 10 <= n < 100
    ensures |Decimal(n)| == 3 <==> 100 <= n < 1000
    ensures |Decimal(n)| == 4 <==> 1000 <= n < 10000
  {
    DecimalReads(n / 10);
    DecimalReads(n / 100);
    DecimalReads(n / 1000);
    assert n >= 10 ==> |Decimal(n)| == 1 + |Decimal(n / 10)|;
    assert n / 10 / 10 == n / 100 && n / 100 / 10 == n / 1000;
    assert n >= 100 ==> |Decimal(n)| == 2 + |Decimal(n / 100)|;
    assert n >= 1000 ==> |Decimal(n)| == 3 + |Decimal(n / 1000)|;
    if n >= 10000 { assert |Decimal(n / 1000)| == 1 + |Decimal(n / 1000 / 10)|; DecimalReads(n / 1000 / 10); }
  }

  lemma Pad2Reads(n: int)
    requires 0 <= n < 100
    ensures var s := Pad2(Printed(n)); |s| == 2 && AllDigits(s) && Value(s) == n
  {
    DecimalReads(n);
    DecimalWidth(n);
    if n < 10 {
      var s := Pad2(Printed(n));
      assert s == ['0', Digit(n)];
      assert s[..1] == "0";
      assert Value("0") == 0;
    }
  }

  /** Reading a printed date gives it back exactly when its year has four digits. */
  lemma ParsePrinted(c: Date)
    requires Valid(c)
    ensures Parse(ToISODate(c)) == (if 1000 <= c.y <= 9999 then Some(c) else None)
  {
    var y, m, d := Printed(c.y), Pad2(Printed(c.m)), Pad2(Printed(c.d));
    var s := ToISODate(c);
    Pad2Reads(c.m);
    Pad2Reads(c.d);
    if c.y >= 0 { DecimalReads(c.y); DecimalWidth(c.y); }
    if 1000 <= c.y <= 9999 {
      assert s[..4] == y && s[5..7] == m && s[8..] == d;
    } else if c.y >= 0 {
      assert |s| == |y| + 6;
    } else {
      assert s[0] == '-';
      if |s| == 10 { assert s[..4][0] == '-'; }
    }
  }

  lemma {:induction false} DecimalOfValue(s: string)
    requires AllDigits(s) && |s| > 0 && (|s| == 1 || s[0] != '0')
    ensures Decimal(Value(s)) == s
    ensures |s| > 1 ==> Value(s) >= 10
  {
    var init, last := s[..|s| - 1], s[|s| - 1];
    assert s == init + [last];
    if |s| == 1 {
      OneDigit(last);
      assert s == [last];
    } else {
      DecimalOfValue(init);
      if |init| == 1 {
        OneDigit(init[0]);
        assert init == [init[0]];
      }
      DecimalSteps(Value(init), last);
      hide Decimal;
    }
  }

  lemma DecimalSteps(n: nat, last: char)
    requires IsDigit(last) && n > 0
    ensures Decimal(n * 10 + (last as int - '0' as int)) == Decimal(n) + [last]
  {
  }

  /** Printing a date that was read gives the text back, once its year does not start with 0. */
  lemma PrintParsed(s: string)
    requires Parse(s).Some?
    ensures s[0] != '0' ==> ToISODate(Parse(s).value) == s
  {
    if s[0] != '0' {
      DecimalOfValue(s[..4]);
      TwoDigits(s[5..7]);
      TwoDigits(s[8..]);
      assert s == s[..4] + [s[4]] + s[5..7] + [s[7]] + s[8..];
    }
  }

  lemma OneDigit(c: char)
    requires '0' <= c <= '9'
    ensures Value([c]) == c as int - '0' as int
  {
    assert [c][..0] == "";
  }

  lemma TwoDigits(s: string)
    requires |s| == 2 && AllDigits(s)
    ensures Pad2(Printed(Value(s))) == s
  {
    OneDigit(s[0]);
    assert s[..1] == [s[0]] && s == [s[0], s[1]];
    if s[0] == '0' {
      assert Value(s) == s[1] as int - '0' as int;
    } else {
      DecimalOfValue(s);
    }
  }

  function DigitOf(c: char): int { c as int - '0' as int }

  lemma FourDigitValue(s: string)
    requires |s| == 4 && AllDigits(s)
    ensures Value(s) == 1000 * DigitOf(s[0]) + 100 * DigitOf(s[1]) + 10 * DigitOf(s[2]) + DigitOf(s[3])
  {
    TwoDigitValue(s[..2]);
    assert s[..3][..2] == s[..2] && s[..4] == s && s[..4][..3] == s[..3];
    assert Value(s[..3]) == 10 * Value(s[..2]) + DigitOf(s[2]);
    assert Value(s) == 10 * Value(s[..3]) + DigitOf(s[3]);
  }

  lemma TwoDigitValue(s: string)
    requires |s| == 2 && AllDigits(s)
    ensures Value(s) == 10 * DigitOf(s[0]) + DigitOf(s[1])
  {
    OneDigit(s[0]);
    assert s[..1] == [s[0]];
  }

  /** A text reads as a date exactly if it is four, two and two digits with hyphens between, and they are the
      year, month and day of a real date. */
  lemma ParseMeans(s: string, c: Date)
    ensures Parse(s) == Some(c) <==>
              && |s| == 10 && s[4] == '-' && s[7] == '-'
              && (forall i :: 0 <= i < 10 && i != 4 && i != 7 ==> '0' <= s[i] <= '9')
              && c.y == 1000 * DigitOf(s[0]) + 100 * DigitOf(s[1]) + 10 * DigitOf(s[2]) + DigitOf(s[3])
              && c.m == 10 * DigitOf(s[5]) + DigitOf(s[6]) && c.d == 10 * DigitOf(s[8]) + DigitOf(s[9])
              && Valid(c)
  {
    hide DigitOf, Value, Valid;
    if LooksLikeDate(s) {
      FourDigitValue(s[..4]);
      TwoDigitValue(s[5..7]);
      TwoDigitValue(s[8..]);
      assert forall i :: 0 <= i < 4 ==> s[i] == s[..4][i];
      assert s[5] == s[5..7][0] && s[6] == s[5..7][1] && s[8] == s[8..][0] && s[9] == s[8..][1];
    }
  }
}
