/** The promises of the evidence order: it is the one sorted arrangement of its rows, blanks come
    last whichever way the column runs, and digits sort as numbers. */
module EvidenceOrderLaws {
  import opened Digits
  import opened EvidenceOrder

  /** No two rows share a tiebreaker. */
  ghost predicate DistinctTiebreaks(rows: seq<Row>) {
    forall i, j :: 0 <= i < j < |rows| ==> rows[i].tiebreak != rows[j].tiebreak
  }

  ghost predicate SortedRows(rows: seq<Row>, column: Column, d: Direction, numberOf: string -> real) {
    forall i, j :: 0 <= i < j < |rows| ==> CompareRows(rows[i], rows[j], column, d, numberOf) <= 0
  }

  // ---- text ----

  /** `trim`: what is left between the spaces at both ends. */
  lemma {:induction false} TrimIsTheMiddle(s: string) returns (i: nat, j: nat)
    ensures i <= j <= |s| && Trim(s) == s[i..j]
    ensures forall k :: 0 <= k < i || j <= k < |s| ==> IsSpace(s[k])
    ensures i < j ==> !IsSpace(s[i]) && !IsSpace(s[j - 1])
  {
    i := TrimLeftDrops(s);
    var n := TrimRightDrops(s[i..]);
    j := i + n;
    assert s[i..][..n] == s[i..j];
    assert forall k :: i <= k < |s| ==> s[k] == s[i..][k - i];
    if i == |s| { assert j == i; }
  }

  /** The spaces of ECMAScript's trim, by code point. */
  lemma SpacesAre(c: char)
    ensures IsSpace(c) <==>
              || c as int in {9, 10, 11, 12, 13, 32, 160, 5760, 8232, 8233, 8239, 8287, 12288, 65279}
              || 8192 <= c as int <= 8202
  {
  }

  /** A cell is blank exactly if it holds nothing but spaces. */
  lemma BlankMeans(row: Row, column: Column)
    ensures var text := if column.key in row.cells then row.cells[column.key] else "";
            IsBlank(row, column) <==> forall k :: 0 <= k < |text| ==> IsSpace(text[k])
  {
    hide Trim, IsSpace;
    var i, j := TrimIsTheMiddle(CellText(row, column.key));
  }

  lemma {:induction false} TrimLeftDrops(s: string) returns (i: nat)
    ensures i <= |s| && TrimLeft(s) == s[i..] && (forall k :: 0 <= k < i ==> IsSpace(s[k]))
    ensures i < |s| ==> !IsSpace(s[i])
  {
    hide IsSpace;
    if s != "" && IsSpace(s[0]) {
      var n := TrimLeftDrops(s[1..]);
      i := n + 1;
      assert s[1..][n..] == s[i..];
      assert forall k :: 0 < k < |s| ==> s[k] == s[1..][k - 1];
    } else {
      i := 0;
      assert s[0..] == s;
    }
  }

  lemma {:induction false} TrimRightDrops(s: string) returns (j: nat)
    ensures j <= |s| && TrimRight(s) == s[..j] && (forall k :: j <= k < |s| ==> IsSpace(s[k]))
    ensures j > 0 ==> !IsSpace(s[j - 1])
    ensures |s| > 0 && !IsSpace(s[0]) ==> j > 0
  {
    hide IsSpace;
    if s != "" && IsSpace(s[|s| - 1]) {
      j := TrimRightDrops(s[..|s| - 1]);
      assert s[..|s| - 1][..j] == s[..j];
    } else {
      j := |s|;
      assert s[..|s|] == s;
    }
  }

  /** `<` on strings: at the first place where they differ, or where the left one ends. */
  lemma {:induction false} LessMeans(a: string, b: string)
    ensures Less(a, b) <==> exists k :: 0 <= k < |b| && k <= |a| && a[..k] == b[..k] && (k == |a| || a[k] < b[k])
  {
    if a != "" && b != "" {
      LessMeans(a[1..], b[1..]);
      if k :| 0 <= k < |b[1..]| && k <= |a[1..]| && a[1..][..k] == b[1..][..k]
              && (k == |a[1..]| || a[1..][k] < b[1..][k])
      {
        if a[0] == b[0] {
          assert a[..k + 1] == [a[0]] + a[1..][..k] && b[..k + 1] == [b[0]] + b[1..][..k];
        }
      }
      if k :| 0 <= k < |b| && k <= |a| && a[..k] == b[..k] && (k == |a| || a[k] < b[k]) {
        if k > 0 {
          assert a[..k][0] == b[..k][0];
          assert a[1..][..k - 1] == a[..k][1..] && b[1..][..k - 1] == b[..k][1..];
        }
      }
      if a[0] < b[0] { assert a[..0] == b[..0]; }
    } else if b != "" {
      assert a[..0] == b[..0];
    }
  }

  // ---- the sort ----

  lemma {:induction false} InsertKeeps(row: Row, rows: seq<Row>, column: Column, d: Direction, numberOf: string -> real)
    ensures multiset(Insert(row, rows, column, d, numberOf)) == multiset([row]) + multiset(rows)
  {
    hide CompareRows;
    if rows != [] {
      assert rows == [rows[0]] + rows[1..];
      InsertKeeps(row, rows[1..], column, d, numberOf);
    }
  }

  /** `a` may stand before every row of `rows`. */
  ghost predicate Leads(a: Row, rows: seq<Row>, column: Column, d: Direction, numberOf: string -> real) {
    forall b :: b in rows ==> CompareRows(a, b, column, d, numberOf) <= 0
  }

  lemma SortedCons(a: Row, rows: seq<Row>, column: Column, d: Direction, numberOf: string -> real)
    requires SortedRows(rows, column, d, numberOf) && Leads(a, rows, column, d, numberOf)
    ensures SortedRows([a] + rows, column, d, numberOf)
  {
    hide CompareRows;
  }

  lemma SortedTail(rows: seq<Row>, column: Column, d: Direction, numberOf: string -> real)
    requires SortedRows(rows, column, d, numberOf) && rows != []
    ensures SortedRows(rows[1..], column, d, numberOf) && Leads(rows[0], rows[1..], column, d, numberOf)
  {
    hide CompareRows;
  }

  lemma {:induction false} InsertSorts(row: Row, rows: seq<Row>, column: Column, d: Direction, numberOf: string -> real)
    requires SortedRows(rows, column, d, numberOf)
    ensures SortedRows(Insert(row, rows, column, d, numberOf), column, d, numberOf)
  {
    hide CompareRows;
    if rows != [] {
      SortedTail(rows, column, d, numberOf);
      hide SortedRows;
      CompareRowsOrders(row, rows[0], row, column, d, numberOf);
      if CompareRows(row, rows[0], column, d, numberOf) <= 0 {
        forall b | b in rows ensures CompareRows(row, b, column, d, numberOf) <= 0 {
          CompareRowsOrders(row, rows[0], b, column, d, numberOf);
        }
        SortedCons(row, rows, column, d, numberOf);
      } else {
        InsertSorts(row, rows[1..], column, d, numberOf);
        var tail := Insert(row, rows[1..], column, d, numberOf);
        InsertKeeps(row, rows[1..], column, d, numberOf);
        forall b | b in tail ensures CompareRows(rows[0], b, column, d, numberOf) <= 0 {
          assert b in multiset(tail);
        }
        SortedCons(rows[0], tail, column, d, numberOf);
      }
    }
  }

  /** `ordered` neither loses nor invents a row and leaves them sorted. */
  lemma {:induction false} OrderedSorts(rows: seq<Row>, column: Column, d: Direction, numberOf: string -> real)
    ensures var r := Ordered(rows, column, d, numberOf);
            SortedRows(r, column, d, numberOf) && multiset(r) == multiset(rows)
  {
    if rows != [] {
      OrderedSorts(rows[1..], column, d, numberOf);
      InsertSorts(rows[0], Ordered(rows[1..], column, d, numberOf), column, d, numberOf);
      InsertKeeps(rows[0], Ordered(rows[1..], column, d, numberOf), column, d, numberOf);
      assert rows == [rows[0]] + rows[1..];
    }
  }

  /** Rows with the same tiebreaker are one row. */
  ghost predicate TiebreaksIdentify(rows: multiset<Row>) {
    forall a, b :: a in rows && b in rows && a.tiebreak == b.tiebreak ==> a == b
  }

  lemma DistinctIdentify(rows: seq<Row>)
    requires DistinctTiebreaks(rows)
    ensures TiebreaksIdentify(multiset(rows))
  {
    forall a, b | a in multiset(rows) && b in multiset(rows) && a.tiebreak == b.tiebreak ensures a == b {
      var i :| 0 <= i < |rows| && rows[i] == a;
      var j :| 0 <= j < |rows| && rows[j] == b;
    }
  }

  lemma HeadsAgree(a: seq<Row>, b: seq<Row>, column: Column, d: Direction, numberOf: string -> real)
    requires SortedRows(a, column, d, numberOf) && SortedRows(b, column, d, numberOf)
    requires multiset(a) == multiset(b) && TiebreaksIdentify(multiset(a)) && a != [] && b != []
    ensures a[0] == b[0]
  {
    hide CompareRows;
    assert a[0] in multiset(a) && b[0] in multiset(b);
    var i :| 0 <= i < |b| && b[i] == a[0];
    var j :| 0 <= j < |a| && a[j] == b[0];
    CompareRowsOrders(a[0], b[0], a[0], column, d, numberOf);
  }

  lemma TailsAgree(a: seq<Row>, b: seq<Row>)
    requires a != [] && b != [] && a[0] == b[0] && multiset(a) == multiset(b) && TiebreaksIdentify(multiset(a))
    ensures multiset(a[1..]) == multiset(b[1..]) && TiebreaksIdentify(multiset(a[1..]))
    ensures a == [a[0]] + a[1..] && b == [b[0]] + b[1..]
  {
    assert a == [a[0]] + a[1..] && b == [b[0]] + b[1..];
    assert multiset(a) == multiset([a[0]]) + multiset(a[1..]);
    assert multiset(b) == multiset([b[0]]) + multiset(b[1..]);
    assert multiset(a[1..]) == multiset(a) - multiset([a[0]]);
    forall x | x in multiset(a[1..]) ensures x in multiset(a) {}
  }

  /** Such rows have one sorted arrangement only. */
  lemma {:induction false} SortedOnce(a: seq<Row>, b: seq<Row>, column: Column, d: Direction, numberOf: string -> real)
    requires SortedRows(a, column, d, numberOf) && SortedRows(b, column, d, numberOf)
    requires multiset(a) == multiset(b) && TiebreaksIdentify(multiset(a))
    ensures a == b
  {
    hide CompareRows;
    assert |a| == |multiset(a)| == |multiset(b)| == |b|;
    if a != [] {
      HeadsAgree(a, b, column, d, numberOf);
      SortedTail(a, column, d, numberOf);
      SortedTail(b, column, d, numberOf);
      TailsAgree(a, b);
      hide SortedRows, TiebreaksIdentify;
      SortedOnce(a[1..], b[1..], column, d, numberOf);
    }
  }

  // ---- blanks last, both ways ----

  function Reverse(rows: seq<Row>): seq<Row> {
    if rows == [] then [] else Reverse(rows[1..]) + [rows[0]]
  }

  lemma {:induction false} ReverseKeeps(rows: seq<Row>)
    ensures multiset(Reverse(rows)) == multiset(rows)
  {
    if rows != [] {
      ReverseKeeps(rows[1..]);
      assert rows == [rows[0]] + rows[1..];
    }
  }

  lemma {:induction false} ReverseAt(rows: seq<Row>)
    ensures |Reverse(rows)| == |rows|
    ensures forall i :: 0 <= i < |rows| ==> Reverse(rows)[i] == rows[|rows| - 1 - i]
  {
    if rows != [] { ReverseAt(rows[1..]); }
  }

  function Filled(rows: seq<Row>, column: Column): seq<Row> {
    if rows == [] then [] else (if IsBlank(rows[0], column) then [] else [rows[0]]) + Filled(rows[1..], column)
  }

  function Blanks(rows: seq<Row>, column: Column): seq<Row> {
    if rows == [] then [] else (if IsBlank(rows[0], column) then [rows[0]] else []) + Blanks(rows[1..], column)
  }

  lemma BlankAfterFilled(a: Row, b: Row, column: Column, d: Direction, numberOf: string -> real)
    requires IsBlank(a, column) && CompareRows(a, b, column, d, numberOf) <= 0
    ensures IsBlank(b, column)
  {
  }

  /** A sorted list is its filled rows and then its blank ones. */
  lemma {:induction false} BlanksComeLast(rows: seq<Row>, column: Column, d: Direction, numberOf: string -> real)
    requires SortedRows(rows, column, d, numberOf)
    ensures rows == Filled(rows, column) + Blanks(rows, column)
    ensures forall i :: 0 <= i < |Filled(rows, column)| ==> !IsBlank(Filled(rows, column)[i], column)
    ensures forall i :: 0 <= i < |Blanks(rows, column)| ==> IsBlank(Blanks(rows, column)[i], column)
  {
    hide CompareRows, IsBlank;
    if rows != [] {
      SortedTail(rows, column, d, numberOf);
      hide SortedRows;
      BlanksComeLast(rows[1..], column, d, numberOf);
      if IsBlank(rows[0], column) && Filled(rows[1..], column) != [] {
        assert rows[1] == rows[1..][0] == Filled(rows[1..], column)[0];
        BlankAfterFilled(rows[0], rows[1], column, d, numberOf);
      }
      assert rows == [rows[0]] + rows[1..];
    }
  }

  lemma CompareOtherWay(a: Row, b: Row, column: Column, numberOf: string -> real)
    requires IsBlank(a, column) == IsBlank(b, column)
    ensures CompareRows(a, b, column, Desc, numberOf) == -CompareRows(a, b, column, Asc, numberOf)
  {
  }

  lemma ReversedBlock(rows: seq<Row>, column: Column, numberOf: string -> real, blank: bool)
    requires SortedRows(rows, column, Asc, numberOf)
    requires forall i :: 0 <= i < |rows| ==> IsBlank(rows[i], column) == blank
    ensures SortedRows(Reverse(rows), column, Desc, numberOf)
  {
    ReverseAt(rows);
    var r := Reverse(rows);
    forall i, j | 0 <= i < j < |r| ensures CompareRows(r[i], r[j], column, Desc, numberOf) <= 0 {
      var a, b := rows[|rows| - 1 - j], rows[|rows| - 1 - i];
      assert CompareRows(a, b, column, Asc, numberOf) <= 0;
      CompareOtherWay(a, b, column, numberOf);
      CompareRowsOrders(a, b, a, column, Desc, numberOf);
    }
  }

  lemma SortedBlocks(filled: seq<Row>, blanks: seq<Row>, column: Column, numberOf: string -> real)
    requires SortedRows(filled + blanks, column, Asc, numberOf)
    requires forall i :: 0 <= i < |filled| ==> !IsBlank(filled[i], column)
    requires forall i :: 0 <= i < |blanks| ==> IsBlank(blanks[i], column)
    ensures SortedRows(Reverse(filled) + Reverse(blanks), column, Desc, numberOf)
    ensures multiset(Reverse(filled) + Reverse(blanks)) == multiset(filled + blanks)
  {
    var up := filled + blanks;
    assert SortedRows(filled, column, Asc, numberOf) by {
      hide CompareRows;
      assert filled == up[..|filled|];
    }
    assert SortedRows(blanks, column, Asc, numberOf) by {
      hide CompareRows;
      assert blanks == up[|filled|..];
    }
    ReversedBlock(filled, column, numberOf, false);
    ReversedBlock(blanks, column, numberOf, true);
    ReverseKeeps(filled);
    ReverseKeeps(blanks);
    ReverseAt(filled);
    ReverseAt(blanks);
    hide Reverse, IsBlank, CompareRows;
    var turned := Reverse(filled) + Reverse(blanks);
    forall i, j | 0 <= i < j < |turned| ensures CompareRows(turned[i], turned[j], column, Desc, numberOf) <= 0 {
      if i < |filled| <= j { FilledBeforeBlank(turned[i], turned[j], column, numberOf); }
    }
  }

  lemma FilledBeforeBlank(a: Row, b: Row, column: Column, numberOf: string -> real)
    requires !IsBlank(a, column) && IsBlank(b, column)
    ensures CompareRows(a, b, column, Desc, numberOf) <= 0
  {
  }

  /** Turning the direction round reverses the filled rows and the blank ones each in their own
      place: blanks are last either way, and the tiebreaker turns with the key. */
  lemma DescendingReversesBothBlocks(rows: seq<Row>, column: Column, numberOf: string -> real)
    requires DistinctTiebreaks(rows)
    ensures var up := Ordered(rows, column, Asc, numberOf);
            && up == Filled(up, column) + Blanks(up, column)
            && Ordered(rows, column, Desc, numberOf) == Reverse(Filled(up, column)) + Reverse(Blanks(up, column))
  {
    var up, down := Ordered(rows, column, Asc, numberOf), Ordered(rows, column, Desc, numberOf);
    OrderedSorts(rows, column, Asc, numberOf);
    OrderedSorts(rows, column, Desc, numberOf);
    BlanksComeLast(up, column, Asc, numberOf);
    var filled, blanks := Filled(up, column), Blanks(up, column);
    hide CompareRows, SortedRows, IsBlank, Filled, Blanks, Ordered, Reverse;
    SortedBlocks(filled, blanks, column, numberOf);
    DistinctIdentify(rows);
    var turned := Reverse(filled) + Reverse(blanks);
    SortedOnce(down, turned, column, Desc, numberOf);
  }

  // ---- digits sort as numbers ----

  lemma {:induction false} PadStartReads(s: string, width: nat)
    requires AllDigits(s)
    ensures var p := PadStart(s, width);
            AllDigits(p) && Value(p) == Value(s) && |p| == if |s| < width then width else |s|
    decreases width - |s|
  {
    if |s| < width {
      ZeroInFront(s);
      PadStartReads("0" + s, width);
    }
  }

  lemma {:induction false} ZeroInFront(s: string)
    requires AllDigits(s)
    ensures AllDigits("0" + s) && Value("0" + s) == Value(s)
  {
    var z := "0" + s;
    if s == "" {
      assert z[..0] == "" && Value(z) == 0;
    } else {
      ZeroInFront(s[..|s| - 1]);
      assert z[..|z| - 1] == "0" + s[..|s| - 1];
    }
  }

  /** Of two strings of one length, the last character decides only between equal beginnings. */
  lemma {:induction false} LessByInit(a: string, b: string)
    requires |a| == |b| > 0
    ensures var i := |a| - 1;
            Less(a, b) <==> Less(a[..i], b[..i]) || (a[..i] == b[..i] && a[i] < b[i])
  {
    var i := |a| - 1;
    if i > 0 {
      LessByInit(a[1..], b[1..]);
      assert a[1..][..i - 1] == a[..i][1..] && b[1..][..i - 1] == b[..i][1..];
      assert a[..i] == [a[0]] + a[..i][1..] && b[..i] == [b[0]] + b[..i][1..];
    }
  }

  lemma {:induction false} LessIsNumeric(a: string, b: string)
    requires |a| == |b| && AllDigits(a) && AllDigits(b)
    ensures Less(a, b) <==> Value(a) < Value(b)
    ensures a == b <==> Value(a) == Value(b)
  {
    if a != "" {
      var i := |a| - 1;
      LessByInit(a, b);
      LessIsNumeric(a[..i], b[..i]);
      assert a == a[..i] + [a[i]] && b == b[..i] + [b[i]];
    }
  }

  /** A cell that shows a number of at most `n` digits. */
  predicate IsNumeral(text: string, n: nat) {
    Trim(text) != "" && AllDigits(Trim(text)) && |Trim(text)| <= n
  }

  /** The key of such a cell, up to 20 digits, has 20 and spells the same number: shorter ones are
      padded to 20 and one of 20 is that wide already. */
  lemma KeyOfNumeral(text: string)
    requires IsNumeral(text, 20)
    ensures var k := NaturalKey(text);
            |k| == 20 && AllDigits(k) && Value(k) == Value(Trim(text))
  {
    PadStartReads(Trim(text), 20);
  }

  /** On cells of at most 20 digits the order of the keys is the order of the numbers, however many
      digits or leading zeros they are written with. */
  lemma NaturalKeyIsNumeric(a: string, b: string)
    requires IsNumeral(a, 20) && IsNumeral(b, 20)
    ensures CompareText(NaturalKey(a), NaturalKey(b)) < 0 <==> Value(Trim(a)) < Value(Trim(b))
    ensures CompareText(NaturalKey(a), NaturalKey(b)) == 0 <==> Value(Trim(a)) == Value(Trim(b))
  {
    KeyOfNumeral(a);
    KeyOfNumeral(b);
    LessIsNumeric(NaturalKey(a), NaturalKey(b));
    LessIsNumeric(NaturalKey(b), NaturalKey(a));
    CompareTextOrders(NaturalKey(a), NaturalKey(b), "");
  }

  function Zeros(n: nat): string {
    if n == 0 then "" else Zeros(n - 1) + "0"
  }

  lemma {:induction false} ZerosAre(n: nat)
    ensures |Zeros(n)| == n && AllDigits(Zeros(n))
  {
    if n > 0 { ZerosAre(n - 1); }
  }

  lemma {:induction false} LeadingThenZeros(c: char, n: nat)
    requires IsDigit(c)
    ensures var s := [c] + Zeros(n);
            |s| == n + 1 && AllDigits(s) && Value(s) == (c as int - '0' as int) * Ten(n)
  {
    ZerosAre(n);
    var s := [c] + Zeros(n);
    if n == 0 {
      assert s[..0] == "" && s == [c];
    } else {
      LeadingThenZeros(c, n - 1);
      assert s[..|s| - 1] == [c] + Zeros(n - 1);
    }
  }

  function Ten(n: nat): (r: nat)
    ensures r > 0
  {
    if n == 0 then 1 else 10 * Ten(n - 1)
  }

  lemma {:induction false} TenGrows(m: nat, n: nat)
    requires m <= n
    ensures Ten(m) <= Ten(n)
  {
    if m < n { TenGrows(m, n - 1); }
  }

  lemma {:induction false} TrimOfDigits(s: string)
    requires AllDigits(s)
    ensures Trim(s) == s
  {
  }

  /** A number of any 21 digits or more that goes before a smaller one of 20. */
  lemma LongDigitsAreText(n: nat)
    requires n >= 21
    ensures var large, small := "1" + Zeros(n - 1), "2" + Zeros(19);
            && IsNumeral(large, n) && |Trim(large)| == n && IsNumeral(small, 20)
            && Value(Trim(large)) > Value(Trim(small))
            && CompareText(NaturalKey(large), NaturalKey(small)) < 0
  {
    hide Ten, Zeros, Trim, Value, NaturalKey;
    var large, small := "1" + Zeros(n - 1), "2" + Zeros(19);
    LeadingThenZeros('1', n - 1);
    LeadingThenZeros('2', 19);
    TrimOfDigits(large);
    TrimOfDigits(small);
    TenGrows(20, n - 1);
    TenStep(19);
    WideIsItsKey(large);
    WideIsItsKey(small);
    assert large[0] == '1' && small[0] == '2';
  }

  lemma TenStep(n: nat)
    ensures Ten(n + 1) == 10 * Ten(n)
  {
  }

  /** From 20 digits on a number is its own key. */
  lemma WideIsItsKey(s: string)
    requires AllDigits(s) && |s| >= 20
    ensures NaturalKey(s) == s
  {
    TrimOfDigits(s);
    hide Trim;
  }

  /** Whatever cells of at most `n` digits a column shows, they sort as numbers. */
  ghost predicate SortsNumerically(n: nat) {
    forall a, b :: IsNumeral(a, n) && IsNumeral(b, n) ==>
      (CompareText(NaturalKey(a), NaturalKey(b)) < 0 <==> Value(Trim(a)) < Value(Trim(b)))
  }

  /** Digits sort as numbers exactly up to 20 of them. */
  lemma NumericExactly(n: nat)
    ensures SortsNumerically(n) <==> n <= 20
  {
    if n <= 20 {
      forall a, b | IsNumeral(a, n) && IsNumeral(b, n)
        ensures CompareText(NaturalKey(a), NaturalKey(b)) < 0 <==> Value(Trim(a)) < Value(Trim(b))
      {
        NaturalKeyIsNumeric(a, b);
      }
    } else {
      var large, small := "1" + Zeros(n - 1), "2" + Zeros(19);
      LongDigitsAreText(n);
      hide Zeros, Trim, Value, NaturalKey;
      assert IsNumeral(large, n) && IsNumeral(small, n);
    }
  }

  /** What a reader sees of it: down a column that runs up, filled numbers, dates, digits and other texts
      never fall, down one that runs down they never rise, and equal keys are in tiebreaker order. */
  lemma OrderedCells(rows: seq<Row>, column: Column, d: Direction, numberOf: string -> real, i: nat, j: nat)
    requires i < j < |Ordered(rows, column, d, numberOf)|
    requires var r := Ordered(rows, column, d, numberOf); !IsBlank(r[i], column) && !IsBlank(r[j], column)
    ensures var r := Ordered(rows, column, d, numberOf);
            var a, b := if d.Asc? then r[i] else r[j], if d.Asc? then r[j] else r[i];
            var s, t := CellText(a, column.key), CellText(b, column.key);
            && (column.kind.NumberKind? ==> numberOf(s) <= numberOf(t))
            && (column.kind.DateKind? ==> CompareText(Trim(s), Trim(t)) <= 0)
            && (column.kind.StringKind? && IsNumeral(s, 20) && IsNumeral(t, 20) ==> Value(Trim(s)) <= Value(Trim(t)))
            && (column.kind.StringKind? && !AllDigits(Trim(s)) && !AllDigits(Trim(t)) ==>
                  CompareText(Trim(s), Trim(t)) <= 0)
            && (OrderKey(a, column, numberOf) == OrderKey(b, column, numberOf) ==>
               CompareText(a.tiebreak, b.tiebreak) <= 0)
  {
    OrderedSorts(rows, column, d, numberOf);
    var r := Ordered(rows, column, d, numberOf);
    assert CompareRows(r[i], r[j], column, d, numberOf) <= 0;
    FilledPair(r[i], r[j], column, d, numberOf);
    hide Ordered, CompareRows;
  }

  lemma FilledPair(x: Row, y: Row, column: Column, d: Direction, numberOf: string -> real)
    requires !IsBlank(x, column) && !IsBlank(y, column) && CompareRows(x, y, column, d, numberOf) <= 0
    ensures var a, b := if d.Asc? then x else y, if d.Asc? then y else x;
            var s, t := CellText(a, column.key), CellText(b, column.key);
            && (column.kind.NumberKind? ==> numberOf(s) <= numberOf(t))
            && (column.kind.DateKind? ==> CompareText(Trim(s), Trim(t)) <= 0)
            && (column.kind.StringKind? && IsNumeral(s, 20) && IsNumeral(t, 20) ==> Value(Trim(s)) <= Value(Trim(t)))
            && (column.kind.StringKind? && !AllDigits(Trim(s)) && !AllDigits(Trim(t)) ==>
                  CompareText(Trim(s), Trim(t)) <= 0)
            && (OrderKey(a, column, numberOf) == OrderKey(b, column, numberOf) ==>
               CompareText(a.tiebreak, b.tiebreak) <= 0)
  {
    var a, b := if d.Asc? then x else y, if d.Asc? then y else x;
    var s, t := CellText(a, column.key), CellText(b, column.key);
    CompareKeysOrders(OrderKey(x, column, numberOf), OrderKey(y, column, numberOf), OrderKey(x, column, numberOf));
    CompareTextOrders(x.tiebreak, y.tiebreak, "");
    if IsNumeral(s, 20) && IsNumeral(t, 20) { NaturalKeyIsNumeric(s, t); }
    hide Trim, CompareText, IsNumeral, IsBlank;
  }
}
