/** The pivot loses no row of data and invents none: its rows and columns add up. */
module IntensityPivotLaws {
  import opened Common
  import opened IntensityPivot

  // ---- what the cells should hold, counted from the points ----

  predicate InBucket(r: Reader, p: Point, epoch: int) { r.epochOf(p.bucket) == Some(epoch) }

  function Cell(r: Reader, points: seq<Point>, epoch: int, key: string): int {
    if points == [] then 0
    else
      var last := points[|points| - 1];
      Cell(r, points[..|points| - 1], epoch, key) + if InBucket(r, last, epoch) && last.key == key then last.rows else 0
  }

  function BucketTotal(r: Reader, points: seq<Point>, epoch: int): int {
    if points == [] then 0
    else
      var last := points[|points| - 1];
      BucketTotal(r, points[..|points| - 1], epoch) + if InBucket(r, last, epoch) then last.rows else 0
  }

  function KeyTotal(points: seq<Point>, key: string): int {
    if points == [] then 0
    else
      var last := points[|points| - 1];
      KeyTotal(points[..|points| - 1], key) + if last.key == key then last.rows else 0
  }

  ghost predicate HasBucket(r: Reader, points: seq<Point>, epoch: int) {
    exists i :: 0 <= i < |points| && InBucket(r, points[i], epoch)
  }

  ghost predicate HasCell(r: Reader, points: seq<Point>, epoch: int, key: string) {
    exists i :: 0 <= i < |points| && InBucket(r, points[i], epoch) && points[i].key == key
  }

  lemma LastPoint(r: Reader, points: seq<Point>, epoch: int, key: string)
    requires points != []
    ensures var init, last := points[..|points| - 1], points[|points| - 1];
            && (HasBucket(r, points, epoch) <==> HasBucket(r, init, epoch) || InBucket(r, last, epoch))
            && (HasCell(r, points, epoch, key) <==>
               HasCell(r, init, epoch, key) || (InBucket(r, last, epoch) && last.key == key))
  {
    var init, last := points[..|points| - 1], points[|points| - 1];
    assert points == init + [last];
    if i :| 0 <= i < |init| && InBucket(r, init[i], epoch) { assert InBucket(r, points[i], epoch); }
    if i :| 0 <= i < |init| && InBucket(r, init[i], epoch) && init[i].key == key {
      assert InBucket(r, points[i], epoch) && points[i].key == key;
    }
    if InBucket(r, last, epoch) { assert InBucket(r, points[|init|], epoch); }
  }

  /** One bucket's row, for any points at all: each band is its cell, and `total` and `epoch` are what
      they should be plus the band that happens to have their name. */
  lemma {:induction false} RowHolds(r: Reader, points: seq<Point>, epoch: int, key: string)
    ensures epoch in ByBucket(r, points).row <==> HasBucket(r, points, epoch)
    ensures HasBucket(r, points, epoch) ==>
              var row := ByBucket(r, points).row[epoch];
              && "epoch" in row && "total" in row
              && row["epoch"] == epoch + Cell(r, points, epoch, "epoch")
              && row["total"] == BucketTotal(r, points, epoch) + Cell(r, points, epoch, "total")
              && (key !in {"epoch", "total"} ==>
                    Get(row, key) == Cell(r, points, epoch, key) && (key in row <==> HasCell(r, points, epoch, key)))
  {
    if points != [] {
      RowHolds(r, points[..|points| - 1], epoch, key);
      LastPoint(r, points, epoch, key);
      if !HasBucket(r, points[..|points| - 1], epoch) {
        EmptyCells(r, points[..|points| - 1], epoch, key);
        EmptyCells(r, points[..|points| - 1], epoch, "epoch");
        EmptyCells(r, points[..|points| - 1], epoch, "total");
      }
      hide HasBucket, HasCell;
    }
  }

  lemma {:induction false} EmptyCells(r: Reader, points: seq<Point>, epoch: int, key: string)
    requires !HasBucket(r, points, epoch)
    ensures Cell(r, points, epoch, key) == 0 && BucketTotal(r, points, epoch) == 0 && !HasCell(r, points, epoch, key)
  {
    if points != [] {
      LastPoint(r, points, epoch, key);
      EmptyCells(r, points[..|points| - 1], epoch, key);
    }
  }

  /** A bucket's total is right exactly when no rows were counted under the key `total`. */
  lemma TotalIsRightExactly(r: Reader, points: seq<Point>, epoch: int)
    requires HasBucket(r, points, epoch)
    ensures epoch in ByBucket(r, points).row
    ensures Get(ByBucket(r, points).row[epoch], "total") == BucketTotal(r, points, epoch) <==>
            Cell(r, points, epoch, "total") == 0
  {
    RowHolds(r, points, epoch, "");
  }

  lemma TotalAsAKeyCountsTwice(r: Reader, epoch: int)
    requires r.epochOf("b") == Some(epoch)
    ensures var b := ByBucket(r, [Point("b", "total", 1)]);
            epoch in b.row && b.row[epoch] == map["epoch" := epoch, "total" := 2]
  {
    var p := Point("b", "total", 1);
    assert [p][..0] == [];
    assert ByBucket(r, [p]) == AddPoint(Buckets([], map[]), epoch, "total", 1);
  }

  // ---- rows in order ----

  ghost predicate Distinct<T>(s: seq<T>) {
    forall i, j :: 0 <= i < j < |s| ==> s[i] != s[j]
  }

  ghost predicate Ascending(rows: seq<Row>) {
    forall i, j :: 0 <= i < j < |rows| ==> Get(rows[i], "epoch") <= Get(rows[j], "epoch")
  }

  ghost predicate Increasing(rows: seq<Row>) {
    forall i, j :: 0 <= i < j < |rows| ==> Get(rows[i], "epoch") < Get(rows[j], "epoch")
  }

  lemma {:induction false} InsertHas<T>(x: T, s: seq<T>, le: (T, T) -> bool)
    ensures forall y :: y in Insert(x, s, le) <==> y == x || y in s
  {
    if s != [] {
      InsertHas(x, s[1..], le);
      assert s == [s[0]] + s[1..];
    }
  }

  lemma {:induction false} InsertAscending(x: Row, s: seq<Row>)
    requires Ascending(s)
    ensures Ascending(Insert(x, s, EarlierRow))
  {
    hide Get;
    if s != [] && !EarlierRow(x, s[0]) {
      InsertAscending(x, s[1..]);
      InsertHas(x, s[1..], EarlierRow);
      var tail := Insert(x, s[1..], EarlierRow);
      hide Insert;
      forall j | 0 <= j < |tail| ensures Get(s[0], "epoch") <= Get(tail[j], "epoch") {
        if tail[j] != x {
          assert tail[j] in tail;
          var i :| 0 <= i < |s[1..]| && s[1..][i] == tail[j];
          assert s[i + 1] == tail[j];
        }
      }
      assert Ascending([s[0]] + tail);
    }
  }

  lemma {:induction false} SortedAscending(s: seq<Row>)
    ensures Ascending(Sorted(s, EarlierRow))
  {
    if s != [] {
      SortedAscending(s[1..]);
      InsertAscending(s[0], Sorted(s[1..], EarlierRow));
      hide Insert, Ascending;
    }
  }

  /** `rows` are those of the buckets in `order`. */
  ghost predicate Aligned(order: seq<int>, row: map<int, Row>, rows: seq<Row>) {
    |order| == |rows| && forall i :: 0 <= i < |order| ==> order[i] in row && rows[i] == row[order[i]]
  }

  lemma AlignedCons(e: int, order: seq<int>, row: map<int, Row>, s: seq<Row>)
    requires e in row && Aligned(order, row, s) && Distinct(order) && e !in order
    ensures Aligned([e] + order, row, [row[e]] + s) && Distinct([e] + order)
  {
  }

  lemma AlignedTail(order: seq<int>, row: map<int, Row>, s: seq<Row>)
    requires Aligned(order, row, s) && Distinct(order) && s != []
    ensures order != [] && order[0] in row && s[0] == row[order[0]] && order[0] !in order[1..]
    ensures Aligned(order[1..], row, s[1..]) && Distinct(order[1..])
    ensures forall x :: x in order <==> x == order[0] || x in order[1..]
  {
    assert order == [order[0]] + order[1..];
  }

  lemma {:induction false} InsertAligned(e: int, order: seq<int>, row: map<int, Row>, s: seq<Row>)
    returns (after: seq<int>)
    requires e in row && Aligned(order, row, s) && Distinct(order) && e !in order
    ensures Aligned(after, row, Insert(row[e], s, EarlierRow)) && Distinct(after)
    ensures forall x :: x in after <==> x == e || x in order
  {
    if s == [] || EarlierRow(row[e], s[0]) {
      AlignedCons(e, order, row, s);
      assert s == [] ==> [row[e]] + s == [row[e]];
      after := [e] + order;
    } else {
      AlignedTail(order, row, s);
      var tail := InsertAligned(e, order[1..], row, s[1..]);
      AlignedCons(order[0], tail, row, Insert(row[e], s[1..], EarlierRow));
      after := [order[0]] + tail;
    }
    hide EarlierRow, Aligned, Distinct;
  }

  lemma {:induction false} SortedAligned(order: seq<int>, row: map<int, Row>) returns (after: seq<int>)
    requires Distinct(order) && forall i :: 0 <= i < |order| ==> order[i] in row
    ensures Aligned(after, row, Sorted(Values(order, row), EarlierRow)) && Distinct(after)
    ensures forall x :: x in after <==> x in order
  {
    if order == [] { return []; }
    assert order == [order[0]] + order[1..] && order[0] !in order[1..];
    assert Values(order, row)[1..] == Values(order[1..], row);
    var rest := SortedAligned(order[1..], row);
    after := InsertAligned(order[0], rest, row, Sorted(Values(order[1..], row), EarlierRow));
    hide Insert, Aligned;
  }

  /** What bucket `e` shows for its epoch. */
  function Shown(r: Reader, points: seq<Point>, e: int): int {
    e + Cell(r, points, e, "epoch")
  }

  /** The row holds what the points of bucket `e` add up to. */
  ghost predicate IsRowOf(r: Reader, points: seq<Point>, e: int, row: Row) {
    && Get(row, "epoch") == Shown(r, points, e)
    && Get(row, "total") == BucketTotal(r, points, e) + Cell(r, points, e, "total")
    && forall key :: key !in {"epoch", "total"} ==>
                       Get(row, key) == Cell(r, points, e, key) && (key in row <==> HasCell(r, points, e, key))
  }

  /** `order` lists the buckets that have a point, each once, and `rows` are theirs in this order. */
  ghost predicate RowsOf(r: Reader, points: seq<Point>, order: seq<int>, rows: seq<Row>) {
    && Distinct(order) && (forall e :: e in order <==> HasBucket(r, points, e))
    && |order| == |rows| && forall i :: 0 <= i < |rows| ==> IsRowOf(r, points, order[i], rows[i])
  }

  lemma BucketRow(r: Reader, points: seq<Point>, e: int)
    ensures e in ByBucket(r, points).row <==> HasBucket(r, points, e)
    ensures e in ByBucket(r, points).row ==> IsRowOf(r, points, e, ByBucket(r, points).row[e])
  {
    RowHolds(r, points, e, "");
    if e in ByBucket(r, points).row {
      forall key | key !in {"epoch", "total"}
        ensures var row := ByBucket(r, points).row[e];
                Get(row, key) == Cell(r, points, e, key) && (key in row <==> HasCell(r, points, e, key))
      {
        RowHolds(r, points, e, key);
      }
    }
  }

  /** For any points at all: one row for each bucket that has a point and no other, holding its
      cells, in ascending order of the epochs shown; and these strictly increase exactly if no two
      buckets show the same one, which the band `epoch` can make them do. */
  lemma PivotRows(r: Reader, points: seq<Point>) returns (order: seq<int>)
    ensures var rows := Pivot(r, points).rows;
            && RowsOf(r, points, order, rows) && Ascending(rows)
            && (Increasing(rows) <==>
                  forall d, e :: HasBucket(r, points, d) && HasBucket(r, points, e) && d != e ==>
                                   Shown(r, points, d) != Shown(r, points, e))
  {
    var b, rows := ByBucket(r, points), Pivot(r, points).rows;
    OrderIsKeys(r, points);
    order := SortedAligned(b.order, b.row);
    SortedAscending(Values(b.order, b.row));
    forall e ensures e in order <==> HasBucket(r, points, e) { BucketRow(r, points, e); }
    forall i | 0 <= i < |rows| ensures IsRowOf(r, points, order[i], rows[i]) { BucketRow(r, points, order[i]); }
    ShownInOrder(r, points, order, rows);
  }

  lemma ShownInOrder(r: Reader, points: seq<Point>, order: seq<int>, rows: seq<Row>)
    requires RowsOf(r, points, order, rows) && Ascending(rows)
    ensures Increasing(rows) <==>
            forall d, e :: HasBucket(r, points, d) && HasBucket(r, points, e) && d != e ==>
                             Shown(r, points, d) != Shown(r, points, e)
  {
    hide HasBucket, Shown;
    if Increasing(rows) {
      forall d, e | HasBucket(r, points, d) && HasBucket(r, points, e) && d != e
        ensures Shown(r, points, d) != Shown(r, points, e)
      {
        var i :| 0 <= i < |order| && order[i] == d;
        var j :| 0 <= j < |order| && order[j] == e;
        assert Get(rows[i], "epoch") != Get(rows[j], "epoch");
      }
    }
    assert forall i :: 0 <= i < |rows| ==> HasBucket(r, points, order[i]);
  }

  /** Two buckets five apart, and rows banded under `epoch`: both rows show the later epoch. */
  lemma EpochAsAKeyMerges(r: Reader)
    requires r.epochOf("a") == Some(0) && r.epochOf("b") == Some(5)
    ensures var rows := Pivot(r, [Point("a", "epoch", 5), Point("b", "x", 1)]).rows;
            && |rows| == 2 && Get(rows[0], "epoch") == 5 && Get(rows[1], "epoch") == 5 && !Increasing(rows)
  {
    var p, q := Point("a", "epoch", 5), Point("b", "x", 1);
    assert [p, q][..1] == [p] && [p][..0] == [];
    var first := AddPoint(Buckets([], map[]), 0, "epoch", 5);
    assert ByBucket(r, [p]) == first;
    var b := AddPoint(first, 5, "x", 1);
    assert ByBucket(r, [p, q]) == b && b.order == [0, 5];
    var x, y := b.row[0], b.row[5];
    assert Get(x, "epoch") == 5 && Get(y, "epoch") == 5;
    assert [0, 5][1..] == [5] && [5][1..] == [];
    assert Values([5], b.row) == [y] && Values([0, 5], b.row) == [x, y];
    assert [x, y][1..] == [y] && [y][1..] == [];
    assert Sorted([y], EarlierRow) == [y] && Sorted([x, y], EarlierRow) == [x, y];
    assert Pivot(r, [p, q]).rows == [x, y];
    assert Get([x, y][0], "epoch") == Get([x, y][1], "epoch");
  }

  // ---- sums ----

  /** A row's bands, added up. */
  function RowSum(row: Row, keys: seq<string>): int {
    if keys == [] then 0 else Get(row, keys[0]) + RowSum(row, keys[1..])
  }

  /** A band, added up over the rows. */
  function ColumnSum(rows: seq<Row>, key: string): int {
    if rows == [] then 0 else Get(rows[0], key) + ColumnSum(rows[1..], key)
  }

  function CellsOf(r: Reader, points: seq<Point>, epoch: int, keys: seq<string>): int {
    if keys == [] then 0 else Cell(r, points, epoch, keys[0]) + CellsOf(r, points, epoch, keys[1..])
  }

  function CellsIn(r: Reader, points: seq<Point>, epochs: seq<int>, key: string): int {
    if epochs == [] then 0 else Cell(r, points, epochs[0], key) + CellsIn(r, points, epochs[1..], key)
  }

  lemma {:induction false} OneMoreOfKeys(r: Reader, points: seq<Point>, epoch: int, keys: seq<string>)
    requires points != [] && Distinct(keys)
    ensures var init, last := points[..|points| - 1], points[|points| - 1];
            CellsOf(r, points, epoch, keys)
            == CellsOf(r, init, epoch, keys) + if InBucket(r, last, epoch) && last.key in keys then last.rows else 0
  {
    if keys != [] {
      OneMoreOfKeys(r, points, epoch, keys[1..]);
      assert keys == [keys[0]] + keys[1..];
      assert keys[0] !in keys[1..];
    }
  }

  lemma {:induction false} OneMoreInEpochs(r: Reader, points: seq<Point>, epochs: seq<int>, key: string)
    requires points != [] && Distinct(epochs)
    ensures var init, last := points[..|points| - 1], points[|points| - 1];
            CellsIn(r, points, epochs, key)
            == CellsIn(r, init, epochs, key)
               + if last.key == key && exists e :: e in epochs && InBucket(r, last, e) then last.rows else 0
  {
    if epochs != [] {
      OneMoreInEpochs(r, points, epochs[1..], key);
      assert epochs == [epochs[0]] + epochs[1..];
      assert epochs[0] !in epochs[1..];
    }
  }

  lemma {:induction false} NothingYet(r: Reader, epoch: int, keys: seq<string>, epochs: seq<int>, key: string)
    ensures CellsOf(r, [], epoch, keys) == 0 && CellsIn(r, [], epochs, key) == 0
    decreases |keys| + |epochs|
  {
    if keys != [] {
      NothingYet(r, epoch, keys[1..], epochs, key);
    } else if epochs != [] {
      NothingYet(r, epoch, keys, epochs[1..], key);
    }
  }

  /** Every point of a bucket is in one of its bands. */
  lemma {:induction false} BucketIsItsCells(r: Reader, points: seq<Point>, epoch: int, keys: seq<string>)
    requires Distinct(keys) && forall i :: 0 <= i < |points| && InBucket(r, points[i], epoch) ==> points[i].key in keys
    ensures CellsOf(r, points, epoch, keys) == BucketTotal(r, points, epoch)
  {
    if points == [] {
      NothingYet(r, epoch, keys, [], "");
    } else {
      BucketIsItsCells(r, points[..|points| - 1], epoch, keys);
      OneMoreOfKeys(r, points, epoch, keys);
    }
  }

  /** Every parsable point of a band is in one of the buckets. */
  lemma {:induction false} BandIsItsCells(r: Reader, points: seq<Point>, epochs: seq<int>, key: string)
    requires Distinct(epochs) && forall e :: HasBucket(r, points, e) ==> e in epochs
    ensures CellsIn(r, points, epochs, key) == KeyTotal(Parsable(r, points), key)
  {
    if points == [] {
      NothingYet(r, 0, [], epochs, key);
    } else {
      var init, last := points[..|points| - 1], points[|points| - 1];
      forall e | HasBucket(r, init, e) ensures e in epochs { LastPoint(r, points, e, key); }
      if r.epochOf(last.bucket).Some? { LastPoint(r, points, r.epochOf(last.bucket).value, key); }
      BandIsItsCells(r, init, epochs, key);
      OneMoreInEpochs(r, points, epochs, key);
      var before := Parsable(r, init);
      assert (before + [last])[..|before|] == before;
      assert before + [] == before;
    }
  }

  // ---- the roster ----

  function Rows(bands: seq<Band>, key: string): Option<int> {
    if bands == [] then None else if bands[0].key == key then Some(bands[0].rows) else Rows(bands[1..], key)
  }

  ghost predicate OneBandAKey(bands: seq<Band>) {
    forall i, j :: 0 <= i < j < |bands| ==> bands[i].key != bands[j].key
  }

  lemma {:induction false} AddToKeys(totals: seq<Band>, key: string, rows: int)
    requires OneBandAKey(totals)
    ensures OneBandAKey(AddTo(totals, key, rows))
    ensures forall b :: b in AddTo(totals, key, rows) ==> b.key == key || b in totals
  {
    if totals != [] {
      assert totals == [totals[0]] + totals[1..];
      if totals[0].key != key {
        AddToKeys(totals[1..], key, rows);
        var tail := AddTo(totals[1..], key, rows);
        forall j | 0 <= j < |tail| ensures tail[j].key != totals[0].key {
          assert tail[j] in tail;
          if tail[j].key != key {
            var i :| 0 <= i < |totals[1..]| && totals[1..][i] == tail[j];
            assert totals[i + 1] == tail[j];
          }
        }
      }
    }
  }

  /** Adding to a key adds to its rows and to no other's. */
  lemma {:induction false} AddToRows(totals: seq<Band>, key: string, rows: int, other: string)
    ensures Rows(AddTo(totals, key, rows), other)
            == if other != key then Rows(totals, other)
               else Some(rows + if Rows(totals, key).Some? then Rows(totals, key).value else 0)
  {
    if totals != [] { AddToRows(totals[1..], key, rows, other); }
  }

  lemma {:induction false} AbsentHasNoRows(bands: seq<Band>, key: string)
    ensures Rows(bands, key).None? <==> forall b :: b in bands ==> b.key != key
    ensures OneBandAKey(bands) ==> forall b :: b in bands && b.key == key ==> Rows(bands, key) == Some(b.rows)
  {
    if bands != [] {
      AbsentHasNoRows(bands[1..], key);
      assert bands == [bands[0]] + bands[1..];
    }
  }

  ghost predicate HasKey(points: seq<Point>, key: string) {
    exists i :: 0 <= i < |points| && points[i].key == key
  }

  lemma LastKey(points: seq<Point>, key: string)
    requires points != []
    ensures HasKey(points, key) <==> HasKey(points[..|points| - 1], key) || key == points[|points| - 1].key
  {
    var init := points[..|points| - 1];
    if i :| 0 <= i < |init| && init[i].key == key { assert points[i].key == key; }
    if i :| 0 <= i < |points| && points[i].key == key {
      if i < |init| { assert init[i].key == key; }
    }
  }

  lemma NothingTotalled(key: string)
    ensures OneBandAKey([]) && Rows([], key) == None && !HasKey([], key)
  {
  }

  lemma {:induction false} TotalsRows(points: seq<Point>, key: string)
    ensures OneBandAKey(Totals(points))
    ensures Rows(Totals(points), key) == if HasKey(points, key) then Some(KeyTotal(points, key)) else None
  {
    hide HasKey, OneBandAKey, AddTo, Rows;
    if points == [] {
      NothingTotalled(key);
    } else {
      var init, last := points[..|points| - 1], points[|points| - 1];
      TotalsRows(init, key);
      AddToKeys(Totals(init), last.key, last.rows);
      AddToRows(Totals(init), last.key, last.rows, key);
      if !HasKey(init, key) { AbsentKeyTotal(init, key); }
      LastKey(points, key);
    }
  }

  lemma TotalsHold(points: seq<Point>)
    ensures OneBandAKey(Totals(points))
    ensures forall b :: b in Totals(points) <==> HasKey(points, b.key) && b.rows == KeyTotal(points, b.key)
  {
    forall b ensures b in Totals(points) <==> HasKey(points, b.key) && b.rows == KeyTotal(points, b.key) {
      TotalsRows(points, b.key);
      AbsentHasNoRows(Totals(points), b.key);
      if Rows(Totals(points), b.key) == Some(b.rows) {
        var c :| c in Totals(points) && c.key == b.key;
        assert c == b;
      }
    }
    TotalsRows(points, "");
  }

  lemma {:induction false} AbsentKeyTotal(points: seq<Point>, key: string)
    requires !HasKey(points, key)
    ensures KeyTotal(points, key) == 0
  {
    if points != [] {
      assert points[|points| - 1].key != key;
      var init := points[..|points| - 1];
      forall i | 0 <= i < |init| ensures init[i].key != key { assert points[i].key != key; }
      AbsentKeyTotal(init, key);
    }
  }

  /** `localeCompare` orders any two names, and consistently. */
  ghost predicate NamesOrdered(r: Reader) {
    && (forall a, b :: r.nameLe(a, b) || r.nameLe(b, a))
    && forall a, b, c :: r.nameLe(a, b) && r.nameLe(b, c) ==> r.nameLe(a, c)
  }

  ghost predicate InWidthOrder(r: Reader, bands: seq<Band>) {
    forall i, j :: 0 <= i < j < |bands| ==> WiderBand(r, bands[i], bands[j])
  }

  /** Rows never rise down the list, and names never fall between equals. */
  ghost predicate WidestFirst(r: Reader, bands: seq<Band>) {
    forall i, j :: 0 <= i < j < |bands| ==>
                     && bands[i].rows >= bands[j].rows
                     && (bands[i].rows == bands[j].rows ==> r.nameLe(bands[i].key, bands[j].key))
  }

  lemma {:induction false} InsertWidest(r: Reader, x: Band, s: seq<Band>)
    requires NamesOrdered(r) && InWidthOrder(r, s) && OneBandAKey(s) && forall i :: 0 <= i < |s| ==> s[i].key != x.key
    ensures var after := Insert(x, s, (a, b) => WiderBand(r, a, b));
            InWidthOrder(r, after) && OneBandAKey(after)
  {
    if s != [] {
      if WiderBand(r, x, s[0]) {
        assert s == [s[0]] + s[1..];
      } else {
        InsertWidest(r, x, s[1..]);
        var le := (a, b) => WiderBand(r, a, b);
        var tail := Insert(x, s[1..], le);
        InsertHas(x, s[1..], le);
        hide Insert;
        forall j | 0 <= j < |tail| ensures WiderBand(r, s[0], tail[j]) && s[0].key != tail[j].key {
          assert r.nameLe(x.key, s[0].key) || r.nameLe(s[0].key, x.key);
          if tail[j] != x {
            assert tail[j] in tail;
            var i :| 0 <= i < |s[1..]| && s[1..][i] == tail[j];
            assert s[i + 1] == tail[j];
          }
        }
        assert InWidthOrder(r, [s[0]] + tail) && OneBandAKey([s[0]] + tail);
      }
    }
  }

  lemma {:induction false} SortedWidest(r: Reader, bands: seq<Band>)
    requires NamesOrdered(r) && OneBandAKey(bands)
    ensures var after := Sorted(bands, (a, b) => WiderBand(r, a, b));
            InWidthOrder(r, after) && OneBandAKey(after) && forall b :: b in after <==> b in bands
  {
    if bands != [] {
      assert bands == [bands[0]] + bands[1..];
      SortedWidest(r, bands[1..]);
      var le := (a, b) => WiderBand(r, a, b);
      var sorted := Sorted(bands[1..], le);
      forall i | 0 <= i < |sorted| ensures sorted[i].key != bands[0].key {
        assert sorted[i] in sorted;
        var j :| 0 <= j < |bands[1..]| && bands[1..][j] == sorted[i];
        assert bands[j + 1] == sorted[i];
      }
      InsertWidest(r, bands[0], sorted);
      InsertHas(bands[0], sorted, le);
    }
  }

  /** The roster has one band for each key with its rows added up, the widest first and the names in
      order between equals. */
  lemma RosterHolds(r: Reader, points: seq<Point>)
    requires NamesOrdered(r)
    ensures var roster := TotalsByKey(r, points);
            && WidestFirst(r, roster) && OneBandAKey(roster)
            && forall b :: b in roster <==> HasKey(points, b.key) && b.rows == KeyTotal(points, b.key)
  {
    TotalsHold(points);
    SortedWidest(r, Totals(points));
  }

  lemma {:induction false} KeysAt(bands: seq<Band>)
    ensures |Keys(bands)| == |bands| && forall i :: 0 <= i < |bands| ==> Keys(bands)[i] == bands[i].key
  {
    if bands != [] { KeysAt(bands[1..]); }
  }

  // ---- conservation ----

  /** A band, added up over the rows of its buckets: the sum of its cells, plus what a row keeps
      under the names `epoch` and `total`. */
  function Extra(r: Reader, points: seq<Point>, epoch: int, key: string): int {
    if key == "epoch" then epoch else if key == "total" then BucketTotal(r, points, epoch) else 0
  }

  function ExtraOf(r: Reader, points: seq<Point>, epoch: int, keys: seq<string>): int {
    (if "epoch" in keys then epoch else 0) + if "total" in keys then BucketTotal(r, points, epoch) else 0
  }

  function ExtraIn(r: Reader, points: seq<Point>, epochs: seq<int>, key: string): int {
    if epochs == [] then 0 else Extra(r, points, epochs[0], key) + ExtraIn(r, points, epochs[1..], key)
  }

  lemma {:induction false} RowSumIsCells(r: Reader, points: seq<Point>, row: Row, epoch: int, keys: seq<string>)
    requires IsRowOf(r, points, epoch, row) && Distinct(keys)
    ensures RowSum(row, keys) == CellsOf(r, points, epoch, keys) + ExtraOf(r, points, epoch, keys)
  {
    if keys != [] {
      assert keys == [keys[0]] + keys[1..] && keys[0] !in keys[1..];
      RowSumIsCells(r, points, row, epoch, keys[1..]);
    }
  }

  lemma {:induction false} ColumnSumIsCells(r: Reader, points: seq<Point>, order: seq<int>, rows: seq<Row>, key: string)
    requires |order| == |rows| && forall i :: 0 <= i < |rows| ==> IsRowOf(r, points, order[i], rows[i])
    ensures ColumnSum(rows, key) == CellsIn(r, points, order, key) + ExtraIn(r, points, order, key)
  {
    if rows != [] { ColumnSumIsCells(r, points, order[1..], rows[1..], key); }
  }

  lemma {:induction false} ParsableHas(r: Reader, points: seq<Point>)
    ensures forall p :: p in Parsable(r, points) <==> p in points && r.epochOf(p.bucket).Some?
  {
    if points != [] {
      ParsableHas(r, points[..|points| - 1]);
      assert points == points[..|points| - 1] + [points[|points| - 1]];
    }
  }

  /** The keys: those of the roster of the parsable points, in its order, each once. */
  lemma PivotKeys(r: Reader, points: seq<Point>)
    requires NamesOrdered(r)
    ensures var keys := Pivot(r, points).keys;
            && keys == Keys(TotalsByKey(r, Parsable(r, points))) && Distinct(keys)
            && forall k :: k in keys <==> HasKey(Parsable(r, points), k)
  {
    var parsable := Parsable(r, points);
    var roster := TotalsByKey(r, parsable);
    RosterHolds(r, parsable);
    KeysAt(roster);
    forall k ensures k in Keys(roster) <==> HasKey(parsable, k) {
      if k in Keys(roster) {
        var i :| 0 <= i < |roster| && roster[i].key == k;
        assert roster[i] in roster;
      }
      if HasKey(parsable, k) {
        assert Band(k, KeyTotal(parsable, k)) in roster;
        var i :| 0 <= i < |roster| && roster[i] == Band(k, KeyTotal(parsable, k));
        assert Keys(roster)[i] == k;
      }
    }
  }

  /** Across, for any points: the bands of a row add up to the rows of its bucket, and to its total
      exactly if what goes wrong under the names `epoch` and `total` happens to cancel out. */
  lemma RowsAddUp(r: Reader, points: seq<Point>, order: seq<int>, i: nat)
    requires NamesOrdered(r) && RowsOf(r, points, order, Pivot(r, points).rows) && i < |order|
    ensures var p, e := Pivot(r, points), order[i];
            && RowSum(p.rows[i], p.keys) == BucketTotal(r, points, e) + ExtraOf(r, points, e, p.keys)
            && (RowSum(p.rows[i], p.keys) == Get(p.rows[i], "total") <==>
                  ExtraOf(r, points, e, p.keys) == Cell(r, points, e, "total"))
  {
    var p, epoch := Pivot(r, points), order[i];
    PivotKeys(r, points);
    ParsableHas(r, points);
    forall n | 0 <= n < |points| && InBucket(r, points[n], epoch) ensures points[n].key in p.keys {
      assert points[n] in Parsable(r, points);
      var m :| 0 <= m < |Parsable(r, points)| && Parsable(r, points)[m] == points[n];
      assert HasKey(Parsable(r, points), points[n].key);
    }
    RowSumIsCells(r, points, p.rows[i], epoch, p.keys);
    BucketIsItsCells(r, points, epoch, p.keys);
  }

  lemma {:induction false} NoSuchCell(r: Reader, points: seq<Point>, epoch: int, key: string)
    requires forall i :: 0 <= i < |points| ==> points[i].key != key
    ensures Cell(r, points, epoch, key) == 0
  {
    if points != [] { NoSuchCell(r, points[..|points| - 1], epoch, key); }
  }

  /** So where no point is banded under these two names, epochs strictly increase and every row's
      total is the sum of its bands. */
  lemma OrdinaryKeysAddUp(r: Reader, points: seq<Point>)
    requires NamesOrdered(r) && forall i :: 0 <= i < |points| ==> points[i].key !in {"epoch", "total"}
    ensures var p := Pivot(r, points);
            Increasing(p.rows) && forall i :: 0 <= i < |p.rows| ==> RowSum(p.rows[i], p.keys) == Get(p.rows[i], "total")
  {
    var p := Pivot(r, points);
    var order := PivotRows(r, points);
    forall e ensures Cell(r, points, e, "epoch") == 0 && Cell(r, points, e, "total") == 0 {
      NoSuchCell(r, points, e, "epoch");
      NoSuchCell(r, points, e, "total");
    }
    PivotKeys(r, points);
    ParsableHas(r, points);
    forall k | k in p.keys ensures k !in {"epoch", "total"} {
      var i :| 0 <= i < |Parsable(r, points)| && Parsable(r, points)[i].key == k;
      assert Parsable(r, points)[i] in Parsable(r, points);
    }
    forall i | 0 <= i < |p.rows| ensures RowSum(p.rows[i], p.keys) == Get(p.rows[i], "total") {
      RowsAddUp(r, points, order, i);
    }
    hide Pivot, Cell, Parsable, RowsOf;
  }

  /** Down, for any points: a band's column adds up to what the roster shows for it, plus what the
      rows keep under its name if that is `epoch` or `total`. */
  lemma ColumnsAddUp(r: Reader, points: seq<Point>, order: seq<int>, b: Band)
    requires NamesOrdered(r) && RowsOf(r, points, order, Pivot(r, points).rows)
    requires b in TotalsByKey(r, Parsable(r, points))
    ensures ColumnSum(Pivot(r, points).rows, b.key) == b.rows + ExtraIn(r, points, order, b.key)
    ensures b.key !in {"epoch", "total"} ==> ColumnSum(Pivot(r, points).rows, b.key) == b.rows
  {
    RosterHolds(r, Parsable(r, points));
    ColumnSumIsCells(r, points, order, Pivot(r, points).rows, b.key);
    BandIsItsCells(r, points, order, b.key);
    if b.key !in {"epoch", "total"} { NoExtra(r, points, order, b.key); }
  }

  lemma {:induction false} NoExtra(r: Reader, points: seq<Point>, epochs: seq<int>, key: string)
    requires key !in {"epoch", "total"}
    ensures ExtraIn(r, points, epochs, key) == 0
  {
    if epochs != [] { NoExtra(r, points, epochs[1..], key); }
  }
}
