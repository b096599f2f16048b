/** src/frontend/src/lib/ingestion-chart.ts: flat points into one row a bucket and one band a key. */
module IntensityPivot {
  import opened Common

  datatype Point = Point(bucket: string, key: string, rows: int)

  /** A row is an object, so its bands share a namespace with its own `epoch` and `total`. */
  type Row = map<string, int>

  datatype Band = Band(key: string, rows: int)

  /** `bucketToEpoch`, with none for NaN, and `localeCompare(a, b) <= 0`. */
  datatype Reader = Reader(epochOf: string -> Option<int>, nameLe: (string, string) -> bool)

  datatype Pivoted = Pivoted(rows: seq<Row>, keys: seq<string>)

  function Get(row: Row, key: string): int { if key in row then row[key] else 0 }

  // ---- a stable sort ----

  function Insert<T>(x: T, s: seq<T>, le: (T, T) -> bool): seq<T> {
    if s == [] then [x] else if le(x, s[0]) then [x] + s else [s[0]] + Insert(x, s[1..], le)
  }

  function Sorted<T>(s: seq<T>, le: (T, T) -> bool): seq<T> {
    if s == [] then [] else Insert(s[0], Sorted(s[1..], le), le)
  }

  predicate EarlierRow(a: Row, b: Row) { Get(a, "epoch") <= Get(b, "epoch") }

  /** The wider band first, and the name between equals. */
  predicate WiderBand(r: Reader, a: Band, b: Band) {
    a.rows > b.rows || (a.rows == b.rows && r.nameLe(a.key, b.key))
  }

  // ---- Map, in insertion order ----

  function AddTo(totals: seq<Band>, key: string, rows: int): seq<Band> {
    if totals == [] then [Band(key, rows)]
    else if totals[0].key == key then [Band(key, totals[0].rows + rows)] + totals[1..]
    else [totals[0]] + AddTo(totals[1..], key, rows)
  }

  function Totals(points: seq<Point>): seq<Band> {
    if points == [] then []
    else
      var last := points[|points| - 1];
      AddTo(Totals(points[..|points| - 1]), last.key, last.rows)
  }

  function Keys(bands: seq<Band>): seq<string> {
    if bands == [] then [] else [bands[0].key] + Keys(bands[1..])
  }

  function TotalsByKey(r: Reader, points: seq<Point>): seq<Band> {
    Sorted(Totals(points), (a, b) => WiderBand(r, a, b))
  }

  function Parsable(r: Reader, points: seq<Point>): seq<Point> {
    if points == [] then []
    else
      var last := points[|points| - 1];
      Parsable(r, points[..|points| - 1]) + if r.epochOf(last.bucket).Some? then [last] else []
  }

  /** The buckets, in the order in which they were first seen, with their rows. */
  datatype Buckets = Buckets(order: seq<int>, row: map<int, Row>)

  function AddPoint(b: Buckets, epoch: int, key: string, rows: int): Buckets {
    var row := if epoch in b.row then b.row[epoch] else map["epoch" := epoch, "total" := 0];
    var banded := row[key := Get(row, key) + rows];
    Buckets(if epoch in b.row then b.order else b.order + [epoch],
            b.row[epoch := banded["total" := Get(banded, "total") + rows]])
  }

  function ByBucket(r: Reader, points: seq<Point>): Buckets {
    if points == [] then Buckets([], map[])
    else
      var last := points[|points| - 1];
      var before := ByBucket(r, points[..|points| - 1]);
      if r.epochOf(last.bucket).None? then before
      else AddPoint(before, r.epochOf(last.bucket).value, last.key, last.rows)
  }

  function Values(order: seq<int>, row: map<int, Row>): seq<Row>
    requires forall i :: 0 <= i < |order| ==> order[i] in row
  {
    if order == [] then [] else [row[order[0]]] + Values(order[1..], row)
  }

  /** The order lists the buckets there are, each once. */
  ghost predicate Listed(b: Buckets) {
    && (forall i :: 0 <= i < |b.order| ==> b.order[i] in b.row)
    && (forall e :: e in b.row ==> e in b.order)
    && forall i, j :: 0 <= i < j < |b.order| ==> b.order[i] != b.order[j]
  }

  lemma AddPointListed(b: Buckets, epoch: int, key: string, rows: int)
    requires Listed(b)
    ensures Listed(AddPoint(b, epoch, key, rows))
  {
    var after := AddPoint(b, epoch, key, rows);
    assert after.order == if epoch in b.row then b.order else b.order + [epoch];
    forall e | e in after.row ensures e in after.order {
      assert e == epoch || e in b.row;
      if e !in b.row { assert after.order[|b.order|] == e; }
    }
  }

  lemma {:induction false} OrderIsKeys(r: Reader, points: seq<Point>)
    ensures Listed(ByBucket(r, points))
  {
    if points != [] {
      var init, last := points[..|points| - 1], points[|points| - 1];
      OrderIsKeys(r, init);
      if r.epochOf(last.bucket).Some? {
        AddPointListed(ByBucket(r, init), r.epochOf(last.bucket).value, last.key, last.rows);
      }
    }
  }

  function Pivot(r: Reader, points: seq<Point>): Pivoted {
    OrderIsKeys(r, points);
    var b := ByBucket(r, points);
    Pivoted(Sorted(Values(b.order, b.row), EarlierRow), Keys(TotalsByKey(r, Parsable(r, points))))
  }

  // ---- the loops ----

  method PivotIntensity(r: Reader, points: seq<Point>) returns (p: Pivoted)
    ensures p == Pivot(r, points)
  {
    var buckets := Buckets([], map[]);
    var totals: seq<Band> := [];
    for n := 0 to |points|
      invariant buckets == ByBucket(r, points[..n])
      invariant totals == Totals(Parsable(r, points[..n]))
    {
      assert points[..n + 1][..n] == points[..n];
      var point := points[n];
      var epoch := r.epochOf(point.bucket);
      if epoch.None? {
        assert Parsable(r, points[..n + 1]) == Parsable(r, points[..n]);
        continue;
      }
      var before := Parsable(r, points[..n]);
      assert (before + [point])[..|before|] == before;
      buckets := AddPoint(buckets, epoch.value, point.key, point.rows);
      totals := AddTo(totals, point.key, point.rows);
    }
    assert points[..|points|] == points;
    OrderIsKeys(r, points);
    var keys := Keys(Sorted(totals, (a, b) => WiderBand(r, a, b)));
    return Pivoted(Sorted(Values(buckets.order, buckets.row), EarlierRow), keys);
  }

  method TotalsByKeyLoop(r: Reader, points: seq<Point>) returns (bands: seq<Band>)
    ensures bands == TotalsByKey(r, points)
  {
    var totals: seq<Band> := [];
    for n := 0 to |points|
      invariant totals == Totals(points[..n])
    {
      assert points[..n + 1][..n] == points[..n];
      totals := AddTo(totals, points[n].key, points[n].rows);
    }
    assert points[..|points|] == points;
    return Sorted(totals, (a, b) => WiderBand(r, a, b));
  }
}
