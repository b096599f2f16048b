/** src/frontend/src/mocks/metric-drilldown-factory.ts: narrowing, cursors and pages. A query
    stands for the parts of a request that choose its records; `Source` is what they choose and
    the string functions the order and the search lean on. */
module EvidencePages {
  import opened Common
  import opened EvidenceOrder
  import opened EvidenceOrderLaws

  const NEWEST_FIRST := Sort("date", Desc)

  /** `columnsOf` and `rowsOf` answer a query; `hash` fingerprints what a cursor is bound to. */
  datatype Source<!Query(==)> = Source(
    columnsOf: Query -> seq<Column>,
    rowsOf: Query -> seq<Row>,
    numberOf: string -> real,
    lower: string -> string,
    hash: ((Query, Sort, Option<string>)) -> int)

  /** What a reader selects; the cursor and the limit only walk through it. */
  datatype Selection<Query(==)> = Selection(query: Query, sort: Option<Sort>, search: Option<string>)

  /** No cursor, one that does not decode, or one a page handed out. */
  datatype Cursor = NoCursor | Broken | Issued(fp: int, at: nat)

  datatype Page = Page(rows: seq<Row>, next: Cursor)

  // ---- what a selection serves ----

  function Find(columns: seq<Column>, key: string): Option<Column> {
    if columns == [] then None
    else if columns[0].key == key then Some(columns[0])
    else Find(columns[1..], key)
  }

  predicate Sortable(columns: seq<Column>, key: string) {
    exists c :: c in columns && c.key == key && c.sortable
  }

  function EffectiveSort(columns: seq<Column>, sort: Option<Sort>): Sort {
    if sort.Some? && Sortable(columns, sort.value.key) then sort.value else NEWEST_FIRST
  }

  predicate Includes(s: string, needle: string) {
    needle <= s || (s != "" && Includes(s[1..], needle))
  }

  /** Some column a reader can search shows the needle; `person` is held as an id and is not one. */
  predicate Matches(row: Row, columns: seq<Column>, needle: string, lower: string -> string) {
    exists c :: c in columns && c.key != "person" && Includes(lower(CellText(row, c.key)), needle)
  }

  function Filter(rows: seq<Row>, columns: seq<Column>, needle: string, lower: string -> string): seq<Row> {
    if rows == [] then []
    else
      (if Matches(rows[0], columns, needle, lower) then [rows[0]] else [])
      + Filter(rows[1..], columns, needle, lower)
  }

  function Narrowed(rows: seq<Row>, columns: seq<Column>, search: Option<string>, lower: string -> string): seq<Row> {
    var needle := if search.Some? then lower(Trim(search.value)) else "";
    if needle == "" then rows else Filter(rows, columns, needle, lower)
  }

  /** Every row of a selection, narrowed and in order. */
  function Matching<Query>(source: Source<Query>, s: Selection<Query>): seq<Row> {
    var columns := source.columnsOf(s.query);
    var rows := Narrowed(source.rowsOf(s.query), columns, s.search, source.lower);
    var sort := EffectiveSort(columns, s.sort);
    var column := Find(columns, sort.key);
    if column.None? then rows else Ordered(rows, column.value, sort.direction, source.numberOf)
  }

  // ---- cursors and pages ----

  /** What a cursor is bound to: everything above that chooses, narrows or orders. */
  function Bound<Query>(s: Selection<Query>): (Query, Sort, Option<string>) {
    (s.query, if s.sort.Some? then s.sort.value else NEWEST_FIRST, s.search)
  }

  function Fingerprint<Query>(source: Source<Query>, s: Selection<Query>): int {
    source.hash(Bound(s))
  }

  function OffsetOf<Query>(source: Source<Query>, s: Selection<Query>, cursor: Cursor): nat {
    if cursor.Issued? && cursor.fp == Fingerprint(source, s) then cursor.at else 0
  }

  function Clamp(limit: Option<int>): (n: nat)
    ensures 1 <= n <= 250
  {
    var asked := if limit.Some? then limit.value else 100;
    if asked > 250 then 250 else if asked < 1 then 1 else asked
  }

  /** `slice(from, to)`: positions past the end stand for the end. */
  function Slice(rows: seq<Row>, from: nat, to: nat): seq<Row> {
    var lo := if from < |rows| then from else |rows|;
    var hi := if to < |rows| then to else |rows|;
    if lo <= hi then rows[lo..hi] else []
  }

  function Respond<Query>(source: Source<Query>, s: Selection<Query>, cursor: Cursor, limit: Option<int>): Page {
    var matching := Matching(source, s);
    var offset := OffsetOf(source, s, cursor);
    var page := Slice(matching, offset, offset + Clamp(limit));
    var next := offset + |page|;
    Page(page, if next < |matching| then Issued(Fingerprint(source, s), next) else NoCursor)
  }

  /** Follows `next_cursor` from `cursor`, asking for `limits(k)` rows on the k-th page. */
  function Follow<Query>(source: Source<Query>, s: Selection<Query>, cursor: Cursor,
                         limits: nat -> Option<int>, k: nat): seq<Row>
    decreases |Matching(source, s)| - OffsetOf(source, s, cursor)
  {
    var page := Respond(source, s, cursor, limits(k));
    page.rows + (if page.next.NoCursor? then [] else Follow(source, s, page.next, limits, k + 1))
  }

  /** How many pages that walk takes. */
  function Pages<Query>(source: Source<Query>, s: Selection<Query>, cursor: Cursor, limits: nat -> Option<int>,
                        k: nat): nat
    decreases |Matching(source, s)| - OffsetOf(source, s, cursor)
  {
    var page := Respond(source, s, cursor, limits(k));
    1 + (if page.next.NoCursor? then 0 else Pages(source, s, page.next, limits, k + 1))
  }

  /** One page: the next stretch of rows, and a cursor to where it ends unless that is the end. */
  lemma RespondTakes<Query>(source: Source<Query>, s: Selection<Query>, cursor: Cursor, limit: Option<int>)
    requires OffsetOf(source, s, cursor) <= |Matching(source, s)|
    ensures var page := Respond(source, s, cursor, limit);
            var matching := Matching(source, s);
            var offset := OffsetOf(source, s, cursor);
            var end := offset + |page.rows|;
            var asked := if limit.None? then 100
                         else if limit.value < 1 then 1 else if limit.value > 250 then 250 else limit.value;
            && end <= |matching| && page.rows == matching[offset..end] && |page.rows| <= asked
            && (if end < |matching|
                then |page.rows| == asked && OffsetOf(source, s, page.next) == end && !page.next.NoCursor?
                else page.next.NoCursor?)
  {
    hide Matching, Fingerprint;
  }

  lemma Rejoin<T>(rows: seq<T>, from: nat, mid: nat)
    requires from <= mid <= |rows|
    ensures rows[from..] == rows[from..mid] + rows[mid..]
  {
  }

  /** From any cursor of the selection, following to the end yields exactly the rows from there on. */
  lemma {:induction false} FollowFrom<Query>(source: Source<Query>, s: Selection<Query>, cursor: Cursor,
                                             limits: nat -> Option<int>, k: nat)
    requires OffsetOf(source, s, cursor) <= |Matching(source, s)|
    ensures Follow(source, s, cursor, limits, k) == Matching(source, s)[OffsetOf(source, s, cursor)..]
    decreases |Matching(source, s)| - OffsetOf(source, s, cursor)
  {
    hide Matching, OffsetOf, Respond, Clamp;
    var page := Respond(source, s, cursor, limits(k));
    RespondTakes(source, s, cursor, limits(k));
    var offset := OffsetOf(source, s, cursor);
    Rejoin(Matching(source, s), offset, offset + |page.rows|);
    if !page.next.NoCursor? {
      FollowFrom(source, s, page.next, limits, k + 1);
    }
  }

  /** Following the cursors from the first page, with any limits, ends and serves every row of the
      selection once, in order. */
  lemma PagesServeEveryRow<Query>(source: Source<Query>, s: Selection<Query>, limits: nat -> Option<int>)
    ensures Follow(source, s, NoCursor, limits, 0) == Matching(source, s)
  {
    FollowFrom(source, s, NoCursor, limits, 0);
    assert Matching(source, s)[0..] == Matching(source, s);
  }

  /** And it takes no more pages than there are rows, one at least. */
  lemma {:induction false} PagesBounded<Query>(source: Source<Query>, s: Selection<Query>, cursor: Cursor,
                                               limits: nat -> Option<int>, k: nat)
    requires OffsetOf(source, s, cursor) < |Matching(source, s)|
    ensures Pages(source, s, cursor, limits, k) <= |Matching(source, s)| - OffsetOf(source, s, cursor)
    decreases |Matching(source, s)| - OffsetOf(source, s, cursor)
  {
    hide Matching, Fingerprint;
    var page := Respond(source, s, cursor, limits(k));
    if page.next.Issued? { PagesBounded(source, s, page.next, limits, k + 1); }
  }

  /** Two selections are bound to the same exactly if they ask for the same rows, search and order, where no
      order is newest first. */
  lemma BoundTellsApart<Query>(s: Selection<Query>, t: Selection<Query>)
    ensures Bound(s) == Bound(t) <==>
              && s.query == t.query && s.search == t.search
              && (if s.sort.Some? then s.sort.value else Sort("date", Desc))
                 == (if t.sort.Some? then t.sort.value else Sort("date", Desc))
  {
  }

  /** A cursor handed out for one selection and used on another restarts at the first page, unless
      the two selections' hashes collide: then, and only then, it resumes in the middle. */
  lemma ForeignCursorRestarts<Query>(source: Source<Query>, issuer: Selection<Query>, s: Selection<Query>,
                                     before: Cursor, limit: Option<int>, asked: Option<int>)
    requires Respond(source, issuer, before, limit).next.Issued?
    ensures var stale := Respond(source, issuer, before, limit).next;
            && stale.at > 0
            && (OffsetOf(source, s, stale) == 0 <==> source.hash(Bound(s)) != source.hash(Bound(issuer)))
            && (source.hash(Bound(s)) != source.hash(Bound(issuer)) ==>
                  Respond(source, s, stale, asked) == Respond(source, s, NoCursor, asked))
  {
  }

  // ---- narrowing ----

  /** Narrowing keeps exactly the rows that match, each as often as it was there. */
  lemma {:induction false} FilterKeepsMatches(rows: seq<Row>, columns: seq<Column>, needle: string,
                                              lower: string -> string, row: Row)
    ensures multiset(Filter(rows, columns, needle, lower))[row]
            == if Matches(row, columns, needle, lower) then multiset(rows)[row] else 0
  {
    if rows != [] {
      FilterKeepsMatches(rows[1..], columns, needle, lower, row);
      assert rows == [rows[0]] + rows[1..];
    }
  }

  // ---- what is served ----

  /** `needle` stands somewhere in `text`. */
  ghost predicate Holds(text: string, needle: string) {
    exists i, j :: 0 <= i <= j <= |text| && text[i..j] == needle
  }

  lemma {:induction false} IncludesAt(s: string, needle: string, i: nat)
    requires i + |needle| <= |s| && s[i..i + |needle|] == needle
    ensures Includes(s, needle)
  {
    if i == 0 {
      assert needle <= s;
    } else {
      assert s[1..][i - 1..i - 1 + |needle|] == needle;
      IncludesAt(s[1..], needle, i - 1);
    }
  }

  lemma {:induction false} IncludedAt(s: string, needle: string) returns (i: nat)
    requires Includes(s, needle)
    ensures i + |needle| <= |s| && s[i..i + |needle|] == needle
  {
    if needle <= s {
      i := 0;
    } else {
      var k := IncludedAt(s[1..], needle);
      i := k + 1;
      assert s[i..i + |needle|] == s[1..][k..k + |needle|];
    }
  }

  lemma IncludesMeans(s: string, needle: string)
    ensures Includes(s, needle) <==> Holds(s, needle)
  {
    hide Includes;
    if Includes(s, needle) { var i := IncludedAt(s, needle); }
    if i, j :| 0 <= i <= j <= |s| && s[i..j] == needle { IncludesAt(s, needle, i); }
  }

  /** Some column but `person` shows the needle, whatever its case. */
  ghost predicate Shows(row: Row, columns: seq<Column>, needle: string, lower: string -> string) {
    exists c :: c in columns && c.key != "person" && Holds(lower(CellText(row, c.key)), needle)
  }

  lemma MatchesMeans(row: Row, columns: seq<Column>, needle: string, lower: string -> string)
    ensures Matches(row, columns, needle, lower) <==> Shows(row, columns, needle, lower)
  {
    forall c | c in columns
      ensures Includes(lower(CellText(row, c.key)), needle) <==> Holds(lower(CellText(row, c.key)), needle)
    {
      IncludesMeans(lower(CellText(row, c.key)), needle);
    }
    hide Includes, Holds;
  }

  /** The column a key names: the first of that key. */
  ghost predicate Names(columns: seq<Column>, key: string, i: nat) {
    i < |columns| && columns[i].key == key && forall j :: 0 <= j < i ==> columns[j].key != key
  }

  lemma {:induction false} FindMeans(columns: seq<Column>, key: string, i: nat)
    ensures Names(columns, key, i) ==> Find(columns, key) == Some(columns[i])
  {
    if columns != [] && columns[0].key != key && i > 0 {
      assert Names(columns, key, i) ==> Names(columns[1..], key, i - 1);
      FindMeans(columns[1..], key, i - 1);
    }
  }

  /** Following the pages of any selection serves exactly the query's rows that show the trimmed,
      lower-cased search in some column but `person`, each as often as the query holds it; all of them
      if that search is empty. */
  lemma ServedRows<Query>(source: Source<Query>, s: Selection<Query>, limits: nat -> Option<int>, row: Row)
    ensures var needle := if s.search.Some? then source.lower(Trim(s.search.value)) else "";
            multiset(Follow(source, s, NoCursor, limits, 0))[row]
            == if needle == "" || Shows(row, source.columnsOf(s.query), needle, source.lower)
               then multiset(source.rowsOf(s.query))[row] else 0
  {
    var columns, all := source.columnsOf(s.query), source.rowsOf(s.query);
    var needle := if s.search.Some? then source.lower(Trim(s.search.value)) else "";
    PagesServeEveryRow(source, s, limits);
    FilterKeepsMatches(all, columns, needle, source.lower, row);
    MatchesMeans(row, columns, needle, source.lower);
    var rows, sort := Narrowed(all, columns, s.search, source.lower), EffectiveSort(columns, s.sort);
    var column := Find(columns, sort.key);
    if column.Some? { OrderedSorts(rows, column.value, sort.direction, source.numberOf); }
    hide Shows, Matches, Filter, Ordered, Follow;
  }

  /** They come in the order the request names, if it names a column that is sortable, and newest first
      if it does not. */
  lemma ServedOrder<Query>(source: Source<Query>, s: Selection<Query>, limits: nat -> Option<int>, i: nat)
    ensures var columns, rows := source.columnsOf(s.query), Follow(source, s, NoCursor, limits, 0);
            var named := s.sort.Some? && exists c :: c in columns && c.key == s.sort.value.key && c.sortable;
            && (named && Names(columns, s.sort.value.key, i) ==>
                  SortedRows(rows, columns[i], s.sort.value.direction, source.numberOf))
            && (!named && Names(columns, "date", i) ==> SortedRows(rows, columns[i], Desc, source.numberOf))
  {
    var columns, all := source.columnsOf(s.query), source.rowsOf(s.query);
    PagesServeEveryRow(source, s, limits);
    var rows, sort := Narrowed(all, columns, s.search, source.lower), EffectiveSort(columns, s.sort);
    FindMeans(columns, sort.key, i);
    var column := Find(columns, sort.key);
    if column.Some? { OrderedSorts(rows, column.value, sort.direction, source.numberOf); }
    hide SortedRows, Names, Find, Ordered, Follow, Narrowed;
  }
}
