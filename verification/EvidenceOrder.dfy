/** src/frontend/src/mocks/metric-drilldown-factory.ts: the order of evidence rows, the mock's
    executable statement of the service's rules. `numberOf` stands for `Number.parseFloat(…) || 0`. */
module EvidenceOrder {
  import opened Common
  import opened Digits

  datatype Kind = NumberKind | DateKind | StringKind

  datatype Column = Column(key: string, kind: Kind, sortable: bool)

  /** The printed cells of a row and the tiebreaker that stays off the wire. */
  datatype Row = Row(cells: map<string, string>, tiebreak: string)

  datatype Direction = Asc | Desc

  datatype Sort = Sort(key: string, direction: Direction)

  datatype Key = NumberKey(n: real) | TextKey(s: string)

  // ---- text ----

  function CellText(row: Row, key: string): string {
    if key in row.cells then row.cells[key] else ""
  }

  /** What `trim()` strips. */
  predicate IsSpace(c: char) {
    var u := c as int;
    || 0x09 <= u <= 0x0D || u == 0x20 || u == 0xA0 || u == 0x1680 || 0x2000 <= u <= 0x200A
    || u == 0x2028 || u == 0x2029 || u == 0x202F || u == 0x205F || u == 0x3000 || u == 0xFEFF
  }

  function TrimLeft(s: string): string {
    if s != "" && IsSpace(s[0]) then TrimLeft(s[1..]) else s
  }

  function TrimRight(s: string): string {
    if s != "" && IsSpace(s[|s| - 1]) then TrimRight(s[..|s| - 1]) else s
  }

  function Trim(s: string): string { TrimRight(TrimLeft(s)) }

  /** `padStart(width, "0")`. */
  function PadStart(s: string, width: nat): string
    decreases width - |s|
  {
    if |s| < width then PadStart("0" + s, width) else s
  }

  predicate IsNatural(s: string) { s != "" && AllDigits(s) && |s| < 20 }

  function NaturalKey(text: string): string {
    var trimmed := Trim(text);
    if IsNatural(trimmed) then PadStart(trimmed, 20) else trimmed
  }

  /** `a < b` on strings. */
  predicate Less(a: string, b: string) {
    b != "" && (a == "" || a[0] < b[0] || (a[0] == b[0] && Less(a[1..], b[1..])))
  }

  function CompareText(a: string, b: string): int {
    if Less(a, b) then -1 else if Less(b, a) then 1 else 0
  }

  function CompareKeys(a: Key, b: Key): int {
    match (a, b)
    case (NumberKey(m), NumberKey(n)) => if m < n then -1 else if n < m then 1 else 0
    case (TextKey(s), TextKey(t)) => CompareText(s, t)
    case (NumberKey(_), TextKey(_)) => -1
    case (TextKey(_), NumberKey(_)) => 1
  }

  // ---- rows ----

  predicate IsBlank(row: Row, column: Column) {
    Trim(CellText(row, column.key)) == ""
  }

  function OrderKey(row: Row, column: Column, numberOf: string -> real): Key {
    var text := CellText(row, column.key);
    match column.kind
    case NumberKind => NumberKey(numberOf(text))
    case DateKind => TextKey(Trim(text))
    case StringKind => TextKey(NaturalKey(text))
  }

  function Factor(d: Direction): int { if d.Asc? then 1 else -1 }

  /** The comparator handed to the sort. */
  function CompareRows(a: Row, b: Row, column: Column, d: Direction, numberOf: string -> real): int {
    if IsBlank(a, column) != IsBlank(b, column) then (if IsBlank(a, column) then 1 else -1)
    else
      var byKey := CompareKeys(OrderKey(a, column, numberOf), OrderKey(b, column, numberOf));
      if byKey != 0 then byKey * Factor(d) else CompareText(a.tiebreak, b.tiebreak) * Factor(d)
  }

  /** A stable sort: a row goes before those that do not have to come first. */
  function Insert(row: Row, rows: seq<Row>, column: Column, d: Direction, numberOf: string -> real): seq<Row> {
    if rows == [] || CompareRows(row, rows[0], column, d, numberOf) <= 0 then [row] + rows
    else [rows[0]] + Insert(row, rows[1..], column, d, numberOf)
  }

  function Ordered(rows: seq<Row>, column: Column, d: Direction, numberOf: string -> real): seq<Row> {
    if rows == [] then [] else Insert(rows[0], Ordered(rows[1..], column, d, numberOf), column, d, numberOf)
  }

  // ---- the comparator is a total order ----

  lemma {:induction false} LessIrreflexive(a: string)
    ensures !Less(a, a)
  {
    if a != "" { LessIrreflexive(a[1..]); }
  }

  lemma {:induction false} LessTotal(a: string, b: string)
    ensures Less(a, b) || Less(b, a) || a == b
  {
    if a != "" && b != "" && a[0] == b[0] {
      LessTotal(a[1..], b[1..]);
      assert a == [a[0]] + a[1..] && b == [b[0]] + b[1..];
    }
  }

  lemma {:induction false} LessTransitive(a: string, b: string, c: string)
    requires Less(a, b) && Less(b, c)
    ensures Less(a, c)
  {
    if a != "" && a[0] == b[0] && b[0] == c[0] { LessTransitive(a[1..], b[1..], c[1..]); }
  }

  lemma CompareTextOrders(a: string, b: string, c: string)
    ensures CompareText(a, b) == -CompareText(b, a)
    ensures CompareText(a, b) == 0 <==> a == b
    ensures CompareText(a, b) <= 0 && CompareText(b, c) <= 0 ==> CompareText(a, c) <= 0
  {
    LessIrreflexive(a);
    LessTotal(a, b);
    LessTotal(b, c);
    if Less(a, b) && Less(b, a) { LessTransitive(a, b, a); }
    if Less(a, b) && Less(b, c) { LessTransitive(a, b, c); }
    if Less(c, a) && Less(a, b) { LessTransitive(c, a, b); }
    if Less(b, c) && Less(c, a) { LessTransitive(b, c, a); }
    if Less(a, c) && Less(c, a) { LessTransitive(a, c, a); }
    if Less(b, c) && Less(c, b) { LessTransitive(b, c, b); LessIrreflexive(b); }
  }

  lemma CompareKeysOrders(a: Key, b: Key, c: Key)
    ensures CompareKeys(a, b) == -CompareKeys(b, a)
    ensures CompareKeys(a, b) == 0 <==> a == b
    ensures CompareKeys(a, b) <= 0 && CompareKeys(b, c) <= 0 ==> CompareKeys(a, c) <= 0
  {
    if a.TextKey? && b.TextKey? { CompareTextOrders(a.s, b.s, if c.TextKey? then c.s else ""); }
  }

  lemma CompareRowsOrders(a: Row, b: Row, c: Row, column: Column, d: Direction, numberOf: string -> real)
    ensures CompareRows(a, b, column, d, numberOf) == -CompareRows(b, a, column, d, numberOf)
    ensures CompareRows(a, b, column, d, numberOf) == 0 ==> a.tiebreak == b.tiebreak
    ensures CompareRows(a, b, column, d, numberOf) <= 0 && CompareRows(b, c, column, d, numberOf) <= 0 ==>
              CompareRows(a, c, column, d, numberOf) <= 0
  {
    var ka, kb, kc := OrderKey(a, column, numberOf), OrderKey(b, column, numberOf), OrderKey(c, column, numberOf);
    CompareKeysOrders(ka, kb, kc);
    CompareKeysOrders(kb, kc, ka);
    CompareKeysOrders(kc, kb, ka);
    CompareTextOrders(a.tiebreak, b.tiebreak, c.tiebreak);
    CompareTextOrders(c.tiebreak, b.tiebreak, a.tiebreak);
    CompareTextOrders(b.tiebreak, c.tiebreak, a.tiebreak);
    CompareTextOrders(a.tiebreak, c.tiebreak, a.tiebreak);
    CompareKeysOrders(ka, kc, ka);
  }
}
