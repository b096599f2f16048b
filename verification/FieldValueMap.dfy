/** src/ingestion/scripts/load_field_value_map.py: from the parsed bundle to the insert-only load. */
module FieldValueMap {
  import opened Common
  import Tsv = TabSeparated

  type Key = seq<string>

  /** One declared decision: its key columns and the value columns it carries. */
  datatype Decision = Decision(key: Key, values: seq<string>)

  /** A stored row; both tables keep every row ever written. */
  datatype Stored = Stored(decision: Decision, deleted: bool, validFrom: int, recordedAt: int)

  // ---- parsing: all or nothing ----

  /** A csv record with its fields stripped, and the line it ends on. */
  datatype Record = Record(line: nat, fields: seq<string>)

  datatype File = File(name: string, records: seq<Record>)

  datatype Problem = Problem(file: string, line: nat, what: string)

  datatype Parsed<T> = Rows(rows: seq<T>) | Malformed(problems: seq<Problem>)

  /** Blank lines and `#` comments declare nothing. */
  predicate IsNoise(r: Record) {
    (forall f :: f in r.fields ==> f == "") || (r.fields[0] != "" && r.fields[0][0] == '#')
  }

  function LowerChar(c: char): char {
    if 'A' <= c <= 'Z' then (c as int + 32) as char else c
  }

  function Lower(s: string): string {
    if s == "" then "" else [LowerChar(s[0])] + Lower(s[1..])
  }

  predicate IsHeader(r: Record) {
    r.fields != [] && Lower(r.fields[0]) == "tenant_id"
  }

  /** The records of a file that declare something; only the first of them may be a header. */
  function DataRecords(records: seq<Record>, headerAllowed: bool): seq<Record> {
    if records == [] then []
    else if IsNoise(records[0]) then DataRecords(records[1..], headerAllowed)
    else (if headerAllowed && IsHeader(records[0]) then [] else [records[0]]) + DataRecords(records[1..], false)
  }

  function Built<T>(records: seq<Record>, rejection: seq<string> -> Option<string>, build: seq<string> -> T): seq<T> {
    if records == [] then []
    else
      (if rejection(records[0].fields).None? then [build(records[0].fields)] else [])
      + Built(records[1..], rejection, build)
  }

  function Problems(name: string, records: seq<Record>, rejection: seq<string> -> Option<string>): seq<Problem> {
    if records == [] then []
    else
      var problem := rejection(records[0].fields);
      (if problem.Some? then [Problem(name, records[0].line, problem.value)] else [])
      + Problems(name, records[1..], rejection)
  }

  function BundleRows<T>(files: seq<File>, rejection: seq<string> -> Option<string>, build: seq<string> -> T): seq<T> {
    if files == [] then []
    else Built(DataRecords(files[0].records, true), rejection, build) + BundleRows(files[1..], rejection, build)
  }

  function BundleProblems(files: seq<File>, rejection: seq<string> -> Option<string>): seq<Problem> {
    if files == [] then []
    else Problems(files[0].name, DataRecords(files[0].records, true), rejection) + BundleProblems(files[1..], rejection)
  }

  /** What record `k` of a file adds to what is read from there on. */
  lemma RecordStep<T>(name: string, records: seq<Record>, k: nat, headerAllowed: bool,
                      rejection: seq<string> -> Option<string>, build: seq<string> -> T)
    requires k < |records|
    ensures var r := records[k];
            var skipped := IsNoise(r) || (headerAllowed && IsHeader(r));
            var rest := DataRecords(records[k + 1..], headerAllowed && IsNoise(r));
            var data := DataRecords(records[k..], headerAllowed);
            var problem := rejection(r.fields);
            && Built(data, rejection, build)
               == (if skipped || problem.Some? then [] else [build(r.fields)]) + Built(rest, rejection, build)
            && Problems(name, data, rejection)
               == (if skipped || problem.None? then [] else [Problem(name, r.line, problem.value)])
                   + Problems(name, rest, rejection)
  {
    assert records[k..][0] == records[k] && records[k..][1..] == records[k + 1..];
    var rest := DataRecords(records[k + 1..], headerAllowed && IsNoise(records[k]));
    assert ([records[k]] + rest)[1..] == rest && [] + rest == rest;
    assert [] + Built(rest, rejection, build) == Built(rest, rejection, build);
    assert [] + Problems(name, rest, rejection) == Problems(name, rest, rejection);
  }

  lemma FileStep<T>(files: seq<File>, n: nat, rejection: seq<string> -> Option<string>, build: seq<string> -> T)
    requires n < |files|
    ensures var data := DataRecords(files[n].records, true);
            && BundleRows(files[n..], rejection, build)
               == Built(data, rejection, build) + BundleRows(files[n + 1..], rejection, build)
            && BundleProblems(files[n..], rejection)
               == Problems(files[n].name, data, rejection) + BundleProblems(files[n + 1..], rejection)
  {
    assert files[n..][0] == files[n] && files[n..][1..] == files[n + 1..];
  }

  lemma NoRecordsLeft<T>(name: string, headerAllowed: bool, rejection: seq<string> -> Option<string>,
                         build: seq<string> -> T)
    ensures Built(DataRecords([], headerAllowed), rejection, build) == []
    ensures Problems(name, DataRecords([], headerAllowed), rejection) == []
  {
  }

  /** One file of `_parse_files`: its rows and its problems join those read so far. */
  method ParseFile<T>(file: File, rejection: seq<string> -> Option<string>, build: seq<string> -> T,
                      rowsOut: seq<T>, errorsOut: seq<Problem>)
    returns (rows: seq<T>, errors: seq<Problem>)
    ensures rows == rowsOut + Built(DataRecords(file.records, true), rejection, build)
    ensures errors == errorsOut + Problems(file.name, DataRecords(file.records, true), rejection)
  {
    hide DataRecords, Built, Problems, IsNoise, IsHeader;
    rows, errors := rowsOut, errorsOut;
    var records := file.records;
    var headerAllowed := true;
    assert records[0..] == records;
    for k := 0 to |records|
      invariant rowsOut + Built(DataRecords(records, true), rejection, build)
                == rows + Built(DataRecords(records[k..], headerAllowed), rejection, build)
      invariant errorsOut + Problems(file.name, DataRecords(records, true), rejection)
                == errors + Problems(file.name, DataRecords(records[k..], headerAllowed), rejection)
    {
      var record := records[k];
      RecordStep(file.name, records, k, headerAllowed, rejection, build);
      if IsNoise(record) { continue; }
      var isHeader := headerAllowed && IsHeader(record);
      headerAllowed := false;
      if isHeader { continue; }
      var problem := rejection(record.fields);
      if problem.Some? {
        errors := errors + [Problem(file.name, record.line, problem.value)];
      } else {
        rows := rows + [build(record.fields)];
      }
    }
    assert records[|records|..] == [];
    NoRecordsLeft(file.name, headerAllowed, rejection, build);
  }

  /** `_parse_files`: every file, every record, and one verdict over the whole bundle. */
  method ParseFiles<T>(files: seq<File>, rejection: seq<string> -> Option<string>, build: seq<string> -> T)
    returns (r: Parsed<T>)
    ensures r == if BundleProblems(files, rejection) == [] then Rows(BundleRows(files, rejection, build))
                 else Malformed(BundleProblems(files, rejection))
  {
    hide DataRecords, Built, Problems;
    var rows: seq<T> := [];
    var errors: seq<Problem> := [];
    assert files[0..] == files;
    for n := 0 to |files|
      invariant BundleRows(files, rejection, build) == rows + BundleRows(files[n..], rejection, build)
      invariant BundleProblems(files, rejection) == errors + BundleProblems(files[n..], rejection)
    {
      FileStep(files, n, rejection, build);
      rows, errors := ParseFile(files[n], rejection, build, rows, errors);
    }
    return if errors != [] then Malformed(errors) else Rows(rows);
  }

  // ---- deduplication and the anti-join ----

  function KeysOf(rows: seq<Decision>): set<Key> {
    set r | r in rows :: r.key
  }

  /** Collapses repeated keys; the first declaration wins. */
  function FirstWins(rows: seq<Decision>): seq<Decision> {
    if rows == [] then []
    else
      var last := |rows| - 1;
      var init := FirstWins(rows[..last]);
      if rows[last].key in KeysOf(init) then init else init + [rows[last]]
  }

  method Deduplicate(rows: seq<Decision>) returns (unique: seq<Decision>)
    ensures unique == FirstWins(rows)
  {
    var seen: set<Key> := {};
    unique := [];
    for n := 0 to |rows|
      invariant unique == FirstWins(rows[..n])
      invariant seen == KeysOf(unique)
    {
      assert rows[..n + 1][..n] == rows[..n];
      if rows[n].key in seen { continue; }
      seen := seen + {rows[n].key};
      unique := unique + [rows[n]];
    }
    assert rows[..|rows|] == rows;
  }

  function Unstored(rows: seq<Decision>, stored: set<Key>): seq<Decision> {
    if rows == [] then [] else (if rows[0].key in stored then [] else [rows[0]]) + Unstored(rows[1..], stored)
  }

  function SelectMissing(rows: seq<Decision>, stored: set<Key>): seq<Decision> {
    Unstored(FirstWins(rows), stored)
  }

  // ---- the warehouse and the load ----

  function StoredKeys(table: seq<Stored>): seq<Key> {
    if table == [] then [] else [table[0].decision.key] + StoredKeys(table[1..])
  }

  function Inserted(rows: seq<Decision>, now: int): seq<Stored> {
    if rows == [] then [] else [Stored(rows[0], false, 0, now)] + Inserted(rows[1..], now)
  }

  function Columns(d: Decision): seq<string> { d.key + d.values }

  function AllColumns(rows: seq<Decision>): seq<seq<string>> {
    if rows == [] then [] else [Columns(rows[0])] + AllColumns(rows[1..])
  }

  /** What Python's `splitlines` breaks on; a pair `\r\n` makes an empty line more, and those are
      dropped. */
  predicate IsLineBreak(c: char) {
    var u := c as int;
    0x0A <= u <= 0x0D || 0x1C <= u <= 0x1E || u == 0x85 || u == 0x2028 || u == 0x2029
  }

  /** The non-empty lines of `s`. */
  function SplitLines(s: string, line: string): seq<string> {
    if s == "" then (if line == "" then [] else [line])
    else if IsLineBreak(s[0]) then (if line == "" then [] else [line]) + SplitLines(s[1..], "")
    else SplitLines(s[1..], line + [s[0]])
  }

  function SplitTabs(lines: seq<string>): seq<seq<string>> {
    if lines == [] then [] else [Tsv.Split(lines[0], '\t')] + SplitTabs(lines[1..])
  }

  /** The HTTP reader: it takes lines and tabs apart and leaves the escapes as they are. */
  function HttpRead(text: string): seq<seq<string>> {
    SplitTabs(SplitLines(text, ""))
  }

  /** The answer to `SELECT DISTINCT` of the key columns, on the wire. */
  function KeysOnTheWire(table: seq<Stored>): string {
    if table == [] then "" else Tsv.Body(StoredKeys(table))
  }

  /** The stored keys as a reader returns them: as they are, or over HTTP. */
  function FetchedKeys(table: seq<Stored>, http: bool): seq<Key> {
    if http then HttpRead(KeysOnTheWire(table)) else StoredKeys(table)
  }

  function ToSet(keys: seq<Key>): set<Key> { set k | k in keys }

  /** The table after a load. */
  function AfterLoad(table: seq<Stored>, rows: seq<Decision>, http: bool, now: int): seq<Stored> {
    table + Inserted(SelectMissing(rows, ToSet(FetchedKeys(table, http))), now)
  }

  class Warehouse {
    var present: bool
    var table: seq<Stored>
    const http: bool

    constructor (http: bool)
      ensures this.http == http && present && table == []
    {
      this.http := http;
      present, table := true, [];
    }

    method FetchKeys() returns (keys: seq<Key>)
      ensures keys == FetchedKeys(table, http)
    {
      return FetchedKeys(table, http);
    }

    /** Executes an INSERT whose body holds these rows; the server stamps the epoch and its clock. */
    method Execute(body: string, rows: seq<Decision>, now: int)
      requires Tsv.Decode(body) == AllColumns(rows)
      modifies this`table
      ensures table == old(table) + Inserted(rows, now)
    {
      table := table + Inserted(rows, now);
    }
  }

  method Load(rows: seq<Decision>, warehouse: Warehouse, now: int) returns (count: nat)
    requires forall i :: 0 <= i < |rows| ==> rows[i].key != []
    modifies warehouse`table
    ensures rows == [] || !warehouse.present ==> warehouse.table == old(warehouse.table) && count == 0
    ensures rows != [] && warehouse.present ==>
              && warehouse.table == AfterLoad(old(warehouse.table), rows, warehouse.http, now)
              && count == |SelectMissing(rows, ToSet(FetchedKeys(old(warehouse.table), warehouse.http)))|
  {
    if rows == [] || !warehouse.present { return 0; }
    var fetched := warehouse.FetchKeys();
    var unique := Deduplicate(rows);
    var missing := Unstored(unique, ToSet(fetched));
    if missing == [] { return 0; }
    MissingHaveColumns(rows, ToSet(fetched));
    Tsv.DecodeInvertsBody(AllColumns(missing));
    warehouse.Execute(Tsv.Body(AllColumns(missing)), missing, now);
    return |missing|;
  }

  lemma {:induction false} FirstWinsIsFrom(rows: seq<Decision>)
    ensures forall r :: r in FirstWins(rows) ==> r in rows
  {
    if rows != [] { FirstWinsIsFrom(rows[..|rows| - 1]); }
  }

  lemma {:induction false} UnstoredIsFrom(rows: seq<Decision>, stored: set<Key>)
    ensures forall r :: r in Unstored(rows, stored) <==> r in rows && r.key !in stored
  {
    if rows != [] { UnstoredIsFrom(rows[1..], stored); }
  }

  lemma {:induction false} AllColumnsFilled(rows: seq<Decision>)
    requires forall r :: r in rows ==> r.key != []
    ensures |AllColumns(rows)| == |rows| && forall i :: 0 <= i < |rows| ==> AllColumns(rows)[i] != []
  {
    if rows != [] { AllColumnsFilled(rows[1..]); }
  }

  lemma MissingHaveColumns(rows: seq<Decision>, stored: set<Key>)
    requires forall i :: 0 <= i < |rows| ==> rows[i].key != []
    ensures var missing := AllColumns(SelectMissing(rows, stored));
            |missing| == |SelectMissing(rows, stored)| && forall i :: 0 <= i < |missing| ==> missing[i] != []
  {
    FirstWinsIsFrom(rows);
    UnstoredIsFrom(FirstWins(rows), stored);
    AllColumnsFilled(SelectMissing(rows, stored));
  }
}
