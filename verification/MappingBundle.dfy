/** src/ingestion/scripts/load_field_value_map.py: mapping files, from their records to the wire. */
module MappingBundle {
  import opened Common
  import opened FieldValueMap
  import Tsv = TabSeparated

  const MIN_COLUMNS := 7
  const MAX_COLUMNS := 8
  const KEY_WIDTH := 5

  /** The canonical values of a standardized field; none for a field no consumer resolves. */
  function Domain(field: string): set<string> {
    if field == "issue_type" then {"bug", "task", "unknown"}
    else if field == "resolution" then {"fixed", "duplicate", "wontfix", "unknown"}
    else {}
  }

  /** `_rejection`: why a record is no mapping decision, if it is none. */
  function Rejection(fields: seq<string>): Option<string> {
    if !(MIN_COLUMNS <= |fields| <= MAX_COLUMNS) then Some("wrong number of columns")
    else if exists i :: 0 <= i < MIN_COLUMNS && fields[i] == "" then Some("a required column is empty")
    else if Domain(fields[3]) == {} then Some("the field is not supported")
    else if fields[6] !in Domain(fields[3]) then Some("the value is outside the field's domain")
    else None
  }

  /** The eight columns of a decision; the note is empty when it is not given. */
  function Padded(fields: seq<string>): seq<string> {
    if |fields| >= MAX_COLUMNS then fields[..MAX_COLUMNS] else fields + [""]
  }

  function Build(fields: seq<string>): Decision {
    var columns := Padded(fields);
    if |columns| < KEY_WIDTH then Decision(columns, []) else Decision(columns[..KEY_WIDTH], columns[KEY_WIDTH..])
  }

  function WithoutNoise(records: seq<Record>): seq<Record> {
    if records == [] then []
    else (if IsNoise(records[0]) then [] else [records[0]]) + WithoutNoise(records[1..])
  }

  /** Blank lines and comments go, wherever they are; of the rest the first goes if it is a header,
      and a later one that looks like a header is data. */
  lemma {:induction false} OneHeader(records: seq<Record>)
    ensures DataRecords(records, false) == WithoutNoise(records)
    ensures var kept := WithoutNoise(records);
            DataRecords(records, true) == if kept != [] && IsHeader(kept[0]) then kept[1..] else kept
  {
    if records != [] {
      OneHeader(records[1..]);
      hide IsNoise, IsHeader;
      var rest := WithoutNoise(records[1..]);
      assert ([records[0]] + rest)[1..] == rest && [] + rest == rest;
    }
  }

  /** Every record of the bundle that declares something, in order. */
  function AllData(files: seq<File>): seq<Record> {
    if files == [] then [] else DataRecords(files[0].records, true) + AllData(files[1..])
  }

  /** No record is rejected. */
  ghost predicate NoneRejected(records: seq<Record>, rejection: seq<string> -> Option<string>) {
    forall i :: 0 <= i < |records| ==> rejection(records[i].fields).None?
  }

  /** The rows are the records', one by one. */
  ghost predicate EachBuilt<T(!new)>(records: seq<Record>, rows: seq<T>, build: seq<string> -> T) {
    |rows| == |records| && forall i :: 0 <= i < |records| ==> rows[i] == build(records[i].fields)
  }

  lemma {:induction false} FileVerdict<T(!new)>(name: string, records: seq<Record>,
                                                rejection: seq<string> -> Option<string>, build: seq<string> -> T)
    ensures |Problems(name, records, rejection)| + |Built(records, rejection, build)| == |records|
    ensures Problems(name, records, rejection) == [] <==> NoneRejected(records, rejection)
    ensures Problems(name, records, rejection) == [] ==> EachBuilt(records, Built(records, rejection, build), build)
  {
    if records != [] {
      FileVerdict(name, records[1..], rejection, build);
      assert records == [records[0]] + records[1..];
      if Problems(name, records, rejection) == [] {
        assert Built(records, rejection, build) == [build(records[0].fields)] + Built(records[1..], rejection, build);
      }
    }
  }

  lemma NoneRejectedJoins(a: seq<Record>, b: seq<Record>, rejection: seq<string> -> Option<string>)
    ensures NoneRejected(a + b, rejection) <==> NoneRejected(a, rejection) && NoneRejected(b, rejection)
  {
    var c := a + b;
    if NoneRejected(c, rejection) {
      assert forall i :: 0 <= i < |a| ==> a[i] == c[i];
      assert forall i :: 0 <= i < |b| ==> b[i] == c[|a| + i];
    }
  }

  lemma EachBuiltJoins<T(!new)>(a: seq<Record>, b: seq<Record>, s: seq<T>, t: seq<T>, build: seq<string> -> T)
    requires EachBuilt(a, s, build) && EachBuilt(b, t, build)
    ensures EachBuilt(a + b, s + t, build)
  {
  }

  /** All or nothing: a bundle is read exactly when none of its records is rejected, and then every
      record became one row, in order; otherwise every bad record is reported, once. */
  lemma {:induction false} AllOrNothing<T(!new)>(files: seq<File>, rejection: seq<string> -> Option<string>,
                                                 build: seq<string> -> T)
    ensures |BundleProblems(files, rejection)| + |BundleRows(files, rejection, build)| == |AllData(files)|
    ensures BundleProblems(files, rejection) == [] <==> NoneRejected(AllData(files), rejection)
    ensures BundleProblems(files, rejection) == [] ==>
            EachBuilt(AllData(files), BundleRows(files, rejection, build), build)
  {
    if files != [] {
      var head, tail := DataRecords(files[0].records, true), AllData(files[1..]);
      FileVerdict(files[0].name, head, rejection, build);
      AllOrNothing(files[1..], rejection, build);
      hide DataRecords, Built, Problems, NoneRejected, EachBuilt;
      NoneRejectedJoins(head, tail, rejection);
      if NoneRejected(AllData(files), rejection) {
        EachBuiltJoins(head, tail, Built(head, rejection, build), BundleRows(files[1..], rejection, build), build);
      }
    }
  }

  /** The report `p` is about record `r` of a file of this name. */
  predicate Reports(p: Problem, name: string, r: Record, rejection: seq<string> -> Option<string>) {
    p.file == name && p.line == r.line && rejection(r.fields) == Some(p.what)
  }

  lemma {:induction false} FileReports(name: string, records: seq<Record>, rejection: seq<string> -> Option<string>,
                                       p: Problem)
    ensures p in Problems(name, records, rejection) <==> exists r :: r in records && Reports(p, name, r, rejection)
  {
    if records != [] {
      FileReports(name, records[1..], rejection, p);
      var problem := rejection(records[0].fields);
      assert p in Problems(name, records, rejection) <==>
             (problem.Some? && p == Problem(name, records[0].line, problem.value))
             || p in Problems(name, records[1..], rejection);
      assert Reports(p, name, records[0], rejection) <==>
             problem.Some? && p == Problem(name, records[0].line, problem.value);
      assert forall r :: r in records <==> r == records[0] || r in records[1..];
    }
  }

  /** What is reported is each rejected record, by its file, its line and what is wrong, and nothing else. */
  lemma {:induction false} ProblemsReport(files: seq<File>, rejection: seq<string> -> Option<string>, p: Problem)
    ensures p in BundleProblems(files, rejection) <==>
              exists f, r :: f in files && r in DataRecords(f.records, true) && Reports(p, f.name, r, rejection)
  {
    hide Reports, DataRecords;
    if files != [] {
      FileReports(files[0].name, DataRecords(files[0].records, true), rejection, p);
      ProblemsReport(files[1..], rejection, p);
      assert files == [files[0]] + files[1..];
    }
  }

  /** A record is a mapping exactly if it has seven or eight columns, the first seven are filled, and it
      gives an issue type or a resolution one of its values. */
  lemma AcceptedExactly(fields: seq<string>)
    ensures Rejection(fields).None? <==>
              && 7 <= |fields| <= 8 && (forall i :: 0 <= i < 7 ==> fields[i] != "")
              && if fields[3] == "issue_type" then fields[6] in {"bug", "task", "unknown"}
                 else fields[3] == "resolution" && fields[6] in {"fixed", "duplicate", "wontfix", "unknown"}
  {
    assert "bug" in Domain("issue_type") && "fixed" in Domain("resolution");
  }

  /** Its key is the first five columns; then the display name, the value, and the note if there is one. */
  lemma DecisionOf(fields: seq<string>)
    requires Rejection(fields).None?
    ensures Build(fields).key == fields[..5]
    ensures Build(fields).values == [fields[5], fields[6], if |fields| == 8 then fields[7] else ""]
  {
    var columns := Padded(fields);
    assert columns[..5] == fields[..5];
    assert columns[5..] == [columns[5], columns[6], columns[7]];
  }

  /** `t` in small letters or capitals. */
  predicate SameButCase(s: string, t: string) {
    |s| == |t| && forall i :: 0 <= i < |s| ==>
                                s[i] == t[i] || ('a' <= t[i] <= 'z' && s[i] as int + 32 == t[i] as int)
  }

  lemma {:induction false} LowerMeans(s: string, t: string)
    requires forall i :: 0 <= i < |t| ==> !('A' <= t[i] <= 'Z')
    ensures Lower(s) == t <==> SameButCase(s, t)
  {
    if s != "" && t != "" {
      LowerMeans(s[1..], t[1..]);
      assert s == [s[0]] + s[1..] && t == [t[0]] + t[1..];
      assert Lower(s) == [LowerChar(s[0])] + Lower(s[1..]);
    }
  }

  /** A record is passed over exactly if all its fields are empty or its first begins with `#`. */
  lemma NoiseMeans(r: Record)
    ensures IsNoise(r) <==>
              (forall i :: 0 <= i < |r.fields| ==> r.fields[i] == "") || (r.fields != [] && "#" <= r.fields[0])
  {
    if f :| f in r.fields && f != "" {
      var i :| 0 <= i < |r.fields| && r.fields[i] == f;
      assert r.fields[i] != "";
    }
    if i :| 0 <= i < |r.fields| && r.fields[i] != "" { assert r.fields[i] in r.fields; }
    if r.fields != [] && r.fields[0] != "" { assert "#" <= r.fields[0] <==> r.fields[0][0] == '#'; }
  }

  /** And it is a header exactly if its first field says tenant_id, in small letters or capitals. */
  lemma HeaderMeans(r: Record)
    ensures IsHeader(r) <==> r.fields != [] && SameButCase(r.fields[0], "tenant_id")
  {
    hide Lower, SameButCase;
    if r.fields != [] { LowerMeans(r.fields[0], "tenant_id"); }
  }

  /** An accepted record becomes a decision with a full key, three values, and a target its field's
      consumers know; nothing of the record is lost. */
  lemma AcceptedDecision(fields: seq<string>)
    requires Rejection(fields).None?
    ensures var d := Build(fields);
            && |d.key| == KEY_WIDTH && |d.values| == 3 && Columns(d) == Padded(fields)
            && (forall i :: 0 <= i < KEY_WIDTH ==> d.key[i] != "")
            && d.values[0] != "" && d.values[1] in Domain(d.key[3])
    ensures fields <= Columns(Build(fields))
  {
    var columns := Padded(fields);
    assert columns[..KEY_WIDTH] + columns[KEY_WIDTH..] == columns;
    assert forall i :: 0 <= i < MIN_COLUMNS ==> columns[i] == fields[i];
  }

  function AllPadded(records: seq<Record>): seq<seq<string>> {
    if records == [] then [] else [Padded(records[0].fields)] + AllPadded(records[1..])
  }

  lemma {:induction false} ColumnsOfBuilt(rows: seq<Decision>, records: seq<Record>)
    requires |rows| == |records|
    requires forall i :: 0 <= i < |records| ==>
            rows[i] == Build(records[i].fields) && Rejection(records[i].fields).None?
    ensures AllColumns(rows) == AllPadded(records)
    ensures |AllPadded(records)| == |records| && forall i :: 0 <= i < |records| ==> AllPadded(records)[i] != []
  {
    if rows != [] {
      AcceptedDecision(records[0].fields);
      ColumnsOfBuilt(rows[1..], records[1..]);
    }
  }

  /** From the file to the server: the rows of an accepted bundle, sent in one INSERT body, are read
      back as the fields of its records, quoted tabs and newlines included. */
  lemma BundleReachesTheServer(files: seq<File>)
    requires BundleProblems(files, Rejection) == [] && AllData(files) != []
    ensures Tsv.Decode(Tsv.Body(AllColumns(BundleRows(files, Rejection, Build)))) == AllPadded(AllData(files))
  {
    AllOrNothing(files, Rejection, Build);
    ColumnsOfBuilt(BundleRows(files, Rejection, Build), AllData(files));
    Tsv.DecodeInvertsBody(AllPadded(AllData(files)));
  }
}
