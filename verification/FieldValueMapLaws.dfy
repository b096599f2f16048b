/** What the loader promises: it never touches a decided key, seeds each missing one once with its
    first declaration, does nothing the second time, and when its HTTP reader can be trusted. */
module FieldValueMapLaws {
  import opened Common
  import opened FieldValueMap
  import Tsv = TabSeparated

  // ---- first declaration wins ----

  ghost predicate IsFirst(rows: seq<Decision>, r: Decision) {
    exists i :: 0 <= i < |rows| && rows[i] == r && forall j :: 0 <= j < i ==> rows[j].key != r.key
  }

  /** Deduplication keeps exactly the declarations no earlier one has the key of, and each key once. */
  lemma {:induction false} FirstWinsKeepsFirsts(rows: seq<Decision>, r: Decision)
    ensures r in FirstWins(rows) <==> IsFirst(rows, r)
    ensures KeysOf(FirstWins(rows)) == KeysOf(rows)
    ensures forall i, j :: 0 <= i < j < |FirstWins(rows)| ==> FirstWins(rows)[i].key != FirstWins(rows)[j].key
  {
    if rows != [] {
      var last := |rows| - 1;
      var init := rows[..last];
      FirstWinsKeepsFirsts(init, r);
      assert rows == init + [rows[last]];
      assert KeysOf(rows) == KeysOf(init) + {rows[last].key};
      FirstOfExtended(init, rows[last], r);
      if rows[last].key !in KeysOf(FirstWins(init)) {
        var whole := FirstWins(rows);
        assert whole == FirstWins(init) + [rows[last]];
        assert KeysOf(whole) == KeysOf(FirstWins(init)) + {rows[last].key};
        forall i, j | 0 <= i < j < |whole| ensures whole[i].key != whole[j].key {
          if j == |whole| - 1 { assert whole[i] in FirstWins(init); }
        }
      }
    }
  }

  lemma FirstOfExtended(init: seq<Decision>, last: Decision, r: Decision)
    ensures IsFirst(init + [last], r) <==> IsFirst(init, r) || (r == last && last.key !in KeysOf(init))
  {
    var rows := init + [last];
    if IsFirst(rows, r) {
      var i :| 0 <= i < |rows| && rows[i] == r && forall j :: 0 <= j < i ==> rows[j].key != r.key;
      if i < |init| {
        assert init[i] == r && forall j :: 0 <= j < i ==> init[j].key != r.key by {
          forall j | 0 <= j < i ensures init[j].key != r.key { assert rows[j] == init[j]; }
        }
      } else {
        forall d | d in init ensures d.key != last.key {
          var j :| 0 <= j < |init| && init[j] == d;
          assert rows[j] == d;
        }
      }
    }
    if IsFirst(init, r) {
      var i :| 0 <= i < |init| && init[i] == r && forall j :: 0 <= j < i ==> init[j].key != r.key;
      assert rows[i] == r;
    }
    if r == last && last.key !in KeysOf(init) {
      assert rows[|init|] == r;
      forall j | 0 <= j < |init| ensures rows[j].key != r.key { assert init[j] in init; }
    }
  }

  // ---- the table after a load ----

  function RowsFor(table: seq<Stored>, key: Key): seq<Stored> {
    if table == [] then []
    else (if table[0].decision.key == key then [table[0]] else []) + RowsFor(table[1..], key)
  }

  predicate Newer(a: Stored, b: Stored) {
    a.validFrom > b.validFrom || (a.validFrom == b.validFrom && a.recordedAt > b.recordedAt)
  }

  function Newest(rows: seq<Stored>): Option<Stored> {
    if rows == [] then None
    else
      var rest := Newest(rows[1..]);
      if rest.None? || Newer(rows[0], rest.value) then Some(rows[0]) else rest
  }

  /** What a consumer's `ORDER BY valid_from DESC, recorded_at DESC LIMIT 1 BY` reads. */
  function Current(table: seq<Stored>, key: Key): Option<Stored> {
    Newest(RowsFor(table, key))
  }

  lemma {:induction false} RowsForAppend(a: seq<Stored>, b: seq<Stored>, key: Key)
    ensures RowsFor(a + b, key) == RowsFor(a, key) + RowsFor(b, key)
  {
    if a == [] {
      assert a + b == b;
    } else {
      RowsForAppend(a[1..], b, key);
      assert (a + b)[1..] == a[1..] + b;
      var head := if a[0].decision.key == key then [a[0]] else [];
      assert RowsFor(a + b, key) == head + RowsFor(a[1..] + b, key);
    }
  }

  lemma {:induction false} StoredKeysAppend(a: seq<Stored>, b: seq<Stored>)
    ensures StoredKeys(a + b) == StoredKeys(a) + StoredKeys(b)
  {
    if a == [] {
      assert a + b == b;
    } else {
      StoredKeysAppend(a[1..], b);
      assert (a + b)[0] == a[0] && (a + b)[1..] == a[1..] + b;
      var head := [a[0].decision.key];
      assert StoredKeys(a + b) == head + StoredKeys(a[1..] + b);
      assert head + (StoredKeys(a[1..]) + StoredKeys(b)) == head + StoredKeys(a[1..]) + StoredKeys(b);
    }
  }

  lemma {:induction false} StoredKeysAreThose(table: seq<Stored>, key: Key)
    ensures key in StoredKeys(table) <==> RowsFor(table, key) != []
  {
    if table != [] { StoredKeysAreThose(table[1..], key); }
  }

  /** No two rows declare the same key. */
  ghost predicate DistinctKeys(rows: seq<Decision>) {
    forall i, j :: 0 <= i < j < |rows| ==> rows[i].key != rows[j].key
  }

  lemma {:induction false} InsertedRows(rows: seq<Decision>, now: int, key: Key)
    requires DistinctKeys(rows)
    ensures key !in KeysOf(rows) ==> RowsFor(Inserted(rows, now), key) == []
    ensures forall r :: r in rows && r.key == key ==> RowsFor(Inserted(rows, now), key) == [Stored(r, false, 0, now)]
  {
    if rows != [] {
      InsertedRows(rows[1..], now, key);
      assert rows == [rows[0]] + rows[1..];
      assert KeysOf(rows) == {rows[0].key} + KeysOf(rows[1..]);
      assert Inserted(rows, now)[1..] == Inserted(rows[1..], now);
      if rows[0].key == key {
        assert key !in KeysOf(rows[1..]);
      }
    }
  }

  lemma {:induction false} UnstoredKeepsDistinct(rows: seq<Decision>, stored: set<Key>)
    requires DistinctKeys(rows)
    ensures DistinctKeys(Unstored(rows, stored))
  {
    if rows != [] {
      UnstoredKeepsDistinct(rows[1..], stored);
      UnstoredIsFrom(rows[1..], stored);
      var rest := Unstored(rows[1..], stored);
      forall j | 0 <= j < |rest| ensures rest[j].key != rows[0].key {
        assert rest[j] in rows[1..];
      }
    }
  }

  /** The missing rows of a load: the first declaration of every key that is not stored. */
  lemma MissingRows(rows: seq<Decision>, stored: set<Key>, r: Decision)
    ensures DistinctKeys(SelectMissing(rows, stored))
    ensures r in SelectMissing(rows, stored) <==> IsFirst(rows, r) && r.key !in stored
    ensures KeysOf(SelectMissing(rows, stored)) == KeysOf(rows) - stored
  {
    FirstWinsKeepsFirsts(rows, r);
    UnstoredKeepsDistinct(FirstWins(rows), stored);
    UnstoredIsFrom(FirstWins(rows), stored);
    forall k ensures k in KeysOf(SelectMissing(rows, stored)) <==> k in KeysOf(rows) - stored {
      if k in KeysOf(rows) - stored {
        assert k in KeysOf(FirstWins(rows));
      }
    }
  }

  /** The load's effect on one key, whatever the reader returned as stored. */
  lemma LoadOnKey(table: seq<Stored>, rows: seq<Decision>, stored: set<Key>, now: int, key: Key)
    ensures var after := table + Inserted(SelectMissing(rows, stored), now);
            && (key in stored || key !in KeysOf(rows) ==> RowsFor(after, key) == RowsFor(table, key))
            && (forall r :: IsFirst(rows, r) && r.key == key && key !in stored ==>
                  RowsFor(after, key) == RowsFor(table, key) + [Stored(r, false, 0, now)])
  {
    var missing := SelectMissing(rows, stored);
    RowsForAppend(table, Inserted(missing, now), key);
    MissingRows(rows, stored, Decision([], []));
    InsertedRows(missing, now, key);
    forall r | IsFirst(rows, r) && r.key == key && key !in stored
      ensures RowsFor(Inserted(missing, now), key) == [Stored(r, false, 0, now)]
    {
      MissingRows(rows, stored, r);
    }
  }

  /** Insert-only. With a faithful reader no key that holds a row, retracted or not, gets another,
      so what consumers read for it does not change; and each key declared and not stored gets one
      row, its first declaration. */
  lemma LoadIsInsertOnly(table: seq<Stored>, rows: seq<Decision>, now: int, key: Key)
    ensures var after := AfterLoad(table, rows, false, now);
            && table <= after
            && (RowsFor(table, key) != [] ==>
                  RowsFor(after, key) == RowsFor(table, key) && Current(after, key) == Current(table, key))
            && (forall r :: IsFirst(rows, r) && r.key == key && RowsFor(table, key) == [] ==>
                  RowsFor(after, key) == [Stored(r, false, 0, now)])
            && (key !in KeysOf(rows) ==> RowsFor(after, key) == RowsFor(table, key))
  {
    StoredKeysAreThose(table, key);
    LoadOnKey(table, rows, ToSet(StoredKeys(table)), now, key);
  }

  lemma {:induction false} InsertedKeys(rows: seq<Decision>, now: int)
    ensures ToSet(StoredKeys(Inserted(rows, now))) == KeysOf(rows)
  {
    if rows != [] {
      InsertedKeys(rows[1..], now);
      assert Inserted(rows, now)[1..] == Inserted(rows[1..], now);
      assert rows == [rows[0]] + rows[1..];
      var tail := StoredKeys(Inserted(rows[1..], now));
      assert StoredKeys(Inserted(rows, now)) == [rows[0].key] + tail;
      assert ToSet([rows[0].key] + tail) == {rows[0].key} + ToSet(tail);
      assert KeysOf(rows) == {rows[0].key} + KeysOf(rows[1..]);
    }
  }

  lemma {:induction false} UnstoredOfStored(rows: seq<Decision>, stored: set<Key>)
    requires KeysOf(rows) <= stored
    ensures Unstored(rows, stored) == []
  {
    if rows != [] {
      assert rows[0].key in KeysOf(rows);
      assert KeysOf(rows[1..]) <= KeysOf(rows);
      UnstoredOfStored(rows[1..], stored);
    }
  }

  /** A faithful second run of the same bundle, whenever it comes, inserts nothing. */
  lemma LoadIsIdempotent(table: seq<Stored>, rows: seq<Decision>, now: int, later: int)
    ensures var after := AfterLoad(table, rows, false, now);
            AfterLoad(after, rows, false, later) == after
  {
    var stored := ToSet(StoredKeys(table));
    var missing := SelectMissing(rows, stored);
    var after := AfterLoad(table, rows, false, now);
    StoredKeysAppend(table, Inserted(missing, now));
    InsertedKeys(missing, now);
    MissingRows(rows, stored, Decision([], []));
    FirstWinsKeepsFirsts(rows, Decision([], []));
    assert ToSet(StoredKeys(after)) == stored + KeysOf(missing);
    UnstoredOfStored(FirstWins(rows), ToSet(StoredKeys(after)));
  }

  // ---- the HTTP reader ----

  predicate PlainField(f: string) {
    forall i :: 0 <= i < |f| ==> !Tsv.Escapable(f[i]) && !IsLineBreak(f[i])
  }

  /** A key whose fields hold nothing that is escaped on the wire or that breaks a line. */
  predicate PlainKey(k: Key) {
    forall i :: 0 <= i < |k| ==> PlainField(k[i])
  }

  /** So a key is plain exactly if its fields hold none of the eight characters the wire escapes, and none of
      the others Python breaks lines on. */
  lemma PlainMeans(k: Key)
    ensures PlainKey(k) <==>
              forall i, j :: 0 <= i < |k| && 0 <= j < |k[i]| ==>
                               (k[i][j] as int) !in {0, 8, 9, 10, 11, 12, 13, 28, 29, 30, 39, 92, 133, 8232, 8233}
  {
  }

  predicate NoBreaks(s: string) {
    forall i :: 0 <= i < |s| ==> !IsLineBreak(s[i])
  }

  /** No field breaks a line. */
  predicate Unbroken(k: Key) {
    forall f :: f in k ==> NoBreaks(f)
  }

  /** What the reader makes of the line of one key. */
  function ReadOne(k: Key): seq<Key> {
    SplitTabs(SplitLines(Tsv.Line(k), ""))
  }

  function ReadAll(keys: seq<Key>): seq<Key> {
    if keys == [] then [] else ReadOne(keys[0]) + ReadAll(keys[1..])
  }

  lemma {:induction false} SplitLinesAcross(a: string, c: char, b: string, line: string)
    requires IsLineBreak(c)
    ensures SplitLines(a + [c] + b, line) == SplitLines(a, line) + SplitLines(b, "")
  {
    var whole := a + [c] + b;
    if a == "" {
      assert whole[0] == c && whole[1..] == b;
    } else {
      assert whole[0] == a[0] && whole[1..] == a[1..] + [c] + b;
      SplitLinesAcross(a[1..], c, b, if IsLineBreak(a[0]) then "" else line + [a[0]]);
    }
  }

  lemma {:induction false} SplitTabsAppend(a: seq<string>, b: seq<string>)
    ensures SplitTabs(a + b) == SplitTabs(a) + SplitTabs(b)
  {
    if a == [] {
      assert a + b == b;
    } else {
      SplitTabsAppend(a[1..], b);
      assert (a + b)[1..] == a[1..] + b;
    }
  }

  /** The reader takes a body apart key by key, whatever the keys hold: no escaped field spills into
      another key's line. */
  lemma {:induction false} HttpReadsKeyByKey(keys: seq<Key>)
    requires keys != []
    ensures HttpRead(Tsv.Body(keys)) == ReadAll(keys)
  {
    var line, rest := Tsv.Line(keys[0]), keys[1..];
    if rest == [] {
      assert Tsv.Lines(keys) == [line];
      assert Tsv.Body(keys) == line + "\n" + "";
      SplitLinesAcross(line, '\n', "", "");
      assert SplitLines(line, "") + [] == SplitLines(line, "");
      assert ReadAll(keys) == ReadOne(keys[0]);
    } else {
      HttpReadsKeyByKey(rest);
      assert Tsv.Lines(keys) == [line] + Tsv.Lines(rest);
      assert |Tsv.Lines(rest)| > 0;
      assert Tsv.Body(keys) == line + "\n" + Tsv.Body(rest);
      SplitLinesAcross(line, '\n', Tsv.Body(rest), "");
      SplitTabsAppend(SplitLines(line, ""), SplitLines(Tsv.Body(rest), ""));
    }
  }

  lemma {:induction false} UnbrokenLine(s: string, line: string)
    requires NoBreaks(s)
    ensures SplitLines(s, line) == if line + s == "" then [] else [line + s]
  {
    if s != "" {
      UnbrokenLine(s[1..], line + [s[0]]);
      assert line + [s[0]] + s[1..] == line + s;
    } else {
      assert line + s == line;
    }
  }

  lemma {:induction false} LinesAreUnbroken(s: string, line: string)
    requires NoBreaks(line)
    ensures forall l :: l in SplitLines(s, line) ==> NoBreaks(l)
  {
    if s != "" {
      LinesAreUnbroken(s[1..], if IsLineBreak(s[0]) then "" else line + [s[0]]);
    }
  }

  lemma {:induction false} SplitKeepsUnbroken(s: string)
    requires NoBreaks(s)
    ensures forall p :: p in Tsv.Split(s, '\t') ==> NoBreaks(p)
  {
    if s != "" {
      SplitKeepsUnbroken(s[1..]);
      var rest := Tsv.Split(s[1..], '\t');
      assert rest[0] in rest;
      assert forall p :: p in rest[1..] ==> p in rest;
    }
  }

  lemma {:induction false} SplitTabsUnbroken(lines: seq<string>, k: Key)
    requires (forall l :: l in lines ==> NoBreaks(l)) && k in SplitTabs(lines)
    ensures Unbroken(k)
  {
    if k == Tsv.Split(lines[0], '\t') {
      SplitKeepsUnbroken(lines[0]);
    } else {
      SplitTabsUnbroken(lines[1..], k);
    }
  }

  lemma {:induction false} EscapeOfUnbroken(f: string)
    requires NoBreaks(f)
    ensures NoBreaks(Tsv.Escape(f)) && |Tsv.Escape(f)| >= |f|
    ensures Tsv.Escape(f) == f <==> PlainField(f)
  {
    if f != "" {
      EscapeOfUnbroken(f[1..]);
      assert f == [f[0]] + f[1..];
      if Tsv.Escapable(f[0]) {
        assert |Tsv.Escape(f)| > |f|;
      } else {
        assert Tsv.Escape(f) == [f[0]] + Tsv.Escape(f[1..]);
        assert Tsv.Escape(f)[1..] == Tsv.Escape(f[1..]);
        if PlainField(f[1..]) {
          forall i | 0 <= i < |f| ensures !Tsv.Escapable(f[i]) && !IsLineBreak(f[i]) {
            if i > 0 { assert f[i] == f[1..][i - 1]; }
          }
        }
      }
    }
  }

  lemma {:induction false} EscapeAllOfUnbroken(k: Key)
    requires Unbroken(k)
    ensures |Tsv.EscapeAll(k)| == |k|
    ensures Unbroken(Tsv.EscapeAll(k))
    ensures Tsv.EscapeAll(k) == k <==> PlainKey(k)
  {
    if k != [] {
      EscapeOfUnbroken(k[0]);
      EscapeAllOfUnbroken(k[1..]);
      assert k == [k[0]] + k[1..];
      assert Tsv.EscapeAll(k)[1..] == Tsv.EscapeAll(k[1..]);
    }
  }

  lemma {:induction false} JoinUnbroken(parts: seq<string>)
    requires Unbroken(parts)
    ensures NoBreaks(Tsv.Join(parts, '\t'))
    ensures |parts| >= 2 ==> Tsv.Join(parts, '\t') != ""
  {
    if |parts| > 1 {
      JoinUnbroken(parts[1..]);
      assert parts[0] in parts && !IsLineBreak('\t');
      var joined := Tsv.Join(parts, '\t');
      assert joined == parts[0] + ['\t'] + Tsv.Join(parts[1..], '\t');
    }
  }

  /** The line of a key without line breaks reads as its escaped fields. */
  lemma ReadUnbrokenKey(k: Key)
    requires |k| >= 2 && Unbroken(k)
    ensures ReadOne(k) == [Tsv.EscapeAll(k)]
  {
    EscapeAllOfUnbroken(k);
    Tsv.EscapeAllIsClean(k);
    JoinUnbroken(Tsv.EscapeAll(k));
    var line := Tsv.Line(k);
    UnbrokenLine(line, "");
    assert "" + line == line;
    Tsv.SplitJoin(Tsv.EscapeAll(k), '\t');
    assert SplitTabs([line]) == [Tsv.Split(line, '\t')];
  }

  /** The HTTP reader recognises a stored key from its own line exactly when no field of the key
      holds a character that is escaped on the wire or that Python breaks lines on. */
  lemma ReaderIsFaithfulExactly(k: Key)
    requires |k| >= 2
    ensures k in ReadOne(k) <==> PlainKey(k)
    ensures PlainKey(k) ==> ReadOne(k) == [k]
  {
    if PlainKey(k) {
      forall f | f in k ensures NoBreaks(f) { assert PlainField(f); }
      EscapeAllOfUnbroken(k);
      ReadUnbrokenKey(k);
    } else if k in ReadOne(k) {
      LinesAreUnbroken(Tsv.Line(k), "");
      SplitTabsUnbroken(SplitLines(Tsv.Line(k), ""), k);
      EscapeAllOfUnbroken(k);
      ReadUnbrokenKey(k);
    }
  }

  lemma {:induction false} ReadAllHolds(keys: seq<Key>, k: Key)
    requires k in keys && |k| >= 2 && PlainKey(k)
    ensures k in ReadAll(keys)
  {
    if keys[0] == k {
      ReaderIsFaithfulExactly(k);
      assert k in ReadOne(k);
    } else {
      ReadAllHolds(keys[1..], k);
    }
  }

  lemma {:induction false} ReadAllPlain(keys: seq<Key>)
    requires forall k :: k in keys ==> |k| >= 2 && PlainKey(k)
    ensures ReadAll(keys) == keys
  {
    if keys != [] {
      ReaderIsFaithfulExactly(keys[0]);
      ReadAllPlain(keys[1..]);
    }
  }

  lemma {:induction false} StoredKeysNonEmpty(table: seq<Stored>)
    ensures |StoredKeys(table)| == |table|
  {
    if table != [] { StoredKeysNonEmpty(table[1..]); }
  }

  /** Over HTTP a decided key that is plain is never written again, whatever else is stored. */
  lemma HttpLoadKeepsPlainKeys(table: seq<Stored>, rows: seq<Decision>, now: int, key: Key)
    requires RowsFor(table, key) != [] && |key| >= 2 && PlainKey(key)
    ensures RowsFor(AfterLoad(table, rows, true, now), key) == RowsFor(table, key)
  {
    StoredKeysAreThose(table, key);
    StoredKeysNonEmpty(table);
    HttpReadsKeyByKey(StoredKeys(table));
    ReadAllHolds(StoredKeys(table), key);
    LoadOnKey(table, rows, ToSet(FetchedKeys(table, true)), now, key);
  }

  /** Where every stored key is plain the HTTP load is the faithful one. */
  lemma HttpLoadIsFaithfulOnPlainTables(table: seq<Stored>, rows: seq<Decision>, now: int)
    requires forall k :: k in StoredKeys(table) ==> |k| >= 2 && PlainKey(k)
    ensures AfterLoad(table, rows, true, now) == AfterLoad(table, rows, false, now)
  {
    StoredKeysNonEmpty(table);
    if table != [] {
      HttpReadsKeyByKey(StoredKeys(table));
      ReadAllPlain(StoredKeys(table));
    } else {
      assert HttpRead("") == [];
    }
  }

  // ---- what the HTTP reader returns of a whole table ----

  lemma {:induction false} ReadAllIs(keys: seq<Key>, key: Key)
    ensures key in ReadAll(keys) <==> exists k :: k in keys && key in ReadOne(k)
  {
    if keys != [] {
      ReadAllIs(keys[1..], key);
      assert keys == [keys[0]] + keys[1..];
    }
  }

  /** The line of some stored key reads as `key`. */
  ghost predicate Appears(table: seq<Stored>, key: Key) {
    exists k :: k in StoredKeys(table) && key in ReadOne(k)
  }

  /** Over HTTP a key counts as stored exactly if it appears in the line of some stored key, which
      need not be its own. */
  lemma FetchedExactly(table: seq<Stored>, key: Key)
    ensures key in FetchedKeys(table, true) <==> Appears(table, key)
  {
    StoredKeysNonEmpty(table);
    if table == [] {
      assert HttpRead("") == [];
    } else {
      HttpReadsKeyByKey(StoredKeys(table));
      ReadAllIs(StoredKeys(table), key);
    }
  }

  /** A key without line breaks appears in its own line as its escaped fields, and as nothing else. */
  lemma UnbrokenKeyAppearsEscaped(k: Key, key: Key)
    requires |k| >= 2 && Unbroken(k)
    ensures key in ReadOne(k) <==> key == Tsv.EscapeAll(k)
  {
    ReadUnbrokenKey(k);
  }

  /** What appears has no line breaks. */
  lemma AppearsUnbroken(k: Key, key: Key)
    requires key in ReadOne(k)
    ensures Unbroken(key)
  {
    LinesAreUnbroken(Tsv.Line(k), "");
    SplitTabsUnbroken(SplitLines(Tsv.Line(k), ""), key);
  }

  /** The HTTP load on one declared key, stored or not: it gets a row, its first declaration, exactly
      if it appears in no stored key's line. For a stored key that row is one too many; for a missing
      one its absence is one too few. */
  lemma HttpLoadOnKey(table: seq<Stored>, rows: seq<Decision>, now: int, r: Decision)
    requires IsFirst(rows, r)
    ensures RowsFor(AfterLoad(table, rows, true, now), r.key)
            == RowsFor(table, r.key) + if Appears(table, r.key) then [] else [Stored(r, false, 0, now)]
  {
    FetchedExactly(table, r.key);
    LoadOnKey(table, rows, ToSet(FetchedKeys(table, true)), now, r.key);
  }

  /** A character Python breaks lines on and the wire leaves as it is. */
  const LINE_SEPARATOR := '\U{2028}'

  /** A key whose last field goes on after a line separator. */
  function Continued(key: Key, rest: string): Key
    requires key != []
  {
    key[..|key| - 1] + [key[|key| - 1] + [LINE_SEPARATOR] + rest]
  }

  lemma {:induction false} EscapeAppend(a: string, b: string)
    ensures Tsv.Escape(a + b) == Tsv.Escape(a) + Tsv.Escape(b)
  {
    if a == "" {
      assert a + b == b;
    } else {
      EscapeAppend(a[1..], b);
      assert (a + b)[0] == a[0] && (a + b)[1..] == a[1..] + b;
      var head := Tsv.EscapeChar(a[0]);
      assert head + (Tsv.Escape(a[1..]) + Tsv.Escape(b)) == head + Tsv.Escape(a[1..]) + Tsv.Escape(b);
    }
  }

  lemma {:induction false} LineOfContinued(key: Key, rest: string)
    requires key != []
    ensures Tsv.Line(Continued(key, rest)) == Tsv.Line(key) + [LINE_SEPARATOR] + Tsv.Escape(rest)
  {
    hide Tsv.Line;
    var k := Continued(key, rest);
    if |key| == 1 {
      assert key == [key[0]] && k == [key[0] + [LINE_SEPARATOR] + rest];
      LineOfOne(key[0]);
      LineOfOne(k[0]);
      EscapeAcrossSeparator(key[0], rest);
    } else {
      LineOfContinued(key[1..], rest);
      assert k[1..] == Continued(key[1..], rest) && k[0] == key[0];
      LineCons(k);
      LineCons(key);
      hide Continued;
      var head := Tsv.Escape(key[0]) + ['\t'];
      assert head + (Tsv.Line(key[1..]) + [LINE_SEPARATOR] + Tsv.Escape(rest))
             == head + Tsv.Line(key[1..]) + [LINE_SEPARATOR] + Tsv.Escape(rest);
    }
  }

  lemma EscapeAcrossSeparator(a: string, b: string)
    ensures Tsv.Escape(a + [LINE_SEPARATOR] + b) == Tsv.Escape(a) + [LINE_SEPARATOR] + Tsv.Escape(b)
  {
    EscapeAppend(a + [LINE_SEPARATOR], b);
    EscapeAppend(a, [LINE_SEPARATOR]);
    assert [LINE_SEPARATOR][1..] == "";
    assert Tsv.Escape([LINE_SEPARATOR]) == [LINE_SEPARATOR];
  }

  lemma LineOfOne(f: string)
    ensures Tsv.Line([f]) == Tsv.Escape(f)
  {
    assert [f][1..] == [];
    assert Tsv.EscapeAll([f]) == [Tsv.Escape(f)];
  }

  lemma LineCons(k: Key)
    requires |k| >= 2
    ensures Tsv.Line(k) == Tsv.Escape(k[0]) + ['\t'] + Tsv.Line(k[1..])
  {
    assert Tsv.EscapeAll(k) == [Tsv.Escape(k[0])] + Tsv.EscapeAll(k[1..]);
    assert Tsv.EscapeAll(k[1..]) != [];
    assert Tsv.EscapeAll(k)[1..] == Tsv.EscapeAll(k[1..]);
  }

  /** The reader finds the key inside its continuation. */
  lemma ContinuedHidesKey(key: Key, rest: string)
    requires |key| >= 2 && PlainKey(key)
    ensures key in ReadOne(Continued(key, rest)) && Continued(key, rest) != key
  {
    var k := Continued(key, rest);
    LineOfContinued(key, rest);
    SplitLinesAcross(Tsv.Line(key), LINE_SEPARATOR, Tsv.Escape(rest), "");
    SplitTabsAppend(SplitLines(Tsv.Line(key), ""), SplitLines(Tsv.Escape(rest), ""));
    ReaderIsFaithfulExactly(key);
    hide SplitTabs, SplitLines, Tsv.Line, Tsv.Escape, PlainKey;
    assert ReadOne(k) == ReadOne(key) + SplitTabs(SplitLines(Tsv.Escape(rest), ""));
    assert |k[|key| - 1]| > |key[|key| - 1]|;
  }

  /** A missing key that a load over HTTP never seeds, plain as it may be: any key whose continuation
      is stored, after whatever other rows. */
  lemma MissingKeyIsNotSeeded(table: seq<Stored>, rows: seq<Decision>, r: Decision, rest: string, now: int)
    requires IsFirst(rows, r) && |r.key| >= 2 && PlainKey(r.key)
    requires RowsFor(table, r.key) == [] && RowsFor(table, Continued(r.key, rest)) != []
    ensures RowsFor(AfterLoad(table, rows, true, now), r.key) == []
  {
    ContinuedHidesKey(r.key, rest);
    StoredKeysAreThose(table, Continued(r.key, rest));
    assert Appears(table, r.key);
    HttpLoadOnKey(table, rows, now, r);
  }

  // ---- when a second run over HTTP does nothing ----

  function Size(k: Key): nat {
    if k == [] then 0 else |k[0]| + Size(k[1..])
  }

  /** Escaping a key lengthens it exactly if it changes it. */
  lemma {:induction false} EscapedIsLonger(k: Key)
    requires Unbroken(k)
    ensures Size(Tsv.EscapeAll(k)) >= Size(k)
    ensures Size(Tsv.EscapeAll(k)) == Size(k) ==> PlainKey(k)
  {
    if k != [] {
      EscapeOfUnbroken(k[0]);
      EscapeKeepsLength(k[0]);
      EscapedIsLonger(k[1..]);
      assert Tsv.EscapeAll(k)[1..] == Tsv.EscapeAll(k[1..]);
    }
  }

  lemma {:induction false} EscapeKeepsLength(f: string)
    ensures |Tsv.Escape(f)| >= |f|
    ensures |Tsv.Escape(f)| == |f| ==> Tsv.Escape(f) == f
  {
    if f != "" {
      EscapeKeepsLength(f[1..]);
      assert f == [f[0]] + f[1..];
    }
  }

  ghost predicate AppearsAmong(keys: set<Key>, key: Key) {
    exists k :: k in keys && key in ReadOne(k)
  }

  /** Every key appears in the line of one of them. */
  ghost predicate Closed(keys: set<Key>) {
    forall k :: k in keys ==> |k| >= 2 && AppearsAmong(keys, k)
  }

  /** In such a set a key that is not plain is the escaped form of a shorter one that is not either. */
  lemma UnplainComesFrom(keys: set<Key>, k: Key) returns (y: Key)
    requires Closed(keys) && k in keys && !PlainKey(k)
    ensures y in keys && !PlainKey(y) && Size(y) < Size(k)
  {
    hide ReadOne, PlainKey, NoBreaks, Size, Tsv.EscapeAll;
    assert AppearsAmong(keys, k);
    y :| y in keys && k in ReadOne(y);
    assert AppearsAmong(keys, y);
    var z :| z in keys && y in ReadOne(z);
    hide Closed, AppearsAmong;
    AppearsUnbroken(z, y);
    UnbrokenKeyAppearsEscaped(y, k);
    EscapedOfUnplain(y);
  }

  lemma EscapedOfUnplain(y: Key)
    requires |y| >= 2 && Unbroken(y)
    ensures !PlainKey(Tsv.EscapeAll(y)) ==> !PlainKey(y) && Size(y) < Size(Tsv.EscapeAll(y))
  {
    EscapeAllOfUnbroken(y);
    EscapedIsLonger(y);
    hide PlainKey, NoBreaks, Size, Tsv.EscapeAll;
  }

  /** So there is none. */
  lemma {:induction false} AllAppearingArePlain(keys: set<Key>, k: Key)
    requires Closed(keys) && k in keys
    ensures PlainKey(k)
    decreases Size(k)
  {
    hide Closed, PlainKey, Size;
    if !PlainKey(k) {
      var y := UnplainComesFrom(keys, k);
      AllAppearingArePlain(keys, y);
    }
  }

  lemma {:induction false} NothingMissingMeans(rows: seq<Decision>, stored: set<Key>)
    ensures Unstored(rows, stored) == [] <==> KeysOf(rows) <= stored
  {
    if KeysOf(rows) <= stored {
      UnstoredOfStored(rows, stored);
    } else {
      var k :| k in KeysOf(rows) && k !in stored;
      var r :| r in rows && r.key == k;
      UnstoredIsFrom(rows, stored);
    }
  }

  /** A load over HTTP changes nothing exactly if every declared key appears in a stored key's line. */
  lemma HttpLoadDoesNothingExactly(table: seq<Stored>, rows: seq<Decision>, now: int)
    ensures AfterLoad(table, rows, true, now) == table <==> forall r :: r in rows ==> Appears(table, r.key)
  {
    var stored := ToSet(FetchedKeys(table, true));
    forall r | r in rows ensures r.key in stored <==> Appears(table, r.key) { FetchedExactly(table, r.key); }
    NothingMissingMeans(FirstWins(rows), stored);
    FirstWinsKeepsFirsts(rows, Decision([], []));
    InsertedLength(SelectMissing(rows, stored), now);
    assert KeysOf(rows) <= stored <==> forall r :: r in rows ==> r.key in stored;
    hide Appears, FetchedKeys, SelectMissing;
    assert AfterLoad(table, rows, true, now)[|table|..] == Inserted(SelectMissing(rows, stored), now);
    if SelectMissing(rows, stored) == [] { assert table + [] == table; }
  }

  lemma {:induction false} InsertedLength(rows: seq<Decision>, now: int)
    ensures |Inserted(rows, now)| == |rows|
  {
    if rows != [] { InsertedLength(rows[1..], now); }
  }

  lemma KeysAfterSeeding(rows: seq<Decision>, now: int, key: Key)
    ensures key in StoredKeys(AfterLoad([], rows, true, now)) <==> key in KeysOf(rows)
  {
    assert HttpRead("") == [];
    var missing := SelectMissing(rows, {});
    assert ToSet([]) == {};
    MissingRows(rows, {}, Decision([], []));
    InsertedKeys(missing, now);
    assert [] + Inserted(missing, now) == Inserted(missing, now);
    assert key in StoredKeys(Inserted(missing, now)) <==> key in ToSet(StoredKeys(Inserted(missing, now)));
  }

  /** A bundle seeded into an empty table over HTTP and loaded again leaves the table alone exactly
      if every key it declares is plain. */
  lemma SeedingTwiceOverHttp(rows: seq<Decision>, now: int, later: int)
    requires forall r :: r in rows ==> |r.key| >= 2
    ensures var once := AfterLoad([], rows, true, now);
            AfterLoad(once, rows, true, later) == once <==> forall r :: r in rows ==> PlainKey(r.key)
  {
    hide AfterLoad, FetchedKeys, PlainKey, ReadOne, Appears, StoredKeys;
    var once := AfterLoad([], rows, true, now);
    HttpLoadDoesNothingExactly(once, rows, later);
    forall key ensures Appears(once, key) <==> AppearsAmong(KeysOf(rows), key) { AppearsAfterSeeding(rows, now, key); }
    hide AppearsAmong;
    if forall r :: r in rows ==> Appears(once, r.key) {
      assert Closed(KeysOf(rows));
      forall r | r in rows ensures PlainKey(r.key) { AllAppearingArePlain(KeysOf(rows), r.key); }
    }
    if forall r :: r in rows ==> PlainKey(r.key) {
      forall r | r in rows ensures Appears(once, r.key) { PlainAppears(KeysOf(rows), r.key); }
    }
  }

  lemma AppearsAfterSeeding(rows: seq<Decision>, now: int, key: Key)
    ensures Appears(AfterLoad([], rows, true, now), key) <==> AppearsAmong(KeysOf(rows), key)
  {
    hide AfterLoad, ReadOne;
    forall k ensures k in StoredKeys(AfterLoad([], rows, true, now)) <==> k in KeysOf(rows) {
      KeysAfterSeeding(rows, now, k);
    }
  }

  lemma PlainAppears(keys: set<Key>, key: Key)
    requires key in keys && |key| >= 2 && PlainKey(key)
    ensures AppearsAmong(keys, key)
  {
    ReaderIsFaithfulExactly(key);
    hide ReadOne;
  }

  /** No load over HTTP gives a stored key another row. */
  ghost predicate LoadsLeaveAlone(table: seq<Stored>) {
    forall rows, now, key :: key in StoredKeys(table) ==>
                               RowsFor(AfterLoad(table, rows, true, now), key) == RowsFor(table, key)
  }

  /** Over any table, whatever is in it: no load over HTTP decides a stored key again exactly if
      every stored key is plain. */
  lemma HttpLeavesAloneExactly(table: seq<Stored>)
    requires forall k :: k in StoredKeys(table) ==> |k| >= 2
    ensures LoadsLeaveAlone(table) <==> forall k :: k in StoredKeys(table) ==> PlainKey(k)
  {
    hide AfterLoad, StoredKeys, PlainKey, ReadOne, RowsFor;
    if LoadsLeaveAlone(table) {
      var keys := ToSet(StoredKeys(table));
      forall k | k in keys ensures AppearsAmong(keys, k) { LeftAloneAppears(table, k); }
      assert Closed(keys);
      forall k | k in StoredKeys(table) ensures PlainKey(k) { AllAppearingArePlain(keys, k); }
    }
    if forall k :: k in StoredKeys(table) ==> PlainKey(k) {
      forall rows, now, key | key in StoredKeys(table)
        ensures RowsFor(AfterLoad(table, rows, true, now), key) == RowsFor(table, key)
      {
        StoredKeysAreThose(table, key);
        HttpLoadKeepsPlainKeys(table, rows, now, key);
      }
    }
  }

  /** A stored key that no bundle writes again appears in some stored key's line: else the bundle that
      declares just it would. */
  lemma LeftAloneAppears(table: seq<Stored>, key: Key)
    requires key in StoredKeys(table) && LoadsLeaveAlone(table)
    ensures AppearsAmong(ToSet(StoredKeys(table)), key)
  {
    hide AfterLoad, StoredKeys, ReadOne, RowsFor;
    var d := Decision(key, []);
    assert [d][0] == d;
    HttpLoadOnKey(table, [d], 0, d);
    assert RowsFor(AfterLoad(table, [d], true, 0), key) == RowsFor(table, key);
  }

  lemma QuoteIsNotPlain()
    ensures !PlainKey(["tenant", "source", "jira", "issue_type", "won't do"])
  {
    assert "won't do"[3] == '\'';
    assert !PlainField(["tenant", "source", "jira", "issue_type", "won't do"][4]);
  }
}
