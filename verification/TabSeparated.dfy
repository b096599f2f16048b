/** src/ingestion/scripts/load_field_value_map.py: the text the loader writes and reads. Encoding
    follows TSV_ESCAPES; decoding follows ClickHouse's TabSeparated format and its quoted literals. */
module TabSeparated {
  import opened Common

  const BACKSPACE := '\U{0008}'
  const FORMFEED := '\U{000C}'

  // ---- escaping ----

  predicate Escapable(c: char) {
    c == '\\' || c == BACKSPACE || c == FORMFEED || c == '\r' || c == '\n' || c == '\t' || c == '\0' || c == '\''
  }

  function EscapeChar(c: char): string {
    if c == '\\' then "\\\\" else if c == BACKSPACE then "\\b" else if c == FORMFEED then "\\f"
    else if c == '\r' then "\\r" else if c == '\n' then "\\n" else if c == '\t' then "\\t"
    else if c == '\0' then "\\0" else if c == '\'' then "\\'" else [c]
  }

  /** `field.translate(TSV_ESCAPES)`. */
  function Escape(s: string): string {
    if s == "" then "" else EscapeChar(s[0]) + Escape(s[1..])
  }

  function UnescapeChar(c: char): char {
    if c == 'b' then BACKSPACE else if c == 'f' then FORMFEED else if c == 'r' then '\r'
    else if c == 'n' then '\n' else if c == 't' then '\t' else if c == '0' then '\0' else c
  }

  function Unescape(s: string): string {
    if s == "" then ""
    else if s[0] == '\\' && |s| > 1 then [UnescapeChar(s[1])] + Unescape(s[2..])
    else [s[0]] + Unescape(s[1..])
  }

  // ---- joining and splitting ----

  function Join(parts: seq<string>, c: char): string {
    if parts == [] then "" else if |parts| == 1 then parts[0] else parts[0] + [c] + Join(parts[1..], c)
  }

  /** `s.split(c)`: one part more than there are separators. */
  function Split(s: string, c: char): (parts: seq<string>)
    ensures parts != []
  {
    if s == "" then [""]
    else
      var rest := Split(s[1..], c);
      if s[0] == c then [""] + rest else [[s[0]] + rest[0]] + rest[1..]
  }

  lemma {:induction false} SplitPrefix(p: string, c: char, s: string)
    requires c !in p
    ensures Split(p, c) == [p]
    ensures Split(p + [c] + s, c) == [p] + Split(s, c)
  {
    var whole := p + [c] + s;
    if p == "" {
      assert whole == [c] + s && whole[1..] == s;
    } else {
      SplitPrefix(p[1..], c, s);
      assert whole[1..] == p[1..] + [c] + s;
      assert p == [p[0]] + p[1..];
      assert Split(whole, c) == [[p[0]] + p[1..]] + Split(s, c);
    }
  }

  lemma {:induction false} SplitJoin(parts: seq<string>, c: char)
    requires parts != [] && forall p :: p in parts ==> c !in p
    ensures Split(Join(parts, c), c) == parts
  {
    assert parts == [parts[0]] + parts[1..];
    if |parts| == 1 {
      SplitPrefix(parts[0], c, "");
    } else {
      SplitPrefix(parts[0], c, Join(parts[1..], c));
      SplitJoin(parts[1..], c);
    }
  }

  lemma {:induction false} EscapeIsClean(s: string)
    ensures '\n' !in Escape(s) && '\t' !in Escape(s) && '\r' !in Escape(s) && FORMFEED !in Escape(s)
  {
    if s != "" { EscapeIsClean(s[1..]); }
  }

  /** The eight escapes of ClickHouse's TabSeparated format, by code point; every other character is itself. */
  lemma EscapesAre(c: char)
    ensures Escape([c])
            == match c as int
               case 0 => "\\0"
               case 8 => "\\b"
               case 9 => "\\t"
               case 10 => "\\n"
               case 12 => "\\f"
               case 13 => "\\r"
               case 39 => "\\'"
               case 92 => "\\\\"
               case _ => [c]
  {
    assert [c][1..] == "";
  }

  lemma UnescapeCons(c: char, tail: string)
    ensures Unescape(EscapeChar(c) + tail) == [c] + Unescape(tail)
  {
    var head := EscapeChar(c);
    if |head| == 1 {
      assert (head + tail)[1..] == tail;
    } else {
      assert (head + tail)[2..] == tail;
    }
  }

  lemma {:induction false} UnescapeEscape(s: string)
    ensures Unescape(Escape(s)) == s
  {
    if s != "" {
      UnescapeEscape(s[1..]);
      UnescapeCons(s[0], Escape(s[1..]));
      hide Unescape;
      assert s == [s[0]] + s[1..];
    }
  }

  // ---- the INSERT body ----

  function EscapeAll(fields: seq<string>): seq<string> {
    if fields == [] then [] else [Escape(fields[0])] + EscapeAll(fields[1..])
  }

  function UnescapeAll(fields: seq<string>): seq<string> {
    if fields == [] then [] else [Unescape(fields[0])] + UnescapeAll(fields[1..])
  }

  function Line(fields: seq<string>): string {
    Join(EscapeAll(fields), '\t')
  }

  function Lines(rows: seq<seq<string>>): seq<string> {
    if rows == [] then [] else [Line(rows[0])] + Lines(rows[1..])
  }

  /** The rows after `FORMAT TSV`, each on a line of its own. */
  function Body(rows: seq<seq<string>>): string {
    Join(Lines(rows), '\n') + "\n"
  }

  function DecodeLine(line: string): seq<string> {
    UnescapeAll(Split(line, '\t'))
  }

  function DecodeLines(lines: seq<string>): seq<seq<string>> {
    if lines == [] then [] else [DecodeLine(lines[0])] + DecodeLines(lines[1..])
  }

  /** How the server reads such a body: split on newline, split on tab, unescape. */
  function Decode(body: string): seq<seq<string>> {
    var text := if body != "" && body[|body| - 1] == '\n' then body[..|body| - 1] else body;
    DecodeLines(Split(text, '\n'))
  }

  lemma {:induction false} EscapeAllIsClean(fields: seq<string>)
    ensures |EscapeAll(fields)| == |fields|
    ensures forall f :: f in EscapeAll(fields) ==> '\n' !in f && '\t' !in f
    ensures UnescapeAll(EscapeAll(fields)) == fields
  {
    if fields != [] {
      EscapeIsClean(fields[0]);
      UnescapeEscape(fields[0]);
      EscapeAllIsClean(fields[1..]);
      assert EscapeAll(fields)[1..] == EscapeAll(fields[1..]);
    }
  }

  lemma {:induction false} JoinAvoids(parts: seq<string>, c: char, d: char)
    requires c != d && forall p :: p in parts ==> d !in p
    ensures d !in Join(parts, c)
  {
    if |parts| > 1 { JoinAvoids(parts[1..], c, d); }
  }

  /** A row of any fields whatever decodes to itself. */
  lemma DecodeOfLine(fields: seq<string>)
    requires fields != []
    ensures DecodeLine(Line(fields)) == fields && '\n' !in Line(fields)
  {
    EscapeAllIsClean(fields);
    SplitJoin(EscapeAll(fields), '\t');
    JoinAvoids(EscapeAll(fields), '\t', '\n');
  }

  lemma {:induction false} DecodeOfLines(rows: seq<seq<string>>)
    requires forall i :: 0 <= i < |rows| ==> rows[i] != []
    ensures |Lines(rows)| == |rows| && DecodeLines(Lines(rows)) == rows
    ensures forall l :: l in Lines(rows) ==> '\n' !in l
  {
    if rows != [] {
      DecodeOfLine(rows[0]);
      DecodeOfLines(rows[1..]);
      assert Lines(rows)[1..] == Lines(rows[1..]);
    }
  }

  /** The server reads back exactly the rows and columns that were sent, whatever the fields hold. */
  lemma DecodeInvertsBody(rows: seq<seq<string>>)
    requires rows != [] && forall i :: 0 <= i < |rows| ==> rows[i] != []
    ensures Decode(Body(rows)) == rows
  {
    DecodeOfLines(rows);
    SplitJoin(Lines(rows), '\n');
    var text := Join(Lines(rows), '\n');
    assert Body(rows)[..|Body(rows)| - 1] == text;
  }

  // ---- quoted literals ----

  /** `value.replace([c], "\\" + c)`. */
  function Backslashed(value: string, c: char): string {
    if value == "" then ""
    else (if value[0] == c then ['\\', c] else [value[0]]) + Backslashed(value[1..], c)
  }

  /** Backslashes doubled first and quotes escaped second, as the two replacements are chained. */
  function Quotable(value: string): string {
    Backslashed(Backslashed(value, '\\'), '\'')
  }

  function Literal(value: string): string {
    "'" + Quotable(value) + "'"
  }

  /** Reads a literal after its opening quote: the value and the text that follows. A backslash
      escapes, and so does doubling a quote. */
  function ReadLiteral(s: string): Option<(string, string)> {
    if s == "" then None
    else if s[0] == '\'' && !(|s| > 1 && s[1] == '\'') then Some(("", s[1..]))
    else if (s[0] == '\\' || s[0] == '\'') && |s| > 1 then
      var rest := ReadLiteral(s[2..]);
      var c := if s[0] == '\\' then UnescapeChar(s[1]) else '\'';
      if rest.None? then None else Some(([c] + rest.value.0, rest.value.1))
    else
      var rest := ReadLiteral(s[1..]);
      if rest.None? then None else Some(([s[0]] + rest.value.0, rest.value.1))
  }

  lemma QuotableCons(value: string)
    requires value != ""
    ensures Quotable(value) == (if value[0] == '\\' then "\\\\" else if value[0] == '\'' then "\\'" else [value[0]])
                               + Quotable(value[1..])
  {
    var once, tail := Backslashed(value, '\\'), Backslashed(value[1..], '\\');
    if value[0] == '\\' {
      assert once == ['\\', '\\'] + tail;
      assert once[1..] == ['\\'] + tail && once[1..][1..] == tail;
      assert Backslashed(once, '\'') == ['\\'] + Backslashed(once[1..], '\'');
      assert Backslashed(once[1..], '\'') == ['\\'] + Backslashed(tail, '\'');
    } else {
      assert once == [value[0]] + tail && once[1..] == tail;
    }
  }

  lemma {:induction false} ReadQuotable(value: string, rest: string)
    requires rest == "" || rest[0] != '\''
    ensures ReadLiteral(Quotable(value) + "'" + rest) == Some((value, rest))
  {
    hide Quotable;
    var text := Quotable(value) + "'" + rest;
    if value == "" {
      assert Quotable("") == "" by { QuotableEmpty(); }
      assert text == "'" + rest && text[1..] == rest;
    } else {
      ReadQuotable(value[1..], rest);
      QuotableCons(value);
      var tail := Quotable(value[1..]) + "'" + rest;
      if value[0] == '\\' || value[0] == '\'' {
        assert text == ['\\', value[0]] + tail && text[2..] == tail;
      } else {
        assert text == [value[0]] + tail && text[1..] == tail;
      }
      assert value == [value[0]] + value[1..];
    }
  }

  lemma QuotableEmpty()
    ensures Quotable("") == ""
  {
  }

  /** A quoted literal reads back as its value and ends where it was meant to, so nothing in the
      value can reach the statement around it. */
  lemma LiteralRoundTrip(value: string, rest: string)
    requires rest == "" || rest[0] != '\''
    ensures (Literal(value) + rest)[0] == '\''
    ensures ReadLiteral((Literal(value) + rest)[1..]) == Some((value, rest))
  {
    ReadQuotable(value, rest);
    assert (Literal(value) + rest)[1..] == Quotable(value) + "'" + rest;
  }
}
