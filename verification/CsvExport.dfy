/** CSV export lines, and a parser for the quoting rules of section 2 of RFC 4180 with LF line ends. */
module CsvExport {
  import opened Wrappers
  import opened Strings

  datatype PredictionRow = PredictionRow(
    id: string, marketId: string, userId: string, outcome: string, amount: string, txHash: string, status: string,
    result: Option<string>, createdAt: string)

  // ---------------------------------------------------------------------
  // Printing
  // ---------------------------------------------------------------------

  predicate Special(c: char) { c == ',' || c == '"' || c == '\n' || c == '\r' }

  predicate NeedsQuotes(s: string) { exists c :: c in s && Special(c) }

  /** `str.replace(/"/g, '""')` */
  function Doubled(s: string): (r: string) {
    if s == "" then "" else (if s[0] == '"' then "\"\"" else [s[0]]) + Doubled(s[1..])
  }

  function EscapeCsvField(val: Option<string>): (r: string) {
    if val.None? then "" else if NeedsQuotes(val.value) then "\"" + Doubled(val.value) + "\"" else val.value
  }

  /** Doubling quotes never shortens. */
  lemma {:induction false} DoubledLength(s: string)
    ensures |Doubled(s)| >= |s|
  {
    if s != "" {
      DoubledLength(s[1..]);
    }
  }

  /** A field stands as it is exactly when it has no comma, quote or line break; otherwise it is quoted. */
  lemma QuotedExactly(s: string)
    ensures EscapeCsvField(Some(s)) == s <==> ',' !in s && '"' !in s && '\n' !in s && '\r' !in s
    ensures EscapeCsvField(Some(s)) != s ==> EscapeCsvField(Some(s)) == "\"" + Doubled(s) + "\""
  {
    DoubledLength(s);
  }

  /** The nine columns, null included. */
  function Columns(row: PredictionRow): (cs: seq<Option<string>>)
    ensures |cs| == 9
  {
    [Some(row.id), Some(row.marketId), Some(row.userId), Some(row.outcome), Some(row.amount), Some(row.txHash),
     Some(row.status), row.result, Some(row.createdAt)]
  }

  function Escaped(cs: seq<Option<string>>): (fs: seq<string>)
    ensures |fs| == |cs|
  {
    seq(|cs|, i requires 0 <= i < |cs| => EscapeCsvField(cs[i]))
  }

  function FormatPredictionAsCsv(row: PredictionRow): (line: string) { Join(Escaped(Columns(row)), ',') + "\n" }

  /** The export of several rows. */
  function Export(rows: seq<PredictionRow>): (text: string) {
    if rows == [] then "" else FormatPredictionAsCsv(rows[0]) + Export(rows[1..])
  }

  // ---------------------------------------------------------------------
  // Parsing
  // ---------------------------------------------------------------------

  datatype Parsed<T> = Bad | Good(value: T, rest: string)

  /** The text up to the closing quote; a doubled quote stands for one. */
  function ParseQuoted(s: string): (r: Parsed<string>)
    ensures r.Good? ==> |r.rest| < |s|
  {
    if s == "" then Bad
    else if s[0] != '"' then
      var r := ParseQuoted(s[1..]);
      if r.Bad? then Bad else Good([s[0]] + r.value, r.rest)
    else if |s| > 1 && s[1] == '"' then
      var r := ParseQuoted(s[2..]);
      if r.Bad? then Bad else Good("\"" + r.value, r.rest)
    else Good("", s[1..])
  }

  /** The longest run of characters that need no quotes. */
  function ParsePlain(s: string): (r: Parsed<string>)
    ensures r.Good? && |r.rest| <= |s|
  {
    if s == "" || Special(s[0]) then Good("", s)
    else
      var r := ParsePlain(s[1..]);
      Good([s[0]] + r.value, r.rest)
  }

  function ParseField(s: string): (r: Parsed<string>)
    ensures r.Good? ==> |r.rest| <= |s|
  {
    if s != "" && s[0] == '"' then ParseQuoted(s[1..]) else ParsePlain(s)
  }

  /** Fields separated by commas, up to a line end or the end of the text. */
  function ParseRecord(s: string): (r: Parsed<seq<string>>)
    ensures r.Good? ==> |r.rest| < |s| || s == "" || r.rest == ""
    decreases |s|
  {
    var f := ParseField(s);
    if f.Bad? then Bad
    else if f.rest == "" then Good([f.value], "")
    else if f.rest[0] == '\n' then Good([f.value], f.rest[1..])
    else if f.rest[0] == ',' then
      var r := ParseRecord(f.rest[1..]);
      if r.Bad? then Bad else Good([f.value] + r.value, r.rest)
    else Bad
  }

  function ParseCsv(s: string): (r: Option<seq<seq<string>>>)
    decreases |s|
  {
    if s == "" then Some([])
    else
      var record := ParseRecord(s);
      if record.Bad? then None
      else
        var more := ParseCsv(record.rest);
        if more.None? then None else Some([record.value] + more.value)
  }

  // ---------------------------------------------------------------------
  // Round trip
  // ---------------------------------------------------------------------

  lemma {:induction false} QuotedBack(v: string, rest: string)
    requires rest == "" || rest[0] != '"'
    ensures ParseQuoted(Doubled(v) + "\"" + rest) == Good(v, rest)
  {
    var s := Doubled(v) + "\"" + rest;
    if v == "" {
      assert s[1..] == rest;
    } else {
      QuotedBack(v[1..], rest);
      var tail := Doubled(v[1..]) + "\"" + rest;
      if v[0] == '"' {
        assert s == "\"\"" + tail && s[2..] == tail;
      } else {
        assert s == [v[0]] + tail && s[1..] == tail;
      }
      assert v == [v[0]] + v[1..];
    }
  }

  lemma {:induction false} PlainBack(v: string, rest: string)
    requires !NeedsQuotes(v) && (rest == "" || Special(rest[0]))
    ensures ParsePlain(v + rest) == Good(v, rest)
  {
    if v == "" {
      assert v + rest == rest;
    } else {
      assert v[0] in v;
      forall c | c in v[1..] ensures c in v {
      }
      PlainBack(v[1..], rest);
      assert (v + rest)[1..] == v[1..] + rest && v == [v[0]] + v[1..];
    }
  }

  function Text(val: Option<string>): (s: string) { OrElse(val, "") }

  lemma QuotedField(v: string, rest: string)
    requires rest == "" || rest[0] != '"'
    ensures ParseField("\"" + Doubled(v) + "\"" + rest) == Good(v, rest)
  {
    QuotedBack(v, rest);
    OpenQuote(Doubled(v) + "\"" + rest);
    Regroup("\"", Doubled(v), "\"" + rest);
    Regroup("\"" + Doubled(v), "\"", rest);
    Regroup(Doubled(v), "\"", rest);
  }

  lemma OpenQuote(body: string)
    ensures ParseField("\"" + body) == ParseQuoted(body)
  {
    assert ("\"" + body)[1..] == body;
  }

  lemma Regroup(a: string, b: string, c: string)
    ensures a + b + c == a + (b + c)
  {
  }

  lemma PlainField(v: string, rest: string)
    requires !NeedsQuotes(v) && rest != "" && (rest[0] == ',' || rest[0] == '\n')
    ensures ParseField(v + rest) == Good(v, rest)
  {
    PlainBack(v, rest);
    assert (v + rest)[0] == if v == "" then rest[0] else v[0];
    assert v != "" ==> v[0] in v;
  }

  /** A printed field is read back, null as empty. */
  lemma FieldBack(val: Option<string>, rest: string)
    requires rest != "" && (rest[0] == ',' || rest[0] == '\n')
    ensures ParseField(EscapeCsvField(val) + rest) == Good(Text(val), rest)
  {
    if NeedsQuotes(Text(val)) {
      QuotedField(Text(val), rest);
    } else {
      PlainField(Text(val), rest);
    }
  }

  lemma LastField(val: Option<string>, rest: string)
    ensures ParseRecord(EscapeCsvField(val) + "\n" + rest) == Good([Text(val)], rest)
  {
    FieldBack(val, "\n" + rest);
    Regroup(EscapeCsvField(val), "\n", rest);
    RecordEnds(EscapeCsvField(val) + "\n" + rest, Text(val), rest);
  }

  lemma RecordEnds(s: string, v: string, rest: string)
    requires ParseField(s) == Good(v, "\n" + rest)
    ensures ParseRecord(s) == Good([v], rest)
  {
    assert ("\n" + rest)[1..] == rest;
  }

  lemma NextField(val: Option<string>, more: string)
    requires ParseRecord(more).Good?
    ensures ParseRecord(EscapeCsvField(val) + "," + more) ==
            Good([Text(val)] + ParseRecord(more).value, ParseRecord(more).rest)
  {
    FieldBack(val, "," + more);
    Regroup(EscapeCsvField(val), ",", more);
    assert ("," + more)[1..] == more;
  }

  function Texts(cs: seq<Option<string>>): (ts: seq<string>)
    ensures |ts| == |cs|
  {
    seq(|cs|, i requires 0 <= i < |cs| => Text(cs[i]))
  }

  lemma {:induction false} RecordBack(cs: seq<Option<string>>, rest: string)
    requires cs != []
    ensures ParseRecord(Join(Escaped(cs), ',') + "\n" + rest) == Good(Texts(cs), rest)
  {
    if |cs| == 1 {
      LastField(cs[0], rest);
      assert Texts(cs) == [Text(cs[0])];
    } else {
      var more := Join(Escaped(cs[1..]), ',') + "\n" + rest;
      RecordBack(cs[1..], rest);
      NextField(cs[0], more);
      LineSplit(cs, rest);
      assert Texts(cs) == [Text(cs[0])] + Texts(cs[1..]);
    }
  }

  lemma LineSplit(cs: seq<Option<string>>, rest: string)
    requires |cs| > 1
    ensures Join(Escaped(cs), ',') + "\n" + rest ==
            EscapeCsvField(cs[0]) + "," + (Join(Escaped(cs[1..]), ',') + "\n" + rest)
  {
    assert Escaped(cs)[1..] == Escaped(cs[1..]);
  }

  function TextsOf(rows: seq<PredictionRow>): (ts: seq<seq<string>>)
    ensures |ts| == |rows|
  {
    seq(|rows|, i requires 0 <= i < |rows| => Texts(Columns(rows[i])))
  }

  /** Parsing an export gives back the nine field strings of every row. */
  lemma {:induction false} ExportRoundTrip(rows: seq<PredictionRow>)
    ensures ParseCsv(Export(rows)) == Some(TextsOf(rows))
  {
    if rows != [] {
      var line, rest := Join(Escaped(Columns(rows[0])), ','), Export(rows[1..]);
      ExportRoundTrip(rows[1..]);
      RecordBack(Columns(rows[0]), rest);
      assert Export(rows) == line + "\n" + rest;
      assert TextsOf(rows) == [Texts(Columns(rows[0]))] + TextsOf(rows[1..]);
    }
  }

  /** Each parsed column is its own field of the row, and a null result reads as empty. */
  lemma ExportColumns(rows: seq<PredictionRow>) returns (parsed: seq<seq<string>>)
    ensures ParseCsv(Export(rows)) == Some(parsed) && |parsed| == |rows|
    ensures forall i :: 0 <= i < |rows| ==>
              parsed[i] == [rows[i].id, rows[i].marketId, rows[i].userId, rows[i].outcome, rows[i].amount,
                            rows[i].txHash, rows[i].status, if rows[i].result.Some? then rows[i].result.value else "",
                            rows[i].createdAt]
  {
    ExportRoundTrip(rows);
    parsed := TextsOf(rows);
  }

  /** So exports differ unless every field reads the same. */
  lemma ExportInjective(rows: seq<PredictionRow>, rows': seq<PredictionRow>)
    requires Export(rows) == Export(rows')
    ensures TextsOf(rows) == TextsOf(rows')
  {
    ExportRoundTrip(rows);
    ExportRoundTrip(rows');
  }
}
