/**
 The sample of a CSV or TSV file that is imported. An empty value without quotes is null.
 */
module Csv {
  import opened Wrappers

  type Record = seq<Option<string>>

  const SAMPLE_ROWS := 100

  function ValueOf(value: string, wasQuoted: bool): Option<string> {
    if value == "" && !wasQuoted then None else Some(value)
  }

  // What has been read so far.
  datatype State = State(records: seq<Record>, record: Record, value: string, quoted: bool, wasQuoted: bool) {
    function EndValue(): State {
      this.(record := record + [ValueOf(value, wasQuoted)], value := "", wasQuoted := false)
    }

    // A record that is a single null value is an empty line.
    function EndRecord(): State {
      if record != [] || value != "" || wasQuoted then
        var r := EndValue().record;
        State(if |r| > 1 || r[0].Some? then records + [r] else records, [], "", quoted, false)
      else
        this
    }
  }

  const START := State([], [], "", false, false)

  // The state after the next character (or two), and how many were read.
  function Next(s: string, separator: char, st: State): (r: (State, nat))
    requires s != ""
    ensures 1 <= r.1 <= |s|
  {
    if st.quoted then
      if s[0] == '"' && |s| > 1 && s[1] == '"' then (st.(value := st.value + "\""), 2)
      else if s[0] == '"' then (st.(quoted := false), 1)
      else (st.(value := st.value + [s[0]]), 1)
    else if s[0] == '"' && st.value == "" then (st.(quoted := true, wasQuoted := true), 1)
    else if s[0] == separator then (st.EndValue(), 1)
    else if s[0] == '\n' then (st.EndRecord(), 1)
    else if s[0] == '\r' then (st, 1)
    else (st.(value := st.value + [s[0]]), 1)
  }

  // The records of the rest of a file.
  function Parse(s: string, separator: char, st: State): seq<Record> {
    if s == "" then st.EndRecord().records
    else var (next, n) := Next(s, separator, st); Parse(s[n..], separator, next)
  }

  // A record that has been read isn't changed.
  lemma {:induction false} ParseExtends(s: string, separator: char, st: State)
    ensures st.records <= Parse(s, separator, st)
  {
    if s != "" {
      var (next, n) := Next(s, separator, st);
      ParseExtends(s[n..], separator, next);
    }
  }

  ghost predicate NotEmpty(records: seq<Record>) {
    forall r | r in records :: r != [] && r != [None]
  }

  // An empty line isn't a record.
  lemma {:induction false} ParseNotEmpty(s: string, separator: char, st: State)
    requires NotEmpty(st.records)
    ensures NotEmpty(Parse(s, separator, st))
  {
    if s != "" {
      var (next, n) := Next(s, separator, st);
      ParseNotEmpty(s[n..], separator, next);
    }
  }

  function Take<T>(s: seq<T>, n: nat): seq<T> {
    if |s| <= n then s else s[..n]
  }

  // The names of the columns and the rows of the sample: the same as if all of the file were read.
  method SampleRecords(text: string, separator: char) returns (records: seq<Record>)
    ensures var all := Parse(text, separator, START); records == if |all| <= 101 then all else all[..101]
  {
    var record: Record, value, quoted, wasQuoted := [], "", false, false;
    records := [];
    var i := 0;
    assert text[0..] == text;
    while i < |text| && |records| <= SAMPLE_ROWS
      invariant 0 <= i <= |text| && |records| <= SAMPLE_ROWS + 1
      invariant Parse(text[i..], separator, State(records, record, value, quoted, wasQuoted)) ==
        Parse(text, separator, START)
    {
      var c := text[i];
      assert text[i..][1..] == text[i + 1..] && (i + 1 < |text| ==> text[i..][2..] == text[i + 2..]);
      if quoted {
        if c == '"' && i + 1 < |text| && text[i + 1] == '"' {
          value := value + "\"";
          i := i + 1;
        } else if c == '"' {
          quoted := false;
        } else {
          value := value + [c];
        }
      } else if c == '"' && value == "" {
        quoted, wasQuoted := true, true;
      } else if c == separator {
        record, value, wasQuoted := EndValue(record, value, wasQuoted);
      } else if c == '\n' {
        records, record, value, wasQuoted := EndRecord(records, record, value, wasQuoted, quoted);
      } else if c != '\r' {
        value := value + [c];
      }
      i := i + 1;
    }
    ParseExtends(text[i..], separator, State(records, record, value, quoted, wasQuoted));
    if |records| <= SAMPLE_ROWS {
      records, record, value, wasQuoted := EndRecord(records, record, value, wasQuoted, quoted);
    }
  }

  method EndValue(record: Record, value: string, wasQuoted: bool)
    returns (record': Record, value': string, wasQuoted': bool)
    ensures record' == record + [ValueOf(value, wasQuoted)] && value' == "" && !wasQuoted'
  {
    record' := record + [if value == "" && !wasQuoted then None else Some(value)];
    value' := "";
    wasQuoted' := false;
  }

  method EndRecord(records: seq<Record>, record: Record, value: string, wasQuoted: bool, ghost quoted: bool)
    returns (records': seq<Record>, record': Record, value': string, wasQuoted': bool)
    ensures State(records', record', value', quoted, wasQuoted') ==
      State(records, record, value, quoted, wasQuoted).EndRecord()
  {
    records', record', value', wasQuoted' := records, record, value, wasQuoted;
    if |record| > 0 || value != "" || wasQuoted {
      record', value', wasQuoted' := EndValue(record, value, wasQuoted);
      if |record'| > 1 || record'[0].Some? {
        records' := records + [record'];
      }
    }
    record' := [];
  }

  // How a value is written (section 2 of RFC 4180): a value can always be in quotes, and can be
  // without them if it has nothing in it that needs them.
  datatype Field = Empty | Bare(text: string) | Quoted(text: string) {
    function Value(): Option<string> {
      if Empty? then None else Some(text)
    }

    predicate Valid(separator: char) {
      Bare? ==> text != "" && text[0] != '"' && separator !in text && '\n' !in text && '\r' !in text
    }

    function Print(): string {
      match this
      case Empty => ""
      case Bare(text) => text
      case Quoted(text) => "\"" + Double(text) + "\""
    }
  }

  function Double(s: string): string {
    if s == "" then "" else (if s[0] == '"' then "\"\"" else [s[0]]) + Double(s[1..])
  }

  datatype Ending = LineFeed | CarriageReturnLineFeed {
    function Print(): string {
      if LineFeed? then "\n" else "\r\n"
    }
  }

  // An empty line isn't a record, and neither is one null value.
  datatype Line = Line(fields: seq<Field>, ending: Ending) {
    predicate Valid(separator: char) {
      && fields != [] && fields != [Empty]
      && forall f | f in fields :: f.Valid(separator)
    }

    function Values(): Record {
      seq(|fields|, i requires 0 <= i < |fields| => fields[i].Value())
    }
  }

  function PrintFields(fields: seq<Field>, separator: char): string
    requires fields != []
  {
    fields[0].Print() + if |fields| == 1 then "" else [separator] + PrintFields(fields[1..], separator)
  }

  // The last line can end at the end of the file.
  function Print(lines: seq<Line>, separator: char, ended: bool): string
    requires forall l | l in lines :: l.Valid(separator)
  {
    if lines == [] then ""
    else
      assert lines[0] in lines && lines[0].Valid(separator);
      var line := PrintFields(lines[0].fields, separator);
      if |lines| == 1 && !ended then line else line + (lines[0].ending.Print() + Print(lines[1..], separator, ended))
  }

  function Records(lines: seq<Line>): seq<Record> {
    seq(|lines|, i requires 0 <= i < |lines| => lines[i].Values())
  }

  predicate IsSeparator(c: char) {
    c != '"' && c != '\n' && c != '\r'
  }

  // A field is followed by a separator, the end of a line or the end of the file.
  predicate EndsField(rest: string, separator: char) {
    rest == "" || rest[0] == separator || rest[0] == '\n' || rest[0] == '\r'
  }

  lemma {:induction false} ParseBare(text: string, rest: string, separator: char, st: State)
    requires !st.quoted && separator !in text && '\n' !in text && '\r' !in text
    requires st.value == "" && text != "" ==> text[0] != '"'
    ensures Parse(text + rest, separator, st) == Parse(rest, separator, st.(value := st.value + text))
    decreases |text|
  {
    if text == "" {
      assert text + rest == rest && st.value + text == st.value;
    } else {
      var next := st.(value := st.value + [text[0]]);
      assert (text + rest)[1..] == text[1..] + rest && text[0] in text;
      assert forall c | c in text[1..] :: c in text;
      ParseBare(text[1..], rest, separator, next);
      assert next.value + text[1..] == st.value + text;
    }
  }

  lemma {:induction false} ParseQuoted(text: string, rest: string, separator: char, st: State)
    requires st.quoted && (rest == "" || rest[0] != '"')
    ensures Parse(Double(text) + "\"" + rest, separator, st) ==
            Parse(rest, separator, st.(value := st.value + text, quoted := false))
    decreases |text|
  {
    var s := Double(text) + "\"" + rest;
    if text == "" {
      assert s == "\"" + rest && s[1..] == rest && st.value + text == st.value;
    } else {
      var next := st.(value := st.value + [text[0]]);
      var d := if text[0] == '"' then "\"\"" else [text[0]];
      assert s == d + (Double(text[1..]) + "\"" + rest);
      assert s[|d|..] == Double(text[1..]) + "\"" + rest;
      ParseQuoted(text[1..], rest, separator, next);
      assert next.value + text[1..] == st.value + text;
    }
  }

  lemma ParseOpeningQuote(s: string, separator: char, st: State)
    requires s != "" && s[0] == '"' && !st.quoted && st.value == ""
    ensures Parse(s, separator, st) == Parse(s[1..], separator, st.(quoted := true, wasQuoted := true))
  {
  }

  lemma QuotedPrint(d: string, rest: string)
    ensures var s := "\"" + d + "\"" + rest; s[1..] == d + "\"" + rest && s[0] == '"'
  {
  }

  lemma ParseQuotedField(text: string, rest: string, separator: char, st: State)
    requires !st.quoted && st.value == "" && (rest == "" || rest[0] != '"')
    ensures Parse("\"" + Double(text) + "\"" + rest, separator, st) ==
            Parse(rest, separator, st.(value := text, wasQuoted := true))
  {
    hide Parse, Double;
    QuotedPrint(Double(text), rest);
    ParseOpeningQuote("\"" + Double(text) + "\"" + rest, separator, st);
    ParseQuoted(text, rest, separator, st.(quoted := true, wasQuoted := true));
    assert "" + text == text;
  }

  lemma ParseField(f: Field, rest: string, separator: char, st: State)
    requires IsSeparator(separator) && f.Valid(separator) && EndsField(rest, separator)
    requires st.value == "" && !st.quoted && !st.wasQuoted
    ensures Parse(f.Print() + rest, separator, st) ==
            Parse(rest, separator, st.(value := if f.Empty? then "" else f.text, wasQuoted := f.Quoted?))
  {
    hide Parse, Double;
    match f {
      case Empty =>
        assert "" + rest == rest;
      case Bare(text) =>
        ParseBare(text, rest, separator, st);
        assert "" + text == text;
      case Quoted(text) =>
        ParseQuotedField(text, rest, separator, st);
    }
  }

  lemma ParseSeparator(s: string, separator: char, st: State)
    requires IsSeparator(separator) && s != "" && s[0] == separator && !st.quoted
    ensures Parse(s, separator, st) == Parse(s[1..], separator, st.EndValue())
  {
  }

  // The state after the fields of a line.
  ghost function AfterFields(st: State, fields: seq<Field>): State
    requires fields != []
    decreases |fields|
  {
    var next := st.(value := if fields[0].Empty? then "" else fields[0].text, wasQuoted := fields[0].Quoted?);
    if |fields| == 1 then next else AfterFields(next.EndValue(), fields[1..])
  }

  lemma PrintMore(fields: seq<Field>, separator: char, rest: string)
    requires |fields| > 1
    ensures PrintFields(fields, separator) + rest ==
            fields[0].Print() + ([separator] + (PrintFields(fields[1..], separator) + rest))
  {
    hide Field.Print;
  }

  lemma {:induction false} ParseFields(fields: seq<Field>, rest: string, separator: char, st: State)
    requires IsSeparator(separator) && fields != [] && forall f | f in fields :: f.Valid(separator)
    requires rest == "" || rest[0] == '\n' || rest[0] == '\r'
    requires st.value == "" && !st.quoted && !st.wasQuoted
    ensures Parse(PrintFields(fields, separator) + rest, separator, st) ==
      Parse(rest, separator, AfterFields(st, fields))
    decreases |fields|
  {
    hide Parse, Next, Field.Print, Field.Valid;
    var f := fields[0];
    var next := st.(value := if f.Empty? then "" else f.text, wasQuoted := f.Quoted?);
    if |fields| == 1 {
      assert f.Print() + "" == f.Print();
      ParseField(f, rest, separator, st);
    } else {
      var more := PrintFields(fields[1..], separator) + rest;
      PrintMore(fields, separator, rest);
      ParseField(f, [separator] + more, separator, st);
      ParseSeparator([separator] + more, separator, next);
      assert ([separator] + more)[1..] == more;
      ParseFields(fields[1..], rest, separator, next.EndValue());
    }
  }

  lemma {:induction false} AfterFieldsValues(st: State, fields: seq<Field>, separator: char)
    requires fields != [] && forall f | f in fields :: f.Valid(separator)
    requires st.value == "" && !st.quoted && !st.wasQuoted
    ensures var end := AfterFields(st, fields);
      && !end.quoted && end.records == st.records
      && end.EndValue().record == st.record + Line(fields, LineFeed).Values()
    decreases |fields|
  {
    var f := fields[0];
    var next := st.(value := if f.Empty? then "" else f.text, wasQuoted := f.Quoted?);
    assert f in fields && next.EndValue().record == st.record + [f.Value()];
    if |fields| > 1 {
      AfterFieldsValues(next.EndValue(), fields[1..], separator);
      assert Line(fields, LineFeed).Values() == [f.Value()] + Line(fields[1..], LineFeed).Values();
    } else {
      assert Line(fields, LineFeed).Values() == [f.Value()];
    }
  }

  // The end of a line that has been read.
  lemma AfterLine(l: Line, separator: char, st: State)
    requires l.Valid(separator) && st.record == [] && st.value == "" && !st.quoted && !st.wasQuoted
    ensures var end := AfterFields(st, l.fields);
      !end.quoted && end.EndRecord() == st.(records := st.records + [l.Values()])
  {
    var end := AfterFields(st, l.fields);
    AfterFieldsValues(st, l.fields, separator);
    assert st.record + Line(l.fields, LineFeed).Values() == l.Values();
    assert end.EndValue().record == l.Values();
    assert l.fields[0] in l.fields;
    if |l.fields| == 1 {
      assert l.fields == [l.fields[0]];
    }
  }

  lemma ParseEnding(ending: Ending, rest: string, separator: char, st: State)
    requires IsSeparator(separator) && !st.quoted
    ensures Parse(ending.Print() + rest, separator, st) == Parse(rest, separator, st.EndRecord())
  {
    if ending.LineFeed? {
      assert ("\n" + rest)[1..] == rest;
    } else {
      assert ("\r\n" + rest)[1..] == "\n" + rest && ("\n" + rest)[1..] == rest;
    }
  }

  lemma ParseLine(l: Line, rest: string, separator: char, st: State)
    requires IsSeparator(separator) && l.Valid(separator)
    requires st.record == [] && st.value == "" && !st.quoted && !st.wasQuoted
    ensures Parse(PrintFields(l.fields, separator) + (l.ending.Print() + rest), separator, st) ==
            Parse(rest, separator, st.(records := st.records + [l.Values()]))
  {
    hide Parse, Next, Field.Valid;
    AfterLine(l, separator, st);
    ParseFields(l.fields, l.ending.Print() + rest, separator, st);
    ParseEnding(l.ending, rest, separator, AfterFields(st, l.fields));
  }

  lemma ParseLastLine(l: Line, separator: char, st: State)
    requires IsSeparator(separator) && l.Valid(separator)
    requires st.record == [] && st.value == "" && !st.quoted && !st.wasQuoted
    ensures Parse(PrintFields(l.fields, separator), separator, st) == st.records + [l.Values()]
  {
    hide Next, Field.Valid;
    AfterLine(l, separator, st);
    ParseFields(l.fields, "", separator, st);
    assert PrintFields(l.fields, separator) + "" == PrintFields(l.fields, separator);
  }

  lemma RecordsOfMore(lines: seq<Line>)
    requires lines != []
    ensures Records(lines) == [lines[0].Values()] + Records(lines[1..])
  {
  }

  lemma {:induction false} ParseLines(lines: seq<Line>, separator: char, ended: bool, st: State)
    requires IsSeparator(separator) && forall l | l in lines :: l.Valid(separator)
    requires st.record == [] && st.value == "" && !st.quoted && !st.wasQuoted
    ensures Parse(Print(lines, separator, ended), separator, st) == st.records + Records(lines)
    decreases |lines|
  {
    if lines == [] {
      assert st.EndRecord() == st && st.records + Records(lines) == st.records;
    } else {
      hide Parse, Next, Line.Valid, Records;
      assert lines[0] in lines;
      RecordsOfMore(lines);
      if |lines| == 1 && !ended {
        ParseLastLine(lines[0], separator, st);
        LastRecords(lines);
      } else {
        var next := st.(records := st.records + [lines[0].Values()]);
        ParseLine(lines[0], Print(lines[1..], separator, ended), separator, st);
        ParseLines(lines[1..], separator, ended, next);
        assert next.records + Records(lines[1..]) == st.records + ([lines[0].Values()] + Records(lines[1..]));
      }
    }
  }

  lemma LastRecords(lines: seq<Line>)
    requires |lines| == 1
    ensures Records(lines) == [lines[0].Values()]
  {
  }

  // A file that is written for any records is read back as them.
  lemma PrintParse(lines: seq<Line>, separator: char, ended: bool)
    requires IsSeparator(separator) && forall l | l in lines :: l.Valid(separator)
    ensures Parse(Print(lines, separator, ended), separator, START) == Records(lines)
  {
    ParseLines(lines, separator, ended, START);
  }

  // Some file has the records, unless one of them is empty or a single null value.
  lemma CanParseIff(records: seq<Record>, separator: char)
    requires IsSeparator(separator)
    ensures (exists text :: Parse(text, separator, START) == records) <==> NotEmpty(records)
  {
    if text :| Parse(text, separator, START) == records {
      ParseNotEmpty(text, separator, START);
    }
    if NotEmpty(records) {
      var lines := seq(|records|, i requires 0 <= i < |records| => Quote(records[i]));
      forall l | l in lines ensures l.Valid(separator) {
        var i :| 0 <= i < |lines| && lines[i] == l;
        assert records[i] in records && l.Values() == records[i];
        assert l.fields == [Empty] ==> l.Values() == [None];
      }
      assert forall i | 0 <= i < |records| :: lines[i].Values() == records[i];
      assert Records(lines) == records;
      PrintParse(lines, separator, true);
    }
  }

  function Quote(r: Record): Line {
    Line(seq(|r|, i requires 0 <= i < |r| => if r[i].None? then Empty else Quoted(r[i].value)), LineFeed)
  }
}
