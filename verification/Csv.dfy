/**
 The CSV export (standups-csv.util.ts) and, as its partner, a reader for section 2 of
 RFC 4180 that also takes a bare line feed as a record separator.
 */
module Csv {
  import opened Text
  import opened Calendar

  const QUOTE := '"'
  const COMMA := ','
  const LF := '\n'
  const CR := '\r'

  // The printer

  datatype StandupRow = StandupRow(
    standupDate: Day,
    name: string,
    email: string,
    yesterday: string,
    today: string,
    blockers: Option<string>,
    isLate: bool,
    submittedAt: Timestamp)

  predicate NeedsQuotes(value: string) {
    exists c :: c in value && (c == QUOTE || c == COMMA || c == LF || c == CR)
  }

  /** `value.replace(/"/g, '""')` */
  function DoubleQuotes(value: string): string {
    if value == [] then []
    else (if value[0] == QUOTE then [QUOTE, QUOTE] else [value[0]]) + DoubleQuotes(value[1..])
  }

  function EscapeCsv(value: string): string {
    if NeedsQuotes(value) then [QUOTE] + DoubleQuotes(value) + [QUOTE] else value
  }

  const HEADER: seq<string> :=
    ["date", "member_name", "member_email", "yesterday", "today", "blockers", "is_late", "submitted_at"]

  /** The eight values of a row, before any escaping. */
  function Fields(row: StandupRow): seq<string> {
    [ FormatYmd(row.standupDate), row.name, row.email, row.yesterday, row.today,
      if row.blockers.Some? then row.blockers.value else "",
      if row.isLate then "true" else "false",
      FormatIso(row.submittedAt) ]
  }

  /** One line of the file. The date, the flag and the instant are printed as they are. */
  function Line(row: StandupRow): string {
    Join(Cells(row), ",")
  }

  function Cells(row: StandupRow): seq<string> {
    [ FormatYmd(row.standupDate),
      EscapeCsv(row.name),
      EscapeCsv(row.email),
      EscapeCsv(row.yesterday),
      EscapeCsv(row.today),
      EscapeCsv(if row.blockers.Some? then row.blockers.value else ""),
      if row.isLate then "true" else "false",
      FormatIso(row.submittedAt) ]
  }

  function BuildStandupsCsv(rows: seq<StandupRow>): string {
    Join([Join(HEADER, ",")] + LinesOf(rows), "\n")
  }

  /** `rows.map(line)` */
  function LinesOf(rows: seq<StandupRow>): seq<string> {
    if rows == [] then [] else [Line(rows[0])] + LinesOf(rows[1..])
  }

  // The reader

  /** Where the reader is inside a field. */
  datatype Mode = Start | Bare | Quoted | Closed

  /**
   Reads `s`, given the text of the field begun so far, the fields of its record and the
   records already read. None where the text is not in the format: a quotation mark inside
   a bare field, text after a closing one, a carriage return alone, an unclosed field.
   */
  function Read(s: string, mode: Mode, field: string, record: seq<string>, records: seq<seq<string>>)
    : Option<seq<seq<string>>>
  {
    if s == [] then
      if mode == Quoted then None else Some(records + [record + [field]])
    else if mode == Quoted then
      if s[0] == QUOTE then Read(s[1..], Closed, field, record, records)
      else Read(s[1..], Quoted, field + [s[0]], record, records)
    else if s[0] == QUOTE then
      if mode == Start then Read(s[1..], Quoted, field, record, records)
      else if mode == Closed then Read(s[1..], Quoted, field + [QUOTE], record, records)
      else None
    else if s[0] == COMMA then
      Read(s[1..], Start, "", record + [field], records)
    else if s[0] == LF then
      Read(s[1..], Start, "", [], records + [record + [field]])
    else if s[0] == CR then
      if |s| > 1 && s[1] == LF then Read(s[2..], Start, "", [], records + [record + [field]]) else None
    else if mode == Closed then None
    else Read(s[1..], Bare, field + [s[0]], record, records)
  }

  function ParseCsv(s: string): Option<seq<seq<string>>> {
    Read(s, Start, "", [], [])
  }

  // The reader undoes the printer

  predicate EndsField(rest: string) {
    rest == [] || rest[0] == COMMA || rest[0] == LF
  }

  /** What follows a complete field is read alike whichever way the field was written. */
  lemma {:induction false} FieldEnd(rest: string, mode: Mode, field: string, record: seq<string>,
                                    records: seq<seq<string>>)
    requires EndsField(rest) && mode != Quoted
    ensures Read(rest, mode, field, record, records) == Read(rest, Closed, field, record, records)
  {
  }

  lemma {:induction false} BareField(value: string, rest: string, mode: Mode, field: string,
                                     record: seq<string>, records: seq<seq<string>>)
    requires !NeedsQuotes(value) && EndsField(rest) && (mode == Start || mode == Bare)
    ensures Read(value + rest, mode, field, record, records) == Read(rest, Closed, field + value, record, records)
  {
    if value == [] {
      assert value + rest == rest && field + value == field;
      FieldEnd(rest, mode, field, record, records);
    } else {
      assert value[0] in value;
      assert forall c :: c in value[1..] ==> c in value;
      assert (value + rest)[1..] == value[1..] + rest;
      assert field + value == (field + [value[0]]) + value[1..];
      BareField(value[1..], rest, Bare, field + [value[0]], record, records);
    }
  }

  lemma {:induction false} QuotedField(value: string, rest: string, field: string,
                                       record: seq<string>, records: seq<seq<string>>)
    requires EndsField(rest)
    ensures Read(DoubleQuotes(value) + [QUOTE] + rest, Quoted, field, record, records)
         == Read(rest, Closed, field + value, record, records)
  {
    var s := DoubleQuotes(value) + [QUOTE] + rest;
    if value == [] {
      assert s[0] == QUOTE && s[1..] == rest && field + value == field;
    } else {
      var tail := DoubleQuotes(value[1..]) + [QUOTE] + rest;
      assert field + value == (field + [value[0]]) + value[1..];
      QuotedField(value[1..], rest, field + [value[0]], record, records);
      if value[0] == QUOTE {
        assert s[0] == QUOTE && s[1] == QUOTE && s[1..][1..] == tail;
      } else {
        assert s[0] == value[0] && s[1..] == tail;
      }
    }
  }

  lemma {:induction false} OpeningQuote(body: string, record: seq<string>, records: seq<seq<string>>)
    ensures Read([QUOTE] + body, Start, "", record, records) == Read(body, Quoted, "", record, records)
  {
    assert ([QUOTE] + body)[1..] == body;
  }

  /** Any text at all, escaped, is read back as one field with that text. */
  lemma {:induction false} EscapedField(value: string, rest: string, record: seq<string>, records: seq<seq<string>>)
    requires EndsField(rest)
    ensures Read(EscapeCsv(value) + rest, Start, "", record, records) == Read(rest, Closed, value, record, records)
  {
    assert "" + value == value;
    if NeedsQuotes(value) {
      var body := DoubleQuotes(value) + [QUOTE] + rest;
      assert EscapeCsv(value) + rest == [QUOTE] + body;
      OpeningQuote(body, record, records);
      QuotedField(value, rest, "", record, records);
    } else {
      BareField(value, rest, Start, "", record, records);
    }
  }

  function EscapeAll(fields: seq<string>): (r: seq<string>)
    ensures |r| == |fields| && forall i :: 0 <= i < |r| ==> r[i] == EscapeCsv(fields[i])
  {
    if fields == [] then [] else [EscapeCsv(fields[0])] + EscapeAll(fields[1..])
  }

  predicate EndsRecord(rest: string) {
    rest == [] || rest[0] == LF
  }

  /** A line of escaped fields is read back as those fields. */
  lemma {:induction false} RecordRead(fields: seq<string>, rest: string, record: seq<string>, records: seq<seq<string>>)
    requires fields != [] && EndsRecord(rest)
    ensures Read(Join(EscapeAll(fields), ",") + rest, Start, "", record, records)
         == if rest == [] then Some(records + [record + fields])
            else Read(rest[1..], Start, "", [], records + [record + fields])
  {
    var first, others := fields[0], fields[1..];
    if others == [] {
      assert fields == [first];
      assert Join(EscapeAll(fields), ",") == EscapeCsv(first);
      EscapedField(first, rest, record, records);
    } else {
      var more := Join(EscapeAll(others), ",") + rest;
      assert EscapeAll(fields)[1..] == EscapeAll(others);
      assert Join(EscapeAll(fields), ",") + rest == EscapeCsv(first) + ([COMMA] + more);
      EscapedField(first, [COMMA] + more, record, records);
      assert ([COMMA] + more)[1..] == more;
      RecordRead(others, rest, record + [first], records);
      assert record + fields == record + [first] + others;
    }
  }

  function Lines(table: seq<seq<string>>): (r: seq<string>)
    ensures |r| == |table|
  {
    if table == [] then [] else [Join(EscapeAll(table[0]), ",")] + Lines(table[1..])
  }

  lemma {:induction false} TableRead(table: seq<seq<string>>, records: seq<seq<string>>)
    requires table != [] && forall i :: 0 <= i < |table| ==> table[i] != []
    ensures Read(Join(Lines(table), "\n"), Start, "", [], records) == Some(records + table)
  {
    var first, others := table[0], table[1..];
    assert [] + first == first;
    if others == [] {
      assert table == [first];
      assert Join(Lines(table), "\n") == Join(EscapeAll(first), ",") + "";
      RecordRead(first, "", [], records);
    } else {
      var more := Join(Lines(others), "\n");
      assert Lines(table)[1..] == Lines(others);
      assert Join(Lines(table), "\n") == Join(EscapeAll(first), ",") + ([LF] + more);
      RecordRead(first, [LF] + more, [], records);
      assert ([LF] + more)[1..] == more;
      TableRead(others, records + [first]);
      assert records + table == records + [first] + others;
    }
  }

  // The export is such a table: the values it prints unescaped never need escaping

  predicate SafeChar(c: char) {
    c != QUOTE && c != COMMA && c != LF && c != CR
  }

  predicate Safe(s: string) {
    forall c :: c in s ==> SafeChar(c)
  }

  lemma {:induction false} PadIsSafe(n: nat)
    requires n < 100
    ensures Safe(Pad2(n))
  {
    assert forall c :: IsDigit(c) ==> SafeChar(c);
  }

  lemma {:induction false} YmdIsSafe(d: Day)
    ensures Safe(FormatYmd(d))
  {
    PadIsSafe(d.year / 100);
    PadIsSafe(d.year % 100);
    PadIsSafe(d.month);
    PadIsSafe(d.day);
  }

  lemma {:induction false} IsoIsSafe(t: Timestamp)
    ensures Safe(FormatIso(t))
  {
    YmdIsSafe(t.day);
    PadIsSafe(t.hour);
    PadIsSafe(t.minute);
    PadIsSafe(t.second);
    PadIsSafe(t.milli % 100);
    assert IsDigit(Digit(t.milli / 100));
  }

  lemma {:induction false} SafeIsBare(s: string)
    requires Safe(s)
    ensures EscapeCsv(s) == s
  {
  }

  lemma {:induction false} LineIsRecord(row: StandupRow)
    ensures Line(row) == Join(EscapeAll(Fields(row)), ",")
  {
    YmdIsSafe(row.standupDate);
    IsoIsSafe(row.submittedAt);
    SafeIsBare(FormatYmd(row.standupDate));
    SafeIsBare(FormatIso(row.submittedAt));
    FlagIsSafe(row.isLate);
    CellsAreFields(FormatYmd(row.standupDate), row.name, row.email, row.yesterday, row.today,
                   if row.blockers.Some? then row.blockers.value else "",
                   if row.isLate then "true" else "false", FormatIso(row.submittedAt));
  }

  lemma {:induction false} FlagIsSafe(flag: bool)
    ensures var text := if flag then "true" else "false"; EscapeCsv(text) == text
  {
  }

  lemma {:induction false} CellsAreFields(f0: string, f1: string, f2: string, f3: string, f4: string, f5: string,
                                          f6: string, f7: string)
    requires EscapeCsv(f0) == f0 && EscapeCsv(f6) == f6 && EscapeCsv(f7) == f7
    ensures [f0, EscapeCsv(f1), EscapeCsv(f2), EscapeCsv(f3), EscapeCsv(f4), EscapeCsv(f5), f6, f7]
         == EscapeAll([f0, f1, f2, f3, f4, f5, f6, f7])
  {
    EscapedOneByOne([f0, f1, f2, f3, f4, f5, f6, f7],
                    [f0, EscapeCsv(f1), EscapeCsv(f2), EscapeCsv(f3), EscapeCsv(f4), EscapeCsv(f5), f6, f7]);
  }

  lemma {:induction false} EscapedOneByOne(fields: seq<string>, cells: seq<string>)
    requires |fields| == |cells| && forall i :: 0 <= i < |fields| ==> cells[i] == EscapeCsv(fields[i])
    ensures cells == EscapeAll(fields)
  {
  }

  function Table(rows: seq<StandupRow>): (t: seq<seq<string>>)
    ensures |t| == |rows|
  {
    if rows == [] then [] else [Fields(rows[0])] + Table(rows[1..])
  }

  lemma {:induction false} TableRow(rows: seq<StandupRow>, i: nat)
    requires i < |rows|
    ensures Table(rows)[i] == Fields(rows[i])
  {
    if i > 0 {
      TableRow(rows[1..], i - 1);
    }
  }

  lemma {:induction false} LinesOfRows(rows: seq<StandupRow>)
    ensures Lines(Table(rows)) == LinesOf(rows)
  {
    if rows != [] {
      LineIsRecord(rows[0]);
      LinesOfRows(rows[1..]);
      assert Table(rows)[1..] == Table(rows[1..]);
    }
  }

  lemma {:induction false} HeaderIsRecord()
    ensures Join(HEADER, ",") == Join(EscapeAll(HEADER), ",")
  {
    forall i | 0 <= i < |HEADER|
      ensures EscapeCsv(HEADER[i]) == HEADER[i]
    {
      assert !NeedsQuotes(HEADER[i]);
    }
    NothingToEscape(HEADER);
  }

  lemma {:induction false} NothingToEscape(fields: seq<string>)
    requires forall i :: 0 <= i < |fields| ==> EscapeCsv(fields[i]) == fields[i]
    ensures EscapeAll(fields) == fields
  {
    if fields != [] {
      assert forall i :: 0 <= i < |fields[1..]| ==> fields[1..][i] == fields[i + 1];
      NothingToEscape(fields[1..]);
    }
  }

  /**
   Whatever text the rows hold, reading the export gives the header and one record of
   eight fields per row, in order, with the original values; a missing blockers field
   reads back as the empty text.
   */
  lemma {:induction false} CsvRoundTrip(rows: seq<StandupRow>)
    ensures ParseCsv(BuildStandupsCsv(rows)) == Some([HEADER] + Table(rows))
  {
    HeaderIsRecord();
    RoundTripBelow(HEADER, rows);
  }

  lemma {:induction false} RoundTripBelow(header: seq<string>, rows: seq<StandupRow>)
    requires header != [] && Join(header, ",") == Join(EscapeAll(header), ",")
    ensures ParseCsv(Join([Join(header, ",")] + LinesOf(rows), "\n")) == Some([header] + Table(rows))
  {
    var table := [header] + Table(rows);
    LinesOfRows(rows);
    assert table[0] == header && table[1..] == Table(rows);
    assert Lines(table) == [Join(header, ",")] + LinesOf(rows);
    forall i | 0 <= i < |table|
      ensures table[i] != []
    {
      if i > 0 {
        TableRow(rows, i - 1);
      }
    }
    TableRead(table, []);
    assert [] + table == table;
  }

  // What a reader finds under the names of the columns

  function ColumnOf(header: seq<string>, name: string): nat {
    if header == [] || header[0] == name then 0 else 1 + ColumnOf(header[1..], name)
  }

  /** What a record has under the name. */
  function Under(header: seq<string>, record: seq<string>, name: string): Option<string> {
    var k := ColumnOf(header, name);
    if k < |header| && k < |record| then Some(record[k]) else None
  }

  lemma {:induction false} UnderColumn(fields: seq<string>, k: nat)
    requires |fields| == 8 && k < |HEADER|
    ensures Under(HEADER, fields, HEADER[k]) == Some(fields[k])
  {
    HeaderNames();
    FirstColumn(HEADER, k);
  }

  lemma {:induction false} HeaderNames()
    ensures Distinct(HEADER)
  {
    assert forall i, j :: 0 <= i < j < 8 ==> |HEADER[i]| != |HEADER[j]| || HEADER[i][0] != HEADER[j][0];
  }

  lemma {:induction false} FirstColumn(header: seq<string>, k: nat)
    requires Distinct(header) && k < |header|
    ensures ColumnOf(header, header[k]) == k
  {
    if k > 0 {
      assert header[0] != header[k];
      assert forall i :: 0 <= i < |header[1..]| ==> header[1..][i] == header[i + 1];
      FirstColumn(header[1..], k - 1);
    }
  }

  predicate TextsTold(header: seq<string>, record: seq<string>, row: StandupRow) {
    && Under(header, record, "member_name") == Some(row.name)
    && Under(header, record, "member_email") == Some(row.email)
    && Under(header, record, "yesterday") == Some(row.yesterday)
    && Under(header, record, "today") == Some(row.today)
    && Under(header, record, "blockers") == (if row.blockers.Some? then row.blockers else Some(""))
    && Under(header, record, "is_late") == Some(if row.isLate then "true" else "false")
  }

  /** The record has the values of the row under the names of the columns: the day and the instant as read. */
  predicate RowTold(header: seq<string>, record: seq<string>, row: StandupRow) {
    var date, instant := Under(header, record, "date"), Under(header, record, "submitted_at");
    && TextsTold(header, record, row)
    && date.Some? && ParseYmd(date.value) == Some(row.standupDate)
    && instant.Some? && ReadIso(instant.value) == Some(row.submittedAt)
  }

  lemma {:induction false} TextsTell(row: StandupRow)
    ensures TextsTold(HEADER, Fields(row), row)
  {
    var fields := Fields(row);
    UnderColumn(fields, 1);
    UnderColumn(fields, 2);
    UnderColumn(fields, 3);
    UnderColumn(fields, 4);
    UnderColumn(fields, 5);
    UnderColumn(fields, 6);
  }

  lemma {:induction false} TimesTell(row: StandupRow)
    ensures Under(HEADER, Fields(row), "date") == Some(FormatYmd(row.standupDate))
    ensures Under(HEADER, Fields(row), "submitted_at") == Some(FormatIso(row.submittedAt))
  {
    UnderColumn(Fields(row), 0);
    UnderColumn(Fields(row), 7);
  }

  lemma {:induction false} FieldsTell(row: StandupRow)
    ensures RowTold(HEADER, Fields(row), row)
  {
    TextsTell(row);
    TimesTell(row);
    YmdRoundTrip(row.standupDate);
    IsoRoundTrip(row.submittedAt);
  }

  /** Read back, the export has a header, and under its names the values of every row. */
  lemma {:induction false} ColumnsTell(rows: seq<StandupRow>, i: nat)
    requires i < |rows|
    ensures var t := ParseCsv(BuildStandupsCsv(rows));
      t.Some? && |t.value| == |rows| + 1 && RowTold(t.value[0], t.value[i + 1], rows[i])
  {
    CsvRoundTrip(rows);
    TableRow(rows, i);
    FieldsTell(rows[i]);
  }

  /** The row with an absent blockers field replaced by an empty one. */
  function Normal(row: StandupRow): StandupRow {
    row.(blockers := Some(if row.blockers.Some? then row.blockers.value else ""))
  }

  lemma {:induction false} FieldsDetermineRow(a: StandupRow, b: StandupRow)
    requires Fields(a) == Fields(b)
    ensures Normal(a) == Normal(b)
  {
    var f, g := Fields(a), Fields(b);
    assert f[0] == g[0] && f[1] == g[1] && f[2] == g[2] && f[3] == g[3] && f[4] == g[4]
        && f[5] == g[5] && f[6] == g[6] && f[7] == g[7];
    YmdInjective(a.standupDate, b.standupDate);
    IsoInjective(a.submittedAt, b.submittedAt);
    assert "true" != "false";
  }

  /** Two exports are the same text exactly when the rows agree up to absent blockers. */
  lemma {:induction false} CsvInjective(rows: seq<StandupRow>, others: seq<StandupRow>)
    ensures BuildStandupsCsv(rows) == BuildStandupsCsv(others)
            <==> |rows| == |others| && forall i :: 0 <= i < |rows| ==> Normal(rows[i]) == Normal(others[i])
  {
    if BuildStandupsCsv(rows) == BuildStandupsCsv(others) {
      CsvRoundTrip(rows);
      CsvRoundTrip(others);
      assert ([HEADER] + Table(rows))[1..] == Table(rows) && ([HEADER] + Table(others))[1..] == Table(others);
      forall i | 0 <= i < |rows|
        ensures Normal(rows[i]) == Normal(others[i])
      {
        TableRow(rows, i);
        TableRow(others, i);
        FieldsDetermineRow(rows[i], others[i]);
      }
    } else if |rows| == |others| && forall i :: 0 <= i < |rows| ==> Normal(rows[i]) == Normal(others[i]) {
      SameFieldsSameLines(rows, others);
    }
  }

  lemma {:induction false} SameFieldsSameLines(rows: seq<StandupRow>, others: seq<StandupRow>)
    requires |rows| == |others| && forall i :: 0 <= i < |rows| ==> Normal(rows[i]) == Normal(others[i])
    ensures LinesOf(rows) == LinesOf(others)
  {
    if rows != [] {
      assert Normal(rows[0]) == Normal(others[0]);
      assert Cells(rows[0]) == Cells(others[0]);
      SameFieldsSameLines(rows[1..], others[1..]);
    }
  }
}
