/**
 * The CSV export of the audit log, and an independent reader for the format of section 2 of
 * RFC 4180, with a single line feed as the record separator.
 */
module AuditCsv {
  import opened Wrappers

  // ---------------------------------------------------------------- writing

  /** An audit row as the export query returns it; a missing company or user has no name or email. */
  datatype Log = Log(createdAt: string, companyName: Option<string>, userEmail: Option<string>, action: string,
                     entity: string, entityId: Option<string>, ipAddress: Option<string>, userAgent: Option<string>,
                     oldValue: Option<string>, newValue: Option<string>)

  const HEADER := ["Timestamp", "Company", "User Email", "Action", "Entity",
                   "Entity ID", "IP Address", "User Agent", "Old Value", "New Value"]

  /** `text.replace(/"/g, '""')`. */
  function DoubleQuotes(text: string): string {
    if text == "" then ""
    else (if text[0] == '"' then "\"\"" else [text[0]]) + DoubleQuotes(text[1..])
  }

  function CsvEscape(value: Option<string>): string {
    "\"" + (DoubleQuotes(OrEmpty(value)) + "\"")
  }

  function RowCells(log: Log): seq<string> {
    [ CsvEscape(Some(log.createdAt)),
      CsvEscape(Some(OrEmpty(log.companyName))),
      CsvEscape(Some(OrEmpty(log.userEmail))),
      CsvEscape(Some(log.action)),
      CsvEscape(Some(log.entity)),
      CsvEscape(log.entityId),
      CsvEscape(log.ipAddress),
      CsvEscape(log.userAgent),
      CsvEscape(log.oldValue),
      CsvEscape(log.newValue)
    ]
  }

  function RowLine(log: Log): string {
    Join(RowCells(log), ",")
  }

  function RowLines(logs: seq<Log>): seq<string> {
    seq(|logs|, i requires 0 <= i < |logs| => RowLine(logs[i]))
  }

  function ExportCsv(logs: seq<Log>): string {
    Join([Join(HEADER, ",")] + RowLines(logs), "\n")
  }

  // ---------------------------------------------------------------- reading

  predicate EndsField(rest: string) {
    rest == "" || rest[0] == ',' || rest[0] == '\n'
  }

  /** A bare field: up to a comma, a line break or the end; a quote inside it is malformed. */
  function ReadBare(text: string): (r: Option<(string, string)>)
    ensures r.Some? ==> |r.value.1| <= |text|
  {
    if EndsField(text) then Some(("", text))
    else if text[0] == '"' then None
    else
      match ReadBare(text[1..])
      case None => None
      case Some((field, rest)) => Some(([text[0]] + field, rest))
  }

  /** The rest of a quoted field after its opening quote: two quotes stand for one, a single one closes. */
  function ReadQuoted(text: string): (r: Option<(string, string)>)
    ensures r.Some? ==> |r.value.1| < |text|
    decreases |text|
  {
    if text == "" then None
    else if text[0] == '"' && |text| > 1 && text[1] == '"' then
      match ReadQuoted(text[2..])
      case None => None
      case Some((field, rest)) => Some((['"'] + field, rest))
    else if text[0] == '"' then Some(("", text[1..]))
    else
      match ReadQuoted(text[1..])
      case None => None
      case Some((field, rest)) => Some(([text[0]] + field, rest))
  }

  function ReadField(text: string): (r: Option<(string, string)>)
    ensures r.Some? ==> |r.value.1| <= |text|
  {
    if text != "" && text[0] == '"' then ReadQuoted(text[1..]) else ReadBare(text)
  }

  /** One record and what follows it: nothing, or a line break and more. */
  function ReadRecord(text: string): (r: Option<(seq<string>, string)>)
    ensures r.Some? ==> |r.value.1| <= |text| && (r.value.1 == "" || r.value.1[0] == '\n')
    decreases |text|
  {
    match ReadField(text)
    case None => None
    case Some((field, rest)) =>
      if rest == "" || rest[0] == '\n' then Some(([field], rest))
      else if rest[0] != ',' then None
      else
        match ReadRecord(rest[1..])
        case None => None
        case Some((fields, after)) => Some(([field] + fields, after))
  }

  /** All records; the last one may or may not end in a line break. */
  function ReadFile(text: string): Option<seq<seq<string>>>
    decreases |text|
  {
    match ReadRecord(text)
    case None => None
    case Some((record, rest)) =>
      if |rest| <= 1 then Some([record])
      else
        match ReadFile(rest[1..])
        case None => None
        case Some(records) => Some([record] + records)
  }

  // ---------------------------------------------------------------- reading what was written

  datatype Column = Timestamp | Company | UserEmail | Action | Entity | EntityId | IpAddress | UserAgent | OldValue | NewValue

  const COLUMNS := [Timestamp, Company, UserEmail, Action, Entity, EntityId, IpAddress, UserAgent, OldValue, NewValue]

  function Place(column: Column): (j: nat)
    ensures j < |COLUMNS| && COLUMNS[j] == column
  {
    match column
    case Timestamp => 0
    case Company => 1
    case UserEmail => 2
    case Action => 3
    case Entity => 4
    case EntityId => 5
    case IpAddress => 6
    case UserAgent => 7
    case OldValue => 8
    case NewValue => 9
  }

  function Title(column: Column): string {
    match column
    case Timestamp => "Timestamp"
    case Company => "Company"
    case UserEmail => "User Email"
    case Action => "Action"
    case Entity => "Entity"
    case EntityId => "Entity ID"
    case IpAddress => "IP Address"
    case UserAgent => "User Agent"
    case OldValue => "Old Value"
    case NewValue => "New Value"
  }

  /** What an audit row holds under a column; a missing value reads as the empty text. */
  function Value(log: Log, column: Column): string {
    match column
    case Timestamp => log.createdAt
    case Company => OrEmpty(log.companyName)
    case UserEmail => OrEmpty(log.userEmail)
    case Action => log.action
    case Entity => log.entity
    case EntityId => OrEmpty(log.entityId)
    case IpAddress => OrEmpty(log.ipAddress)
    case UserAgent => OrEmpty(log.userAgent)
    case OldValue => OrEmpty(log.oldValue)
    case NewValue => OrEmpty(log.newValue)
  }

  function Record(log: Log): seq<string> {
    seq(|COLUMNS|, j requires 0 <= j < |COLUMNS| => Value(log, COLUMNS[j]))
  }

  function Records(logs: seq<Log>): seq<seq<string>> {
    seq(|logs|, i requires 0 <= i < |logs| => Record(logs[i]))
  }

  /** `cell` is read as `field` wherever a field may end. */
  ghost predicate Encodes(cell: string, field: string) {
    forall rest: string | EndsField(rest) :: ReadField(cell + rest) == Some((field, rest))
  }

  /** `line` is read as `record` wherever a record may end. */
  ghost predicate EncodesRecord(line: string, record: seq<string>) {
    forall rest: string | rest == "" || rest[0] == '\n' :: ReadRecord(line + rest) == Some((record, rest))
  }

  lemma Assoc(a: string, b: string, c: string)
    ensures (a + b) + c == a + (b + c)
  {}

  lemma {:induction false} QuotedIsReadBack(field: string, rest: string)
    requires rest == "" || rest[0] != '"'
    ensures ReadQuoted(DoubleQuotes(field) + ("\"" + rest)) == Some((field, rest))
  {
    var closing := "\"" + rest;
    if field == "" {
      assert DoubleQuotes(field) + closing == closing;
      assert closing[1..] == rest;
    } else {
      var head := if field[0] == '"' then "\"\"" else [field[0]];
      var tail := DoubleQuotes(field[1..]) + closing;
      QuotedIsReadBack(field[1..], rest);
      Assoc(head, DoubleQuotes(field[1..]), closing);
      assert (head + tail)[|head|..] == tail;
      assert [field[0]] + field[1..] == field;
    }
  }

  lemma {:induction false} BareIsReadBack(field: string, rest: string)
    requires forall i :: 0 <= i < |field| ==> field[i] != ',' && field[i] != '\n' && field[i] != '"'
    requires EndsField(rest)
    ensures ReadBare(field + rest) == Some((field, rest))
  {
    if field == "" {
      assert field + rest == rest;
    } else {
      BareIsReadBack(field[1..], rest);
      assert (field + rest)[1..] == field[1..] + rest;
      assert [field[0]] + field[1..] == field;
    }
  }

  lemma EscapedCell(value: Option<string>)
    ensures Encodes(CsvEscape(value), OrEmpty(value))
  {
    var doubled := DoubleQuotes(OrEmpty(value));
    forall rest: string | EndsField(rest)
      ensures ReadField(CsvEscape(value) + rest) == Some((OrEmpty(value), rest))
    {
      QuotedIsReadBack(OrEmpty(value), rest);
      assert (CsvEscape(value) + rest)[1..] == doubled + ("\"" + rest);
    }
  }

  lemma BareCell(field: string)
    requires forall i :: 0 <= i < |field| ==> field[i] != ',' && field[i] != '\n' && field[i] != '"'
    ensures Encodes(field, field)
  {
    forall rest: string | EndsField(rest)
      ensures ReadField(field + rest) == Some((field, rest))
    {
      BareIsReadBack(field, rest);
      if field == "" { assert field + rest == rest; }
    }
  }

  lemma {:induction false} JoinedCellsAreReadBack(cells: seq<string>, fields: seq<string>, rest: string)
    requires |cells| == |fields| > 0
    requires forall i :: 0 <= i < |cells| ==> Encodes(cells[i], fields[i])
    requires rest == "" || rest[0] == '\n'
    ensures ReadRecord(Join(cells, ",") + rest) == Some((fields, rest))
  {
    if |cells| == 1 {
      assert fields == [fields[0]];
    } else {
      var more := Join(cells[1..], ",") + rest;
      JoinedCellsAreReadBack(cells[1..], fields[1..], rest);
      Assoc(cells[0], "," + Join(cells[1..], ","), rest);
      Assoc(",", Join(cells[1..], ","), rest);
      assert EndsField("," + more);
      assert ("," + more)[1..] == more;
      assert [fields[0]] + fields[1..] == fields;
    }
  }

  lemma {:induction false} JoinedLinesAreReadBack(lines: seq<string>, records: seq<seq<string>>)
    requires |lines| == |records| > 0
    requires forall i :: 0 <= i < |lines| ==> lines[i] != "" && EncodesRecord(lines[i], records[i])
    ensures ReadFile(Join(lines, "\n")) == Some(records)
  {
    var rest := if |lines| == 1 then "" else "\n" + Join(lines[1..], "\n");
    assert EncodesRecord(lines[0], records[0]);
    assert ReadRecord(lines[0] + rest) == Some((records[0], rest));
    if |lines| == 1 {
      assert lines[0] + rest == lines[0];
      assert records == [records[0]];
    } else {
      JoinedLinesAreReadBack(lines[1..], records[1..]);
      assert Join(lines[1..], "\n") != "" by { assert lines[1..][0] != ""; }
      assert rest[1..] == Join(lines[1..], "\n");
      assert [records[0]] + records[1..] == records;
    }
  }

  lemma HeaderIsReadBack()
    ensures Join(HEADER, ",") != ""
    ensures EncodesRecord(Join(HEADER, ","), HEADER)
  {
    forall j | 0 <= j < |HEADER| ensures Encodes(HEADER[j], HEADER[j]) {
      BareCell(HEADER[j]);
    }
    forall rest: string | rest == "" || rest[0] == '\n'
      ensures ReadRecord(Join(HEADER, ",") + rest) == Some((HEADER, rest))
    {
      JoinedCellsAreReadBack(HEADER, HEADER, rest);
    }
  }

  /** The nullable value whose text a column shows. */
  function Raw(log: Log, column: Column): (value: Option<string>)
    ensures OrEmpty(value) == Value(log, column)
  {
    match column
    case EntityId => log.entityId
    case IpAddress => log.ipAddress
    case UserAgent => log.userAgent
    case OldValue => log.oldValue
    case NewValue => log.newValue
    case _ => Some(Value(log, column))
  }

  /** The cell printed at each place is the escaped value of that place's column. */
  lemma CellOfColumn(log: Log, column: Column)
    ensures |RowCells(log)| == |COLUMNS|
    ensures RowCells(log)[Place(column)] == CsvEscape(Raw(log, column))
  {}

  lemma PlaceInvertsColumns(j: nat)
    requires j < |COLUMNS|
    ensures Place(COLUMNS[j]) == j
  {}

  lemma RowIsReadBack(log: Log)
    ensures RowLine(log) != ""
    ensures EncodesRecord(RowLine(log), Record(log))
  {
    forall j | 0 <= j < |RowCells(log)| ensures Encodes(RowCells(log)[j], Record(log)[j]) {
      PlaceInvertsColumns(j);
      CellOfColumn(log, COLUMNS[j]);
      EscapedCell(Raw(log, COLUMNS[j]));
    }
    forall rest: string | rest == "" || rest[0] == '\n'
      ensures ReadRecord(RowLine(log) + rest) == Some((Record(log), rest))
    {
      JoinedCellsAreReadBack(RowCells(log), Record(log), rest);
    }
  }

  lemma RowsAreReadBack(logs: seq<Log>)
    ensures forall i :: 0 <= i < |logs| ==> RowLines(logs)[i] != "" && EncodesRecord(RowLines(logs)[i], Records(logs)[i])
  {
    forall i | 0 <= i < |logs|
      ensures RowLines(logs)[i] != "" && EncodesRecord(RowLines(logs)[i], Records(logs)[i])
    {
      RowIsReadBack(logs[i]);
    }
  }

  lemma TableIsReadBack(header: string, titles: seq<string>, lines: seq<string>, records: seq<seq<string>>)
    requires |lines| == |records|
    requires header != "" && EncodesRecord(header, titles)
    requires forall i :: 0 <= i < |lines| ==> lines[i] != "" && EncodesRecord(lines[i], records[i])
    ensures ReadFile(Join([header] + lines, "\n")) == Some([titles] + records)
  {
    JoinedLinesAreReadBack([header] + lines, [titles] + records);
  }

  /**
   * Reading an export gives back the column titles and then, row by row and column by column, exactly
   * the text of every field, whatever quotes, commas or line breaks it holds.
   */
  lemma ReadInvertsExport(logs: seq<Log>)
    ensures ReadFile(ExportCsv(logs)) == Some([HEADER] + Records(logs))
  {
    HeaderIsReadBack();
    RowsAreReadBack(logs);
    TableIsReadBack(Join(HEADER, ","), HEADER, RowLines(logs), Records(logs));
  }

  ghost predicate SameRows(a: seq<Log>, b: seq<Log>) {
    && |a| == |b|
    && forall i, column: Column | 0 <= i < |a| :: Value(a[i], column) == Value(b[i], column)
  }

  /** Two exports are the same text exactly when their rows hold the same texts, missing values being empty. */
  lemma ExportDeterminesRows(a: seq<Log>, b: seq<Log>)
    ensures ExportCsv(a) == ExportCsv(b) <==> SameRows(a, b)
  {
    if ExportCsv(a) == ExportCsv(b) {
      ReadInvertsExport(a);
      ReadInvertsExport(b);
      SameTail(HEADER, Records(a), Records(b));
      RecordsDetermineRows(a, b);
    }
    if SameRows(a, b) {
      forall i | 0 <= i < |a| ensures RowLine(a[i]) == RowLine(b[i]) {
        ValuesDetermineCells(a[i], b[i]);
      }
      assert RowLines(a) == RowLines(b);
    }
  }

  lemma SameTail<T>(head: T, a: seq<T>, b: seq<T>)
    requires [head] + a == [head] + b
    ensures a == b
  {
    assert ([head] + a)[1..] == a && ([head] + b)[1..] == b;
  }

  lemma RecordsDetermineRows(a: seq<Log>, b: seq<Log>)
    requires Records(a) == Records(b)
    ensures SameRows(a, b)
  {
    assert |Records(a)| == |Records(b)|;
    forall i, column: Column | 0 <= i < |a| ensures Value(a[i], column) == Value(b[i], column) {
      assert Records(a)[i] == Records(b)[i];
      RecordHoldsEveryColumn(a[i], column);
      RecordHoldsEveryColumn(b[i], column);
    }
  }

  /** Under each column title, a record of the table read back holds that column's value of its row. */
  lemma RecordHoldsEveryColumn(log: Log, column: Column)
    ensures |Record(log)| == |HEADER|
    ensures HEADER[Place(column)] == Title(column) && Record(log)[Place(column)] == Value(log, column)
  {}

  lemma ValuesDetermineCells(a: Log, b: Log)
    requires forall column: Column :: Value(a, column) == Value(b, column)
    ensures RowCells(a) == RowCells(b)
  {
    forall j | 0 <= j < |COLUMNS| ensures RowCells(a)[j] == RowCells(b)[j] {
      PlaceInvertsColumns(j);
      CellOfColumn(a, COLUMNS[j]);
      CellOfColumn(b, COLUMNS[j]);
      assert Value(a, COLUMNS[j]) == Value(b, COLUMNS[j]);
    }
  }
}
