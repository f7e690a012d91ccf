/** INSERT statements, row mapping, and the round trip of whole dumps. */
module DumpRows {
  import opened Common
  import opened DumpText
  import opened DumpLexing
  import opened DumpTuples
  import opened Decimal

  // ----- INSERT statements -----

  /** "INSERT INTO " and "VALUES" */
  const INSERT_INTO: Text := [73, 78, 83, 69, 82, 84, 32, 73, 78, 84, 79, 32]
  const VALUES: Text := [86, 65, 76, 85, 69, 83]

  function ReadIdentifier(s: Text): Result<(Text, Text)> {
    if s == [] then Err
    else if s[0] == BACKTICK then
      var end := Find(s[1..], TICKS);
      if end == |s| - 1 then Err else Ok((s[1..end + 1], s[end + 2..]))
    else
      var end := Find(s, NAME_ENDS);
      Ok((s[..end], s[end..]))
  }

  const TICKS: set<Byte> := {BACKTICK}
  const NAME_ENDS: set<Byte> := {SPACE, TAB, NEWLINE, OPEN}
  const COMMAS: set<Byte> := {COMMA}

  /** The offset of the first byte in `stops`. */
  function Find(s: Text, stops: set<Byte>): (k: nat)
    ensures k <= |s|
  {
    if s == [] || s[0] in stops then 0 else 1 + Find(s[1..], stops)
  }

  /** The offset of the parenthesis that closes the one at the front. */
  function Closing(s: Text, depth: int): (k: nat)
    ensures k <= |s|
  {
    if s == [] then 0
    else if s[0] == CLOSE && depth == 1 then 0
    else 1 + Closing(s[1..], if s[0] == OPEN then depth + 1 else if s[0] == CLOSE then depth - 1 else depth)
  }

  function SplitCommas(s: Text): seq<Text> {
    var k := Find(s, COMMAS);
    if k == |s| then [s] else [s[..k]] + SplitCommas(s[k + 1..])
  }

  function TrimTicks(s: Text): Text {
    if s != [] && s[0] == BACKTICK then TrimTicks(s[1..])
    else if s != [] && s[|s| - 1] == BACKTICK then TrimTicks(s[..|s| - 1])
    else s
  }

  function ColumnNames(raw: seq<Text>): seq<Text> {
    if raw == [] then [] else [TrimTicks(Trim(raw[0]))] + ColumnNames(raw[1..])
  }

  datatype Statement = Other | Insert(table: Text, columns: seq<Text>, tuples: seq<seq<SqlValue>>)

  lemma {:induction false} UpperKeepsLength(s: Text)
    ensures |Upper(s)| == |s|
  {
    if s != [] { UpperKeepsLength(s[1..]); }
  }

  /** parseInsertStatement: statements other than INSERT are skipped. */
  function ParseInsert(stmt: Text): Result<Statement> {
    var trimmed := Trim(stmt);
    UpperKeepsLength(trimmed);
    if !(INSERT_INTO <= Upper(trimmed)) then Ok(Other)
    else match ReadIdentifier(Trim(trimmed[|INSERT_INTO|..]))
      case Err => Err
      case Ok(id) => ParseColumns(id.0, Trim(id.1))
  }

  /** The optional column list. */
  function ParseColumns(table: Text, rest: Text): Result<Statement> {
    if rest == [] || rest[0] != OPEN then ParseValues(table, [], rest)
    else
      var k := Closing(rest, 0);
      if k == |rest| then Err
      else ParseValues(table, ColumnNames(SplitCommas(rest[1..k])), Trim(rest[k + 1..]))
  }

  function ParseValues(table: Text, columns: seq<Text>, body: Text): Result<Statement> {
    UpperKeepsLength(body);
    if !(VALUES <= Upper(body)) then Err
    else match Tuples(Trim(body[|VALUES|..]))
      case Err => Err
      case Ok(tuples) => Ok(Insert(table, columns, tuples))
  }

  // ----- Rows -----

  datatype Photo = Photo(
    id: Uint64, url: Text, sourcePage: Text, title: Text, artist: Text, uploadDate: Option<Text>, filePath: Text,
    fileName: Text, downloadedAt: Text, fileSize: Int64, status: Text, errorMessage: Text)

  datatype Run = Run(
    id: Uint64, startTime: Text, endTime: Option<Text>, status: Text, pagesProcessed: Int64, photosFound: Int64,
    photosDownloaded: Int64, photosSkipped: Int64, photosFailed: Int64, errorMessage: Text)

  datatype Rows = Rows(photos: seq<Photo>, runs: seq<Run>)

  const PHOTO_COLUMNS: seq<string> := [
    "id", "url", "source_page", "title", "artist", "upload_date", "file_path",
    "file_name", "downloaded_at", "file_size", "status", "error_message"]

  const RUN_COLUMNS: seq<string> := [
    "id", "start_time", "end_time", "status", "pages_processed", "photos_found",
    "photos_downloaded", "photos_skipped", "photos_failed", "error_message"]

  /** "downloaded_photos" and "extraction_runs" */
  const PHOTOS_TABLE: Text := [100, 111, 119, 110, 108, 111, 97, 100, 101, 100, 95, 112, 104, 111, 116, 111, 115]
  const RUNS_TABLE: Text := [101, 120, 116, 114, 97, 99, 116, 105, 111, 110, 95, 114, 117, 110, 115]

  /** A column name as the row mapping looks it up: without backquotes, in lower case. */
  function ColumnKey(column: Text): string {
    var t := TrimTicks(column);
    seq(|t|, i requires 0 <= i < |t| => (if 65 <= t[i] <= 90 then t[i] + 32 else t[i]) as char)
  }

  function Keys(columns: seq<Text>): seq<string> {
    seq(|columns|, i requires 0 <= i < |columns| => ColumnKey(columns[i]))
  }

  /** valuesByColumn: a repeated column keeps its last value. */
  function ByColumn(keys: seq<string>, values: seq<SqlValue>): map<string, SqlValue>
    requires |keys| == |values|
  {
    if keys == [] then map[]
    else ByColumn(keys[..|keys| - 1], values[..|keys| - 1])[keys[|keys| - 1] := values[|keys| - 1]]
  }

  /** A missing column reads as the zero value: not NULL, and empty. */
  function Get(row: map<string, SqlValue>, key: string): SqlValue {
    if key in row then row[key] else Val([])
  }

  function TextOf(v: SqlValue): Text { if v.Null? then [] else v.text }

  function OptionalText(v: SqlValue): Option<Text> { if v.Null? || v.text == [] then None else Some(v.text) }

  function UintOf(v: SqlValue): Result<Uint64> { if v.Null? then Err else ParseUint(v.text) }

  function IntOf(v: SqlValue): Result<Int64> { if v.Null? || v.text == [] then Ok(0) else ParseInt(v.text) }

  function MapPhoto(keys: seq<string>, values: seq<SqlValue>): Result<Photo> {
    if |keys| != |values| then Err
    else
      var row := ByColumn(keys, values);
      var id, fileSize := UintOf(Get(row, "id")), IntOf(Get(row, "file_size"));
      if id.Err? || fileSize.Err? then Err
      else Ok(Photo(id.value, TextOf(Get(row, "url")), TextOf(Get(row, "source_page")), TextOf(Get(row, "title")),
                    TextOf(Get(row, "artist")), OptionalText(Get(row, "upload_date")), TextOf(Get(row, "file_path")),
                    TextOf(Get(row, "file_name")), TextOf(Get(row, "downloaded_at")), fileSize.value,
                    TextOf(Get(row, "status")), TextOf(Get(row, "error_message"))))
  }

  function MapRun(keys: seq<string>, values: seq<SqlValue>): Result<Run> {
    if |keys| != |values| then Err
    else
      var row := ByColumn(keys, values);
      var id, pages := UintOf(Get(row, "id")), IntOf(Get(row, "pages_processed"));
      var found, downloaded := IntOf(Get(row, "photos_found")), IntOf(Get(row, "photos_downloaded"));
      var skipped, failed := IntOf(Get(row, "photos_skipped")), IntOf(Get(row, "photos_failed"));
      if id.Err? || pages.Err? || found.Err? || downloaded.Err? || skipped.Err? || failed.Err? then Err
      else Ok(Run(id.value, TextOf(Get(row, "start_time")), OptionalText(Get(row, "end_time")),
                  TextOf(Get(row, "status")), pages.value, found.value, downloaded.value, skipped.value, failed.value,
                  TextOf(Get(row, "error_message"))))
  }

  function MapPhotos(keys: seq<string>, tuples: seq<seq<SqlValue>>): Result<seq<Photo>> {
    if tuples == [] then Ok([])
    else match MapPhoto(keys, tuples[0])
      case Err => Err
      case Ok(row) => Prepend([row], MapPhotos(keys, tuples[1..]))
  }

  function MapRuns(keys: seq<string>, tuples: seq<seq<SqlValue>>): Result<seq<Run>> {
    if tuples == [] then Ok([])
    else match MapRun(keys, tuples[0])
      case Err => Err
      case Ok(row) => Prepend([row], MapRuns(keys, tuples[1..]))
  }

  /** The rows one statement contributes. */
  function StatementRows(stmt: Text): Result<Rows> {
    match ParseInsert(stmt)
    case Err => Err
    case Ok(Other) => Ok(Rows([], []))
    case Ok(Insert(table, columns, tuples)) =>
      if table == PHOTOS_TABLE then
        match MapPhotos(if columns == [] then PHOTO_COLUMNS else Keys(columns), tuples)
        case Err => Err
        case Ok(photos) => Ok(Rows(photos, []))
      else if table == RUNS_TABLE then
        match MapRuns(if columns == [] then RUN_COLUMNS else Keys(columns), tuples)
        case Err => Err
        case Ok(runs) => Ok(Rows([], runs))
      else Err
  }

  function AddRows(a: Rows, r: Result<Rows>): Result<Rows> {
    match r
    case Err => Err
    case Ok(b) => Ok(Rows(a.photos + b.photos, a.runs + b.runs))
  }

  function RowsOf(statements: seq<Text>): Result<Rows> {
    if statements == [] then Ok(Rows([], []))
    else match StatementRows(statements[0])
      case Err => Err
      case Ok(rows) => AddRows(rows, RowsOf(statements[1..]))
  }

  function DumpContent(data: Text): Result<Rows> {
    match Statements(Sanitize(data))
    case Err => Err
    case Ok(statements) => RowsOf(statements)
  }

  method ParseDump(data: Text) returns (result: Result<Rows>)
    ensures result == DumpContent(data)
  {
    var split, _ := SplitSqlStatements(data);
    if split.Err? { return Err; }
    var statements := split.value;
    var out := Rows([], []);
    hide StatementRows, Statements, Sanitize;
    assert statements[0..] == statements;
    AddNothing(RowsOf(statements));
    for i := 0 to |statements|
      invariant RowsOf(statements) == AddRows(out, RowsOf(statements[i..]))
    {
      assert statements[i..][1..] == statements[i + 1..];
      var rows := StatementRows(statements[i]);
      if rows.Err? { return Err; }
      AddTwice(out, rows.value, RowsOf(statements[i + 1..]));
      out := Rows(out.photos + rows.value.photos, out.runs + rows.value.runs);
    }
    assert out.photos + [] == out.photos && out.runs + [] == out.runs;
    return Ok(out);
  }

  lemma AddNothing(r: Result<Rows>)
    ensures AddRows(Rows([], []), r) == r
  {
    if r.Ok? { assert [] + r.value.photos == r.value.photos && [] + r.value.runs == r.value.runs; }
  }

  lemma AddTwice(a: Rows, b: Rows, r: Result<Rows>)
    ensures AddRows(a, AddRows(b, r)) == AddRows(Rows(a.photos + b.photos, a.runs + b.runs), r)
  {
    if r.Ok? {
      assert a.photos + (b.photos + r.value.photos) == (a.photos + b.photos) + r.value.photos;
      assert a.runs + (b.runs + r.value.runs) == (a.runs + b.runs) + r.value.runs;
    }
  }
}
