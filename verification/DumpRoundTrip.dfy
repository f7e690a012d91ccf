/** Printing whole dumps, statement by statement, and what the reader makes of each. */
module DumpRoundTrip {
  import opened Common
  import opened DumpText
  import opened DumpLexing
  import opened DumpTuples
  import opened Decimal
  import opened DumpRows
  import opened DumpLayout

  // ----- Printing -----

  /** One statement of a dump: rows for one of the two tables, rows for another table, or no INSERT. */
  datatype Block =
    | Photos(layout: Layout, photos: seq<Photo>)
    | Runs(layout: Layout, runs: seq<Run>)
    | Foreign(layout: Layout, columns: seq<string>, table: Text, tuples: seq<seq<Field>>)
    | Skipped(text: Text)

  function OptionalField(t: Option<Text>): Field { if t.None? then FNull else FQuoted(t.value) }

  function PhotoFields(r: Photo): seq<Field> {
    [FBare(Digits(r.id)), FQuoted(r.url), FQuoted(r.sourcePage), FQuoted(r.title), FQuoted(r.artist),
     OptionalField(r.uploadDate), FQuoted(r.filePath), FQuoted(r.fileName), FQuoted(r.downloadedAt),
     FBare(PrintInt(r.fileSize)), FQuoted(r.status), FQuoted(r.errorMessage)]
  }

  function RunFields(r: Run): seq<Field> {
    [FBare(Digits(r.id)), FQuoted(r.startTime), OptionalField(r.endTime), FQuoted(r.status),
     FBare(PrintInt(r.pagesProcessed)), FBare(PrintInt(r.photosFound)), FBare(PrintInt(r.photosDownloaded)),
     FBare(PrintInt(r.photosSkipped)), FBare(PrintInt(r.photosFailed)), FQuoted(r.errorMessage)]
  }

  /** The columns a statement gives values for, in its order: those it lists, or all `n`. */
  function Columns(l: Layout, n: nat): (cols: seq<nat>)
    ensures cols != [] || n == 0
  {
    if l.headings == [] then seq(n, i => i)
    else seq(|l.headings|, i requires 0 <= i < |l.headings| => l.headings[i].column)
  }

  function PhotoColumns(l: Layout): seq<nat> { Columns(l, |PHOTO_COLUMNS|) }

  function RunColumns(l: Layout): seq<nat> { Columns(l, |RUN_COLUMNS|) }

  predicate AreIn(cols: seq<nat>, n: nat) { cols != [] && forall i :: 0 <= i < |cols| ==> cols[i] < n }

  function Picked(fs: seq<Field>, cols: seq<nat>): seq<Field>
    requires AreIn(cols, |fs|)
  {
    seq(|cols|, i requires 0 <= i < |cols| => fs[cols[i]])
  }

  function PhotoTuples(rows: seq<Photo>, cols: seq<nat>): seq<seq<Field>>
    requires AreIn(cols, |PHOTO_COLUMNS|)
  {
    if rows == [] then [] else [Picked(PhotoFields(rows[0]), cols)] + PhotoTuples(rows[1..], cols)
  }

  function RunTuples(rows: seq<Run>, cols: seq<nat>): seq<seq<Field>>
    requires AreIn(cols, |RUN_COLUMNS|)
  {
    if rows == [] then [] else [Picked(RunFields(rows[0]), cols)] + RunTuples(rows[1..], cols)
  }

  predicate AllPrintable(fs: seq<Field>) { fs != [] && forall k :: 0 <= k < |fs| ==> Printable(fs[k]) }

  predicate AllTuplesPrintable(ts: seq<seq<Field>>) { forall i :: 0 <= i < |ts| ==> AllPrintable(ts[i]) }

  /** A statement as a dump can hold it.  A dump has no INSERT statement without rows. */
  ghost predicate IsWritten(b: Block) {
    match b
    case Photos(l, rows) => IsLayout(l, PHOTO_COLUMNS) && rows != []
    case Runs(l, rows) => IsLayout(l, RUN_COLUMNS) && rows != []
    case Foreign(l, columns, table, tuples) =>
      && IsLayout(l, columns) && AreColumns(columns) && tuples != [] && AllTuplesPrintable(tuples)
      && IsTable(table) && table != PHOTOS_TABLE && table != RUNS_TABLE
    case Skipped(t) => IsAscii(t) && IsSolid(t) && Crossed(t, ENDS) && !IsInsert(t)
  }

  ghost predicate IsInsert(t: Text) { |INSERT_INTO| <= |t| && Spells(t[..|INSERT_INTO|], INSERT_INTO) }

  ghost predicate IsDump(d: seq<Block>) { forall k :: 0 <= k < |d| ==> IsWritten(d[k]) }

  ghost function BlockText(b: Block): Text
    requires IsWritten(b)
  {
    match b
    case Photos(l, rows) =>
      HeadingsAreIn(l, PHOTO_COLUMNS);
      InsertText(l, PHOTOS_TABLE, PrintTuples(PhotoTuples(rows, PhotoColumns(l)), l.between))
    case Runs(l, rows) =>
      HeadingsAreIn(l, RUN_COLUMNS);
      InsertText(l, RUNS_TABLE, PrintTuples(RunTuples(rows, RunColumns(l)), l.between))
    case Foreign(l, _, table, tuples) => InsertText(l, table, PrintTuples(tuples, l.between))
    case Skipped(t) => t
  }

  lemma HeadingsAreIn(l: Layout, columns: seq<string>)
    requires IsLayout(l, columns) && columns != []
    ensures AreIn(Columns(l, |columns|), |columns|)
  {
    hide Spells;
    forall i | 0 <= i < |l.headings| ensures l.headings[i].column < |columns| {
      assert IsHeading(l.headings[i], columns);
    }
  }

  /** What may follow the last statement: text without a semicolon of its own. */
  predicate IsTail(t: Text) { IsAscii(t) && Reach(t, ENDS, Out) == |t| }

  /** Blanks, or a line comment after blanks. */
  predicate EndsDump(t: Text) {
    IsGap(t) || exists k :: 0 <= k <= |t| && IsGap(t[..k]) && [45, 45] <= t[k..]
  }

  ghost function PrintDump(d: seq<Block>, tail: Text): Text
    requires IsDump(d)
  {
    if d == [] then tail else BlockText(d[0]) + ([SEMICOLON] + ([NEWLINE] + PrintDump(d[1..], tail)))
  }

  // ----- Every statement is crossed by both lexers -----

  lemma FieldIsCrossed(f: Field)
    requires Printable(f)
    ensures Crossed(PrintField(f), ENDS)
  {
    match f
    case FNull => PlainIsCrossed(NULL_TEXT);
    case FQuoted(t) => LiteralIsCrossed(t, ENDS);
    case FBare(t) => PlainIsCrossed(t);
  }

  lemma {:induction false} FieldsAreCrossed(fs: seq<Field>)
    requires AllPrintable(fs)
    ensures Crossed(PrintFields(fs), ENDS)
  {
    FieldIsCrossed(fs[0]);
    if |fs| > 1 {
      FieldsAreCrossed(fs[1..]);
      PlainIsCrossed([COMMA]);
      hide Crossed;
      CrossedAppend(PrintField(fs[0]), [COMMA], ENDS);
      CrossedAppend(PrintField(fs[0]) + [COMMA], PrintFields(fs[1..]), ENDS);
    }
  }

  lemma TupleIsCrossed(fs: seq<Field>)
    requires AllPrintable(fs)
    ensures Crossed(PrintTuple(fs), ENDS)
  {
    FieldsAreCrossed(fs);
    PlainIsCrossed([OPEN]);
    PlainIsCrossed([CLOSE]);
    hide Crossed, PrintFields;
    CrossedAppend([OPEN], PrintFields(fs), ENDS);
    CrossedAppend([OPEN] + PrintFields(fs), [CLOSE], ENDS);
  }

  lemma {:induction false} TuplesAreCrossed(ts: seq<seq<Field>>, between: Text)
    requires ts != [] && AllTuplesPrintable(ts) && IsPlain(between)
    ensures Crossed(PrintTuples(ts, between), ENDS)
    ensures var s := PrintTuples(ts, between); s != [] && s[0] == OPEN && s[|s| - 1] == CLOSE
  {
    TupleIsCrossed(ts[0]);
    if |ts| > 1 {
      TuplesAreCrossed(ts[1..], between);
      hide Crossed;
      PlainThen(between, PrintTuples(ts[1..], between));
      CrossedAppend(PrintTuple(ts[0]), between + PrintTuples(ts[1..], between), ENDS);
    }
  }

  // ----- Fields of rows are printable -----

  lemma DigitsAreToken(s: Text)
    requires s != [] && (AllDigits(s) || (s[0] == 45 && AllDigits(s[1..])))
    ensures IsToken(s)
  {
    assert forall k :: 0 <= k < |s| ==> s[k] == 45 || IsDigit(s[k]) by {
      if s[0] == 45 { assert forall k :: 1 <= k < |s| ==> s[k] == s[1..][k - 1]; }
    }
    TrimSolid(s);
    assert Upper(s)[0] == UpperByte(s[0]);
  }

  lemma PhotoFieldsPrintable(r: Photo)
    ensures AllPrintable(PhotoFields(r))
  {
    DigitsAreToken(Digits(r.id));
    PrintIntIsToken(r.fileSize);
  }

  lemma RunFieldsPrintable(r: Run)
    ensures AllPrintable(RunFields(r))
  {
    DigitsAreToken(Digits(r.id));
    PrintIntIsToken(r.pagesProcessed);
    PrintIntIsToken(r.photosFound);
    PrintIntIsToken(r.photosDownloaded);
    PrintIntIsToken(r.photosSkipped);
    PrintIntIsToken(r.photosFailed);
  }

  lemma PrintIntIsToken(n: int)
    ensures IsToken(PrintInt(n))
  {
    var s := PrintInt(n);
    if n < 0 { assert s[1..] == Digits(-n); }
    DigitsAreToken(s);
  }

  lemma {:induction false} PhotosPrintable(rows: seq<Photo>, cols: seq<nat>)
    requires AreIn(cols, |PHOTO_COLUMNS|)
    ensures AllTuplesPrintable(PhotoTuples(rows, cols)) && |PhotoTuples(rows, cols)| == |rows|
  {
    if rows != [] {
      PhotoFieldsPrintable(rows[0]);
      hide PhotoFields, Printable;
      PhotosPrintable(rows[1..], cols);
    }
  }

  lemma {:induction false} RunsPrintable(rows: seq<Run>, cols: seq<nat>)
    requires AreIn(cols, |RUN_COLUMNS|)
    ensures AllTuplesPrintable(RunTuples(rows, cols)) && |RunTuples(rows, cols)| == |rows|
  {
    if rows != [] {
      RunFieldsPrintable(rows[0]);
      hide RunFields, Printable;
      RunsPrintable(rows[1..], cols);
    }
  }

  lemma TablesAreTables()
    ensures IsTable(PHOTOS_TABLE) && IsTable(RUNS_TABLE) && PHOTOS_TABLE != RUNS_TABLE
  {
    assert |PHOTOS_TABLE| != |RUNS_TABLE|;
  }

  lemma PhotoNamesAreColumns()
    ensures forall c :: 0 <= c < |PHOTO_COLUMNS| ==> IsColumn(PHOTO_COLUMNS[c])
  {
  }

  lemma RunNamesAreColumns()
    ensures forall c :: 0 <= c < |RUN_COLUMNS| ==> IsColumn(RUN_COLUMNS[c])
  {
  }

  lemma ColumnsAreColumns()
    ensures AreColumns(PHOTO_COLUMNS) && AreColumns(RUN_COLUMNS)
  {
    hide IsColumn;
    ColumnsAreDistinct();
    PhotoNamesAreColumns();
    RunNamesAreColumns();
  }

  /** What the splitter and the statement parser need to know of an INSERT statement. */
  lemma TuplesAreWritten(l: Layout, columns: seq<string>, ts: seq<seq<Field>>)
    requires IsLayout(l, columns) && ts != [] && AllTuplesPrintable(ts)
    ensures Crossed(PrintTuples(ts, l.between), ENDS) && IsSolid(PrintTuples(ts, l.between))
    ensures Tuples(PrintTuples(ts, l.between)) == Ok(TupleMeanings(ts))
  {
    hide Crossed, Tuples, TupleMeanings, Printable, Spells, AreHeadings;
    LayoutIsPlain(l, columns);
    TuplesAreCrossed(ts, l.between);
    TuplesRoundTrip(ts, l.between);
  }

  lemma StatementIsWritten(l: Layout, columns: seq<string>, table: Text, ts: seq<seq<Field>>)
    requires IsLayout(l, columns) && AreColumns(columns) && IsTable(table) && ts != [] && AllTuplesPrintable(ts)
    ensures var s := InsertText(l, table, PrintTuples(ts, l.between));
            && Crossed(s, ENDS) && IsSolid(s)
            && ParseInsert(s) == Ok(Insert(table, NamesOf(l.headings), TupleMeanings(ts)))
  {
    hide Crossed, Tuples, TupleMeanings, PrintTuples, IsLayout, AreColumns, IsTable, InsertText, ParseInsert, NamesOf;
    TuplesAreWritten(l, columns, ts);
    InsertIsCrossed(l, columns, table, PrintTuples(ts, l.between));
    StatementIsSolid(l, columns, table, PrintTuples(ts, l.between));
    InsertRead(l, columns, table, PrintTuples(ts, l.between));
  }

  lemma BlockIsCrossed(b: Block)
    requires IsWritten(b)
    ensures Crossed(BlockText(b), ENDS) && IsSolid(BlockText(b))
  {
    hide Crossed, PhotoTuples, RunTuples, PrintTuples, IsLayout, AreColumns, IsTable, InsertText, IsSolid;
    hide ParseInsert, AllTuplesPrintable, Columns, AreIn;
    TablesAreTables();
    ColumnsAreColumns();
    match b {
      case Photos(l, rows) =>
        HeadingsAreIn(l, PHOTO_COLUMNS);
        PhotosPrintable(rows, PhotoColumns(l));
        StatementIsWritten(l, PHOTO_COLUMNS, PHOTOS_TABLE, PhotoTuples(rows, PhotoColumns(l)));
      case Runs(l, rows) =>
        HeadingsAreIn(l, RUN_COLUMNS);
        RunsPrintable(rows, RunColumns(l));
        StatementIsWritten(l, RUN_COLUMNS, RUNS_TABLE, RunTuples(rows, RunColumns(l)));
      case Foreign(l, columns, table, tuples) =>
        StatementIsWritten(l, columns, table, tuples);
      case Skipped(t) =>
    }
  }

  // ----- The splitter gives the statements back -----

  ghost function Texts(d: seq<Block>): seq<Text>
    requires IsDump(d)
  {
    if d == [] then [] else [BlockText(d[0])] + Texts(d[1..])
  }

  lemma LeadIsTrimmed(lead: Text, s: Text)
    requires (lead == [] || lead == [NEWLINE]) && s != [] && !IsBlank(s[0])
    ensures StatementText(lead + s + [SEMICOLON]) == s
  {
    var t := s + [SEMICOLON];
    TrimSolid(t);
    Assoc(lead, s, [SEMICOLON]);
    if lead == [] { assert lead + t == t; }
    hide TrimLeft, TrimRight;
    assert t[..|t| - 1] == s;
  }

  /** One statement, after the line break that ended the previous one. */
  lemma SplitOne(lead: Text, s: Text, more: Text)
    requires lead == [] || lead == [NEWLINE]
    requires Crossed(s, ENDS) && s != [] && !IsBlank(s[0])
    ensures StatementsFrom([], lead + (s + ([SEMICOLON] + more)), Out) == Prepend([s], StatementsFrom([], more, Out))
  {
    hide StatementsFrom, StatementText, Trim;
    var p := lead + s;
    PlainIsCrossed(lead);
    CrossedAppend(lead, s, ENDS);
    Assoc(lead, s, [SEMICOLON] + more);
    StatementsAdvance([], p, [SEMICOLON] + more, Out);
    assert [] + p == p;
    SemicolonCuts(p, more);
    LeadIsTrimmed(lead, s);
  }

  /** The blanks in front of a text. */
  lemma {:induction false} LeadingBlanks(t: Text) returns (k: nat)
    ensures k <= |t| && IsGap(t[..k]) && TrimLeft(t) == t[k..] && (k < |t| ==> !IsBlank(t[k]))
  {
    if t != [] && IsBlank(t[0]) {
      k := LeadingBlanks(t[1..]);
      k := k + 1;
      assert t[..k] == [t[0]] + t[1..][..k - 1];
      assert t[k..] == t[1..][k - 1..];
    } else {
      k := 0;
    }
  }

  lemma {:induction false} TrimRightKeeps(t: Text)
    requires t != [] && !IsBlank(t[0])
    ensures TrimRight(t) != [] && ([45, 45] <= TrimRight(t) <==> [45, 45] <= t)
  {
    if IsBlank(t[|t| - 1]) { TrimRightKeeps(t[..|t| - 1]); }
  }

  lemma TrimLeftOf(t: Text, k: nat)
    requires k < |t| && IsGap(t[..k]) && !IsBlank(t[k])
    ensures TrimLeft(t) == t[k..]
  {
    assert t == t[..k] + t[k..];
    TrimLeftGap(t[..k], t[k..]);
  }

  lemma GapIsBlank(t: Text, k: nat)
    requires IsGap(t) && k < |t|
    ensures IsBlank(t[k])
  {
  }

  lemma TrimNothing()
    ensures TrimRight([]) == []
  {
  }

  /** The text after the last semicolon is accepted if and only if it is blank or a line comment. */
  lemma TailIsAccepted(t: Text)
    ensures MayTrail(t) <==> EndsDump(t)
  {
    hide TrimLeft, TrimRight, IsBlank, IsGap;
    var k := LeadingBlanks(t);
    if k == |t| {
      TrimNothing();
      assert t[..k] == t;
    } else {
      TrimRightKeeps(t[k..]);
      if IsGap(t) { GapIsBlank(t, k); }
      if n :| 0 <= n <= |t| && IsGap(t[..n]) && [45, 45] <= t[n..] {
        DashIsSolid(t, n);
        TrimLeftOf(t, n);
      }
    }
  }

  lemma DashIsSolid(t: Text, n: nat)
    requires n <= |t| && [45, 45] <= t[n..]
    ensures n < |t| && !IsBlank(t[n])
  {
    assert t[n] == t[n..][0];
  }

  lemma LastTail(lead: Text, tail: Text)
    requires (lead == [] || lead == [NEWLINE]) && IsTail(tail)
    ensures StatementsFrom([], lead + tail, Out) == if EndsDump(tail) then Ok([]) else Err
  {
    hide EndsDump;
    TailIsAccepted(tail);
    PlainIsCrossed(lead);
    ReachAppend(lead, tail, ENDS, Out);
    assert [] + (lead + tail) == lead + tail;
    if lead == [] { assert lead + tail == tail; } else { assert (lead + tail)[1..] == tail; }
  }

  lemma {:induction false} SplitDump(lead: Text, d: seq<Block>, tail: Text)
    requires lead == [] || lead == [NEWLINE]
    requires IsDump(d) && IsTail(tail)
    ensures StatementsFrom([], lead + PrintDump(d, tail), Out) == if EndsDump(tail) then Ok(Texts(d)) else Err
    decreases |d|
  {
    hide IsWritten, IsTail, EndsDump;
    if d == [] {
      LastTail(lead, tail);
    } else {
      SplitDump([NEWLINE], d[1..], tail);
      BlockIsCrossed(d[0]);
      hide StatementsFrom, BlockText;
      SplitOne(lead, BlockText(d[0]), [NEWLINE] + PrintDump(d[1..], tail));
    }
  }

  // ----- The tuples give the rows back -----

  /** A row as it comes back: an optional text that is empty comes back as absent. */
  function Filled(t: Option<Text>): Option<Text> { if t == Some([]) then None else t }

  /** A text column of a row: empty if the statement has no such column. */
  function TextAt(cols: seq<nat>, c: nat, t: Text): Text { if c in cols then t else [] }

  function OptionalAt(cols: seq<nat>, c: nat, t: Option<Text>): Option<Text> { if c in cols then Filled(t) else None }

  function CountAt(cols: seq<nat>, c: nat, n: Int64): Int64 { if c in cols then n else 0 }

  /** A photo as it comes back from a statement with these columns. */
  function PhotoBack(r: Photo, cols: seq<nat>): Photo {
    Photo(r.id, TextAt(cols, 1, r.url), TextAt(cols, 2, r.sourcePage), TextAt(cols, 3, r.title),
          TextAt(cols, 4, r.artist), OptionalAt(cols, 5, r.uploadDate), TextAt(cols, 6, r.filePath),
          TextAt(cols, 7, r.fileName), TextAt(cols, 8, r.downloadedAt), CountAt(cols, 9, r.fileSize),
          TextAt(cols, 10, r.status), TextAt(cols, 11, r.errorMessage))
  }

  function RunBack(r: Run, cols: seq<nat>): Run {
    Run(r.id, TextAt(cols, 1, r.startTime), OptionalAt(cols, 2, r.endTime), TextAt(cols, 3, r.status),
        CountAt(cols, 4, r.pagesProcessed), CountAt(cols, 5, r.photosFound), CountAt(cols, 6, r.photosDownloaded),
        CountAt(cols, 7, r.photosSkipped), CountAt(cols, 8, r.photosFailed), TextAt(cols, 9, r.errorMessage))
  }

  function PhotosBack(rows: seq<Photo>, cols: seq<nat>): seq<Photo> {
    if rows == [] then [] else [PhotoBack(rows[0], cols)] + PhotosBack(rows[1..], cols)
  }

  function RunsBack(rows: seq<Run>, cols: seq<nat>): seq<Run> {
    if rows == [] then [] else [RunBack(rows[0], cols)] + RunsBack(rows[1..], cols)
  }

  lemma {:induction false} ByColumnFinds(keys: seq<string>, values: seq<SqlValue>, i: nat)
    requires |keys| == |values| && i < |keys| && forall j :: i < j < |keys| ==> keys[j] != keys[i]
    ensures keys[i] in ByColumn(keys, values) && ByColumn(keys, values)[keys[i]] == values[i]
  {
    if i < |keys| - 1 { ByColumnFinds(keys[..|keys| - 1], values[..|keys| - 1], i); }
  }

  lemma ColumnsAreDistinct()
    ensures Distinct(PHOTO_COLUMNS) && Distinct(RUN_COLUMNS)
  {
  }

  lemma {:induction false} MeaningsAt(fs: seq<Field>)
    ensures |Meanings(fs)| == |fs| && forall i :: 0 <= i < |fs| ==> Meanings(fs)[i] == Meaning(fs[i])
  {
    if fs != [] { MeaningsAt(fs[1..]); }
  }

  /** The keys of a statement name its columns, in any order and with repetitions. */
  predicate AreKeys(keys: seq<string>, names: seq<string>, cols: seq<nat>) {
    |keys| == |cols| && AreIn(cols, |names|) && forall i :: 0 <= i < |cols| ==> keys[i] == names[cols[i]]
  }

  lemma {:induction false} ByColumnPicks(
      keys: seq<string>, values: seq<SqlValue>, names: seq<string>, cols: seq<nat>, all: seq<SqlValue>, c: nat)
    requires |keys| == |values| == |cols| && |all| == |names| && Distinct(names) && c < |names|
    requires forall i :: 0 <= i < |cols| ==>
               cols[i] < |names| && keys[i] == names[cols[i]] && values[i] == all[cols[i]]
    ensures Get(ByColumn(keys, values), names[c]) == if c in cols then all[c] else Val([])
  {
    if keys != [] {
      var n := |keys| - 1;
      ByColumnPicks(keys[..n], values[..n], names, cols[..n], all, c);
      assert cols == cols[..n] + [cols[n]];
      assert names[cols[n]] == names[c] <==> cols[n] == c;
    }
  }

  /** The value of a column of a row that was printed with these columns. */
  function Shown(cols: seq<nat>, c: nat, f: Field): SqlValue { if c in cols then Meaning(f) else Val([]) }

  lemma RowShows(keys: seq<string>, names: seq<string>, cols: seq<nat>, fs: seq<Field>)
    requires |fs| == |names| && AreKeys(keys, names, cols) && Distinct(names)
    ensures |keys| == |Meanings(Picked(fs, cols))|
    ensures forall c :: 0 <= c < |names| ==>
              Get(ByColumn(keys, Meanings(Picked(fs, cols))), names[c]) == Shown(cols, c, fs[c])
  {
    var values := Meanings(Picked(fs, cols));
    MeaningsAt(Picked(fs, cols));
    MeaningsAt(fs);
    hide Meanings, Meaning, Get, ByColumn;
    forall c | 0 <= c < |names| ensures Get(ByColumn(keys, values), names[c]) == Shown(cols, c, fs[c]) {
      ByColumnPicks(keys, values, names, cols, Meanings(fs), c);
    }
  }

  /** What a column of a row reads as: NULL, and a column the statement does not give, as the empty text. */
  function TextShown(cols: seq<nat>, c: nat, f: Field): Text {
    if c !in cols || f.FNull? then [] else if f.FQuoted? then f.text else f.token
  }

  /** An empty optional text is absent, an empty number zero, and only an id cannot be empty. */
  function OptionalShown(cols: seq<nat>, c: nat, f: Field): Option<Text> {
    if TextShown(cols, c, f) == [] then None else Some(TextShown(cols, c, f))
  }

  function CountShown(cols: seq<nat>, c: nat, f: Field): Result<Int64> {
    if TextShown(cols, c, f) == [] then Ok(0) else ParseInt(TextShown(cols, c, f))
  }

  function IdShown(cols: seq<nat>, f: Field): Result<Uint64> { ParseUint(TextShown(cols, 0, f)) }

  lemma ShownReads(cols: seq<nat>, c: nat, f: Field)
    ensures var v := Shown(cols, c, f);
            && TextOf(v) == TextShown(cols, c, f) && OptionalText(v) == OptionalShown(cols, c, f)
            && IntOf(v) == CountShown(cols, c, f) && (c == 0 ==> UintOf(v) == IdShown(cols, f))
  {
  }

  lemma PhotoRowShows(row: map<string, SqlValue>, cols: seq<nat>, fs: seq<Field>)
    requires |fs| == |PHOTO_COLUMNS|
    requires forall c :: 0 <= c < |PHOTO_COLUMNS| ==> Get(row, PHOTO_COLUMNS[c]) == Shown(cols, c, fs[c])
    ensures Get(row, "id") == Shown(cols, 0, fs[0]) && Get(row, "url") == Shown(cols, 1, fs[1])
    ensures Get(row, "source_page") == Shown(cols, 2, fs[2]) && Get(row, "title") == Shown(cols, 3, fs[3])
    ensures Get(row, "artist") == Shown(cols, 4, fs[4]) && Get(row, "upload_date") == Shown(cols, 5, fs[5])
    ensures Get(row, "file_path") == Shown(cols, 6, fs[6]) && Get(row, "file_name") == Shown(cols, 7, fs[7])
    ensures Get(row, "downloaded_at") == Shown(cols, 8, fs[8]) && Get(row, "file_size") == Shown(cols, 9, fs[9])
    ensures Get(row, "status") == Shown(cols, 10, fs[10]) && Get(row, "error_message") == Shown(cols, 11, fs[11])
  {
    hide Get, Shown;
    var c := PHOTO_COLUMNS;
    assert c[0] == "id" && c[1] == "url" && c[2] == "source_page" && c[3] == "title";
    assert c[4] == "artist" && c[5] == "upload_date" && c[6] == "file_path" && c[7] == "file_name";
    assert c[8] == "downloaded_at" && c[9] == "file_size" && c[10] == "status" && c[11] == "error_message";
  }

  /** A tuple of any values, in any order of the columns, reads as the photo these values give. */
  lemma PhotoOfFields(fs: seq<Field>, keys: seq<string>, cols: seq<nat>)
    requires AreKeys(keys, PHOTO_COLUMNS, cols) && |fs| == |PHOTO_COLUMNS|
    ensures var id, size := IdShown(cols, fs[0]), CountShown(cols, 9, fs[9]);
            MapPhoto(keys, Meanings(Picked(fs, cols))) ==
            if id.Err? || size.Err? then Err
            else Ok(Photo(
                      id.value, TextShown(cols, 1, fs[1]), TextShown(cols, 2, fs[2]), TextShown(cols, 3, fs[3]),
                      TextShown(cols, 4, fs[4]), OptionalShown(cols, 5, fs[5]), TextShown(cols, 6, fs[6]),
                      TextShown(cols, 7, fs[7]), TextShown(cols, 8, fs[8]), size.value, TextShown(cols, 10, fs[10]),
                      TextShown(cols, 11, fs[11])))
  {
    hide ByColumn, Meanings, UintOf, IntOf, Picked, TextOf, OptionalText, TextShown, OptionalShown, CountShown, IdShown,
         Get, Shown;
    ColumnsAreDistinct();
    RowShows(keys, PHOTO_COLUMNS, cols, fs);
    PhotoRowShows(ByColumn(keys, Meanings(Picked(fs, cols))), cols, fs);
    ShownReads(cols, 0, fs[0]);
    ShownReads(cols, 1, fs[1]);
    ShownReads(cols, 2, fs[2]);
    ShownReads(cols, 3, fs[3]);
    ShownReads(cols, 4, fs[4]);
    ShownReads(cols, 5, fs[5]);
    ShownReads(cols, 6, fs[6]);
    ShownReads(cols, 7, fs[7]);
    ShownReads(cols, 8, fs[8]);
    ShownReads(cols, 9, fs[9]);
    ShownReads(cols, 10, fs[10]);
    ShownReads(cols, 11, fs[11]);
  }

  lemma RunRowShows(row: map<string, SqlValue>, cols: seq<nat>, fs: seq<Field>)
    requires |fs| == |RUN_COLUMNS|
    requires forall c :: 0 <= c < |RUN_COLUMNS| ==> Get(row, RUN_COLUMNS[c]) == Shown(cols, c, fs[c])
    ensures Get(row, "id") == Shown(cols, 0, fs[0]) && Get(row, "start_time") == Shown(cols, 1, fs[1])
    ensures Get(row, "end_time") == Shown(cols, 2, fs[2]) && Get(row, "status") == Shown(cols, 3, fs[3])
    ensures Get(row, "pages_processed") == Shown(cols, 4, fs[4]) && Get(row, "photos_found") == Shown(cols, 5, fs[5])
    ensures Get(row, "photos_downloaded") == Shown(cols, 6, fs[6]) &&
            Get(row, "photos_skipped") == Shown(cols, 7, fs[7])
    ensures Get(row, "photos_failed") == Shown(cols, 8, fs[8]) && Get(row, "error_message") == Shown(cols, 9, fs[9])
  {
    hide Get, Shown;
    var c := RUN_COLUMNS;
    assert c[0] == "id" && c[1] == "start_time" && c[2] == "end_time" && c[3] == "status";
    assert c[4] == "pages_processed" && c[5] == "photos_found" && c[6] == "photos_downloaded" &&
           c[7] == "photos_skipped";
    assert c[8] == "photos_failed" && c[9] == "error_message";
  }

  /** The same for a run. */
  lemma RunOfFields(fs: seq<Field>, keys: seq<string>, cols: seq<nat>)
    requires AreKeys(keys, RUN_COLUMNS, cols) && |fs| == |RUN_COLUMNS|
    ensures var id, pages, found := IdShown(cols, fs[0]), CountShown(cols, 4, fs[4]), CountShown(cols, 5, fs[5]);
            var downloaded, skipped := CountShown(cols, 6, fs[6]), CountShown(cols, 7, fs[7]);
            var failed := CountShown(cols, 8, fs[8]);
            MapRun(keys, Meanings(Picked(fs, cols))) ==
            if id.Err? || pages.Err? || found.Err? || downloaded.Err? || skipped.Err? || failed.Err? then Err
            else Ok(Run(
                      id.value, TextShown(cols, 1, fs[1]), OptionalShown(cols, 2, fs[2]), TextShown(cols, 3, fs[3]),
                      pages.value, found.value, downloaded.value, skipped.value, failed.value,
                      TextShown(cols, 9, fs[9])))
  {
    hide ByColumn, Meanings, UintOf, IntOf, Picked, TextOf, OptionalText, TextShown, OptionalShown, CountShown, IdShown,
         Get, Shown;
    ColumnsAreDistinct();
    RowShows(keys, RUN_COLUMNS, cols, fs);
    RunRowShows(ByColumn(keys, Meanings(Picked(fs, cols))), cols, fs);
    ShownReads(cols, 0, fs[0]);
    ShownReads(cols, 1, fs[1]);
    ShownReads(cols, 2, fs[2]);
    ShownReads(cols, 3, fs[3]);
    ShownReads(cols, 4, fs[4]);
    ShownReads(cols, 5, fs[5]);
    ShownReads(cols, 6, fs[6]);
    ShownReads(cols, 7, fs[7]);
    ShownReads(cols, 8, fs[8]);
    ShownReads(cols, 9, fs[9]);
  }

  lemma IdReads(cols: seq<nat>, n: Uint64)
    ensures IdShown(cols, FBare(Digits(n))) == if 0 in cols then Ok(n) else Err
  {
    ParseUintDigits(n);
  }

  lemma CountReads(cols: seq<nat>, c: nat, n: Int64)
    ensures CountShown(cols, c, FBare(PrintInt(n))) == Ok(CountAt(cols, c, n))
  {
    ParseIntPrintInt(n);
  }

  lemma TextReads(cols: seq<nat>, c: nat, t: Text)
    ensures TextShown(cols, c, FQuoted(t)) == TextAt(cols, c, t)
  {
  }

  lemma OptionalReads(cols: seq<nat>, c: nat, t: Option<Text>)
    ensures OptionalShown(cols, c, OptionalField(t)) == OptionalAt(cols, c, t)
  {
  }

  /** A photo's columns, from any of them that include its id, read back; a missing text or number reads as
      empty or zero.  Without an id the row is refused. */
  lemma PhotoRead(r: Photo, keys: seq<string>, cols: seq<nat>)
    requires AreKeys(keys, PHOTO_COLUMNS, cols)
    ensures MapPhoto(keys, Meanings(Picked(PhotoFields(r), cols))) == if 0 in cols then Ok(PhotoBack(r, cols)) else Err
  {
    hide MapPhoto, Meanings, Picked, AreKeys, TextShown, OptionalShown, CountShown, IdShown, TextAt, OptionalAt,
         CountAt, OptionalField;
    PhotoOfFields(PhotoFields(r), keys, cols);
    IdReads(cols, r.id);
    CountReads(cols, 9, r.fileSize);
    OptionalReads(cols, 5, r.uploadDate);
    forall c, t ensures TextShown(cols, c, FQuoted(t)) == TextAt(cols, c, t) { TextReads(cols, c, t); }
  }

  lemma RunRead(r: Run, keys: seq<string>, cols: seq<nat>)
    requires AreKeys(keys, RUN_COLUMNS, cols)
    ensures MapRun(keys, Meanings(Picked(RunFields(r), cols))) == if 0 in cols then Ok(RunBack(r, cols)) else Err
  {
    hide MapRun, Meanings, Picked, AreKeys, TextShown, OptionalShown, CountShown, IdShown, TextAt, OptionalAt,
         CountAt, OptionalField;
    RunOfFields(RunFields(r), keys, cols);
    IdReads(cols, r.id);
    CountReads(cols, 4, r.pagesProcessed);
    CountReads(cols, 5, r.photosFound);
    CountReads(cols, 6, r.photosDownloaded);
    CountReads(cols, 7, r.photosSkipped);
    CountReads(cols, 8, r.photosFailed);
    OptionalReads(cols, 2, r.endTime);
    forall c, t ensures TextShown(cols, c, FQuoted(t)) == TextAt(cols, c, t) { TextReads(cols, c, t); }
  }

  lemma {:induction false} PhotosRead(rows: seq<Photo>, keys: seq<string>, cols: seq<nat>)
    requires AreKeys(keys, PHOTO_COLUMNS, cols) && rows != []
    ensures MapPhotos(keys, TupleMeanings(PhotoTuples(rows, cols))) ==
            if 0 in cols then Ok(PhotosBack(rows, cols)) else Err
    decreases |rows|
  {
    hide MapPhoto, Meanings, PhotoFields, PhotoBack, Picked;
    PhotoRead(rows[0], keys, cols);
    var ts := PhotoTuples(rows, cols);
    assert ts[1..] == PhotoTuples(rows[1..], cols);
    assert TupleMeanings(ts)[1..] == TupleMeanings(ts[1..]);
    if |rows| > 1 { PhotosRead(rows[1..], keys, cols); }
  }

  lemma {:induction false} RunsRead(rows: seq<Run>, keys: seq<string>, cols: seq<nat>)
    requires AreKeys(keys, RUN_COLUMNS, cols) && rows != []
    ensures MapRuns(keys, TupleMeanings(RunTuples(rows, cols))) == if 0 in cols then Ok(RunsBack(rows, cols)) else Err
    decreases |rows|
  {
    hide MapRun, Meanings, RunFields, RunBack, Picked;
    RunRead(rows[0], keys, cols);
    var ts := RunTuples(rows, cols);
    assert ts[1..] == RunTuples(rows[1..], cols);
    assert TupleMeanings(ts)[1..] == TupleMeanings(ts[1..]);
    if |rows| > 1 { RunsRead(rows[1..], keys, cols); }
  }

  // ----- The statements give the rows back -----

  /** The keys the row mapping works with. */
  function KeysFor(l: Layout, names: seq<string>): seq<string> {
    if NamesOf(l.headings) == [] then names else Keys(NamesOf(l.headings))
  }

  lemma LayoutKeys(l: Layout, columns: seq<string>)
    requires IsLayout(l, columns) && AreColumns(columns) && columns != []
    ensures AreKeys(KeysFor(l, columns), columns, Columns(l, |columns|))
  {
    hide Spells, AreColumns, AreHeadings, ColumnKey;
    HeadingsAreIn(l, columns);
    KeysRead(l.headings, columns);
    HeadingsRead(l.headings, columns);
  }

  /** A statement the reader accepts: no INSERT, or rows with their ids for one of the two tables. */
  predicate IsReadable(b: Block) {
    match b
    case Photos(l, _) => 0 in PhotoColumns(l)
    case Runs(l, _) => 0 in RunColumns(l)
    case Foreign(_, _, _, _) => false
    case Skipped(_) => true
  }

  predicate AreReadable(d: seq<Block>) { forall k :: 0 <= k < |d| ==> IsReadable(d[k]) }

  lemma ReadableSplits(d: seq<Block>)
    requires d != []
    ensures AreReadable(d) <==> IsReadable(d[0]) && AreReadable(d[1..])
  {
    hide IsReadable;
    assert d == [d[0]] + d[1..];
    assert forall k :: 1 <= k < |d| ==> d[k] == d[1..][k - 1];
  }

  /** The rows of a statement as they come back. */
  function RowsBack(b: Block): Rows {
    match b
    case Photos(l, rows) => Rows(PhotosBack(rows, PhotoColumns(l)), [])
    case Runs(l, rows) => Rows([], RunsBack(rows, RunColumns(l)))
    case Foreign(_, _, _, _) => Rows([], [])
    case Skipped(_) => Rows([], [])
  }

  lemma InsertRows(l: Layout, columns: seq<string>, table: Text, ts: seq<seq<Field>>)
    requires IsLayout(l, columns) && AreColumns(columns) && IsTable(table) && ts != [] && AllTuplesPrintable(ts)
    ensures var r := StatementRows(InsertText(l, table, PrintTuples(ts, l.between)));
            && (table == PHOTOS_TABLE ==>
                  r == match MapPhotos(KeysFor(l, PHOTO_COLUMNS), TupleMeanings(ts))
                       case Ok(photos) => Ok(Rows(photos, []))
                       case Err => Err)
            && (table == RUNS_TABLE ==>
                  r == match MapRuns(KeysFor(l, RUN_COLUMNS), TupleMeanings(ts))
                       case Ok(runs) => Ok(Rows([], runs))
                       case Err => Err)
            && (table != PHOTOS_TABLE && table != RUNS_TABLE ==> r == Err)
  {
    hide Crossed, TupleMeanings, PrintTuples, IsLayout, AreColumns, IsTable, InsertText, ParseInsert, NamesOf;
    hide MapPhotos, MapRuns, Keys;
    TablesAreTables();
    StatementIsWritten(l, columns, table, ts);
  }

  lemma {:induction false} MeaningsMatch(ts: seq<seq<Field>>)
    ensures |TupleMeanings(ts)| == |ts|
    ensures forall i :: 0 <= i < |ts| ==> TupleMeanings(ts)[i] == Meanings(ts[i]) && |Meanings(ts[i])| == |ts[i]|
  {
    if ts != [] {
      MeaningsAt(ts[0]);
      MeaningsMatch(ts[1..]);
      hide Meanings;
    }
  }

  lemma {:induction false} MisfitStops(keys: seq<string>, tuples: seq<seq<SqlValue>>, i: nat)
    requires i < |tuples| && |tuples[i]| != |keys|
    ensures MapPhotos(keys, tuples) == Err && MapRuns(keys, tuples) == Err
  {
    hide ByColumn;
    if i > 0 { MisfitStops(keys, tuples[1..], i - 1); }
  }

  /** A statement with a tuple that has more or fewer values than there are columns is refused. */
  lemma MisfitIsRefused(l: Layout, columns: seq<string>, table: Text, ts: seq<seq<Field>>, i: nat)
    requires (table == PHOTOS_TABLE && columns == PHOTO_COLUMNS) || (table == RUNS_TABLE && columns == RUN_COLUMNS)
    requires IsLayout(l, columns) && AllTuplesPrintable(ts) && i < |ts|
    requires |ts[i]| != if l.headings == [] then |columns| else |l.headings|
    ensures StatementRows(InsertText(l, table, PrintTuples(ts, l.between))) == Err
  {
    hide StatementRows, TupleMeanings, PrintTuples, IsLayout, AreColumns, IsTable, InsertText, NamesOf, AreKeys,
         Columns;
    hide MapPhotos, MapRuns, AllTuplesPrintable, Meanings;
    TablesAreTables();
    ColumnsAreColumns();
    LayoutKeys(l, columns);
    KeyCount(l, columns);
    MeaningsMatch(ts);
    InsertRows(l, columns, table, ts);
    MisfitStops(KeysFor(l, columns), TupleMeanings(ts), i);
  }

  lemma KeyCount(l: Layout, columns: seq<string>)
    requires AreKeys(KeysFor(l, columns), columns, Columns(l, |columns|))
    ensures |KeysFor(l, columns)| == if l.headings == [] then |columns| else |l.headings|
  {
  }

  lemma SkippedRows(t: Text)
    requires IsSolid(t) && !IsInsert(t)
    ensures StatementRows(t) == Ok(Rows([], []))
  {
    hide Trim;
    TrimSolid(t);
    if INSERT_INTO <= Upper(t) {
      UpperKeepsLength(t);
      UpperSpells(t, |INSERT_INTO|);
    }
  }

  /** One statement gives the rows it was printed from, or is refused. */
  lemma BlockRows(b: Block)
    requires IsWritten(b)
    ensures StatementRows(BlockText(b)) == if IsReadable(b) then Ok(RowsBack(b)) else Err
  {
    hide StatementRows, TupleMeanings, PrintTuples, IsLayout, AreColumns, IsTable, InsertText, NamesOf, Crossed;
    hide MapPhotos, MapRuns, PhotoTuples, RunTuples, PhotosBack, RunsBack, IsSolid, IsInsert, Columns, AreIn;
    TablesAreTables();
    ColumnsAreColumns();
    match b {
      case Photos(l, rows) =>
        var cols := PhotoColumns(l);
        HeadingsAreIn(l, PHOTO_COLUMNS);
        PhotosPrintable(rows, cols);
        LayoutKeys(l, PHOTO_COLUMNS);
        InsertRows(l, PHOTO_COLUMNS, PHOTOS_TABLE, PhotoTuples(rows, cols));
        PhotosRead(rows, KeysFor(l, PHOTO_COLUMNS), cols);
      case Runs(l, rows) =>
        var cols := RunColumns(l);
        HeadingsAreIn(l, RUN_COLUMNS);
        RunsPrintable(rows, cols);
        LayoutKeys(l, RUN_COLUMNS);
        InsertRows(l, RUN_COLUMNS, RUNS_TABLE, RunTuples(rows, cols));
        RunsRead(rows, KeysFor(l, RUN_COLUMNS), cols);
      case Foreign(l, columns, table, tuples) =>
        InsertRows(l, columns, table, tuples);
      case Skipped(t) =>
        SkippedRows(t);
    }
  }

  /** The rows of a dump as they come back, in its order. */
  function AllBack(d: seq<Block>): Rows {
    if d == [] then Rows([], [])
    else var tail := AllBack(d[1..]);
         Rows(RowsBack(d[0]).photos + tail.photos, RowsBack(d[0]).runs + tail.runs)
  }

  lemma {:induction false} StatementsRead(d: seq<Block>)
    requires IsDump(d)
    ensures RowsOf(Texts(d)) == if AreReadable(d) then Ok(AllBack(d)) else Err
  {
    hide IsWritten, BlockText, StatementRows, RowsBack, IsReadable;
    if d != [] {
      StatementsRead(d[1..]);
      BlockRows(d[0]);
      assert Texts(d)[1..] == Texts(d[1..]) && Texts(d)[0] == BlockText(d[0]);
      ReadableSplits(d);
    }
  }
}
