/** The reader inverts the dump: what comes back from a printed dump, for every dump in every layout, and
    exactly when that is what was printed. */
module DumpTheorem {
  import opened Common
  import opened DumpText
  import opened DumpLexing
  import opened DumpTuples
  import opened Decimal
  import opened DumpRows
  import opened DumpLayout
  import opened DumpRoundTrip

  // ----- Rows whose texts went through rune-wise copying -----

  function CopyOptional(t: Option<Text>): Option<Text> { if t.None? then None else Some(Sanitize(t.value)) }

  function CopyPhoto(r: Photo): Photo {
    Photo(r.id, Sanitize(r.url), Sanitize(r.sourcePage), Sanitize(r.title), Sanitize(r.artist),
          CopyOptional(r.uploadDate), Sanitize(r.filePath), Sanitize(r.fileName), Sanitize(r.downloadedAt),
          r.fileSize, Sanitize(r.status), Sanitize(r.errorMessage))
  }

  function CopyRun(r: Run): Run {
    r.(startTime := Sanitize(r.startTime), endTime := CopyOptional(r.endTime), status := Sanitize(r.status),
       errorMessage := Sanitize(r.errorMessage))
  }

  function CopyPhotos(rows: seq<Photo>): seq<Photo> {
    if rows == [] then [] else [CopyPhoto(rows[0])] + CopyPhotos(rows[1..])
  }

  function CopyRuns(rows: seq<Run>): seq<Run> {
    if rows == [] then [] else [CopyRun(rows[0])] + CopyRuns(rows[1..])
  }

  // ----- Copying a printed dump prints the copied rows -----

  lemma {:induction false} SanitizePrefix(p: Text, r: Text)
    requires IsAscii(p)
    ensures Sanitize(p + r) == p + Sanitize(r)
  {
    if p == [] {
      assert p + r == r && [] + Sanitize(r) == Sanitize(r);
    } else {
      var q := p[1..];
      SanitizePrefix(q, r);
      hide Sanitize;
      assert p == [p[0]] + q;
      Assoc([p[0]], q, r);
      SanitizeStep([p[0]], q + r);
      Assoc([p[0]], q, Sanitize(r));
    }
  }

  function CopyField(f: Field): Field { if f.FQuoted? then FQuoted(Sanitize(f.text)) else f }

  function CopyFields(fs: seq<Field>): seq<Field> {
    if fs == [] then [] else [CopyField(fs[0])] + CopyFields(fs[1..])
  }

  function CopyTuples(ts: seq<seq<Field>>): seq<seq<Field>> {
    if ts == [] then [] else [CopyFields(ts[0])] + CopyTuples(ts[1..])
  }

  lemma SanitizeField(f: Field)
    requires Printable(f)
    ensures Sanitize(PrintField(f)) == PrintField(CopyField(f))
  {
    match f
    case FNull => SanitizeAscii(NULL_TEXT);
    case FBare(t) => SanitizeAscii(t);
    case FQuoted(t) =>
      hide Sanitize, Escape;
      var q := [QUOTE];
      SanitizeAppend(q + Escape(t), q);
      SanitizePrefix(q, Escape(t));
      SanitizeEscape(t);
      SanitizeAscii(q);
  }

  lemma SanitizeFields(fs: seq<Field>)
    requires AllPrintable(fs)
    ensures Sanitize(PrintFields(fs)) == PrintFields(CopyFields(fs)) && |CopyFields(fs)| == |fs|
  {
    SanitizeField(fs[0]);
    if |fs| == 1 {
      assert CopyFields(fs) == [CopyField(fs[0])];
    } else {
      SanitizeFields(fs[1..]);
      var p, c, r := PrintField(fs[0]), [COMMA], PrintFields(fs[1..]);
      assert CopyFields(fs)[1..] == CopyFields(fs[1..]);
      hide Sanitize, PrintField;
      Assoc(p, c, r);
      SanitizeAppend(p, c + r);
      SanitizePrefix(c, r);
      Assoc(Sanitize(p), c, Sanitize(r));
    }
  }

  lemma SanitizeTuple(fs: seq<Field>)
    requires AllPrintable(fs)
    ensures Sanitize(PrintTuple(fs)) == PrintTuple(CopyFields(fs))
  {
    SanitizeFields(fs);
    hide Sanitize, PrintFields;
    var p := PrintFields(fs);
    Assoc([OPEN], p, [CLOSE]);
    SanitizePrefix([OPEN], p + [CLOSE]);
    SanitizeAppend(p, [CLOSE]);
    SanitizeAscii([CLOSE]);
    Assoc([OPEN], Sanitize(p), [CLOSE]);
  }

  lemma SanitizeTuples(ts: seq<seq<Field>>, between: Text)
    requires AllTuplesPrintable(ts) && IsAscii(between)
    ensures Sanitize(PrintTuples(ts, between)) == PrintTuples(CopyTuples(ts), between) && |CopyTuples(ts)| == |ts|
  {
    if ts != [] {
      SanitizeTuple(ts[0]);
      SanitizeTuples(ts[1..], between);
      assert CopyTuples(ts)[1..] == CopyTuples(ts[1..]);
      hide Sanitize, PrintTuple;
      if |ts| > 1 {
        var p, r := PrintTuple(ts[0]), PrintTuples(ts[1..], between);
        assert r != [] && r[0] == OPEN by { TuplesBegin(ts[1..], between); }
        SanitizeAppend(p, between + r);
        SanitizePrefix(between, r);
      }
    }
  }

  lemma TuplesBegin(ts: seq<seq<Field>>, between: Text)
    requires ts != []
    ensures PrintTuples(ts, between) != [] && PrintTuples(ts, between)[0] == OPEN
  {
  }

  lemma SanitizeInsert(l: Layout, columns: seq<string>, table: Text, tuples: Text)
    requires IsLayout(l, columns) && AreColumns(columns) && IsTable(table)
    ensures Sanitize(InsertText(l, table, tuples)) == InsertText(l, table, Sanitize(tuples))
  {
    hide Sanitize, IsLayout, AreColumns, IsTable, Named, HeadingsText;
    LayoutIsPlain(l, columns);
    NameIsPlain(l.quoted, table);
    SanitizeFromColumns(l, columns, tuples);
    SanitizePrefix(l.afterName, FromColumns(l, tuples));
    SanitizePrefix(Named(l.quoted, table), l.afterName + FromColumns(l, tuples));
    SanitizePrefix(l.afterInsert, FromName(l, table, tuples));
    SanitizePrefix(l.insert, l.afterInsert + FromName(l, table, tuples));
  }

  lemma SanitizeFromColumns(l: Layout, columns: seq<string>, tuples: Text)
    requires IsLayout(l, columns) && AreColumns(columns)
    ensures Sanitize(FromColumns(l, tuples)) == FromColumns(l, Sanitize(tuples))
  {
    hide Sanitize, AreColumns, HeadingsText, Spells, AreHeadings;
    LayoutIsPlain(l, columns);
    SanitizePrefix(l.afterValues, tuples);
    SanitizePrefix(l.values, l.afterValues + tuples);
    if l.headings != [] {
      HeadingsArePlain(l.headings, columns);
      var values := FromValues(l, tuples);
      SanitizePrefix(l.afterList, values);
      SanitizePrefix([CLOSE], l.afterList + values);
      SanitizePrefix(HeadingsText(l.headings), [CLOSE] + (l.afterList + values));
      SanitizePrefix([OPEN], HeadingsText(l.headings) + ([CLOSE] + (l.afterList + values)));
    }
  }

  lemma {:induction false} CopyFieldsAt(fs: seq<Field>)
    ensures |CopyFields(fs)| == |fs| && forall i :: 0 <= i < |fs| ==> CopyFields(fs)[i] == CopyField(fs[i])
  {
    if fs != [] { CopyFieldsAt(fs[1..]); }
  }

  lemma PhotoFieldsCopied(r: Photo, cols: seq<nat>)
    requires AreIn(cols, |PHOTO_COLUMNS|)
    ensures Picked(PhotoFields(CopyPhoto(r)), cols) == CopyFields(Picked(PhotoFields(r), cols))
  {
    hide Sanitize;
    CopyFieldsAt(PhotoFields(r));
    CopyFieldsAt(Picked(PhotoFields(r), cols));
    assert forall c :: 0 <= c < |PHOTO_COLUMNS| ==> PhotoFields(CopyPhoto(r))[c] == CopyField(PhotoFields(r)[c]);
  }

  lemma RunFieldsCopied(r: Run, cols: seq<nat>)
    requires AreIn(cols, |RUN_COLUMNS|)
    ensures Picked(RunFields(CopyRun(r)), cols) == CopyFields(Picked(RunFields(r), cols))
  {
    hide Sanitize;
    CopyFieldsAt(RunFields(r));
    CopyFieldsAt(Picked(RunFields(r), cols));
    assert forall c :: 0 <= c < |RUN_COLUMNS| ==> RunFields(CopyRun(r))[c] == CopyField(RunFields(r)[c]);
  }

  lemma {:induction false} PhotoTuplesCopied(rows: seq<Photo>, cols: seq<nat>)
    requires AreIn(cols, |PHOTO_COLUMNS|)
    ensures PhotoTuples(CopyPhotos(rows), cols) == CopyTuples(PhotoTuples(rows, cols))
  {
    if rows != [] {
      PhotoTuplesCopied(rows[1..], cols);
      PhotoFieldsCopied(rows[0], cols);
      hide PhotoFields, CopyFields, CopyPhoto, Picked;
      assert CopyPhotos(rows)[1..] == CopyPhotos(rows[1..]);
      assert PhotoTuples(rows, cols)[1..] == PhotoTuples(rows[1..], cols);
    }
  }

  lemma {:induction false} RunTuplesCopied(rows: seq<Run>, cols: seq<nat>)
    requires AreIn(cols, |RUN_COLUMNS|)
    ensures RunTuples(CopyRuns(rows), cols) == CopyTuples(RunTuples(rows, cols))
  {
    if rows != [] {
      RunTuplesCopied(rows[1..], cols);
      RunFieldsCopied(rows[0], cols);
      hide RunFields, CopyFields, CopyRun, Picked;
      assert CopyRuns(rows)[1..] == CopyRuns(rows[1..]);
      assert RunTuples(rows, cols)[1..] == RunTuples(rows[1..], cols);
    }
  }

  function CopyBlock(b: Block): Block {
    match b
    case Photos(l, rows) => Photos(l, CopyPhotos(rows))
    case Runs(l, rows) => Runs(l, CopyRuns(rows))
    case Foreign(l, columns, table, tuples) => Foreign(l, columns, table, CopyTuples(tuples))
    case Skipped(_) => b
  }

  function CopyDump(d: seq<Block>): seq<Block> {
    if d == [] then [] else [CopyBlock(d[0])] + CopyDump(d[1..])
  }

  lemma {:induction false} CopyTuplesPrintable(ts: seq<seq<Field>>)
    requires AllTuplesPrintable(ts)
    ensures AllTuplesPrintable(CopyTuples(ts)) && |CopyTuples(ts)| == |ts|
  {
    if ts != [] {
      CopyFieldsAt(ts[0]);
      CopyTuplesPrintable(ts[1..]);
      hide CopyFields;
      assert AllPrintable(ts[0]);
    }
  }

  lemma CopyIsWritten(b: Block)
    requires IsWritten(b)
    ensures IsWritten(CopyBlock(b)) && (IsReadable(CopyBlock(b)) <==> IsReadable(b))
  {
    hide IsLayout, AreColumns, IsTable, Crossed;
    if b.Foreign? { CopyTuplesPrintable(b.tuples); }
  }

  lemma SanitizeStatement(l: Layout, columns: seq<string>, table: Text, ts: seq<seq<Field>>)
    requires IsLayout(l, columns) && AreColumns(columns) && IsTable(table) && AllTuplesPrintable(ts)
    ensures Sanitize(InsertText(l, table, PrintTuples(ts, l.between))) ==
            InsertText(l, table, PrintTuples(CopyTuples(ts), l.between))
  {
    hide Sanitize, InsertText, PrintTuples, AreColumns, IsTable, IsLayout;
    LayoutIsPlain(l, columns);
    SanitizeTuples(ts, l.between);
    SanitizeInsert(l, columns, table, PrintTuples(ts, l.between));
  }

  lemma SanitizeBlock(b: Block)
    requires IsWritten(b)
    ensures IsWritten(CopyBlock(b)) && Sanitize(BlockText(b)) == BlockText(CopyBlock(b))
  {
    hide Sanitize, InsertText, PrintTuples, IsLayout, AreColumns, IsTable, Crossed, Columns, AreIn;
    hide CopyTuples, CopyPhotos, CopyRuns, PhotoTuples, RunTuples, AllTuplesPrintable, IsSolid, IsInsert, IsReadable;
    CopyIsWritten(b);
    TablesAreTables();
    ColumnsAreColumns();
    match b {
      case Photos(l, rows) =>
        HeadingsAreIn(l, PHOTO_COLUMNS);
        PhotosPrintable(rows, PhotoColumns(l));
        PhotoTuplesCopied(rows, PhotoColumns(l));
        SanitizeStatement(l, PHOTO_COLUMNS, PHOTOS_TABLE, PhotoTuples(rows, PhotoColumns(l)));
      case Runs(l, rows) =>
        HeadingsAreIn(l, RUN_COLUMNS);
        RunsPrintable(rows, RunColumns(l));
        RunTuplesCopied(rows, RunColumns(l));
        SanitizeStatement(l, RUN_COLUMNS, RUNS_TABLE, RunTuples(rows, RunColumns(l)));
      case Foreign(l, columns, table, tuples) =>
        SanitizeStatement(l, columns, table, tuples);
      case Skipped(t) =>
        SanitizeAscii(t);
    }
  }

  lemma {:induction false} CopyIsDump(d: seq<Block>)
    requires IsDump(d)
    ensures IsDump(CopyDump(d)) && |CopyDump(d)| == |d| && (AreReadable(CopyDump(d)) <==> AreReadable(d))
  {
    hide IsWritten, IsReadable, AreReadable, CopyBlock;
    if d != [] {
      CopyIsWritten(d[0]);
      CopyIsDump(d[1..]);
      ReadableSplits(d);
      ReadableSplits(CopyDump(d));
      assert CopyDump(d)[1..] == CopyDump(d[1..]);
      assert forall k :: 1 <= k < |d| ==> CopyDump(d)[k] == CopyDump(d[1..])[k - 1];
    }
  }

  lemma {:induction false} SanitizeDump(d: seq<Block>, tail: Text)
    requires IsDump(d) && IsAscii(tail)
    ensures IsDump(CopyDump(d)) && Sanitize(PrintDump(d, tail)) == PrintDump(CopyDump(d), tail)
  {
    hide IsWritten, CopyBlock, Sanitize, BlockText;
    CopyIsDump(d);
    if d == [] {
      SanitizeAscii(tail);
    } else {
      SanitizeDump(d[1..], tail);
      SanitizeBlock(d[0]);
      var rest := [NEWLINE] + PrintDump(d[1..], tail);
      SanitizeAppend(BlockText(d[0]), [SEMICOLON] + rest);
      SanitizePrefix([SEMICOLON], rest);
      SanitizePrefix([NEWLINE], PrintDump(d[1..], tail));
      assert CopyDump(d)[1..] == CopyDump(d[1..]);
    }
  }

  // ----- The theorem -----

  /** A photo as it comes back: texts copied rune by rune, empty optional texts absent, columns that the
      statement does not list empty or zero. */
  function PhotoReadBack(r: Photo, cols: seq<nat>): Photo { PhotoBack(CopyPhoto(r), cols) }

  function RunReadBack(r: Run, cols: seq<nat>): Run { RunBack(CopyRun(r), cols) }

  function PhotosReadBack(rows: seq<Photo>, cols: seq<nat>): seq<Photo> {
    if rows == [] then [] else [PhotoReadBack(rows[0], cols)] + PhotosReadBack(rows[1..], cols)
  }

  function RunsReadBack(rows: seq<Run>, cols: seq<nat>): seq<Run> {
    if rows == [] then [] else [RunReadBack(rows[0], cols)] + RunsReadBack(rows[1..], cols)
  }

  /** The rows that were printed, and what they come back as, statement by statement. */
  function Printed(b: Block): Rows {
    match b
    case Photos(_, rows) => Rows(rows, [])
    case Runs(_, rows) => Rows([], rows)
    case Foreign(_, _, _, _) => Rows([], [])
    case Skipped(_) => Rows([], [])
  }

  function Returned(b: Block): Rows {
    match b
    case Photos(l, rows) => Rows(PhotosReadBack(rows, PhotoColumns(l)), [])
    case Runs(l, rows) => Rows([], RunsReadBack(rows, RunColumns(l)))
    case Foreign(_, _, _, _) => Rows([], [])
    case Skipped(_) => Rows([], [])
  }

  function Content(d: seq<Block>): Rows {
    if d == [] then Rows([], [])
    else var tail := Content(d[1..]);
         Rows(Printed(d[0]).photos + tail.photos, Printed(d[0]).runs + tail.runs)
  }

  function ReadBack(d: seq<Block>): Rows {
    if d == [] then Rows([], [])
    else var tail := ReadBack(d[1..]);
         Rows(Returned(d[0]).photos + tail.photos, Returned(d[0]).runs + tail.runs)
  }

  lemma {:induction false} PhotosComeBack(rows: seq<Photo>, cols: seq<nat>)
    ensures PhotosBack(CopyPhotos(rows), cols) == PhotosReadBack(rows, cols)
  {
    hide CopyPhoto, PhotoBack;
    if rows != [] {
      PhotosComeBack(rows[1..], cols);
      assert CopyPhotos(rows)[1..] == CopyPhotos(rows[1..]);
    }
  }

  lemma {:induction false} RunsComeBack(rows: seq<Run>, cols: seq<nat>)
    ensures RunsBack(CopyRuns(rows), cols) == RunsReadBack(rows, cols)
  {
    hide CopyRun, RunBack;
    if rows != [] {
      RunsComeBack(rows[1..], cols);
      assert CopyRuns(rows)[1..] == CopyRuns(rows[1..]);
    }
  }

  lemma {:induction false} AllComeBack(d: seq<Block>)
    ensures AllBack(CopyDump(d)) == ReadBack(d)
  {
    hide CopyPhotos, CopyRuns, PhotosBack, RunsBack, CopyTuples;
    if d != [] {
      AllComeBack(d[1..]);
      assert CopyDump(d)[1..] == CopyDump(d[1..]);
      if d[0].Photos? { PhotosComeBack(d[0].photos, PhotoColumns(d[0].layout)); }
      if d[0].Runs? { RunsComeBack(d[0].runs, RunColumns(d[0].layout)); }
    }
  }

  /** Every printed dump reads back, statement by statement and row by row, whatever the layout of its
      statements.  It is refused if and only if a statement inserts into another table or lists its columns
      without the id, or more than blanks or a line comment follows the last semicolon. */
  lemma DumpReadsBack(d: seq<Block>, tail: Text)
    requires IsDump(d) && IsTail(tail)
    ensures DumpContent(PrintDump(d, tail)) == if AreReadable(d) && EndsDump(tail) then Ok(ReadBack(d)) else Err
  {
    hide IsWritten, StatementsFrom, RowsOf, ReadBack, AreReadable, EndsDump;
    SanitizeDump(d, tail);
    CopyIsDump(d);
    var c := CopyDump(d);
    SplitDump([], c, tail);
    assert [] + PrintDump(c, tail) == PrintDump(c, tail);
    StatementsRead(c);
    AllComeBack(d);
  }

  /** A dump of one statement that is no INSERT has no rows. */
  lemma SkippedDump(t: Text)
    requires IsWritten(Skipped(t))
    ensures IsDump([Skipped(t)]) && DumpContent(PrintDump([Skipped(t)], [])) == Ok(Rows([], []))
  {
    hide IsWritten, DumpContent, PrintDump;
    var d := [Skipped(t)];
    DumpReadsBack(d, []);
    assert d[1..] == [] && d[0] == Skipped(t);
    assert ReadBack(d[1..]) == Rows([], []);
    assert EndsDump([]);
  }

  lemma CommentIsSkipped(comment: Text, b: Block)
    requires IsPlain(comment) && [45, 45] <= comment && IsWritten(b) && IsAscii(BlockText(b))
    ensures IsWritten(Skipped(comment + ([NEWLINE] + BlockText(b))))
  {
    hide BlockText, Crossed;
    var t := comment + ([NEWLINE] + BlockText(b));
    BlockIsCrossed(b);
    BracketsArePlain();
    PlainThen([NEWLINE], BlockText(b));
    PlainThen(comment, [NEWLINE] + BlockText(b));
    assert t[0] == 45;
    assert |INSERT_INTO| <= |t| ==> t[..|INSERT_INTO|][0] == 45;
  }

  /** A line comment in front of an INSERT belongs to the same statement and hides it: its rows are lost
      without an error. */
  lemma CommentHidesInsert(comment: Text, b: Block)
    requires IsPlain(comment) && [45, 45] <= comment && IsWritten(b) && IsAscii(BlockText(b))
    ensures var hidden := Skipped(comment + ([NEWLINE] + BlockText(b)));
            IsDump([hidden]) && DumpContent(PrintDump([hidden], [])) == Ok(Rows([], []))
  {
    hide BlockText, DumpContent, PrintDump, IsWritten, IsPlain, IsAscii;
    CommentIsSkipped(comment, b);
    SkippedDump(comment + ([NEWLINE] + BlockText(b)));
  }

  // ----- Exactness -----

  predicate TextIsExact(cols: seq<nat>, c: nat, t: Text) { if c in cols then ValidUtf8(t) else t == [] }

  predicate OptionalIsExact(cols: seq<nat>, c: nat, t: Option<Text>) {
    t.None? || (c in cols && t.value != [] && ValidUtf8(t.value))
  }

  predicate CountIsExact(cols: seq<nat>, c: nat, n: Int64) { c in cols || n == 0 }

  /** All texts are well-formed UTF-8, no optional text is present but empty, and the columns that are not
      listed are empty or zero. */
  predicate PhotoIsExact(r: Photo, cols: seq<nat>) {
    && TextIsExact(cols, 1, r.url) && TextIsExact(cols, 2, r.sourcePage) && TextIsExact(cols, 3, r.title)
    && TextIsExact(cols, 4, r.artist) && OptionalIsExact(cols, 5, r.uploadDate) && TextIsExact(cols, 6, r.filePath)
    && TextIsExact(cols, 7, r.fileName) && TextIsExact(cols, 8, r.downloadedAt) && CountIsExact(cols, 9, r.fileSize)
    && TextIsExact(cols, 10, r.status) && TextIsExact(cols, 11, r.errorMessage)
  }

  predicate RunIsExact(r: Run, cols: seq<nat>) {
    && TextIsExact(cols, 1, r.startTime) && OptionalIsExact(cols, 2, r.endTime) && TextIsExact(cols, 3, r.status)
    && CountIsExact(cols, 4, r.pagesProcessed) && CountIsExact(cols, 5, r.photosFound)
    && CountIsExact(cols, 6, r.photosDownloaded) && CountIsExact(cols, 7, r.photosSkipped)
    && CountIsExact(cols, 8, r.photosFailed) && TextIsExact(cols, 9, r.errorMessage)
  }

  lemma TextReadsBack(cols: seq<nat>, c: nat, t: Text)
    ensures TextAt(cols, c, Sanitize(t)) == t <==> TextIsExact(cols, c, t)
  {
    SanitizeIsIdentity(t);
  }

  lemma OptionalReadsBack(cols: seq<nat>, c: nat, t: Option<Text>)
    ensures OptionalAt(cols, c, CopyOptional(t)) == t <==> OptionalIsExact(cols, c, t)
  {
    if t.Some? { SanitizeIsIdentity(t.value); }
  }

  /** A photo reads back as itself if and only if it is exact. */
  lemma PhotoReadsBack(r: Photo, cols: seq<nat>)
    ensures PhotoReadBack(r, cols) == r <==> PhotoIsExact(r, cols)
  {
    hide TextAt, TextIsExact, OptionalAt, OptionalIsExact, Sanitize, CopyOptional;
    TextReadsBack(cols, 1, r.url);
    TextReadsBack(cols, 2, r.sourcePage);
    TextReadsBack(cols, 3, r.title);
    TextReadsBack(cols, 4, r.artist);
    OptionalReadsBack(cols, 5, r.uploadDate);
    TextReadsBack(cols, 6, r.filePath);
    TextReadsBack(cols, 7, r.fileName);
    TextReadsBack(cols, 8, r.downloadedAt);
    TextReadsBack(cols, 10, r.status);
    TextReadsBack(cols, 11, r.errorMessage);
  }

  lemma RunReadsBack(r: Run, cols: seq<nat>)
    ensures RunReadBack(r, cols) == r <==> RunIsExact(r, cols)
  {
    hide TextAt, TextIsExact, OptionalAt, OptionalIsExact, Sanitize, CopyOptional;
    TextReadsBack(cols, 1, r.startTime);
    OptionalReadsBack(cols, 2, r.endTime);
    TextReadsBack(cols, 3, r.status);
    TextReadsBack(cols, 9, r.errorMessage);
  }

  lemma {:induction false} PhotosAreExact(rows: seq<Photo>, cols: seq<nat>)
    ensures |PhotosReadBack(rows, cols)| == |rows|
    ensures PhotosReadBack(rows, cols) == rows <==> forall i :: 0 <= i < |rows| ==> PhotoIsExact(rows[i], cols)
  {
    hide PhotoIsExact, PhotoReadBack;
    if rows != [] {
      var back := PhotosReadBack(rows, cols);
      PhotosAreExact(rows[1..], cols);
      PhotoReadsBack(rows[0], cols);
      assert back[1..] == PhotosReadBack(rows[1..], cols);
      assert rows == [rows[0]] + rows[1..];
    }
  }

  lemma {:induction false} RunsAreExact(rows: seq<Run>, cols: seq<nat>)
    ensures |RunsReadBack(rows, cols)| == |rows|
    ensures RunsReadBack(rows, cols) == rows <==> forall i :: 0 <= i < |rows| ==> RunIsExact(rows[i], cols)
  {
    hide RunIsExact, RunReadBack;
    if rows != [] {
      var back := RunsReadBack(rows, cols);
      RunsAreExact(rows[1..], cols);
      RunReadsBack(rows[0], cols);
      assert back[1..] == RunsReadBack(rows[1..], cols);
      assert rows == [rows[0]] + rows[1..];
    }
  }

  /** A statement gives exactly the rows it was printed from. */
  predicate IsExact(b: Block) {
    match b
    case Photos(l, rows) => forall i :: 0 <= i < |rows| ==> PhotoIsExact(rows[i], PhotoColumns(l))
    case Runs(l, rows) => forall i :: 0 <= i < |rows| ==> RunIsExact(rows[i], RunColumns(l))
    case Foreign(_, _, _, _) => true
    case Skipped(_) => true
  }

  lemma BlockIsExact(b: Block)
    ensures Returned(b) == Printed(b) <==> IsExact(b)
    ensures |Returned(b).photos| == |Printed(b).photos| && |Returned(b).runs| == |Printed(b).runs|
  {
    hide PhotoIsExact, RunIsExact, PhotosReadBack, RunsReadBack;
    if b.Photos? { PhotosAreExact(b.photos, PhotoColumns(b.layout)); }
    if b.Runs? { RunsAreExact(b.runs, RunColumns(b.layout)); }
  }

  lemma AppendsAgree<T>(a: seq<T>, b: seq<T>, c: seq<T>, d: seq<T>)
    requires |a| == |c|
    ensures a + b == c + d <==> a == c && b == d
  {
    if a + b == c + d {
      assert a == (a + b)[..|a|] && c == (c + d)[..|c|];
      assert b == (a + b)[|a|..] && d == (c + d)[|c|..];
    }
  }

  lemma {:induction false} DumpIsExact(d: seq<Block>)
    ensures ReadBack(d) == Content(d) <==> forall k :: 0 <= k < |d| ==> IsExact(d[k])
  {
    hide IsExact, Returned, Printed;
    if d != [] {
      BlockIsExact(d[0]);
      DumpIsExact(d[1..]);
      var p, r, tail, back := Printed(d[0]), Returned(d[0]), Content(d[1..]), ReadBack(d[1..]);
      AppendsAgree(r.photos, back.photos, p.photos, tail.photos);
      AppendsAgree(r.runs, back.runs, p.runs, tail.runs);
      assert forall k :: 1 <= k < |d| ==> d[k] == d[1..][k - 1];
    }
  }

  /** A printed dump reads back as exactly the rows it was printed from if and only if it is not refused,
      every text in it is well-formed UTF-8, no optional text is present but empty, and the columns that a
      statement does not list are empty or zero in its rows. */
  lemma RoundTripIsExact(d: seq<Block>, tail: Text)
    requires IsDump(d) && IsTail(tail)
    ensures DumpContent(PrintDump(d, tail)) == Ok(Content(d)) <==>
            AreReadable(d) && EndsDump(tail) && forall k :: 0 <= k < |d| ==> IsExact(d[k])
  {
    hide IsWritten, DumpContent, ReadBack, Content, AreReadable, IsExact, EndsDump, IsTail;
    DumpReadsBack(d, tail);
    DumpIsExact(d);
  }
}
