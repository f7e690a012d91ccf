/** The many ways to write one INSERT statement: letter case, blanks, backquotes and column lists.  Every one
    of them is read back as its table, its columns and its tuples. */
module DumpLayout {
  import opened Common
  import opened DumpText
  import opened DumpLexing
  import opened DumpTuples
  import opened DumpRows

  // ----- Printing -----

  /** The layout of a dump program's own statements, without a column list. */
  const PLAIN_LAYOUT := Layout(INSERT_INTO, [], true, [32], [], [], VALUES, [32], [44])

  lemma PlainLayoutIsLayout(columns: seq<string>)
    ensures IsLayout(PLAIN_LAYOUT, columns)
  {
  }

  /** A column in a column list: which one, and how it is spelled. */
  datatype Heading = Heading(column: nat, name: Text, quoted: bool, before: Text, after: Text)

  /** How a statement is written around its values.  Without headings it has no column list. */
  datatype Layout = Layout(
    insert: Text, afterInsert: Text, quoted: bool, afterName: Text, headings: seq<Heading>, afterList: Text,
    values: Text, afterValues: Text, between: Text)

  /** What may stand between the words of a statement. */
  predicate IsGap(t: Text) { forall k :: 0 <= k < |t| ==> t[k] in {9, 10, 11, 12, 13, 32} }

  /** `word` is `capitals`, some letters of it in lower case. */
  predicate Spells(word: Text, capitals: Text) {
    |word| == |capitals| &&
    forall k :: 0 <= k < |word| ==>
      word[k] == capitals[k] || (65 <= capitals[k] <= 90 && word[k] == capitals[k] + 32)
  }

  /** `word` is `column`, some letters of it in upper case. */
  predicate Names(word: Text, column: string) {
    |word| == |column| &&
    forall k :: 0 <= k < |word| ==>
      word[k] == column[k] as int || ('a' <= column[k] <= 'z' && word[k] as int == column[k] as int - 32)
  }

  /** A name that needs no quoting. */
  predicate IsColumn(c: string) { c != "" && forall k :: 0 <= k < |c| ==> 'a' <= c[k] <= 'z' || c[k] == '_' }

  predicate AreColumns(columns: seq<string>) {
    Distinct(columns) && forall c :: 0 <= c < |columns| ==> IsColumn(columns[c])
  }

  predicate IsHeading(h: Heading, columns: seq<string>) {
    h.column < |columns| && Names(h.name, columns[h.column]) && IsGap(h.before) && IsGap(h.after)
  }

  predicate AreHeadings(hs: seq<Heading>, columns: seq<string>) {
    forall i :: 0 <= i < |hs| ==> IsHeading(hs[i], columns)
  }

  /** A bare table name must be told from what follows it; a quoted one need not. */
  predicate IsLayout(l: Layout, columns: seq<string>) {
    && Spells(l.insert, INSERT_INTO) && IsGap(l.afterInsert) && IsGap(l.afterName)
    && (!l.quoted ==> if l.afterName == [] then l.headings != [] else l.afterName[0] in {9, 10, 32})
    && AreHeadings(l.headings, columns) && IsGap(l.afterList)
    && Spells(l.values, VALUES) && IsGap(l.afterValues)
    && forall k :: 0 <= k < |l.between| ==> l.between[k] in {9, 10, 32, 44}
  }

  function Named(quoted: bool, name: Text): Text { if quoted then [BACKTICK] + (name + [BACKTICK]) else name }

  function HeadingText(h: Heading): Text { h.before + (Named(h.quoted, h.name) + h.after) }

  function HeadingsText(hs: seq<Heading>): Text {
    if hs == [] then []
    else if |hs| == 1 then HeadingText(hs[0])
    else HeadingText(hs[0]) + ([COMMA] + HeadingsText(hs[1..]))
  }

  function FromValues(l: Layout, tuples: Text): Text { l.values + (l.afterValues + tuples) }

  function FromColumns(l: Layout, tuples: Text): Text {
    if l.headings == [] then FromValues(l, tuples)
    else [OPEN] + (HeadingsText(l.headings) + ([CLOSE] + (l.afterList + FromValues(l, tuples))))
  }

  function FromName(l: Layout, table: Text, tuples: Text): Text {
    Named(l.quoted, table) + (l.afterName + FromColumns(l, tuples))
  }

  function InsertText(l: Layout, table: Text, tuples: Text): Text {
    l.insert + (l.afterInsert + FromName(l, table, tuples))
  }

  /** A name of a table as a dump writes it. */
  predicate IsTable(t: Text) {
    t != [] && forall k :: 0 <= k < |t| ==> 32 < t[k] < 127 && t[k] !in {QUOTE, SEMICOLON, BACKTICK, OPEN}
  }

  // ----- Every printed piece is crossed by both lexers -----

  /** Nothing in `s` stops the automaton, which is outside again at the end. */
  ghost predicate Crossed(s: Text, stops: set<Byte>) {
    Reach(s, stops, Out) == |s| && Lex(Out, s) == Out
  }

  lemma CrossedAppend(a: Text, b: Text, stops: set<Byte>)
    requires Crossed(a, stops) && Crossed(b, stops)
    ensures Crossed(a + b, stops)
  {
    ReachAppend(a, b, stops, Out);
    LexAppend(Out, a, b);
  }

  predicate IsPlain(s: Text) { forall k :: 0 <= k < |s| ==> s[k] < 0x80 && s[k] != QUOTE && s[k] != SEMICOLON }

  lemma PlainIsCrossed(s: Text)
    requires IsPlain(s)
    ensures Crossed(s, ENDS)
  {
    TokenIsCrossed(s, ENDS);
  }

  lemma PlainThen(p: Text, s: Text)
    requires IsPlain(p) && Crossed(s, ENDS)
    ensures Crossed(p + s, ENDS)
  {
    PlainIsCrossed(p);
    CrossedAppend(p, s, ENDS);
  }

  /** Letters and underscores. */
  predicate IsName(s: Text) {
    s != [] && forall k :: 0 <= k < |s| ==> 65 <= s[k] <= 90 || 97 <= s[k] <= 122 || s[k] == 95
  }

  lemma HeadingIsPlain(h: Heading, columns: seq<string>)
    requires IsHeading(h, columns) && AreColumns(columns)
    ensures IsName(h.name) && IsPlain(HeadingText(h))
    ensures forall k :: 0 <= k < |HeadingText(h)| ==> HeadingText(h)[k] !in {COMMA, OPEN, CLOSE}
  {
    assert IsColumn(columns[h.column]);
    var n := Named(h.quoted, h.name);
    assert forall k :: 0 <= k < |n| ==> n[k] == BACKTICK || n[k] in h.name;
  }

  lemma {:induction false} HeadingsArePlain(hs: seq<Heading>, columns: seq<string>)
    requires AreHeadings(hs, columns) && AreColumns(columns)
    ensures IsPlain(HeadingsText(hs))
    ensures forall k :: 0 <= k < |HeadingsText(hs)| ==> HeadingsText(hs)[k] !in {OPEN, CLOSE}
  {
    if hs != [] {
      hide HeadingText, IsHeading, AreColumns;
      assert IsHeading(hs[0], columns);
      HeadingIsPlain(hs[0], columns);
      HeadingsArePlain(hs[1..], columns);
    }
  }

  lemma LayoutIsPlain(l: Layout, columns: seq<string>)
    requires IsLayout(l, columns)
    ensures IsPlain(l.insert) && IsPlain(l.afterInsert) && IsPlain(l.afterName) && IsPlain(l.afterList)
    ensures IsPlain(l.values) && IsPlain(l.afterValues) && IsPlain(l.between)
    ensures l.insert != [] && l.insert[0] in {73, 105} && l.values != [] && l.values[0] in {86, 118}
  {
    hide AreHeadings;
    assert l.insert[0] == INSERT_INTO[0] || l.insert[0] == INSERT_INTO[0] + 32;
    assert l.values[0] == VALUES[0] || l.values[0] == VALUES[0] + 32;
  }

  lemma NameIsPlain(quoted: bool, table: Text)
    requires IsTable(table)
    ensures IsPlain(Named(quoted, table))
  {
  }

  lemma FromColumnsIsCrossed(l: Layout, columns: seq<string>, tuples: Text)
    requires IsLayout(l, columns) && AreColumns(columns) && Crossed(tuples, ENDS)
    ensures Crossed(FromColumns(l, tuples), ENDS)
  {
    hide Crossed, IsPlain, AreColumns, Spells, IsGap, AreHeadings;
    LayoutIsPlain(l, columns);
    PlainThen(l.afterValues, tuples);
    PlainThen(l.values, l.afterValues + tuples);
    if l.headings != [] {
      HeadingsArePlain(l.headings, columns);
      BracketsArePlain();
      var tail := l.afterList + FromValues(l, tuples);
      PlainThen(l.afterList, FromValues(l, tuples));
      PlainThen([CLOSE], tail);
      PlainThen(HeadingsText(l.headings), [CLOSE] + tail);
      PlainThen([OPEN], HeadingsText(l.headings) + ([CLOSE] + tail));
    }
  }

  lemma BracketsArePlain()
    ensures IsPlain([OPEN]) && IsPlain([CLOSE]) && IsPlain([COMMA]) && IsPlain([NEWLINE]) && IsPlain([])
  {
  }

  lemma InsertIsCrossed(l: Layout, columns: seq<string>, table: Text, tuples: Text)
    requires IsLayout(l, columns) && AreColumns(columns) && IsTable(table)
    requires Crossed(tuples, ENDS) && tuples != []
    ensures Crossed(InsertText(l, table, tuples), ENDS)
  {
    hide Crossed, IsPlain, AreColumns, IsLayout, FromColumns, IsTable;
    LayoutIsPlain(l, columns);
    NameIsPlain(l.quoted, table);
    FromColumnsIsCrossed(l, columns, tuples);
    PlainThen(l.afterName, FromColumns(l, tuples));
    PlainThen(Named(l.quoted, table), l.afterName + FromColumns(l, tuples));
    PlainThen(l.afterInsert, FromName(l, table, tuples));
    PlainThen(l.insert, l.afterInsert + FromName(l, table, tuples));
  }

  // ----- Blanks -----

  /** Neither end of `s` is blank. */
  predicate IsSolid(s: Text) { s != [] && !IsBlank(s[0]) && !IsBlank(s[|s| - 1]) }

  lemma TrimSolid(s: Text)
    requires IsSolid(s)
    ensures Trim(s) == s
  {
  }

  lemma {:induction false} TrimLeftGap(gap: Text, s: Text)
    requires IsGap(gap) && s != [] && !IsBlank(s[0])
    ensures TrimLeft(gap + s) == s
  {
    if gap == [] {
      assert gap + s == s;
    } else {
      TrimLeftGap(gap[1..], s);
      assert (gap + s)[1..] == gap[1..] + s;
    }
  }

  lemma {:induction false} TrimRightGap(s: Text, gap: Text)
    requires IsGap(gap) && s != [] && !IsBlank(s[|s| - 1])
    ensures TrimRight(s + gap) == s
  {
    if gap == [] {
      assert s + gap == s;
    } else {
      var t := s + gap;
      TrimRightGap(s, gap[..|gap| - 1]);
      assert t[..|t| - 1] == s + gap[..|gap| - 1];
    }
  }

  lemma TrimGap(gap: Text, s: Text)
    requires IsGap(gap) && IsSolid(s)
    ensures Trim(gap + s) == s
  {
    TrimLeftGap(gap, s);
  }

  lemma TrimGaps(before: Text, s: Text, after: Text)
    requires IsGap(before) && IsSolid(s) && IsGap(after)
    ensures Trim(before + (s + after)) == s
  {
    TrimLeftGap(before, s + after);
    TrimRightGap(s, after);
  }

  /** A statement, from any of its words on, ends where its tuples end. */
  lemma TailIsSolid(head: Text, tail: Text)
    requires tail != [] && !IsBlank(tail[|tail| - 1])
    ensures var s := head + tail;
            s[|s| - 1] == tail[|tail| - 1] && (head != [] && !IsBlank(head[0]) ==> IsSolid(s))
  {
  }

  // ----- Values outside quotes -----

  lemma GapIsToken(t: Text)
    requires IsGap(t)
    ensures forall k :: 0 <= k < |t| ==> t[k] != QUOTE && t[k] !in VALUE_ENDS
  {
  }

  lemma PaddedIsDecoded(before: Text, word: Text, after: Text)
    requires IsGap(before) && IsGap(after) && IsSolid(word)
    requires forall k :: 0 <= k < |word| ==> word[k] != QUOTE && word[k] !in VALUE_ENDS
    ensures var p := before + (word + after);
            && Reach(p, VALUE_ENDS, Out) == |p| && Lex(Out, p) == Out
            && FieldValue(p) == if Upper(word) == NULL_TEXT then Null else Val(word)
  {
    hide IsGap, Upper;
    GapIsToken(before);
    GapIsToken(after);
    TokenIsCrossed(before + (word + after), VALUE_ENDS);
    TrimGaps(before, word, after);
  }

  /** A bare token is read without the blanks around it; as NULL if it is that word in any letter case. */
  lemma BareReadsBack(before: Text, word: Text, after: Text)
    requires IsGap(before) && IsGap(after) && IsSolid(word)
    requires forall k :: 0 <= k < |word| ==> word[k] != QUOTE && word[k] !in VALUE_ENDS
    ensures Reach(before + (word + after), VALUE_ENDS, Out) == |before + (word + after)|
    ensures FieldValue(before + (word + after)) == if Spells(word, NULL_TEXT) then Null else Val(word)
  {
    hide IsGap, IsSolid, FieldValue, Spells;
    PaddedIsDecoded(before, word, after);
    UpperKeepsLength(word);
    UpperSpells(word, |word|);
    assert word[..|word|] == word && Upper(word)[..|word|] == Upper(word);
    if Spells(word, NULL_TEXT) { UpperSpelled(word, NULL_TEXT); }
  }

  lemma {:induction false} UpperSpells(t: Text, n: nat)
    requires n <= |t| == |Upper(t)|
    ensures Spells(t[..n], Upper(t)[..n])
  {
    if n > 0 {
      UpperKeepsLength(t[1..]);
      UpperSpells(t[1..], n - 1);
      assert Upper(t) == [UpperByte(t[0])] + Upper(t[1..]);
      assert t[1..][..n - 1] == t[..n][1..] && Upper(t[1..])[..n - 1] == Upper(t)[..n][1..];
    }
  }

  // ----- Keywords -----

  lemma {:induction false} UpperAppend(a: Text, b: Text)
    ensures Upper(a + b) == Upper(a) + Upper(b)
  {
    if a == [] {
      assert a + b == b;
    } else {
      UpperAppend(a[1..], b);
      assert (a + b)[1..] == a[1..] + b;
      Assoc([UpperByte(a[0])], Upper(a[1..]), Upper(b));
    }
  }

  lemma {:induction false} UpperSpelled(word: Text, capitals: Text)
    requires Spells(word, capitals) && forall k :: 0 <= k < |capitals| ==> capitals[k] <= 90
    ensures Upper(word) == capitals
  {
    if word != [] {
      UpperSpelled(word[1..], capitals[1..]);
      assert word[0] == capitals[0] || word[0] == capitals[0] + 32;
      assert capitals == [capitals[0]] + capitals[1..];
    }
  }

  /** A keyword in any letter case is found at the front of a text, whatever follows it. */
  lemma KeywordFound(word: Text, capitals: Text, s: Text)
    requires Spells(word, capitals) && forall k :: 0 <= k < |capitals| ==> capitals[k] <= 90
    ensures capitals <= Upper(word + s) && (word + s)[|capitals|..] == s
  {
    UpperSpelled(word, capitals);
    UpperAppend(word, s);
  }

  // ----- The table's name -----

  lemma {:induction false} FindFirst(name: Text, more: Text, stops: set<Byte>)
    requires (forall k :: 0 <= k < |name| ==> name[k] !in stops) && (more == [] || more[0] in stops)
    ensures Find(name + more, stops) == |name|
  {
    if name == [] {
      assert name + more == more;
    } else {
      FindFirst(name[1..], more, stops);
      assert (name + more)[1..] == name[1..] + more;
    }
  }

  lemma IdentifierRead(quoted: bool, table: Text, more: Text)
    requires IsTable(table) && (!quoted ==> more != [] && more[0] in {9, 10, 32, 40})
    ensures ReadIdentifier(Named(quoted, table) + more) == Ok((table, more))
  {
    var s := Named(quoted, table) + more;
    if quoted {
      FindFirst(table, [BACKTICK] + more, TICKS);
      assert s[1..] == table + ([BACKTICK] + more);
      assert s[1..|table| + 1] == table;
      assert s[|table| + 2..] == more;
    } else {
      FindFirst(table, more, NAME_ENDS);
      assert s[..|table|] == table && s[|table|..] == more;
    }
  }

  // ----- The column list -----

  lemma {:induction false} ClosingFound(p: Text, more: Text)
    requires forall k :: 0 <= k < |p| ==> p[k] !in {OPEN, CLOSE}
    ensures Closing(p + ([CLOSE] + more), 1) == |p|
  {
    if p == [] {
      assert p + ([CLOSE] + more) == [CLOSE] + more;
    } else {
      ClosingFound(p[1..], more);
      assert (p + ([CLOSE] + more))[1..] == p[1..] + ([CLOSE] + more);
    }
  }

  function HeadingTexts(hs: seq<Heading>): seq<Text> {
    if hs == [] then [] else [HeadingText(hs[0])] + HeadingTexts(hs[1..])
  }

  function NamesOf(hs: seq<Heading>): seq<Text> {
    if hs == [] then [] else [hs[0].name] + NamesOf(hs[1..])
  }

  lemma {:induction false} CommasSplit(hs: seq<Heading>, columns: seq<string>)
    requires hs != [] && AreHeadings(hs, columns) && AreColumns(columns)
    ensures SplitCommas(HeadingsText(hs)) == HeadingTexts(hs)
  {
    hide HeadingText, IsHeading, AreColumns, Find;
    assert IsHeading(hs[0], columns);
    HeadingIsPlain(hs[0], columns);
    var t := HeadingText(hs[0]);
    if |hs| == 1 {
      FindFirst(t, [], COMMAS);
      assert t + [] == t && HeadingTexts(hs[1..]) == [];
    } else {
      CommasSplit(hs[1..], columns);
      var more := HeadingsText(hs[1..]);
      FindFirst(t, [COMMA] + more, COMMAS);
      var s := t + ([COMMA] + more);
      assert s[..|t|] == t && s[|t| + 1..] == more;
    }
  }

  lemma HeadingRead(h: Heading, columns: seq<string>)
    requires IsHeading(h, columns) && AreColumns(columns)
    ensures TrimTicks(Trim(HeadingText(h))) == h.name && TrimTicks(h.name) == h.name
  {
    HeadingIsPlain(h, columns);
    var n := Named(h.quoted, h.name);
    TrimGaps(h.before, n, h.after);
    if h.quoted {
      var ended := h.name + [BACKTICK];
      assert n[1..] == ended && ended[..|ended| - 1] == h.name;
      assert TrimTicks(ended) == h.name;
    }
  }

  lemma {:induction false} HeadingsRead(hs: seq<Heading>, columns: seq<string>)
    requires AreHeadings(hs, columns) && AreColumns(columns)
    ensures ColumnNames(HeadingTexts(hs)) == NamesOf(hs) && (hs != [] ==> NamesOf(hs) != [])
  {
    if hs != [] {
      hide HeadingText, IsHeading, AreColumns, Trim, TrimTicks;
      assert IsHeading(hs[0], columns);
      HeadingRead(hs[0], columns);
      HeadingsRead(hs[1..], columns);
      assert HeadingTexts(hs)[1..] == HeadingTexts(hs[1..]);
    }
  }

  lemma KeyRead(h: Heading, columns: seq<string>)
    requires IsHeading(h, columns) && AreColumns(columns)
    ensures ColumnKey(h.name) == columns[h.column]
  {
    HeadingRead(h, columns);
    HeadingIsPlain(h, columns);
    var c := columns[h.column];
    assert IsColumn(c);
    hide TrimTicks;
    assert forall i :: 0 <= i < |c| ==> ColumnKey(h.name)[i] == c[i];
  }

  /** The columns of a list, in its order, as the row mapping looks them up. */
  lemma {:induction false} KeysRead(hs: seq<Heading>, columns: seq<string>)
    requires AreHeadings(hs, columns) && AreColumns(columns)
    ensures |Keys(NamesOf(hs))| == |hs|
    ensures forall i :: 0 <= i < |hs| ==> Keys(NamesOf(hs))[i] == columns[hs[i].column]
  {
    if hs != [] {
      hide IsHeading, AreColumns, ColumnKey;
      assert IsHeading(hs[0], columns);
      KeyRead(hs[0], columns);
      KeysRead(hs[1..], columns);
      assert NamesOf(hs)[1..] == NamesOf(hs[1..]);
      forall i | 0 <= i < |hs| ensures Keys(NamesOf(hs))[i] == columns[hs[i].column] {
        if i > 0 { assert Keys(NamesOf(hs[1..]))[i - 1] == columns[hs[1..][i - 1].column]; }
      }
    }
  }

  // ----- The statement -----

  lemma ValuesRead(l: Layout, columns: seq<string>, table: Text, names: seq<Text>, tuples: Text)
    requires IsLayout(l, columns) && IsSolid(tuples) && Tuples(tuples).Ok?
    ensures ParseValues(table, names, FromValues(l, tuples)) == Ok(Insert(table, names, Tuples(tuples).value))
  {
    hide Trim, Upper, Tuples, AreHeadings;
    TrimGap(l.afterValues, tuples);
    KeywordFound(l.values, VALUES, l.afterValues + tuples);
  }

  lemma ColumnsRead(l: Layout, columns: seq<string>, table: Text, tuples: Text)
    requires IsLayout(l, columns) && AreColumns(columns) && IsSolid(tuples) && Tuples(tuples).Ok?
    ensures ParseColumns(table, FromColumns(l, tuples)) ==
            Ok(Insert(table, NamesOf(l.headings), Tuples(tuples).value))
  {
    hide Trim, Tuples, AreColumns, ParseValues, Spells, HeadingsText, ColumnNames, SplitCommas;
    LayoutIsPlain(l, columns);
    ValuesRead(l, columns, table, NamesOf(l.headings), tuples);
    var values := FromValues(l, tuples);
    if l.headings == [] {
      assert values[0] == l.values[0];
    } else {
      var t := HeadingsText(l.headings);
      var tail := l.afterList + values;
      var rest := [OPEN] + (t + ([CLOSE] + tail));
      HeadingsArePlain(l.headings, columns);
      CommasSplit(l.headings, columns);
      HeadingsRead(l.headings, columns);
      ClosingFound(t, tail);
      assert rest[1..] == t + ([CLOSE] + tail);
      assert rest[1..|t| + 1] == t && rest[|t| + 2..] == tail;
      assert values[|values| - 1] == tuples[|tuples| - 1];
      TrimGap(l.afterList, values);
    }
  }

  /** From its columns, its name or its first word on, a statement is not blank at either end. */
  lemma StatementIsSolid(l: Layout, columns: seq<string>, table: Text, tuples: Text)
    requires IsLayout(l, columns) && IsTable(table) && IsSolid(tuples)
    ensures IsSolid(FromColumns(l, tuples)) && IsSolid(FromName(l, table, tuples))
    ensures IsSolid(InsertText(l, table, tuples))
  {
    hide IsLayout;
    LayoutIsPlain(l, columns);
    ColumnsAreSolid(l, tuples);
    hide FromColumns;
    TailIsSolid(l.afterName, FromColumns(l, tuples));
    TailIsSolid(Named(l.quoted, table), l.afterName + FromColumns(l, tuples));
    TailIsSolid(l.afterInsert, FromName(l, table, tuples));
    TailIsSolid(l.insert, l.afterInsert + FromName(l, table, tuples));
  }

  lemma ColumnsAreSolid(l: Layout, tuples: Text)
    requires IsSolid(tuples) && l.values != [] && l.values[0] in {86, 118}
    ensures IsSolid(FromColumns(l, tuples))
  {
    hide HeadingsText;
    TailIsSolid(l.afterValues, tuples);
    TailIsSolid(l.values, l.afterValues + tuples);
    var values := FromValues(l, tuples);
    TailIsSolid(l.afterList, values);
    TailIsSolid([CLOSE], l.afterList + values);
    TailIsSolid(HeadingsText(l.headings), [CLOSE] + (l.afterList + values));
    TailIsSolid([OPEN], HeadingsText(l.headings) + ([CLOSE] + (l.afterList + values)));
  }

  /** Whatever the layout, an INSERT statement is read as its table, its columns and its tuples. */
  lemma InsertRead(l: Layout, columns: seq<string>, table: Text, tuples: Text)
    requires IsLayout(l, columns) && AreColumns(columns) && IsTable(table) && IsSolid(tuples) && Tuples(tuples).Ok?
    ensures ParseInsert(InsertText(l, table, tuples)) ==
            Ok(Insert(table, NamesOf(l.headings), Tuples(tuples).value))
  {
    hide Trim, Upper, Tuples, ReadIdentifier, ParseColumns, FromColumns, AreColumns, AreHeadings, IsTable;
    StatementIsSolid(l, columns, table, tuples);
    TrimSolid(InsertText(l, table, tuples));
    KeywordFound(l.insert, INSERT_INTO, l.afterInsert + FromName(l, table, tuples));
    TrimGap(l.afterInsert, FromName(l, table, tuples));
    var more := l.afterName + FromColumns(l, tuples);
    assert !l.quoted ==> more[0] in {9, 10, 32, 40} by { FirstAfterName(l, columns, tuples); }
    IdentifierRead(l.quoted, table, more);
    TrimGap(l.afterName, FromColumns(l, tuples));
    ColumnsRead(l, columns, table, tuples);
  }

  lemma FirstAfterName(l: Layout, columns: seq<string>, tuples: Text)
    requires IsLayout(l, columns)
    ensures !l.quoted ==>
              var more := l.afterName + FromColumns(l, tuples);
              more != [] && more[0] in {9, 10, 32, 40}
  {
    hide Spells, AreHeadings, HeadingsText;
  }
}
