/** The two hand-written lexers of the dump reader - the statement splitter and the tuple parser - both
    proved against one reference automaton. */
module DumpLexing {
  import opened DumpText

  /** The reference automaton: outside a literal, inside one, or right after a backslash inside one.
      A doubled quote closes the literal and opens it again. */
  datatype Mode = Out | In | Esc

  function Next(m: Mode, b: Byte): Mode {
    match m
    case Out => if b == QUOTE then In else Out
    case In => if b == QUOTE then Out else if b == BACKSLASH then Esc else In
    case Esc => In
  }

  function Lex(m: Mode, s: Text): Mode
    decreases s
  {
    if s == [] then m else Lex(Next(m, s[0]), s[1..])
  }

  /** Where the splitter cuts, and where the tuple parser ends a value. */
  const ENDS: set<Byte> := {SEMICOLON}
  const VALUE_ENDS: set<Byte> := {COMMA, CLOSE}

  /** The number of bytes before the first one in `stops` that lies outside every literal. */
  function Reach(s: Text, stops: set<Byte>, m: Mode): (k: nat)
    ensures k <= |s|
    ensures k < |s| ==> s[k] in stops
  {
    if s == [] || (m == Out && s[0] in stops) then 0 else 1 + Reach(s[1..], stops, Next(m, s[0]))
  }

  lemma {:induction false} LexAppend(m: Mode, a: Text, b: Text)
    ensures Lex(m, a + b) == Lex(Lex(m, a), b)
    decreases a
  {
    if a == [] {
      assert a + b == b;
    } else {
      LexAppend(Next(m, a[0]), a[1..], b);
      assert (a + b)[1..] == a[1..] + b;
    }
  }

  /** `Reach` is what it is meant to be: the first stop byte at which the automaton is outside. */
  lemma {:induction false} ReachIsFirst(s: Text, stops: set<Byte>, m: Mode, i: nat)
    requires i <= Reach(s, stops, m) && i < |s|
    ensures i == Reach(s, stops, m) <==> s[i] in stops && Lex(m, s[..i]) == Out
  {
    if i > 0 {
      ReachIsFirst(s[1..], stops, Next(m, s[0]), i - 1);
      assert s[..i] == [s[0]] + s[1..][..i - 1];
    }
  }

  lemma {:induction false} ReachAppend(a: Text, b: Text, stops: set<Byte>, m: Mode)
    requires Reach(a, stops, m) == |a|
    ensures Reach(a + b, stops, m) == |a| + Reach(b, stops, Lex(m, a))
  {
    if a == [] {
      assert a + b == b;
    } else {
      ReachAppend(a[1..], b, stops, Next(m, a[0]));
      assert (a + b)[1..] == a[1..] + b;
    }
  }

  // ----- Where a lexer stands -----

  /** A lexer's loop stood at an offset, and its flags said this mode. */
  datatype Mark = Mark(offset: nat, mode: Mode)

  /** A loop steps over one byte, over a doubled quote inside a literal, or over one character of more bytes. */
  predicate IsStep(text: Text, m: Mark, next: nat) {
    && m.offset < next <= |text|
    && (next == m.offset + 1
        || (next == m.offset + 2 && m.mode == In && text[m.offset] == QUOTE && text[m.offset + 1] == QUOTE)
        || forall j :: m.offset <= j < next ==> text[j] >= 0x80)
  }

  /** The marks go step by step from `start` to `end`, and at each of them the flags are the automaton's mode. */
  ghost predicate Traced(text: Text, start: nat, trace: seq<Mark>, end: nat) {
    && start <= end <= |text|
    && (if trace == [] then start == end else trace[0].offset == start)
    && (forall k :: 0 <= k < |trace| ==>
        start <= trace[k].offset < end && Lex(Out, text[start..trace[k].offset]) == trace[k].mode)
    && (forall k :: 0 <= k < |trace| ==> IsStep(text, trace[k], After(trace, k, end)))
  }

  function After(trace: seq<Mark>, k: nat, end: nat): nat
    requires k < |trace|
  {
    if k + 1 < |trace| then trace[k + 1].offset else end
  }

  ghost predicate Standing(text: Text, start: nat, o: nat, m: Mode, trace: seq<Mark>) {
    Traced(text, start, trace, o) && Lex(Out, text[start..o]) == m
  }

  lemma StandingAtStart(text: Text, start: nat)
    requires start <= |text|
    ensures Standing(text, start, start, Out, [])
  {
  }

  lemma TraceGrows(text: Text, start: nat, o: nat, m: Mode, trace: seq<Mark>, next: nat)
    requires Traced(text, start, trace, o) && Lex(Out, text[start..o]) == m && IsStep(text, Mark(o, m), next)
    ensures Traced(text, start, trace + [Mark(o, m)], next)
  {
    hide Lex;
    StepsForward(text, Mark(o, m), next);
    hide IsStep;
    var more := trace + [Mark(o, m)];
    forall k | 0 <= k < |more| ensures IsStep(text, more[k], After(more, k, next)) {
      if k < |trace| { assert more[k] == trace[k] && After(more, k, next) == After(trace, k, o); }
    }
  }

  lemma StepsForward(text: Text, m: Mark, next: nat)
    requires IsStep(text, m, next)
    ensures m.offset < next <= |text|
  {}

  lemma StandingMoves(text: Text, start: nat, o: nat, m: Mode, trace: seq<Mark>, next: nat)
    requires Standing(text, start, o, m, trace) && IsStep(text, Mark(o, m), next)
    ensures Standing(text, start, next, Lex(m, text[o..next]), trace + [Mark(o, m)])
  {
    hide Lex, IsStep;
    StepsForward(text, Mark(o, m), next);
    TraceGrows(text, start, o, m, trace, next);
    LexAppend(Out, text[start..o], text[o..next]);
    assert text[start..next] == text[start..o] + text[o..next];
  }

  lemma LexOne(m: Mode, b: Byte)
    ensures Lex(m, [b]) == Next(m, b)
  {
    assert [b][1..] == [];
  }

  /** Over one byte, or over a doubled quote inside a literal. */
  lemma StandingOverByte(text: Text, start: nat, o: nat, m: Mode, trace: seq<Mark>)
    requires Standing(text, start, o, m, trace) && o < |text|
    ensures Standing(text, start, o + 1, Next(m, text[o]), trace + [Mark(o, m)])
    ensures m == In && o + 1 < |text| && text[o] == QUOTE && text[o + 1] == QUOTE ==>
              Standing(text, start, o + 2, In, trace + [Mark(o, m)])
  {
    hide Standing;
    assert text[o..o + 1] == [text[o]];
    LexOne(m, text[o]);
    StandingMoves(text, start, o, m, trace, o + 1);
    if m == In && o + 1 < |text| && text[o] == QUOTE && text[o + 1] == QUOTE {
      assert text[o..o + 2] == [QUOTE] + [QUOTE];
      LexAppend(In, [QUOTE], [QUOTE]);
      LexOne(In, QUOTE);
      LexOne(Out, QUOTE);
      StandingMoves(text, start, o, m, trace, o + 2);
    }
  }

  // ----- Blanks -----

  predicate IsBlank(b: Byte) { 9 <= b <= 13 || b == 32 }

  function TrimLeft(s: Text): Text {
    if s != [] && IsBlank(s[0]) then TrimLeft(s[1..]) else s
  }

  function TrimRight(s: Text): Text {
    if s != [] && IsBlank(s[|s| - 1]) then TrimRight(s[..|s| - 1]) else s
  }

  function Trim(s: Text): Text { TrimRight(TrimLeft(s)) }

  // ----- The statement splitter -----

  /** What may follow the last semicolon: blanks, or a line comment. */
  predicate MayTrail(s: Text) {
    Trim(s) == [] || [45, 45] <= Trim(s)
  }

  /** The statements of `pending + s`, where `pending` is already read and ends in mode `m`: cut after
      every semicolon outside a literal, trim, and drop the semicolon. */
  function StatementsFrom(pending: Text, s: Text, m: Mode): Result<seq<Text>>
    decreases |s|, 1
  {
    CutAt(pending, s, Reach(s, ENDS, m))
  }

  function CutAt(pending: Text, s: Text, k: nat): Result<seq<Text>>
    requires k <= |s|
    decreases |s|, 0
  {
    if k == |s| then (if MayTrail(pending + s) then Ok([]) else Err)
    else Prepend([StatementText(pending + s[..k + 1])], StatementsFrom([], s[k + 1..], Out))
  }

  function Statements(s: Text): Result<seq<Text>> { StatementsFrom([], s, Out) }

  function StatementText(piece: Text): Text {
    var t := Trim(piece);
    if t != [] && t[|t| - 1] == SEMICOLON then t[..|t| - 1] else t
  }

  function Prepend<T>(head: seq<T>, tail: Result<seq<T>>): Result<seq<T>> {
    match tail
    case Ok(rest) => Ok(head + rest)
    case Err => Err
  }

  lemma PrependPrepend<T>(a: seq<T>, b: seq<T>, c: Result<seq<T>>)
    ensures Prepend(a, Prepend(b, c)) == Prepend(a + b, c)
  {
    if c.Ok? { assert a + (b + c.value) == (a + b) + c.value; }
  }

  lemma PrependNothing<T>(c: Result<seq<T>>)
    ensures Prepend([], c) == c
  {
    if c.Ok? { assert [] + c.value == c.value; }
  }

  lemma CutShifts(pending: Text, p: Text, s: Text, k: nat)
    requires k <= |s|
    ensures CutAt(pending, p + s, |p| + k) == CutAt(pending + p, s, k)
  {
    hide StatementsFrom, MayTrail, StatementText;
    assert pending + (p + s) == (pending + p) + s;
    if k < |s| {
      assert (p + s)[|p| + k + 1..] == s[k + 1..];
      assert pending + (p + s)[..|p| + k + 1] == (pending + p) + s[..k + 1];
    }
  }

  lemma StatementsAdvance(pending: Text, p: Text, s: Text, m: Mode)
    requires Reach(p, ENDS, m) == |p|
    ensures StatementsFrom(pending, p + s, m) == StatementsFrom(pending + p, s, Lex(m, p))
  {
    hide CutAt, Reach, Lex;
    ReachAppend(p, s, ENDS, m);
    CutShifts(pending, p, s, Reach(s, ENDS, Lex(m, p)));
  }

  lemma {:induction false} TrimKeepsSemicolon(s: Text)
    requires s != [] && s[|s| - 1] == SEMICOLON
    ensures Trim(s) != [] && Trim(s)[|Trim(s)| - 1] == SEMICOLON
    ensures StatementText(s) == Trim(s)[..|Trim(s)| - 1]
  {
    if IsBlank(s[0]) { TrimKeepsSemicolon(s[1..]); }
  }

  function ModeOf(inString: bool, escaped: bool): Mode {
    if !inString then Out else if escaped then Esc else In
  }

  /** A rune as the splitter reads it: one whole character, or the replacement for a stray byte. */
  lemma ReadRune(input: Text, i: nat)
    requires i < |input|
    ensures var n := RuneLen(input[i..]);
            var r := if n == 0 then REPLACEMENT else input[i..i + n];
            var w := if n == 0 then 1 else n;
            && Sanitize(input[i..]) == r + Sanitize(input[i + w..])
            && (|r| == 1 || forall k :: 0 <= k < |r| ==> r[k] >= 0x80)
  {
    var n := RuneLen(input[i..]);
    var w := if n == 0 then 1 else n;
    assert input[i..][w..] == input[i + w..] && input[i..][..w] == input[i..i + w];
  }

  lemma {:induction false} HighBytesDoNotStop(r: Text, stops: set<Byte>, m: Mode)
    requires r != [] && forall k :: 0 <= k < |r| ==> r[k] >= 0x80
    requires forall b :: b in stops ==> b < 0x80
    ensures Reach(r, stops, m) == |r| && Lex(m, r) == (if m == Esc then In else m)
  {
    if |r| > 1 { HighBytesDoNotStop(r[1..], stops, Next(m, r[0])); }
  }

  lemma SplitStart(input: Text)
    ensures Statements(Sanitize(input)) == Prepend([], StatementsFrom([], Sanitize(input[0..]), Out))
  {
    assert input[0..] == input;
    PrependNothing(Statements(Sanitize(input)));
  }

  lemma SplitEnd(statements: seq<Text>, b: Text, input: Text, m: Mode)
    ensures Prepend(statements, StatementsFrom(b, Sanitize(input[|input|..]), m)) ==
            if Trim(b) == [] || [45, 45] <= Trim(b) then Ok(statements) else Err
  {
    assert b + [] == b && statements + [] == statements;
  }

  lemma SanitizeNothing()
    ensures Sanitize([]) == []
  {
  }

  lemma StandingIsTraced(text: Text, start: nat, o: nat, m: Mode, trace: seq<Mark>)
    requires Standing(text, start, o, m, trace)
    ensures Traced(text, start, trace, o)
  {
  }

  /** One round of the splitter, in the text it reads. */
  lemma TextAdvances(text: Text, o: nat, m: Mode, trace: seq<Mark>, r: Text, rest: Text)
    requires o <= |text| && text[o..] == r + rest && Standing(text, 0, o, m, trace)
    requires |r| == 1 || (r == [QUOTE, QUOTE] && m == In) || (r != [] && forall k :: 0 <= k < |r| ==> r[k] >= 0x80)
    ensures o + |r| <= |text| && text[o + |r|..] == rest && Standing(text, 0, o + |r|, Lex(m, r), trace + [Mark(o, m)])
    ensures |r| == 1 ==> Lex(m, r) == Next(m, r[0])
  {
    hide Lex, Standing;
    var next := o + |r|;
    assert text[o..][..|r|] == r && text[o..][|r|..] == rest;
    assert text[o..next] == r && text[next..] == rest;
    forall j | o <= j < next ensures text[j] == r[j - o] { assert text[o..next][j - o] == r[j - o]; }
    StandingMoves(text, 0, o, m, trace, next);
    if |r| == 1 {
      assert r == [r[0]];
      LexOne(m, r[0]);
    }
  }

  lemma SemicolonCuts(pending: Text, s: Text)
    ensures StatementsFrom(pending, [SEMICOLON] + s, Out) ==
            Prepend([StatementText(pending + [SEMICOLON])], StatementsFrom([], s, Out))
  {
    assert ([SEMICOLON] + s)[..1] == [SEMICOLON] && ([SEMICOLON] + s)[1..] == s;
  }

  /** The flags of the splitter follow the automaton over one rune, or over a doubled quote. */
  lemma RuneAdvances(r: Text, m: Mode)
    requires (r == [QUOTE, QUOTE] && m == In) || |r| == 1 || (r != [] && forall k :: 0 <= k < |r| ==> r[k] >= 0x80)
    requires r != [SEMICOLON] || m != Out
    ensures Reach(r, ENDS, m) == |r|
    ensures r == [QUOTE, QUOTE] ==> Lex(m, r) == In
    ensures |r| == 1 ==> Lex(m, r) == Next(m, r[0])
    ensures |r| > 1 && r != [QUOTE, QUOTE] ==> Lex(m, r) == (if m == Esc then In else m)
  {
    if |r| == 1 {
    } else if r == [QUOTE, QUOTE] {
      assert r[1..] == [QUOTE] && [QUOTE][1..] == [];
      assert Lex(Out, [QUOTE]) == In;
    } else {
      HighBytesDoNotStop(r, ENDS, m);
    }
  }

  /** The splitter's state before it reads on at `i`: what it has done, and where it stands in the text it
      reads, with which marks behind it. */
  ghost predicate Splitting(
      input: Text, i: nat, statements: seq<Text>, b: Text, inString: bool, escaped: bool, o: nat, trace: seq<Mark>) {
    var text, m := Sanitize(input), ModeOf(inString, escaped);
    && (escaped ==> inString)
    && i <= |input| && o <= |text| && text[o..] == Sanitize(input[i..]) && Standing(text, 0, o, m, trace)
    && Statements(text) == Prepend(statements, StatementsFrom(b, Sanitize(input[i..]), m))
  }

  lemma SplittingBegins(input: Text)
    ensures Splitting(input, 0, [], [], false, false, 0, [])
  {
    SplitStart(input);
    StandingAtStart(Sanitize(input), 0);
    assert input[0..] == input;
  }

  /** What is read in one round: one rune, or a doubled quote inside a literal. */
  predicate IsRead(input: Text, i: nat, j: nat, r: Text, m: Mode) {
    && i < j <= |input| && Sanitize(input[i..]) == r + Sanitize(input[j..])
    && (|r| == 1 || (r == [QUOTE, QUOTE] && m == In) || (r != [] && forall k :: 0 <= k < |r| ==> r[k] >= 0x80))
  }

  predicate IsByte(r: Text, b: Byte) { |r| == 1 && r[0] == b }

  function ModeAfter(m: Mode, r: Text): Mode {
    if |r| == 2 && r[0] == QUOTE && m == In then In else if |r| == 1 then Next(m, r[0]) else if m == Esc then In else m
  }

  lemma SplittingMoves(
      input: Text, i: nat, statements: seq<Text>, b: Text, inString: bool, escaped: bool, o: nat, trace: seq<Mark>,
      j: nat, r: Text, inString': bool, escaped': bool)
    requires Splitting(input, i, statements, b, inString, escaped, o, trace) &&
             IsRead(input, i, j, r, ModeOf(inString, escaped))
    requires !IsByte(r, SEMICOLON) || inString
    requires ModeOf(inString', escaped') == ModeAfter(ModeOf(inString, escaped), r) && (escaped' ==> inString')
    ensures Splitting(input, j, statements, b + r, inString', escaped', o + |r|,
            trace + [Mark(o, ModeOf(inString, escaped))])
  {
    hide Statements, StatementsFrom, Sanitize, Reach, Lex, Standing;
    var m := ModeOf(inString, escaped);
    assert |r| == 2 && r[0] == QUOTE ==> r == [QUOTE, QUOTE];
    TextAdvances(Sanitize(input), o, m, trace, r, Sanitize(input[j..]));
    RuneAdvances(r, m);
    StatementsAdvance(b, r, Sanitize(input[j..]), m);
  }

  lemma SplittingCuts(input: Text, i: nat, statements: seq<Text>, b: Text, o: nat, trace: seq<Mark>, j: nat)
    requires Splitting(input, i, statements, b, false, false, o, trace) && IsRead(input, i, j, [SEMICOLON], Out)
    ensures Splitting(input, j, statements + [StatementText(b + [SEMICOLON])], [], false, false, o + 1,
            trace + [Mark(o, Out)])
  {
    hide Statements, StatementsFrom, Sanitize, Reach, Lex, Standing, StatementText;
    TextAdvances(Sanitize(input), o, Out, trace, [SEMICOLON], Sanitize(input[j..]));
    SemicolonCuts(b, Sanitize(input[j..]));
    PrependPrepend(statements, [StatementText(b + [SEMICOLON])], StatementsFrom([], Sanitize(input[j..]), Out));
  }

  lemma SplittingEnds(
      input: Text, statements: seq<Text>, b: Text, inString: bool, escaped: bool, o: nat, trace: seq<Mark>)
    requires Splitting(input, |input|, statements, b, inString, escaped, o, trace)
    ensures Statements(Sanitize(input)) == if Trim(b) == [] || [45, 45] <= Trim(b) then Ok(statements) else Err
    ensures Traced(Sanitize(input), 0, trace, |Sanitize(input)|)
  {
    SplitEnd(statements, b, input, ModeOf(inString, escaped));
    assert input[|input|..] == [];
    SanitizeNothing();
    hide Statements, StatementsFrom, Sanitize;
  }

  lemma RuneIsRead(input: Text, i: nat, m: Mode)
    requires i < |input|
    ensures IsRead(input, i, i + Width(input, i), RuneAt(input, i), m)
    ensures |RuneAt(input, i)| == 1 || RuneAt(input, i)[0] >= 0x80
  {
    hide Sanitize, RuneLen;
    ReadRune(input, i);
  }

  /** A quote that follows a quote is read along with it. */
  lemma QuotesAreRead(input: Text, i: nat, j: nat)
    requires IsRead(input, i, j, [QUOTE], In) && QuoteFollows(input, j)
    ensures IsRead(input, i, j + 1, [QUOTE, QUOTE], In)
  {
    hide Sanitize;
    ReadRune(input, j);
    assert RuneLen(input[j..]) != 0;
    assert |RuneAt(input, j)| == RuneLen(input[j..]) == 1;
    Assoc([QUOTE], [QUOTE], Sanitize(input[j + 1..]));
    assert [QUOTE] + [QUOTE] == [QUOTE, QUOTE];
  }

  function DropLast(t: Text): Text { if t == [] then [] else t[..|t| - 1] }

  /** The rune at an offset, and how many bytes it takes: one whole character, or the replacement for a stray byte. */
  function RuneAt(input: Text, i: nat): Text
    requires i < |input|
  {
    var n := RuneLen(input[i..]);
    if n == 0 then REPLACEMENT else input[i..i + n]
  }

  function Width(input: Text, i: nat): (w: nat)
    requires i < |input|
    ensures 0 < w && i + w <= |input|
  {
    var n := RuneLen(input[i..]);
    if n == 0 then 1 else n
  }

  /** The second quote of a doubled one is next. */
  predicate QuoteFollows(input: Text, j: nat) { j < |input| && RuneAt(input, j) == [QUOTE] }

  /** What one round of the splitter's loop does in each of its cases. */
  lemma SplittingStep(
      input: Text, i: nat, statements: seq<Text>, b: Text, inString: bool, escaped: bool, o: nat, trace: seq<Mark>)
    requires Splitting(input, i, statements, b, inString, escaped, o, trace) && i < |input| && (escaped ==> inString)
    ensures var r, j := RuneAt(input, i), i + Width(input, i);
            var more, next, doubled := trace + [Mark(o, ModeOf(inString, escaped))], o + |r|, QuoteFollows(input, j);
            && (inString && escaped ==> Splitting(input, j, statements, b + r, true, false, next, more))
            && (inString && !escaped && IsByte(r, BACKSLASH) ==>
                Splitting(input, j, statements, b + r, true, true, next, more))
            && (inString && !escaped && IsByte(r, QUOTE) && doubled ==>
                  Splitting(input, j + 1, statements, b + r + [QUOTE], true, false, next + 1, more))
            && (inString && !escaped && IsByte(r, QUOTE) && !doubled ==>
                  Splitting(input, j, statements, b + r, false, false, next, more))
            && (inString && !escaped && !IsByte(r, BACKSLASH) && !IsByte(r, QUOTE) ==>
                  Splitting(input, j, statements, b + r, true, false, next, more))
            && (!inString && IsByte(r, QUOTE) ==> Splitting(input, j, statements, b + r, true, false, next, more))
            && (!inString && IsByte(r, SEMICOLON) ==>
                  Trim(b + r) != [] && Splitting(input, j, statements + [DropLast(Trim(b + r))], [], false, false,
                    next, more))
            && (!inString && !IsByte(r, QUOTE) && !IsByte(r, SEMICOLON) ==>
                  Splitting(input, j, statements, b + r, false, false, next, more))
  {
    hide Splitting, IsRead, Sanitize, RuneAt, Width, RuneLen, Trim, Statements;
    var m, r := ModeOf(inString, escaped), RuneAt(input, i);
    var j := i + Width(input, i);
    RuneIsRead(input, i, m);
    assert IsRead(input, i, j, r, m);
    var after := ModeAfter(m, r);
    if !inString && IsByte(r, SEMICOLON) {
      assert r == [SEMICOLON];
      TrimKeepsSemicolon(b + r);
      SplittingCuts(input, i, statements, b, o, trace, j);
    } else if m == In && IsByte(r, QUOTE) && QuoteFollows(input, j) {
      assert r == [QUOTE];
      QuotesAreRead(input, i, j);
      Assoc(b, [QUOTE], [QUOTE]);
      assert [QUOTE] + [QUOTE] == [QUOTE, QUOTE];
      SplittingMoves(input, i, statements, b, inString, escaped, o, trace, j + 1, [QUOTE, QUOTE], true, false);
    } else {
      SplittingMoves(input, i, statements, b, inString, escaped, o, trace, j, r, after != Out, after == Esc);
    }
  }

  /** `trace` says where the loop stood in the text it read, and with which flags. */
  method SplitSqlStatements(input: Text) returns (result: Result<seq<Text>>, ghost trace: seq<Mark>)
    ensures result == Statements(Sanitize(input))
    ensures Traced(Sanitize(input), 0, trace, |Sanitize(input)|)
  {
    hide Splitting, Statements, Sanitize, RuneAt, Width, Trim, Traced;
    var statements: seq<Text> := [];
    var b: Text := [];
    var inString, escaped := false, false;
    var i := 0;
    ghost var o: nat := 0;
    trace := [];
    SplittingBegins(input);
    while i < |input|
      invariant i <= |input| && (escaped ==> inString) &&
                Splitting(input, i, statements, b, inString, escaped, o, trace)
    {
      var r := RuneAt(input, i);
      SplittingStep(input, i, statements, b, inString, escaped, o, trace);
      trace, o := trace + [Mark(o, ModeOf(inString, escaped))], o + |r|;
      i := i + Width(input, i);
      b := b + r;
      if inString {
        if escaped {
          escaped := false;
        } else if IsByte(r, BACKSLASH) {
          escaped := true;
        } else if IsByte(r, QUOTE) {
          if QuoteFollows(input, i) {
            b := b + [QUOTE];
            i, o := i + 1, o + 1;
          } else {
            inString := false;
          }
        }
      } else if IsByte(r, QUOTE) {
        inString := true;
      } else if IsByte(r, SEMICOLON) {
        var stmt := Trim(b);
        if stmt != [] { statements := statements + [DropLast(stmt)]; }
        b := [];
      }
    }
    SplittingEnds(input, statements, b, inString, escaped, o, trace);
    var trailing := Trim(b);
    if trailing != [] && !([45, 45] <= trailing) {
      return Err, trace;
    }
    return Ok(statements), trace;
  }
}
