/** The tuple parser of the dump reader, and printing: what a printed value, tuple or tuple list reads
    back as. */
module DumpTuples {
  import opened DumpText
  import opened DumpLexing

  datatype SqlValue = Null | Val(text: Text)

  /** The bytes a field stands for: what is outside quotes is kept, what is inside is unescaped. */
  function Decode(s: Text, m: Mode): Text
    decreases |s|
  {
    if s == [] then []
    else match m
      case Out => if s[0] == QUOTE then Decode(s[1..], In) else [s[0]] + Decode(s[1..], Out)
      case In =>
        if s[0] == BACKSLASH then Decode(s[1..], Esc)
        else if s[0] == QUOTE then
          (if |s| > 1 && s[1] == QUOTE then [QUOTE] + Decode(s[2..], In) else Decode(s[1..], Out))
        else [s[0]] + Decode(s[1..], In)
      case Esc => [Unescape(s[0])] + Decode(s[1..], In)
  }

  function UpperByte(b: Byte): Byte { if 97 <= b <= 122 then b - 32 else b }

  function Upper(s: Text): Text {
    if s == [] then [] else [UpperByte(s[0])] + Upper(s[1..])
  }

  /** The four letters NULL. */
  const NULL_TEXT: Text := [78, 85, 76, 76]

  function FinishValue(raw: Text, quoted: bool): SqlValue {
    if !quoted && Upper(Trim(raw)) == NULL_TEXT then Null
    else if quoted then Val(raw)
    else Val(Trim(raw))
  }

  function FieldValue(field: Text): SqlValue { FinishValue(Decode(field, Out), QUOTE in field) }

  datatype Parsed = Parsed(values: seq<SqlValue>, rest: Text)

  /** The tuple at the front of `s`, after its opening parenthesis: fields end at the commas outside
      every literal, the tuple at the first such closing parenthesis. */
  function Tuple(s: Text): Result<Parsed>
    decreases |s|
  {
    var k := Reach(s, VALUE_ENDS, Out);
    if k == |s| then Err
    else if s[k] == CLOSE then Ok(Parsed([FieldValue(s[..k])], s[k + 1..]))
    else match Tuple(s[k + 1..])
      case Ok(p) => Ok(Parsed([FieldValue(s[..k])] + p.values, p.rest))
      case Err => Err
  }

  /** How far the parser is inside the field that starts at `start`. */
  ghost predicate InField(input: Text, start: nat, i: nat, m: Mode, b: Text, quoted: bool) {
    && start <= i <= |input|
    && Reach(input[start..], VALUE_ENDS, Out) == i - start + Reach(input[i..], VALUE_ENDS, m)
    && (var e := i + Reach(input[i..], VALUE_ENDS, m);
        Decode(input[start..e], Out) == b + Decode(input[i..e], m))
    && (quoted <==> QUOTE in input[start..i])
    && (m != Out ==> quoted)
  }

  lemma FieldBegins(input: Text, i: nat)
    requires i <= |input|
    ensures InField(input, i, i, Out, [], false)
  {
    var e := i + Reach(input[i..], VALUE_ENDS, Out);
    assert [] + Decode(input[i..e], Out) == Decode(input[i..e], Out);
  }

  /** The byte the parser writes for `b` in mode `m`. */
  function Emitted(m: Mode, b: Byte): Text {
    match m
    case Out => if b == QUOTE then [] else [b]
    case In => if b == QUOTE || b == BACKSLASH then [] else [b]
    case Esc => [Unescape(b)]
  }

  lemma DecodeStep(s: Text, m: Mode)
    requires s != [] && !(m == In && s[0] == QUOTE && |s| > 1 && s[1] == QUOTE)
    ensures Decode(s, m) == Emitted(m, s[0]) + Decode(s[1..], Next(m, s[0]))
  {
    var d := Decode(s[1..], Next(m, s[0]));
    assert [] + d == d;
  }

  lemma ReachStep(input: Text, i: nat, m: Mode)
    requires i < |input| && !(m == Out && input[i] in VALUE_ENDS)
    ensures Reach(input[i..], VALUE_ENDS, m) == 1 + Reach(input[i + 1..], VALUE_ENDS, Next(m, input[i]))
  {
    assert input[i..][1..] == input[i + 1..];
  }

  lemma DecodeFieldStep(input: Text, i: nat, e: nat, m: Mode, b: Text)
    requires i < e <= |input|
    requires !(m == In && input[i] == QUOTE && i + 1 < |input| && input[i + 1] == QUOTE)
    ensures b + Decode(input[i..e], m) == (b + Emitted(m, input[i])) + Decode(input[i + 1..e], Next(m, input[i]))
  {
    hide Decode;
    DecodeStep(input[i..e], m);
    assert input[i..e][1..] == input[i + 1..e];
  }

  /** One byte that ends no value, and is not the first half of a doubled quote. */
  lemma FieldGoesOn(input: Text, start: nat, i: nat, m: Mode, b: Text, quoted: bool)
    requires InField(input, start, i, m, b, quoted) && i < |input|
    requires m == Out ==> input[i] !in VALUE_ENDS
    requires !(m == In && input[i] == QUOTE && i + 1 < |input| && input[i + 1] == QUOTE)
    ensures InField(input, start, i + 1, Next(m, input[i]), b + Emitted(m, input[i]), quoted || input[i] == QUOTE)
  {
    hide Reach, Decode, Emitted;
    ReachStep(input, i, m);
    DecodeFieldStep(input, i, i + Reach(input[i..], VALUE_ENDS, m), m, b);
    assert input[start..i + 1] == input[start..i] + [input[i]];
  }

  lemma DecodeDoubledQuote(s: Text)
    requires |s| > 1 && s[0] == QUOTE && s[1] == QUOTE
    ensures Decode(s, In) == [QUOTE] + Decode(s[2..], In)
  {
  }

  lemma FieldDoubledQuote(input: Text, start: nat, i: nat, b: Text, quoted: bool)
    requires InField(input, start, i, In, b, quoted) && i + 1 < |input| && input[i] == QUOTE && input[i + 1] == QUOTE
    ensures InField(input, start, i + 2, In, b + [QUOTE], quoted)
  {
    hide Reach, Decode;
    ReachStep(input, i, In);
    ReachStep(input, i + 1, Out);
    var e := i + Reach(input[i..], VALUE_ENDS, In);
    DecodeDoubledQuote(input[i..e]);
    assert input[i..e][2..] == input[i + 2..e];
    var d := Decode(input[i + 2..e], In);
    assert b + ([QUOTE] + d) == (b + [QUOTE]) + d;
    assert QUOTE in input[start..i + 2] by { assert input[start..i + 2][i - start] == QUOTE; }
  }

  lemma FieldEnds(input: Text, start: nat, i: nat, b: Text, quoted: bool)
    requires InField(input, start, i, Out, b, quoted) && i < |input| && input[i] in VALUE_ENDS
    ensures Reach(input[start..], VALUE_ENDS, Out) == i - start
    ensures FieldValue(input[start..i]) == FinishValue(b, quoted)
    ensures input[start..][..i - start] == input[start..i] && input[start..][i - start + 1..] == input[i + 1..]
    ensures input[start..][i - start] == input[i]
  {
    assert input[i..i] == [] && b + [] == b;
  }

  function Ahead(values: seq<SqlValue>, r: Result<Parsed>): Result<Parsed> {
    match r
    case Ok(p) => Ok(Parsed(values + p.values, p.rest))
    case Err => Err
  }

  lemma AheadOfNothing(r: Result<Parsed>)
    ensures Ahead([], r) == r
  {
    if r.Ok? { assert [] + r.value.values == r.value.values; }
  }

  lemma AheadAhead(a: seq<SqlValue>, v: SqlValue, r: Result<Parsed>)
    ensures Ahead(a, Ahead([v], r)) == Ahead(a + [v], r)
  {
    if r.Ok? { assert a + ([v] + r.value.values) == (a + [v]) + r.value.values; }
  }

  /** The parser's state at offset `i`: `values` are read, the current field began at `field`. */
  ghost predicate Parsing(
      input: Text, start: nat, field: nat, i: nat, values: seq<SqlValue>, m: Mode, b: Text, quoted: bool) {
    && start <= field <= i <= |input|
    && InField(input, field, i, m, b, quoted)
    && Tuple(input[start..]) == Ahead(values, Tuple(input[field..]))
  }

  lemma ParsingBegins(input: Text, start: nat)
    requires start <= |input|
    ensures Parsing(input, start, start, start, [], Out, [], false)
  {
    FieldBegins(input, start);
    AheadOfNothing(Tuple(input[start..]));
  }

  lemma ParsingGoesOn(
      input: Text, start: nat, field: nat, i: nat, values: seq<SqlValue>, m: Mode, b: Text, quoted: bool)
    requires Parsing(input, start, field, i, values, m, b, quoted) && i < |input|
    requires m == Out ==> input[i] !in VALUE_ENDS
    requires !(m == In && input[i] == QUOTE && i + 1 < |input| && input[i + 1] == QUOTE)
    ensures var after, quotes := b + Emitted(m, input[i]), quoted || input[i] == QUOTE;
            Parsing(input, start, field, i + 1, values, Next(m, input[i]), after, quotes)
    ensures m != Out ==> quoted
  {
    FieldGoesOn(input, field, i, m, b, quoted);
  }

  lemma ParsingDoubledQuote(input: Text, start: nat, field: nat, i: nat, values: seq<SqlValue>, b: Text, quoted: bool)
    requires Parsing(input, start, field, i, values, In, b, quoted)
    requires i + 1 < |input| && input[i] == QUOTE && input[i + 1] == QUOTE
    ensures Parsing(input, start, field, i + 2, values, In, b + [QUOTE], quoted)
  {
    FieldDoubledQuote(input, field, i, b, quoted);
  }

  lemma ParsingComma(input: Text, start: nat, field: nat, i: nat, values: seq<SqlValue>, b: Text, quoted: bool)
    requires Parsing(input, start, field, i, values, Out, b, quoted) && i < |input| && input[i] == COMMA
    ensures Parsing(input, start, i + 1, i + 1, values + [FinishValue(b, quoted)], Out, [], false)
  {
    FieldBegins(input, i + 1);
    FieldEnds(input, field, i, b, quoted);
    assert Tuple(input[field..]) == Ahead([FieldValue(input[field..i])], Tuple(input[i + 1..]));
    AheadAhead(values, FinishValue(b, quoted), Tuple(input[i + 1..]));
  }

  lemma ParsingCloses(input: Text, start: nat, field: nat, i: nat, values: seq<SqlValue>, b: Text, quoted: bool)
    requires Parsing(input, start, field, i, values, Out, b, quoted) && i < |input| && input[i] == CLOSE
    ensures Tuple(input[start..]) == Ok(Parsed(values + [FinishValue(b, quoted)], input[i + 1..]))
  {
    FieldEnds(input, field, i, b, quoted);
    assert Tuple(input[field..]) == Ok(Parsed([FieldValue(input[field..i])], input[i + 1..]));
  }

  lemma ParsingEnds(
      input: Text, start: nat, field: nat, values: seq<SqlValue>, inString: bool, escaped: bool, b: Text, quoted: bool)
    requires At(input, start, field, |input|, values, inString, escaped, b, quoted) && start <= |input|
    ensures IsTupleAt(input, start, Err)
  {
  }

  /** A result of the parser: the values read and the offset after the tuple. */
  ghost predicate IsTupleAt(input: Text, start: nat, result: Result<(seq<SqlValue>, nat)>)
    requires start <= |input|
  {
    match result
    case Err => Tuple(input[start..]) == Err
    case Ok(r) => start < r.1 <= |input| && Tuple(input[start..]) == Ok(Parsed(r.0, input[r.1..]))
  }

  /** The parser's state in terms of its own variables. */
  ghost predicate At(
      input: Text, start: nat, field: nat, i: nat, values: seq<SqlValue>, inString: bool, escaped: bool, b: Text,
      quoted: bool) {
    (escaped ==> inString) && Parsing(input, start, field, i, values, ModeOf(inString, escaped), b, quoted)
  }

  lemma ParsingBounds(
      input: Text, start: nat, field: nat, i: nat, values: seq<SqlValue>, m: Mode, b: Text, quoted: bool)
    requires Parsing(input, start, field, i, values, m, b, quoted)
    ensures start <= field <= i <= |input|
  {}

  lemma InsideGoesOn(input: Text, start: nat, field: nat, i: nat, values: seq<SqlValue>, m: Mode, b: Text, quoted: bool)
    requires Parsing(input, start, field, i, values, m, b, quoted) && i < |input| && m != Out
    requires !(m == In && input[i] == QUOTE && i + 1 < |input| && input[i + 1] == QUOTE)
    ensures var ch := input[i];
            && (m == Esc ==> Parsing(input, start, field, i + 1, values, In, b + [Unescape(ch)], quoted))
            && (m == In && ch == BACKSLASH ==> Parsing(input, start, field, i + 1, values, Esc, b, quoted))
            && (m == In && ch == QUOTE ==> Parsing(input, start, field, i + 1, values, Out, b, quoted))
            && (m == In && ch != BACKSLASH && ch != QUOTE ==>
                Parsing(input, start, field, i + 1, values, In, b + [ch], quoted))
  {
    hide Parsing, Unescape;
    ParsingGoesOn(input, start, field, i, values, m, b, quoted);
    assert b + [] == b;
  }

  lemma OutsideGoesOn(input: Text, start: nat, field: nat, i: nat, values: seq<SqlValue>, b: Text, quoted: bool)
    requires Parsing(input, start, field, i, values, Out, b, quoted) && i < |input| && input[i] !in VALUE_ENDS
    ensures var ch := input[i];
            && (ch == QUOTE ==> Parsing(input, start, field, i + 1, values, In, b, true))
            && (ch != QUOTE ==> Parsing(input, start, field, i + 1, values, Out, b + [ch], quoted))
  {
    hide Parsing;
    ParsingGoesOn(input, start, field, i, values, Out, b, quoted);
    assert b + [] == b;
  }

  /** What one round of the parser's loop does in each of its cases. */
  lemma ParsingStep(
      input: Text, start: nat, field: nat, i: nat, values: seq<SqlValue>, inString: bool, escaped: bool, b: Text,
        quoted: bool)
    requires At(input, start, field, i, values, inString, escaped, b, quoted) && i < |input|
    ensures var ch := input[i];
            var doubled := ch == QUOTE && i + 1 < |input| && input[i + 1] == QUOTE;
            && start <= field <= i
            && (inString && escaped ==> At(input, start, field, i + 1, values, true, false, b + [Unescape(ch)], quoted))
            && (inString && !escaped && ch == BACKSLASH ==>
                At(input, start, field, i + 1, values, true, true, b, quoted))
            && (inString && !escaped && doubled ==>
                At(input, start, field, i + 2, values, true, false, b + [QUOTE], quoted))
            && (inString && !escaped && ch == QUOTE && !doubled ==>
                  At(input, start, field, i + 1, values, false, false, b, quoted))
            && (inString && !escaped && ch != BACKSLASH && ch != QUOTE ==>
                  At(input, start, field, i + 1, values, true, false, b + [ch], quoted))
            && (!inString && ch == QUOTE ==> At(input, start, field, i + 1, values, true, false, b, true))
            && (!inString && ch == COMMA ==>
                  At(input, start, i + 1, i + 1, values + [FinishValue(b, quoted)], false, false, [], false))
            && (!inString && ch == CLOSE ==> IsTupleAt(input, start, Ok((values + [FinishValue(b, quoted)], i + 1))))
            && (!inString && ch != QUOTE && ch != COMMA && ch != CLOSE ==>
                  At(input, start, field, i + 1, values, false, false, b + [ch], quoted))
  {
    hide Parsing, Tuple, FinishValue, Unescape;
    var ch, m := input[i], ModeOf(inString, escaped);
    ParsingBounds(input, start, field, i, values, m, b, quoted);
    if m == Out && ch == COMMA {
      ParsingComma(input, start, field, i, values, b, quoted);
    } else if m == Out && ch == CLOSE {
      ParsingCloses(input, start, field, i, values, b, quoted);
    } else if m == In && ch == QUOTE && i + 1 < |input| && input[i + 1] == QUOTE {
      ParsingDoubledQuote(input, start, field, i, values, b, quoted);
    } else if m == Out {
      OutsideGoesOn(input, start, field, i, values, b, quoted);
    } else {
      InsideGoesOn(input, start, field, i, values, m, b, quoted);
    }
  }

  lemma InTuple(input: Text, start: nat, result: Result<(seq<SqlValue>, nat)>)
    requires start <= |input| && IsTupleAt(input, start, result) && result.Ok?
    ensures start < result.value.1 <= |input|
  {
  }

  /** `trace` says where the loop stood, and with which flags. */
  method ParseTuple(input: Text, start: nat) returns (result: Result<(seq<SqlValue>, nat)>, ghost trace: seq<Mark>)
    requires start <= |input|
    ensures IsTupleAt(input, start, result)
    ensures Traced(input, start, trace, if result.Ok? then result.value.1 else |input|)
  {
    hide Parsing, Tuple, FinishValue, Unescape, IsTupleAt, Standing, Traced;
    var values: seq<SqlValue> := [];
    var b: Text := [];
    var inString, escaped, valueQuoted := false, false, false;
    ghost var field := start;
    var i := start;
    ParsingBegins(input, start);
    trace := [];
    StandingAtStart(input, start);
    while i < |input|
      invariant start <= field <= i <= |input|
      invariant At(input, start, field, i, values, inString, escaped, b, valueQuoted)
      invariant Standing(input, start, i, ModeOf(inString, escaped), trace)
    {
      var ch := input[i];
      StandingOverByte(input, start, i, ModeOf(inString, escaped), trace);
      trace := trace + [Mark(i, ModeOf(inString, escaped))];
      ParsingStep(input, start, field, i, values, inString, escaped, b, valueQuoted);
      if inString {
        if escaped {
          b := b + [Unescape(ch)];
          escaped := false;
        } else if ch == BACKSLASH {
          escaped := true;
        } else if ch == QUOTE {
          if i + 1 < |input| && input[i + 1] == QUOTE {
            b := b + [QUOTE];
            i := i + 1;
          } else {
            inString := false;
          }
        } else {
          b := b + [ch];
        }
      } else if ch == QUOTE {
        inString, valueQuoted := true, true;
      } else if ch == COMMA {
        values := values + [FinishValue(b, valueQuoted)];
        b := [];
        valueQuoted := false;
        field := i + 1;
      } else if ch == CLOSE {
        values := values + [FinishValue(b, valueQuoted)];
        StandingIsTraced(input, start, i + 1, Out, trace);
        InTuple(input, start, Ok((values, i + 1)));
        return Ok((values, i + 1)), trace;
      } else {
        b := b + [ch];
      }
      i := i + 1;
    }
    ParsingEnds(input, start, field, values, inString, escaped, b, valueQuoted);
    StandingIsTraced(input, start, i, ModeOf(inString, escaped), trace);
    return Err, trace;
  }

  // ----- Tuple lists -----

  predicate IsSeparator(b: Byte) { b == COMMA || b == SPACE || b == NEWLINE || b == TAB }

  function SkipSeparators(s: Text): (t: Text)
    ensures |t| <= |s| && (t != [] ==> !IsSeparator(t[0]))
  {
    if s != [] && IsSeparator(s[0]) then SkipSeparators(s[1..]) else s
  }

  lemma {:induction false} TupleShrinks(s: Text)
    ensures Tuple(s).Ok? ==> |Tuple(s).value.rest| < |s|
    decreases |s|
  {
    var k := Reach(s, VALUE_ENDS, Out);
    if k < |s| && s[k] != CLOSE { TupleShrinks(s[k + 1..]); }
  }

  function Tuples(s: Text): Result<seq<seq<SqlValue>>>
    decreases |s|
  {
    var t := SkipSeparators(s);
    if t == [] then Ok([])
    else if t[0] != OPEN then Err
    else match Tuple(t[1..])
      case Err => Err
      case Ok(p) => TupleShrinks(t[1..]); Prepend([p.values], Tuples(p.rest))
  }

  lemma TuplesStep(input: Text, from: nat, i: nat, result: Result<(seq<SqlValue>, nat)>)
    requires from <= i < |input| && SkipSeparators(input[from..]) == input[i..] && input[i] == OPEN
    requires IsTupleAt(input, i + 1, result)
    ensures result.Err? ==> Tuples(input[from..]) == Err
    ensures result.Ok? ==>
              && i < result.value.1 <= |input|
              && Tuples(input[from..]) == Prepend([result.value.0], Tuples(input[result.value.1..]))
  {
    hide Tuple, SkipSeparators;
    assert input[i..][1..] == input[i + 1..];
  }

  lemma TuplesEnd(input: Text, from: nat, i: nat)
    requires from <= i <= |input| && SkipSeparators(input[from..]) == input[i..]
    ensures i == |input| ==>
            Tuples(input[from..]) == Ok([]) && forall done :: Prepend(done, Tuples(input[from..])) == Ok(done)
    ensures i < |input| && input[i] != OPEN ==> Tuples(input[from..]) == Err
  {
    if i == |input| {
      assert input[i..] == [];
      forall done: seq<seq<SqlValue>> ensures done + [] == done { }
    }
  }

  // ----- The two lexers agree -----

  /** A statement the splitter cuts off never ends inside a literal, so the tuple parser, which starts
      from the same state, cannot be caught inside a literal by the end of the statement either. */
  lemma CutsLieOutside(s: Text)
    requires Reach(s, ENDS, Out) < |s|
    ensures Lex(Out, s[..Reach(s, ENDS, Out)]) == Out
  {
    ReachIsFirst(s, ENDS, Out, Reach(s, ENDS, Out));
  }

  lemma ValueEndStaysOutside(b: Byte)
    requires b in VALUE_ENDS
    ensures Lex(Out, [b]) == Out
  {
    assert [b][1..] == [];
  }

  lemma OutsideAfterValue(s: Text)
    requires Reach(s, VALUE_ENDS, Out) < |s|
    ensures Lex(Out, s[..Reach(s, VALUE_ENDS, Out) + 1]) == Out
  {
    hide Reach, Lex;
    var k := Reach(s, VALUE_ENDS, Out);
    ReachIsFirst(s, VALUE_ENDS, Out, k);
    assert s[..k + 1] == s[..k] + [s[k]];
    LexAppend(Out, s[..k], [s[k]]);
    ValueEndStaysOutside(s[k]);
  }

  lemma OutsideJoins(s: Text, k: nat, m: nat)
    requires k <= |s| && m <= |s[k..]| && Lex(Out, s[..k]) == Out && Lex(Out, s[k..][..m]) == Out
    ensures Lex(Out, s[..k + m]) == Out
  {
    hide Lex;
    LexAppend(Out, s[..k], s[k..][..m]);
    assert s[..k + m] == s[..k] + s[k..][..m];
  }

  /** Where the tuple parser ends a tuple, the splitter's automaton is outside every literal too. */
  lemma {:induction false} TupleEndsOutside(s: Text)
    requires Tuple(s).Ok? && |Tuple(s).value.rest| <= |s|
    ensures Lex(Out, s[..|s| - |Tuple(s).value.rest|]) == Out
    decreases |s|
  {
    hide Reach, Lex;
    var k := Reach(s, VALUE_ENDS, Out);
    OutsideAfterValue(s);
    if s[k] != CLOSE {
      var t := s[k + 1..];
      TupleShrinks(t);
      TupleEndsOutside(t);
      OutsideJoins(s, k + 1, |t| - |Tuple(t).value.rest|);
      assert Tuple(s).value.rest == Tuple(t).value.rest;
    }
  }

  /** Wherever both loops stand, they agree whether they are inside a literal.  `split` is the splitter's
      trace over the text it reads; a statement begins at `from`, outside every literal; its values begin at
      `at` behind a part without quotes; `parse` is the tuple parser's trace over them from `start` on. */
  lemma LexersAgree(
      text: Text, split: seq<Mark>, from: nat, at: nat, values: Text, start: nat, parse: seq<Mark>, end: nat, k: nat,
      l: nat)
    requires Traced(text, 0, split, |text|) && from <= at && at + |values| <= |text| &&
             text[at..at + |values|] == values
    requires Lex(Out, text[..from]) == Out && QUOTE !in text[from..at]
    requires Traced(values, start, parse, end) && Lex(Out, values[..start]) == Out
    requires k < |split| && l < |parse| && split[k].offset == at + parse[l].offset
    ensures split[k].mode == parse[l].mode
  {
    hide Lex, Traced;
    var i := parse[l].offset;
    MarkIsMode(values, start, parse, end, l);
    MarkIsMode(text, 0, split, |text|, k);
    QuietText(text[from..at]);
    LexCut(text, from, at);
    LexCut(text, at, at + i);
    LexCut(values, start, i);
    Prefix(text, at, values, i);
    assert text[0..at + i] == text[..at + i];
  }

  lemma MarkIsMode(text: Text, start: nat, trace: seq<Mark>, end: nat, k: nat)
    requires Traced(text, start, trace, end) && k < |trace|
    ensures start <= trace[k].offset < end <= |text| && Lex(Out, text[start..trace[k].offset]) == trace[k].mode
  {
  }

  lemma LexCut(text: Text, a: nat, b: nat)
    requires a <= b <= |text| && Lex(Out, text[..a]) == Out
    ensures Lex(Out, text[..b]) == Lex(Out, text[a..b])
  {
    hide Lex;
    LexAppend(Out, text[..a], text[a..b]);
    assert text[..b] == text[..a] + text[a..b];
  }

  lemma Prefix(text: Text, at: nat, values: Text, i: nat)
    requires at + |values| <= |text| && text[at..at + |values|] == values && i <= |values|
    ensures text[at..at + i] == values[..i]
  {
    assert text[at..at + |values|][..i] == text[at..at + i];
  }

  lemma {:induction false} QuietText(s: Text)
    requires QUOTE !in s
    ensures Lex(Out, s) == Out
  {
    if s != [] { QuietText(s[1..]); }
  }

  // ----- Lists of tuples -----

  /** The separators before a tuple. */
  method PassSeparators(input: Text, from: nat) returns (i: nat)
    requires from <= |input| && Lex(Out, input[..from]) == Out
    ensures from <= i <= |input| && SkipSeparators(input[from..]) == input[i..] && Lex(Out, input[..i]) == Out
  {
    hide Lex;
    i := from;
    while i < |input| && IsSeparator(input[i])
      invariant from <= i <= |input| && Lex(Out, input[..i]) == Out
      invariant SkipSeparators(input[from..]) == SkipSeparators(input[i..])
    {
      assert input[i..][1..] == input[i + 1..];
      OutsideOverByte(input, i);
      i := i + 1;
    }
  }

  /** `starts` are the offsets behind the opening parentheses, where the tuple parser sets out. */
  method ParseTuples(input: Text) returns (result: Result<seq<seq<SqlValue>>>, ghost starts: seq<nat>)
    ensures result == Tuples(input)
    ensures forall k :: 0 <= k < |starts| ==> starts[k] <= |input| && Lex(Out, input[..starts[k]]) == Out
  {
    hide Tuple, Tuples, IsTupleAt, Lex, Prepend;
    var tuples: seq<seq<SqlValue>> := [];
    var i := 0;
    starts := [];
    assert input[0..] == input && input[..0] == [];
    LexNothing(Out);
    PrependNothing(Tuples(input));
    while i < |input|
      invariant i <= |input| && Lex(Out, input[..i]) == Out
      invariant Tuples(input) == Prepend(tuples, Tuples(input[i..]))
      invariant forall k :: 0 <= k < |starts| ==> starts[k] <= |input| && Lex(Out, input[..starts[k]]) == Out
    {
      ghost var from := i;
      i := PassSeparators(input, i);
      TuplesEnd(input, from, i);
      TuplesDone(tuples);
      if i >= |input| { return Ok(tuples), starts; }
      if input[i] != OPEN {
        TuplesRefused(tuples);
        return Err, starts;
      }
      OutsideOverByte(input, i);
      starts := starts + [i + 1];
      var tuple, _ := ParseTuple(input, i + 1);
      TuplesStep(input, from, i, tuple);
      if tuple.Err? {
        TuplesRefused(tuples);
        return Err, starts;
      }
      OutsideOverTuple(input, i + 1, tuple);
      PrependPrepend(tuples, [tuple.value.0], Tuples(input[tuple.value.1..]));
      tuples := tuples + [tuple.value.0];
      i := tuple.value.1;
    }
    TuplesEnd(input, i, i);
    TuplesDone(tuples);
    return Ok(tuples), starts;
  }

  lemma TuplesDone(tuples: seq<seq<SqlValue>>)
    ensures Prepend(tuples, Ok([])) == Ok(tuples)
  {
    assert tuples + [] == tuples;
  }

  lemma TuplesRefused(tuples: seq<seq<SqlValue>>)
    ensures Prepend(tuples, Err) == Err
  {
  }

  lemma LexNothing(m: Mode)
    ensures Lex(m, []) == m
  {
  }

  lemma OutsideOverByte(input: Text, i: nat)
    requires i < |input| && input[i] != QUOTE && Lex(Out, input[..i]) == Out
    ensures Lex(Out, input[..i + 1]) == Out
  {
    LexOne(Out, input[i]);
    hide Lex;
    LexAppend(Out, input[..i], [input[i]]);
    assert input[..i + 1] == input[..i] + [input[i]];
  }

  lemma OutsideOverTuple(input: Text, start: nat, result: Result<(seq<SqlValue>, nat)>)
    requires start <= |input| && IsTupleAt(input, start, result) && result.Ok? && Lex(Out, input[..start]) == Out
    ensures start < result.value.1 <= |input| && Lex(Out, input[..result.value.1]) == Out
  {
    hide Tuple, Lex;
    TupleEndsOutside(input[start..]);
    OutsideJoins(input, start, result.value.1 - start);
  }

  // ----- Printing -----

  /** What a dump can hold: NULL, a quoted string, or a bare token such as a number. */
  datatype Field = FNull | FQuoted(text: Text) | FBare(token: Text)

  /** A bare token contains nothing the lexers react to, has no blanks around it and is not NULL. */
  predicate IsToken(s: Text) {
    && (forall k :: 0 <= k < |s| ==>
        s[k] < 0x80 && s[k] != QUOTE && s[k] != COMMA && s[k] != CLOSE && s[k] != SEMICOLON)
    && Trim(s) == s && Upper(s) != NULL_TEXT
  }

  predicate Printable(f: Field) { f.FBare? ==> IsToken(f.token) }

  function PrintField(f: Field): Text {
    match f
    case FNull => NULL_TEXT
    case FQuoted(t) => [QUOTE] + Escape(t) + [QUOTE]
    case FBare(t) => t
  }

  function Meaning(f: Field): SqlValue {
    match f
    case FNull => Null
    case FQuoted(t) => Val(t)
    case FBare(t) => Val(t)
  }

  function PrintFields(fs: seq<Field>): Text {
    if fs == [] then []
    else if |fs| == 1 then PrintField(fs[0])
    else PrintField(fs[0]) + [COMMA] + PrintFields(fs[1..])
  }

  function PrintTuple(fs: seq<Field>): Text { [OPEN] + PrintFields(fs) + [CLOSE] }

  /** A list of tuples, with the same text between any two of them. */
  function PrintTuples(ts: seq<seq<Field>>, between: Text): Text {
    if ts == [] then []
    else if |ts| == 1 then PrintTuple(ts[0])
    else PrintTuple(ts[0]) + (between + PrintTuples(ts[1..], between))
  }

  function Meanings(fs: seq<Field>): seq<SqlValue> {
    if fs == [] then [] else [Meaning(fs[0])] + Meanings(fs[1..])
  }

  function TupleMeanings(ts: seq<seq<Field>>): seq<seq<SqlValue>> {
    if ts == [] then [] else [Meanings(ts[0])] + TupleMeanings(ts[1..])
  }

  /** No byte of an escaped string ends the literal it stands in. */
  lemma {:induction false} EscapedStaysInside(t: Text, stops: set<Byte>)
    ensures Reach(Escape(t), stops, In) == |Escape(t)| && Lex(In, Escape(t)) == In
  {
    if t != [] {
      EscapedStaysInside(t[1..], stops);
      var p := EscapeByte(t[0]);
      EscapedByteStaysInside(t[0], stops);
      ReachAppend(p, Escape(t[1..]), stops, In);
      LexAppend(In, p, Escape(t[1..]));
    }
  }

  lemma EscapedByteStaysInside(b: Byte, stops: set<Byte>)
    ensures Reach(EscapeByte(b), stops, In) == |EscapeByte(b)| && Lex(In, EscapeByte(b)) == In
  {
    var p := EscapeByte(b);
    if |p| == 2 { assert Lex(Esc, p[1..]) == In; } else { assert p[1..] == []; }
  }

  lemma LiteralIsCrossed(t: Text, stops: set<Byte>)
    requires QUOTE !in stops
    ensures var p := [QUOTE] + Escape(t) + [QUOTE];
            Reach(p, stops, Out) == |p| && Lex(Out, p) == Out
  {
    EscapedStaysInside(t, stops);
    var e := Escape(t);
    var p := [QUOTE] + e + [QUOTE];
    assert [QUOTE][1..] == [];
    ReachAppend(e, [QUOTE], stops, In);
    LexAppend(In, e, [QUOTE]);
    assert p[1..] == e + [QUOTE];
  }

  lemma {:induction false} TokenIsCrossed(t: Text, stops: set<Byte>)
    requires forall k :: 0 <= k < |t| ==> t[k] != QUOTE && t[k] !in stops
    ensures Reach(t, stops, Out) == |t| && Lex(Out, t) == Out && Decode(t, Out) == t
  {
    if t != [] { TokenIsCrossed(t[1..], stops); }
  }

  /** Unescaping undoes escaping. */
  lemma {:induction false} DecodeEscape(t: Text)
    ensures Decode(Escape(t) + [QUOTE], In) == t
  {
    hide Decode, EscapeByte;
    if t == [] {
      assert Escape(t) + [QUOTE] == [QUOTE];
      DecodeClosing();
    } else {
      DecodeEscape(t[1..]);
      DecodeEscapedByte(t[0], Escape(t[1..]) + [QUOTE]);
      Assoc(EscapeByte(t[0]), Escape(t[1..]), [QUOTE]);
    }
  }

  lemma DecodeClosing()
    ensures Decode([QUOTE], In) == []
  {
    assert [QUOTE][1..] == [];
  }

  lemma DecodeEscapedByte(b: Byte, rest: Text)
    ensures Decode(EscapeByte(b) + rest, In) == [b] + Decode(rest, In)
  {
    var p := EscapeByte(b);
    var s := p + rest;
    if |p| == 2 {
      assert s[1..] == [p[1]] + rest && s[1..][1..] == rest;
    } else {
      assert s[1..] == rest;
    }
  }

  lemma FieldRoundTrip(f: Field)
    requires Printable(f)
    ensures var p := PrintField(f);
            Reach(p, VALUE_ENDS, Out) == |p| && Lex(Out, p) == Out && FieldValue(p) == Meaning(f)
  {
    var p := PrintField(f);
    match f
    case FNull =>
      TokenIsCrossed(p, VALUE_ENDS);
      NullReadsNull();
    case FQuoted(t) =>
      LiteralIsCrossed(t, VALUE_ENDS);
      DecodeEscape(t);
      assert p[1..] == Escape(t) + [QUOTE] && p[0] == QUOTE;
    case FBare(t) =>
      TokenIsCrossed(p, VALUE_ENDS);
  }

  lemma NullReadsNull()
    ensures Upper(Trim(NULL_TEXT)) == NULL_TEXT
  {
    assert Trim(NULL_TEXT) == NULL_TEXT;
    assert NULL_TEXT[1..] == [85, 76, 76] && [85, 76, 76][1..] == [76, 76] && [76, 76][1..] == [76] && [76][1..] == [];
    assert Upper([76]) == [76];
    assert Upper([76, 76]) == [76, 76];
    assert Upper([85, 76, 76]) == [85, 76, 76];
  }

  /** One character of a literal: itself, a doubled quote, or a byte after a backslash. */
  datatype Piece = Plain(b: Byte) | Doubled | Escaped(b: Byte)

  function Spelling(ps: seq<Piece>): Text {
    if ps == [] then []
    else (match ps[0] case Plain(b) => [b] case Doubled => [QUOTE, QUOTE] case Escaped(b) => [BACKSLASH, b])
         + Spelling(ps[1..])
  }

  /** The byte a piece stands for: after a backslash 0, n, r, t, b and Z stand for control characters and every
      other byte for itself. */
  predicate StandsFor(p: Piece, b: Byte) {
    match p
    case Plain(c) => b == c
    case Doubled => b == 39
    case Escaped(c) =>
      && (c == 48 ==> b == 0) && (c == 110 ==> b == 10) && (c == 114 ==> b == 13)
      && (c == 116 ==> b == 9) && (c == 98 ==> b == 8) && (c == 90 ==> b == 26)
      && (c !in {48, 110, 114, 116, 98, 90} ==> b == c)
  }

  predicate IsSpelling(ps: seq<Piece>) {
    forall k :: 0 <= k < |ps| && ps[k].Plain? ==> ps[k].b != QUOTE && ps[k].b != BACKSLASH
  }

  lemma SpellingOfFirst(ps: seq<Piece>)
    requires ps != []
    ensures Spelling(ps) == Spelling([ps[0]]) + Spelling(ps[1..])
  {
    assert [ps[0]][1..] == [] && Spelling([]) == [];
  }

  lemma {:induction false} SpellingDecoded(ps: seq<Piece>, t: Text)
    requires IsSpelling(ps) && |t| == |ps| && forall k :: 0 <= k < |ps| ==> StandsFor(ps[k], t[k])
    ensures Decode(Spelling(ps) + [QUOTE], In) == t
  {
    hide Decode;
    if ps == [] {
      DecodeClosing();
      assert Spelling(ps) + [QUOTE] == [QUOTE];
    } else {
      SpellingDecoded(ps[1..], t[1..]);
      PieceDecoded(ps[0], t[0], Spelling(ps[1..]) + [QUOTE]);
      SpellingOfFirst(ps);
      Assoc(Spelling([ps[0]]), Spelling(ps[1..]), [QUOTE]);
      assert t == [t[0]] + t[1..];
    }
  }

  lemma PieceDecoded(p: Piece, b: Byte, rest: Text)
    requires StandsFor(p, b) && (p.Plain? ==> p.b != QUOTE && p.b != BACKSLASH)
    ensures Decode(Spelling([p]) + rest, In) == [b] + Decode(rest, In)
  {
    assert [p][1..] == [] && Spelling([]) == [];
    var q := Spelling([p]);
    var s := q + rest;
    if |q| == 2 {
      assert s[0] == q[0] && s[1..] == [q[1]] + rest && s[2..] == rest && s[1..][1..] == rest;
    } else {
      assert s[0] == q[0] && s[1..] == rest;
    }
  }

  lemma {:induction false} SpellingStaysInside(ps: seq<Piece>, stops: set<Byte>)
    requires IsSpelling(ps) && QUOTE !in stops
    ensures Reach(Spelling(ps), stops, In) == |Spelling(ps)| && Lex(In, Spelling(ps)) == In
  {
    if ps != [] {
      hide Reach, Lex, Spelling;
      SpellingStaysInside(ps[1..], stops);
      PieceStaysInside(ps[0], stops);
      SpellingOfFirst(ps);
      ReachAppend(Spelling([ps[0]]), Spelling(ps[1..]), stops, In);
      LexAppend(In, Spelling([ps[0]]), Spelling(ps[1..]));
    }
  }

  lemma PieceStaysInside(p: Piece, stops: set<Byte>)
    requires (p.Plain? ==> p.b != QUOTE && p.b != BACKSLASH) && QUOTE !in stops
    ensures Reach(Spelling([p]), stops, In) == |Spelling([p])| && Lex(In, Spelling([p])) == In
  {
    assert [p][1..] == [] && Spelling([]) == [];
    var q := Spelling([p]);
    if |q| == 2 {
      assert q[1..] == [q[1]] && q[1..][1..] == [];
      assert Lex(Next(In, q[0]), q[1..]) == In && Reach(q[1..], stops, Next(In, q[0])) == 1;
    } else {
      assert q[1..] == [];
    }
  }

  /** A literal reads as the text it spells, whichever way its bytes are written, and only its last quote
      ends it. */
  lemma LiteralReadsBack(ps: seq<Piece>, t: Text)
    requires IsSpelling(ps) && |t| == |ps| && forall k :: 0 <= k < |ps| ==> StandsFor(ps[k], t[k])
    ensures var p := [QUOTE] + Spelling(ps) + [QUOTE];
            Reach(p, VALUE_ENDS, Out) == |p| && Lex(Out, p) == Out && FieldValue(p) == Val(t)
  {
    var e := Spelling(ps);
    var p := [QUOTE] + e + [QUOTE];
    SpellingStaysInside(ps, VALUE_ENDS);
    SpellingDecoded(ps, t);
    hide Spelling, IsSpelling;
    assert p[1..] == e + [QUOTE] && p[0] == QUOTE;
    assert [QUOTE][1..] == [];
    ReachAppend(e, [QUOTE], VALUE_ENDS, In);
    LexAppend(In, e, [QUOTE]);
  }

  lemma FieldThenEnd(p: Text, end: Byte, rest: Text)
    requires end in VALUE_ENDS && Reach(p, VALUE_ENDS, Out) == |p| && Lex(Out, p) == Out
    ensures var s := p + [end] + rest;
            Reach(s, VALUE_ENDS, Out) == |p| && s[..|p|] == p && s[|p|] == end && s[|p| + 1..] == rest
  {
    assert p + [end] + rest == p + ([end] + rest);
    ReachAppend(p, [end] + rest, VALUE_ENDS, Out);
  }

  lemma LastField(f: Field, rest: Text)
    requires Printable(f)
    ensures Tuple(PrintField(f) + [CLOSE] + rest) == Ok(Parsed([Meaning(f)], rest))
  {
    FieldRoundTrip(f);
    hide Reach, FieldValue, Lex, PrintField;
    FieldThenEnd(PrintField(f), CLOSE, rest);
  }

  lemma MoreFields(f: Field, tail: Text)
    requires Printable(f) && Tuple(tail).Ok?
    ensures Tuple(PrintField(f) + [COMMA] + tail) == Ok(Parsed([Meaning(f)] + Tuple(tail).value.values,
            Tuple(tail).value.rest))
  {
    FieldRoundTrip(f);
    hide Reach, FieldValue, Lex, PrintField;
    FieldThenEnd(PrintField(f), COMMA, tail);
  }

  /** A printed tuple reads back as the values it was printed from, whatever follows it. */
  lemma {:induction false} TupleRoundTrip(fs: seq<Field>, rest: Text)
    requires fs != [] && forall k :: 0 <= k < |fs| ==> Printable(fs[k])
    ensures Tuple(PrintFields(fs) + [CLOSE] + rest) == Ok(Parsed(Meanings(fs), rest))
  {
    hide Tuple, PrintField;
    if |fs| == 1 {
      LastField(fs[0], rest);
      assert fs[1..] == [] && Meanings(fs) == [Meaning(fs[0])];
    } else {
      var tail := PrintFields(fs[1..]) + [CLOSE] + rest;
      TupleRoundTrip(fs[1..], rest);
      assert PrintFields(fs) + [CLOSE] + rest == PrintField(fs[0]) + [COMMA] + tail;
      MoreFields(fs[0], tail);
    }
  }

  lemma {:induction false} SeparatorsSkipped(between: Text, s: Text)
    requires forall k :: 0 <= k < |between| ==> between[k] in {9, 10, 32, 44}
    ensures SkipSeparators(between + s) == SkipSeparators(s)
  {
    if between == [] {
      assert between + s == s;
    } else {
      SeparatorsSkipped(between[1..], s);
      assert (between + s)[1..] == between[1..] + s;
    }
  }

  lemma TuplesSeparated(between: Text, s: Text)
    requires forall k :: 0 <= k < |between| ==> between[k] in {9, 10, 32, 44}
    ensures Tuples(between + s) == Tuples(s)
  {
    SeparatorsSkipped(between, s);
    hide SkipSeparators, Tuple;
  }

  /** A printed list of tuples reads back as the list, whatever commas and blanks separate the tuples. */
  lemma {:induction false} TuplesRoundTrip(ts: seq<seq<Field>>, between: Text)
    requires forall i :: 0 <= i < |ts| ==> ts[i] != [] && forall k :: 0 <= k < |ts[i]| ==> Printable(ts[i][k])
    requires forall k :: 0 <= k < |between| ==> between[k] in {9, 10, 32, 44}
    ensures Tuples(PrintTuples(ts, between)) == Ok(TupleMeanings(ts))
    decreases |ts|
  {
    if ts != [] {
      TuplesRoundTrip(ts[1..], between);
      var more := PrintTuples(ts[1..], between);
      hide PrintTuple, Tuples, Meanings;
      if |ts| == 1 {
        assert PrintTuples(ts, between) == PrintTuple(ts[0]) + [] && ts[1..] == [];
        FirstTuple(ts[0], []);
      } else {
        FirstTuple(ts[0], between + more);
        TuplesSeparated(between, more);
      }
    }
  }

  lemma FirstTuple(fs: seq<Field>, rest: Text)
    requires fs != [] && forall k :: 0 <= k < |fs| ==> Printable(fs[k])
    ensures Tuples(PrintTuple(fs) + rest) == Prepend([Meanings(fs)], Tuples(rest))
  {
    var f := PrintFields(fs);
    TupleRoundTrip(fs, rest);
    Assoc([OPEN], f, [CLOSE]);
    Assoc([OPEN], f + [CLOSE], rest);
    OpenTuple(f + [CLOSE] + rest);
  }

  lemma OpenTuple(s: Text)
    requires Tuple(s).Ok?
    ensures Tuples([OPEN] + s) == Prepend([Tuple(s).value.values], Tuples(Tuple(s).value.rest))
  {
    hide Tuple;
    assert ([OPEN] + s)[1..] == s;
    assert SkipSeparators([OPEN] + s) == [OPEN] + s;
  }
}
