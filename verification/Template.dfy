/** The expression evaluator of the mobile templates, and what it gives for printed expression trees. */
module Template {
  import opened Common
  import opened TemplateText

  datatype Value = Undefined | Null | Bool(b: bool) | Str(s: string) | Other(id: int)

  /** The values in scope and the language's own operators: property lookup, number reading, truthiness and
      the two equalities. */
  datatype World = World(
    vals: Value,
    get: (Value, Value) -> Value,
    number: string -> Value,
    truthy: Value -> bool,
    strict: (Value, Value) -> bool,
    loose: (Value, Value) -> bool)

  datatype Op = StrictEq | StrictNe | LooseEq | LooseNe

  function OpText(op: Op): string {
    match op
    case StrictEq => "==="
    case StrictNe => "!=="
    case LooseEq => "=="
    case LooseNe => "!="
  }

  function Compare(w: World, op: Op, a: Value, b: Value): Value {
    match op
    case StrictEq => Bool(w.strict(a, b))
    case StrictNe => Bool(!w.strict(a, b))
    case LooseEq => Bool(w.loose(a, b))
    case LooseNe => Bool(!w.loose(a, b))
  }

  function Lookup(w: World, from: Value, key: Value): Value {
    if from.Undefined? || from.Null? then Undefined else w.get(from, key)
  }

  // ----- The evaluator -----

  /** The scan of parensWrapWhole from position `i` at depth `d`. */
  function WrapsFrom(t: string, i: nat, d: int): bool
    decreases |t| - i
  {
    if i + 1 >= |t| then true
    else if t[i] == '(' then WrapsFrom(t, i + 1, d + 1)
    else if t[i] == ')' then d - 1 != 0 && WrapsFrom(t, i + 1, d - 1)
    else WrapsFrom(t, i + 1, d)
  }

  datatype Equality = Equality(index: nat, op: Op)

  function OpAt(t: string, i: nat): Op
    requires i < |t|
  {
    if i + 2 < |t| && t[i + 2] == '=' then (if t[i] == '=' then StrictEq else StrictNe)
    else (if t[i] == '=' then LooseEq else LooseNe)
  }

  predicate EqualityAt(t: string, i: nat)
    requires i < |t|
  {
    && (t[i] == '=' || t[i] == '!') && i + 1 < |t| && t[i + 1] == '='
    && !(i > 0 && (t[i - 1] == '=' || t[i - 1] == '!')) && Trim(t[..i]) != ""
  }

  /** The scan of findTopLevelEquality from position `i` at depth `d`. */
  function FindFrom(t: string, i: nat, d: int): (r: Option<Equality>)
    ensures r.Some? ==> i <= r.value.index && r.value.index + |OpText(r.value.op)| <= |t|
    decreases |t| - i
  {
    if i >= |t| then None
    else if t[i] == '[' || t[i] == '(' then FindFrom(t, i + 1, d + 1)
    else if t[i] == ']' || t[i] == ')' then FindFrom(t, i + 1, d - 1)
    else if d == 0 && EqualityAt(t, i) then Some(Equality(i, OpAt(t, i)))
    else FindFrom(t, i + 1, d)
  }

  /** The index of the bracket that closes the one `d` levels up. */
  function CloseFrom(t: string, j: nat, d: nat): (r: Option<nat>)
    requires d > 0
    ensures r.Some? ==> j <= r.value < |t|
    decreases |t| - j
  {
    if j >= |t| then None
    else if t[j] == '[' then CloseFrom(t, j + 1, d + 1)
    else if t[j] == ']' then (if d == 1 then Some(j) else CloseFrom(t, j + 1, d - 1))
    else CloseFrom(t, j + 1, d)
  }

  function Resolve(w: World, src: string): Value
    decreases |src|, 4, 0
  {
    ResolveTrimmed(w, Trim(src))
  }

  function ResolveTrimmed(w: World, t: string): Value
    decreases |t|, 3, 0
  {
    if t == "" then Undefined
    else if t[0] == '(' && t[|t| - 1] == ')' && WrapsFrom(t, 0, 0) then Resolve(w, t[1..|t| - 1])
    else
      match FindFrom(t, 0, 0)
      case Some(eq) => Compare(w, eq.op, Resolve(w, t[..eq.index]), Resolve(w, t[eq.index + |OpText(eq.op)|..]))
      case None =>
        if t[0] == '!' then Bool(!w.truthy(Resolve(w, t[1..])))
        else if t == "true" then Bool(true)
        else if t == "false" then Bool(false)
        else if t == "null" then Null
        else if t == "undefined" then Undefined
        else if IsNumber(t) then w.number(t)
        else if |t| >= 2 && IsQuote(t[0]) && t[|t| - 1] == t[0] then Str(t[1..|t| - 1])
        else PathValue(w, t)
  }

  function PathValue(w: World, t: string): Value
    decreases |t|, 2, 0
  {
    var e := IdentEnd(t, 0);
    if e == 0 then Undefined else Walk(w, t, e, Lookup(w, w.vals, Str(t[..e])))
  }

  /** The rest of a path from position `i`, starting at the value `cur`. */
  function Walk(w: World, t: string, i: nat, cur: Value): Value
    requires i <= |t|
    decreases |t|, 1, |t| - i
  {
    if i == |t| then cur
    else if t[i] == '.' then
      var n := if IdentEnd(t, i + 1) > i + 1 then IdentEnd(t, i + 1) else DigitEnd(t, i + 1);
      if n == i + 1 then Undefined else Walk(w, t, n, Lookup(w, cur, Str(t[i + 1..n])))
    else if t[i] == '[' then
      match CloseFrom(t, i + 1, 1)
      case None => Undefined
      case Some(j) => Walk(w, t, j + 1, Lookup(w, cur, Resolve(w, t[i + 1..j])))
    else Undefined
  }

  // ----- Expression trees -----

  datatype Literal = True | False | NullLit | UndefinedLit | Number(text: string) | Quoted(quote: char, text: string)

  datatype Expr =
    | Lit(l: Literal)
    | Path(head: string, steps: Steps)
    | Not(arg: Expr)
    | Binary(op: Op, left: Expr, right: Expr)

  /** A property name, or the digits of an index, after a point; or a nested expression in brackets. */
  datatype Steps = End | Dot(name: string, rest: Steps) | Index(key: Expr, rest: Steps)

  /** A character that no scanner reacts to. */
  predicate IsPlain(c: char) { c != '(' && c != ')' && c != '[' && c != ']' && c != '=' && c != '!' }

  /** Text over which, between its quotes, every scanner comes out as it went in: its brackets are balanced, and
      outside them there is no equality. */
  predicate IsNeutral(quoted: string) {
    Balanced(Both, quoted) && Balanced(Parens, quoted) && Balanced(Squares, quoted) && FindFrom(quoted, 0, 0).None?
  }

  predicate LiteralOk(l: Literal) {
    match l
    case Number(text) => IsNumber(text)
    case Quoted(q, text) => IsQuote(q) && IsNeutral([q] + text + [q])
    case _ => true
  }

  predicate IsReserved(s: string) { s == "true" || s == "false" || s == "null" || s == "undefined" }

  predicate ExprOk(e: Expr) {
    match e
    case Lit(l) => LiteralOk(l)
    case Path(head, steps) => IsIdent(head) && !(steps.End? && IsReserved(head)) && StepsOk(steps)
    case Not(arg) => ExprOk(arg)
    case Binary(_, left, right) => ExprOk(left) && ExprOk(right)
  }

  predicate StepsOk(s: Steps) {
    match s
    case End => true
    case Dot(name, rest) => (IsIdent(name) || AllDigits(name)) && StepsOk(rest)
    case Index(key, rest) => ExprOk(key) && StepsOk(rest)
  }

  function LiteralText(l: Literal): string {
    match l
    case True => "true"
    case False => "false"
    case NullLit => "null"
    case UndefinedLit => "undefined"
    case Number(text) => text
    case Quoted(q, text) => [q] + text + [q]
  }

  /** Printing with parentheses around comparisons that are operands, and `pad` around operators. */
  function Print(e: Expr, pad: string): string
    decreases e, 0
  {
    match e
    case Lit(l) => LiteralText(l)
    case Path(head, steps) => head + PrintSteps(steps, pad)
    case Not(arg) => "!" + Operand(arg, pad)
    case Binary(op, left, right) => Operand(left, pad) + pad + OpText(op) + pad + Operand(right, pad)
  }

  function Operand(e: Expr, pad: string): string
    decreases e, 1
  {
    if e.Binary? then "(" + Print(e, pad) + ")" else Print(e, pad)
  }

  function PrintSteps(s: Steps, pad: string): string
    decreases s, 0
  {
    match s
    case End => ""
    case Dot(name, rest) => "." + name + PrintSteps(rest, pad)
    case Index(key, rest) => "[" + Print(key, pad) + "]" + PrintSteps(rest, pad)
  }

  function LiteralValue(w: World, l: Literal): Value {
    match l
    case True => Bool(true)
    case False => Bool(false)
    case NullLit => Null
    case UndefinedLit => Undefined
    case Number(text) => w.number(text)
    case Quoted(_, text) => Str(text)
  }

  /** What a tree means. */
  function Eval(w: World, e: Expr): Value {
    match e
    case Lit(l) => LiteralValue(w, l)
    case Path(head, steps) => EvalSteps(w, steps, Lookup(w, w.vals, Str(head)))
    case Not(arg) => Bool(!w.truthy(Eval(w, arg)))
    case Binary(op, left, right) => Compare(w, op, Eval(w, left), Eval(w, right))
  }

  function EvalSteps(w: World, s: Steps, cur: Value): Value {
    match s
    case End => cur
    case Dot(name, rest) => EvalSteps(w, rest, Lookup(w, cur, Str(name)))
    case Index(key, rest) => EvalSteps(w, rest, Lookup(w, cur, Eval(w, key)))
  }

  // ----- How the scanners pass over printed text -----

  lemma {:induction false} SkipFind(t: string, i: nat, j: nat, d: nat)
    requires i <= j <= |t| && d >= 1 && Level(Both, t[i..j], d - 1).Some?
    ensures FindFrom(t, i, d) == FindFrom(t, j, Level(Both, t[i..j], d - 1).value + 1)
    decreases j - i
  {
    if i < j {
      assert t[i..j][1..] == t[i + 1..j];
      SkipFind(t, i + 1, j, if Opens(Both, t[i]) then d + 1 else if Closes(Both, t[i]) then d - 1 else d);
    }
  }

  lemma {:induction false} SkipWraps(t: string, i: nat, j: nat, d: nat)
    requires i <= j < |t| && d >= 1 && Level(Parens, t[i..j], d - 1).Some?
    ensures WrapsFrom(t, i, d) == WrapsFrom(t, j, Level(Parens, t[i..j], d - 1).value + 1)
    decreases j - i
  {
    if i < j {
      assert t[i..j][1..] == t[i + 1..j];
      SkipWraps(t, i + 1, j, if Opens(Parens, t[i]) then d + 1 else if Closes(Parens, t[i]) then d - 1 else d);
    }
  }

  lemma {:induction false} SkipClose(t: string, i: nat, j: nat, d: nat)
    requires i <= j <= |t| && d >= 1 && Level(Squares, t[i..j], d - 1).Some?
    ensures CloseFrom(t, i, d) == CloseFrom(t, j, Level(Squares, t[i..j], d - 1).value + 1)
    decreases j - i
  {
    if i < j {
      assert t[i..j][1..] == t[i + 1..j];
      SkipClose(t, i + 1, j, if Opens(Squares, t[i]) then d + 1 else if Closes(Squares, t[i]) then d - 1 else d);
    }
  }

  lemma {:induction false} PlainFind(t: string, i: nat, j: nat)
    requires i <= j <= |t| && forall k :: i <= k < j ==> IsPlain(t[k])
    ensures FindFrom(t, i, 0) == FindFrom(t, j, 0)
    decreases j - i
  {
    if i < j { PlainFind(t, i + 1, j); }
  }

  // ----- The shape of printed text -----

  predicate StartChar(c: char) { IdentStart(c) || IsDigit(c) || c == '-' || IsQuote(c) || c == '!' || c == '(' }

  predicate EndChar(c: char) { IdentChar(c) || IsQuote(c) || c == ']' || c == ')' }

  ghost predicate Framed(s: string) { s != "" && StartChar(s[0]) && EndChar(s[|s| - 1]) }

  lemma FramedIsTrimmed(s: string)
    requires Framed(s)
    ensures IsTrimmed(s)
  {
  }

  lemma BetweenFramed(a: string, mid: string, b: string)
    requires Framed(a) && Framed(b)
    ensures Framed(a + mid + b) && (a + mid + b)[0] == a[0]
  {}

  lemma WrappedIsFramed(s: string)
    ensures Framed("(" + s + ")")
  {}

  lemma BangIsFramed(s: string)
    requires Framed(s)
    ensures Framed("!" + s) && ("!" + s)[0] != '('
  {}

  lemma LiteralIsFramed(l: Literal)
    requires LiteralOk(l)
    ensures Framed(LiteralText(l)) && LiteralText(l)[0] != '('
  {
    hide IsNeutral;
    if l.Number? { NumberChars(l.text); }
  }

  lemma PathIsFramed(head: string, rest: string)
    requires IsIdent(head) && (rest != "" ==> EndChar(rest[|rest| - 1]))
    ensures Framed(head + rest) && (head + rest)[0] != '('
  {}

  lemma {:induction false} PrintFramed(e: Expr, pad: string)
    requires ExprOk(e)
    ensures Framed(Print(e, pad)) && Framed(Operand(e, pad))
    ensures !e.Binary? ==> Print(e, pad)[0] != '('
    decreases e, 1
  {
    hide Framed, IsIdent, LiteralOk, LiteralText, PrintSteps, EndChar;
    match e {
      case Lit(l) => LiteralIsFramed(l);
      case Path(head, steps) =>
        StepsFramed(steps, pad);
        PathIsFramed(head, PrintSteps(steps, pad));
      case Not(arg) =>
        PrintFramed(arg, pad);
        BangIsFramed(Operand(arg, pad));
      case Binary(op, left, right) =>
        PrintFramed(left, pad);
        PrintFramed(right, pad);
        var a, b := Operand(left, pad), Operand(right, pad);
        assert Print(e, pad) == a + (pad + OpText(op) + pad) + b;
        BetweenFramed(a, pad + OpText(op) + pad, b);
        WrappedIsFramed(Print(e, pad));
    }
  }

  lemma {:induction false} StepsFramed(s: Steps, pad: string)
    requires StepsOk(s)
    ensures var t := PrintSteps(s, pad);
            t != "" ==> EndChar(t[|t| - 1]) && (t[0] == '.' || t[0] == '[')
    ensures PrintSteps(s, pad) == "" <==> s.End?
    decreases s, 0
  {
    match s
    case End =>
    case Dot(name, rest) => StepsFramed(rest, pad);
    case Index(_, rest) => StepsFramed(rest, pad);
  }

  lemma {:induction false} PrintBalanced(k: Kind, e: Expr, pad: string)
    requires ExprOk(e) && AllSpaces(pad)
    ensures Balanced(k, Print(e, pad)) && Balanced(k, Operand(e, pad))
    decreases e, 1
  {
    hide Balanced, LiteralText, LiteralOk;
    match e {
      case Lit(l) =>
        LiteralIsBalanced(k, l);
      case Path(head, steps) =>
        PlainIsBalanced(k, head);
        StepsBalanced(k, steps, pad);
        BalancedAppend(k, head, PrintSteps(steps, pad));
      case Not(arg) =>
        PrintBalanced(k, arg, pad);
        PlainIsBalanced(k, "!");
        BalancedAppend(k, "!", Operand(arg, pad));
      case Binary(op, left, right) =>
        PrintBalanced(k, left, pad);
        PrintBalanced(k, right, pad);
        PlainIsBalanced(k, pad);
        PlainIsBalanced(k, OpText(op));
        BalancedAppend(k, Operand(left, pad), pad);
        BalancedAppend(k, Operand(left, pad) + pad, OpText(op));
        BalancedAppend(k, Operand(left, pad) + pad + OpText(op), pad);
        BalancedAppend(k, Operand(left, pad) + pad + OpText(op) + pad, Operand(right, pad));
        WrappedIsBalanced(k, '(', Print(e, pad), ')');
    }
  }

  lemma {:induction false} StepsBalanced(k: Kind, s: Steps, pad: string)
    requires StepsOk(s) && AllSpaces(pad)
    ensures Balanced(k, PrintSteps(s, pad))
    decreases s, 0
  {
    match s {
      case End =>
      case Dot(name, rest) =>
        StepsBalanced(k, rest, pad);
        PlainIsBalanced(k, "." + name);
        BalancedAppend(k, "." + name, PrintSteps(rest, pad));
      case Index(key, rest) =>
        PrintBalanced(k, key, pad);
        StepsBalanced(k, rest, pad);
        WrappedIsBalanced(k, '[', Print(key, pad), ']');
        BalancedAppend(k, "[" + Print(key, pad) + "]", PrintSteps(rest, pad));
    }
  }

  // ----- No equality hides in an operand -----

  lemma WrappedIsQuiet(t: string, i: nat, open: char, s: string, close: char)
    requires Balanced(Both, s) && ((open == '(' && close == ')') || (open == '[' && close == ']'))
    requires i + |s| + 2 <= |t| && t[i..i + |s| + 2] == [open] + s + [close]
    ensures FindFrom(t, i, 0) == FindFrom(t, i + |s| + 2, 0)
  {
    var u := [open] + s + [close];
    assert u[1..1 + |s|] == s && u[0] == open && u[1 + |s|] == close;
    Inside(t, i, u, 1, 1 + |s|);
    SkipFind(t, i + 1, i + 1 + |s|, 1);
  }

  /** Characters and slices of an occurrence of `u` at `i`. */
  lemma Inside(t: string, i: nat, u: string, from: nat, to: nat)
    requires i + |u| <= |t| && t[i..i + |u|] == u && from <= to <= |u|
    ensures t[i + from..i + to] == u[from..to]
    ensures forall k :: 0 <= k < |u| ==> t[i + k] == u[k]
  {
    forall k | 0 <= k < |u| ensures t[i + k] == u[k] { assert t[i..i + |u|][k] == u[k]; }
  }

  lemma PlainTextIsQuiet(t: string, i: nat, s: string)
    requires i + |s| <= |t| && t[i..i + |s|] == s && forall k :: 0 <= k < |s| ==> IsPlain(s[k])
    ensures FindFrom(t, i, 0) == FindFrom(t, i + |s|, 0)
  {
    Inside(t, i, s, 0, |s|);
    forall k | i <= k < i + |s| ensures IsPlain(t[k]) { assert t[i + (k - i)] == s[k - i]; }
    PlainFind(t, i, i + |s|);
  }

  lemma BangIsQuiet(t: string, i: nat, a: string)
    requires Framed(a) && i + 1 + |a| <= |t| && t[i..i + 1 + |a|] == "!" + a
    ensures FindFrom(t, i, 0) == FindFrom(t, i + 1, 0)
    ensures t[i + 1..i + 1 + |a|] == a
  {
    Inside(t, i, "!" + a, 1, 1 + |a|);
    assert t[i + 1] == ("!" + a)[1];
    assert t[i + 0] == ("!" + a)[0];
  }

  /** Splitting an occurrence of `a + b`. */
  lemma Occurs(t: string, i: nat, a: string, b: string)
    requires i + |a + b| <= |t| && t[i..i + |a + b|] == a + b
    ensures t[i..i + |a|] == a && t[i + |a|..i + |a| + |b|] == b
  {
    Inside(t, i, a + b, 0, |a|);
    Inside(t, i, a + b, |a|, |a + b|);
    assert (a + b)[0..|a|] == a && (a + b)[|a|..] == b;
  }

  /** Balanced text without two signs of an equality in a row is neutral in quotes, whichever they are. */
  lemma BalancedTextIsNeutral(q: char, text: string)
    requires IsQuote(q) && forall k :: Balanced(k, text)
    requires forall i :: 0 <= i < |text| - 1 && (text[i] == '=' || text[i] == '!') ==> text[i + 1] != '='
    ensures IsNeutral([q] + text + [q])
  {
    hide Balanced, FindFrom;
    forall k ensures Balanced(k, [q] + text + [q]) {
      PlainIsBalanced(k, [q]);
      BalancedAppend(k, [q], text);
      BalancedAppend(k, [q] + text, [q]);
    }
    NoEqualityIsFound([q] + text + [q], 0, 0);
  }

  lemma {:induction false} NoEqualityIsFound(t: string, i: nat, d: int)
    requires forall k :: i <= k < |t| - 1 && (t[k] == '=' || t[k] == '!') ==> t[k + 1] != '='
    ensures FindFrom(t, i, d).None?
    decreases |t| - i
  {
    if i < |t| {
      NoEqualityIsFound(t, i + 1, d - 1);
      NoEqualityIsFound(t, i + 1, d);
      NoEqualityIsFound(t, i + 1, d + 1);
    }
  }

  lemma BareLiteralIsPlain(l: Literal)
    requires LiteralOk(l) && !l.Quoted?
    ensures forall k :: 0 <= k < |LiteralText(l)| ==> IsPlain(LiteralText(l)[k])
  {
    if l.Number? { NumberChars(l.text); }
  }

  lemma LiteralIsBalanced(k: Kind, l: Literal)
    requires LiteralOk(l)
    ensures Balanced(k, LiteralText(l))
  {
    hide Balanced, FindFrom, IsNumber;
    if !l.Quoted? {
      BareLiteralIsPlain(l);
      PlainIsBalanced(k, LiteralText(l));
    }
  }

  lemma LiteralIsQuiet(t: string, i: nat, l: Literal)
    requires LiteralOk(l) && i + |LiteralText(l)| <= |t| && t[i..i + |LiteralText(l)|] == LiteralText(l)
    ensures FindFrom(t, i, 0) == FindFrom(t, i + |LiteralText(l)|, 0)
  {
    hide FindFrom, IsNumber, IsPlain;
    var u := LiteralText(l);
    if l.Quoted? {
      assert u[0..] == u && u[0] == l.quote && u[|u| - 1] == l.quote;
      NeutralIsQuiet(t, i, u, 0, 0);
    } else {
      BareLiteralIsPlain(l);
      PlainTextIsQuiet(t, i, u);
    }
  }

  /** The scan passes over a neutral text in `t` as it does over the text alone. */
  lemma {:induction false} NeutralIsQuiet(t: string, i: nat, u: string, j: nat, d: nat)
    requires |u| >= 2 && IsQuote(u[0]) && IsQuote(u[|u| - 1]) && i + |u| <= |t| && t[i..i + |u|] == u && j <= |u|
    requires FindFrom(u, j, d).None? && Level(Both, u[j..], d).Some?
    ensures FindFrom(t, i + j, d) == FindFrom(t, i + |u|, Level(Both, u[j..], d).value)
    decreases |u| - j
  {
    if j < |u| {
      assert u[j..][1..] == u[j + 1..] && t[i + j] == t[i..i + |u|][j];
      NoNewEquality(t, i, u, j);
      hide EqualityAt, IsQuote;
      NeutralIsQuiet(t, i, u, j + 1, if Opens(Both, u[j]) then d + 1 else if Closes(Both, u[j]) then d - 1 else d);
    }
  }

  lemma NoNewEquality(t: string, i: nat, u: string, j: nat)
    requires |u| >= 2 && IsQuote(u[0]) && IsQuote(u[|u| - 1]) && i + |u| <= |t| && t[i..i + |u|] == u && j < |u|
    ensures EqualityAt(t, i + j) ==> EqualityAt(u, j)
  {
    Inside(t, i, u, 0, |u|);
    hide Trim;
    assert t[i + j] == u[j] && (j > 0 ==> t[i + (j - 1)] == u[j - 1]) && (j + 1 < |u| ==> t[i + (j + 1)] == u[j + 1]);
    if j > 0 { TrimKeepsFirst(u[..j]); }
  }

  lemma NameIsPlain(s: string)
    requires IsIdent(s) || AllDigits(s)
    ensures forall k :: 0 <= k < |s| ==> IsPlain(s[k])
    ensures forall k :: 0 <= k < |"." + s| ==> IsPlain(("." + s)[k])
  {
  }

  lemma {:induction false} OperandIsQuiet(t: string, i: nat, e: Expr, pad: string)
    requires ExprOk(e) && AllSpaces(pad)
    requires var n := |Operand(e, pad)|; i + n <= |t| && t[i..i + n] == Operand(e, pad)
    ensures FindFrom(t, i, 0) == FindFrom(t, i + |Operand(e, pad)|, 0)
    decreases e, 1
  {
    hide FindFrom, Balanced, LiteralText, LiteralOk, IsIdent, IsPlain, AllSpaces, Framed;
    match e {
      case Lit(l) =>
        LiteralIsQuiet(t, i, l);
      case Path(head, steps) =>
        Occurs(t, i, head, PrintSteps(steps, pad));
        NameIsPlain(head);
        PlainTextIsQuiet(t, i, head);
        StepsAreQuiet(t, i + |head|, steps, pad);
      case Not(arg) =>
        PrintFramed(arg, pad);
        BangIsQuiet(t, i, Operand(arg, pad));
        OperandIsQuiet(t, i + 1, arg, pad);
      case Binary(_, _, _) =>
        PrintBalanced(Both, e, pad);
        WrappedIsQuiet(t, i, '(', Print(e, pad), ')');
    }
  }

  lemma DotIsQuiet(t: string, i: nat, name: string, rest: string)
    requires (IsIdent(name) || AllDigits(name)) && i + |"." + name + rest| <= |t| &&
             t[i..i + |"." + name + rest|] == "." + name + rest
    ensures FindFrom(t, i, 0) == FindFrom(t, i + 1 + |name|, 0)
    ensures t[i + 1 + |name|..i + 1 + |name| + |rest|] == rest
  {
    hide FindFrom, IsPlain, IsIdent, AllDigits;
    NameIsPlain(name);
    Occurs(t, i, "." + name, rest);
    PlainTextIsQuiet(t, i, "." + name);
  }

  lemma IndexIsQuiet(t: string, i: nat, key: string, rest: string)
    requires Balanced(Both, key) && i + |"[" + key + "]" + rest| <= |t| &&
             t[i..i + |"[" + key + "]" + rest|] == "[" + key + "]" + rest
    ensures FindFrom(t, i, 0) == FindFrom(t, i + |key| + 2, 0)
    ensures t[i + |key| + 2..i + |key| + 2 + |rest|] == rest
  {
    hide FindFrom, Balanced;
    Occurs(t, i, "[" + key + "]", rest);
    WrappedIsQuiet(t, i, '[', key, ']');
  }

  lemma {:induction false} StepsAreQuiet(t: string, i: nat, s: Steps, pad: string)
    requires StepsOk(s) && AllSpaces(pad)
    requires var n := |PrintSteps(s, pad)|; i + n <= |t| && t[i..i + n] == PrintSteps(s, pad)
    ensures FindFrom(t, i, 0) == FindFrom(t, i + |PrintSteps(s, pad)|, 0)
    decreases s, 0
  {
    hide FindFrom, Balanced, IsIdent, AllDigits, IsPlain, AllSpaces, Print, ExprOk;
    match s {
      case End =>
      case Dot(name, rest) =>
        DotIsQuiet(t, i, name, PrintSteps(rest, pad));
        StepsAreQuiet(t, i + 1 + |name|, rest, pad);
      case Index(key, rest) =>
        PrintBalanced(Both, key, pad);
        IndexIsQuiet(t, i, Print(key, pad), PrintSteps(rest, pad));
        StepsAreQuiet(t, i + |Print(key, pad)| + 2, rest, pad);
    }
  }

  lemma OperatorAt(t: string, k: nat, op: Op)
    requires var o := OpText(op);
             && 0 < k && k + |o| < |t| && t[k] == o[0] && t[k + 1] == o[1] && (|o| == 3 ==> t[k + 2] == o[2])
             && t[k + |o|] != '=' && t[k - 1] != '=' && t[k - 1] != '!'
    requires Trim(t[..k]) != ""
    ensures FindFrom(t, k, 0) == Some(Equality(k, op))
  {
    hide Trim;
  }

  lemma TrimBehind(a: string, pad: string)
    requires Framed(a) && AllSpaces(pad)
    ensures Trim(a + pad) == a
  {
    FramedIsTrimmed(a);
    assert AllSpaces("");
    hide Trim, Framed, AllSpaces, IsTrimmed;
    TrimPadded("", a, pad);
    assert "" + a + pad == a + pad;
  }

  lemma TrimAhead(pad: string, b: string)
    requires Framed(b) && AllSpaces(pad)
    ensures Trim(pad + b) == b
  {
    FramedIsTrimmed(b);
    assert AllSpaces("");
    hide Trim, Framed, AllSpaces, IsTrimmed;
    TrimPadded(pad, b, "");
    assert pad + b + "" == pad + b;
  }

  /** `t` is `a`, spaces, an operator, spaces and `b`. */
  ghost predicate IsBinary(t: string, a: string, pad: string, op: Op, b: string) {
    var o, k := OpText(op), |a| + |pad|;
    && Framed(a) && Framed(b) && AllSpaces(pad)
    && k + |o| < |t| && t[0] == a[0] && t[|a|..k] == pad && t[..k] == a + pad && t[k + |o|..] == pad + b
    && t[k] == o[0] && t[k + 1] == o[1] && (|o| == 3 ==> t[k + 2] == o[2])
    && t[k + |o|] != '=' && t[k - 1] != '=' && t[k - 1] != '!'
  }

  /** The operator after a text that hides no equality is found. */
  lemma OperatorIsFound(t: string, a: string, pad: string, op: Op, b: string)
    requires IsBinary(t, a, pad, op, b) && FindFrom(t, 0, 0) == FindFrom(t, |a|, 0)
    ensures FindFrom(t, 0, 0) == Some(Equality(|a| + |pad|, op))
  {
    SpacesArePlain(pad);
    TrimBehind(a, pad);
    hide FindFrom, Trim, IsPlain, AllSpaces;
    PlainTextIsQuiet(t, |a|, pad);
    OperatorAt(t, |a| + |pad|, op);
  }

  lemma SpacesArePlain(pad: string)
    requires AllSpaces(pad)
    ensures forall k :: 0 <= k < |pad| ==> IsPlain(pad[k])
  {
  }

  lemma JoinedIsBinary(a: string, pad: string, op: Op, b: string)
    requires Framed(a) && Framed(b) && AllSpaces(pad)
    ensures IsBinary(a + pad + OpText(op) + pad + b, a, pad, op, b)
  {
    SpacesArePlain(pad);
    var o, k := OpText(op), |a| + |pad|;
    var front, tail := a + pad, pad + b;
    assert tail != "" && tail[0] != '=';
    assert front[k - 1] != '=' && front[k - 1] != '!';
    assert |o| >= 2;
    var t := a + pad + o + pad + b;
    assert IsBinary(t, a, pad, op, b) by {
      hide Framed, AllSpaces, OpText;
      assert t == front + o + tail;
      assert t[k - 1] == front[k - 1] && t[k + |o|] == tail[0];
    }
  }

  // ----- Walking along a printed path -----

  lemma NameIsRead(t: string, i: nat, name: string, rest: string)
    requires (IsIdent(name) || AllDigits(name)) && (rest != "" ==> rest[0] == '.' || rest[0] == '[')
    requires i <= |t| && t[i..] == "." + name + rest
    ensures var n := i + 1 + |name|;
            && n <= |t| && t[i] == '.' && t[i + 1..n] == name && t[n..] == rest
            && n == if IdentEnd(t, i + 1) > i + 1 then IdentEnd(t, i + 1) else DigitEnd(t, i + 1)
  {
    var n, u := i + 1 + |name|, "." + name + rest;
    assert |u| == 1 + |name| + |rest| && |t| == i + |u|;
    Inside(t, i, u, 1, 1 + |name|);
    Inside(t, i, u, 1 + |name|, |u|);
    assert u[1..1 + |name|] == name && u[1 + |name|..|u|] == rest;
    assert t[i + 0] == u[0] && t[n..] == t[n..i + |u|];
    forall k | i + 1 <= k < n ensures t[k] == name[k - i - 1] { assert t[i + (k - i)] == u[k - i]; }
    assert rest != "" ==> t[i + (1 + |name|)] == u[1 + |name|];
    if IsIdent(name) { RunEndIs(t, i + 2, n); } else { DigitEndIs(t, i + 1, n); }
  }

  lemma KeyIsRead(t: string, i: nat, key: string, rest: string)
    requires Balanced(Squares, key) && i <= |t| && t[i..] == "[" + key + "]" + rest
    ensures var j := i + 1 + |key|;
            && j < |t| && t[i] == '[' && t[i + 1..j] == key && t[j + 1..] == rest && CloseFrom(t, i + 1, 1) == Some(j)
  {
    var j, u := i + 1 + |key|, "[" + key + "]" + rest;
    assert |u| == 2 + |key| + |rest| && |t| == i + |u|;
    Inside(t, i, u, 1, 1 + |key|);
    Inside(t, i, u, 2 + |key|, |u|);
    assert u[1..1 + |key|] == key && u[2 + |key|..|u|] == rest;
    assert t[i + 0] == u[0] && t[i + (1 + |key|)] == u[1 + |key|] && t[j + 1..] == t[j + 1..i + |u|];
    SkipClose(t, i + 1, j, 1);
  }

  // ----- The evaluator on the five forms of text -----

  lemma TrimmedResolves(w: World, before: string, s: string, after: string)
    requires AllSpaces(before) && AllSpaces(after) && IsTrimmed(s)
    ensures Resolve(w, before + s + after) == ResolveTrimmed(w, s)
  {
    TrimPadded(before, s, after);
    hide ResolveTrimmed, Trim;
  }

  lemma BareResolves(w: World, s: string)
    requires IsTrimmed(s)
    ensures Resolve(w, s) == ResolveTrimmed(w, s)
  {
    TrimmedResolves(w, "", s, "");
    assert "" + s + "" == s;
    hide *;
  }

  /** Parentheses wrap the whole when nothing follows them. */
  lemma WrapIsWhole(s: string, more: string)
    requires Balanced(Parens, s)
    ensures WrapsFrom("(" + s + ")" + more, 0, 0) <==> more == ""
  {
    var t := "(" + s + ")" + more;
    assert t[1..1 + |s|] == s;
    SkipWraps(t, 1, 1 + |s|, 1);
  }

  lemma WrappedText(w: World, s: string)
    requires Framed(s) && Balanced(Parens, s)
    ensures ResolveTrimmed(w, "(" + s + ")") == ResolveTrimmed(w, s)
  {
    var t := "(" + s + ")";
    WrapIsWhole(s, "");
    assert t + "" == t && t[1..|t| - 1] == s;
    BareResolves(w, s);
    hide WrapsFrom, Balanced, Resolve, FindFrom;
  }

  lemma BinaryText(w: World, t: string, a: string, pad: string, op: Op, b: string)
    requires IsBinary(t, a, pad, op, b) && FindFrom(t, 0, 0) == Some(Equality(|a| + |pad|, op))
    requires a[0] == '(' ==> !WrapsFrom(t, 0, 0)
    ensures ResolveTrimmed(w, t) == Compare(w, op, ResolveTrimmed(w, a), ResolveTrimmed(w, b))
  {
    hide FindFrom, WrapsFrom, Resolve, ResolveTrimmed, Compare, Trim, StartChar, EndChar, IsSpace, IsPlain;
    assert Framed(a) && Framed(b) && AllSpaces(pad);
    assert t != "" && t[0] == a[0] && t[..|a| + |pad|] == a + pad && t[|a| + |pad| + |OpText(op)|..] == pad + b;
    hide *;
    ResolvesPadded(w, a, pad, b);
    EqualityDecides(w, t, Equality(|a| + |pad|, op));
  }

  lemma ResolvesPadded(w: World, a: string, pad: string, b: string)
    requires Framed(a) && Framed(b) && AllSpaces(pad)
    ensures Resolve(w, a + pad) == ResolveTrimmed(w, a) && Resolve(w, pad + b) == ResolveTrimmed(w, b)
  {
    TrimBehind(a, pad);
    TrimAhead(pad, b);
    hide Trim, ResolveTrimmed, Framed, AllSpaces;
  }

  /** Text in which an equality is found, and which no parentheses wrap. */
  lemma EqualityDecides(w: World, t: string, eq: Equality)
    requires FindFrom(t, 0, 0) == Some(eq) && (t != "" && t[0] == '(' ==> !WrapsFrom(t, 0, 0))
    ensures ResolveTrimmed(w, t) ==
              Compare(w, eq.op, Resolve(w, t[..eq.index]), Resolve(w, t[eq.index + |OpText(eq.op)|..]))
  {
    hide WrapsFrom, FindFrom, Resolve, Compare, PathValue, IsNumber, IsQuote, Trim;
    assert |OpText(eq.op)| >= 2 && t != "";
  }

  lemma NotText(w: World, a: string)
    requires Framed(a) && FindFrom("!" + a, 0, 0) == None
    ensures ResolveTrimmed(w, "!" + a) == Bool(!w.truthy(ResolveTrimmed(w, a)))
  {
    assert ("!" + a)[1..] == a;
    BareResolves(w, a);
    hide WrapsFrom, FindFrom, Resolve, Trim;
  }

  lemma PathText(w: World, head: string, rest: string)
    requires IsIdent(head) && (rest != "" ==> rest[0] == '.' || rest[0] == '[') && (rest == "" ==> !IsReserved(head))
    requires FindFrom(head + rest, 0, 0) == None
    ensures ResolveTrimmed(w, head + rest) == Walk(w, head + rest, |head|, Lookup(w, w.vals, Str(head)))
  {
    hide WrapsFrom, FindFrom, Resolve, Trim, Walk, Lookup;
    var t := head + rest;
    assert t[..|head|] == head && t[0] == head[0];
    assert rest != "" ==> t[|head|] == rest[0];
    assert !IsReserved(t) by { assert rest == "" ==> t == head; }
    RunEndIs(t, 1, |head|);
    assert !IsNumber(t) by { if IsNumber(t) { NumberChars(t); } }
    hide IsNumber;
  }

  lemma LiteralValueOf(w: World, l: Literal)
    requires LiteralOk(l) && FindFrom(LiteralText(l), 0, 0) == None
    ensures ResolveTrimmed(w, LiteralText(l)) == LiteralValue(w, l)
  {
    var t := LiteralText(l);
    if l.Number? {
      NumberChars(t);
    } else {
      assert !IsNumber(t) by { if IsNumber(t) { NumberChars(t); } }
    }
    hide WrapsFrom, FindFrom, Resolve, Trim, IsNumber;
  }

  // ----- The evaluator computes the meaning -----

  lemma FindEnds(t: string)
    ensures FindFrom(t, |t|, 0) == None
  {
  }

  lemma {:induction false} OperandEvaluates(w: World, e: Expr, pad: string)
    requires ExprOk(e) && AllSpaces(pad)
    ensures ResolveTrimmed(w, Operand(e, pad)) == Eval(w, e)
    decreases e, 3
  {
    PrintEvaluates(w, e, pad);
    if e.Binary? {
      PrintFramed(e, pad);
      PrintBalanced(Parens, e, pad);
      hide ResolveTrimmed, Eval, Print, ExprOk, AllSpaces;
      WrappedText(w, Print(e, pad));
    }
  }

  /** Only an operand in parentheses begins with one. */
  lemma OperandShape(e: Expr, pad: string)
    requires ExprOk(e)
    ensures Operand(e, pad) != ""
    ensures Operand(e, pad)[0] == '(' ==> Operand(e, pad) == "(" + Print(e, pad) + ")"
  {
    PrintFramed(e, pad);
  }

  lemma {:induction false} BinaryEvaluates(w: World, e: Expr, pad: string)
    requires e.Binary? && ExprOk(e) && AllSpaces(pad)
    ensures ResolveTrimmed(w, Print(e, pad)) == Eval(w, e)
    decreases e, 1
  {
    hide *;
    var a, b, t := Operand(e.left, pad), Operand(e.right, pad), Print(e, pad);
    BinaryUnfolds(w, e, pad);
    PrintFramed(e.left, pad);
    PrintFramed(e.right, pad);
    OperandEvaluates(w, e.left, pad);
    OperandEvaluates(w, e.right, pad);
    OperandShape(e.left, pad);
    PrintBalanced(Parens, e.left, pad);
    JoinedIsBinary(a, pad, e.op, b);
    Beginning(t, a, pad + OpText(e.op) + pad + b);
    OperandIsQuiet(t, 0, e.left, pad);
    OperatorIsFound(t, a, pad, e.op, b);
    if a[0] == '(' { WrapIsWhole(Print(e.left, pad), t[|a|..]); }
    BinaryText(w, t, a, pad, e.op, b);
  }

  lemma BinaryUnfolds(w: World, e: Expr, pad: string)
    requires e.Binary? && ExprOk(e)
    ensures ExprOk(e.left) && ExprOk(e.right)
    ensures var a, b := Operand(e.left, pad), Operand(e.right, pad);
            && Print(e, pad) == a + pad + OpText(e.op) + pad + b
            && Print(e, pad) == a + (pad + OpText(e.op) + pad + b) && pad + OpText(e.op) + pad + b != ""
    ensures Eval(w, e) == Compare(w, e.op, Eval(w, e.left), Eval(w, e.right))
  {}

  lemma Beginning(t: string, a: string, more: string)
    requires t == a + more
    ensures t[0..|a|] == a && t == a + t[|a|..] && (more != "" ==> t[|a|..] != "")
  {}

  lemma DotIsWalked(w: World, t: string, i: nat, name: string, rest: string, cur: Value)
    requires (IsIdent(name) || AllDigits(name)) && (rest != "" ==> rest[0] == '.' || rest[0] == '[')
    requires i <= |t| && t[i..] == "." + name + rest
    ensures var n := i + 1 + |name|;
            n <= |t| && t[n..] == rest && Walk(w, t, i, cur) == Walk(w, t, n, Lookup(w, cur, Str(name)))
  {
    NameIsRead(t, i, name, rest);
    hide IdentEnd, DigitEnd, IsIdent, AllDigits, Resolve, CloseFrom, Lookup;
  }

  lemma IndexIsWalked(w: World, t: string, i: nat, key: string, rest: string, cur: Value)
    requires Framed(key) && Balanced(Squares, key) && i <= |t| && t[i..] == "[" + key + "]" + rest
    ensures var n := i + 2 + |key|;
            n <= |t| && t[n..] == rest && Walk(w, t, i, cur) == Walk(w, t, n, Lookup(w, cur, ResolveTrimmed(w, key)))
  {
    hide Framed, Balanced, IsTrimmed, Resolve, ResolveTrimmed, IdentEnd, DigitEnd, CloseFrom, Lookup;
    KeyIsRead(t, i, key, rest);
    FramedIsTrimmed(key);
    BareResolves(w, key);
  }

  /** Where the walk is after the first step of `s`, and with which value. */
  lemma DotEvaluates(w: World, t: string, i: nat, s: Steps, pad: string, cur: Value)
    requires s.Dot? && StepsOk(s) && i <= |t| && t[i..] == PrintSteps(s, pad)
    ensures var n, next := i + 1 + |s.name|, Lookup(w, cur, Str(s.name));
            && n <= |t| && t[n..] == PrintSteps(s.rest, pad)
            && (Walk(w, t, n, next) == EvalSteps(w, s.rest, next) ==> Walk(w, t, i, cur) == EvalSteps(w, s, cur))
  {
    hide Walk, Lookup, IsIdent, AllDigits, Resolve;
    StepsFramed(s.rest, pad);
    DotIsWalked(w, t, i, s.name, PrintSteps(s.rest, pad), cur);
  }

  lemma IndexEvaluates(w: World, t: string, i: nat, s: Steps, pad: string, cur: Value)
    requires s.Index? && StepsOk(s) && AllSpaces(pad) && i <= |t| && t[i..] == PrintSteps(s, pad)
    requires ResolveTrimmed(w, Print(s.key, pad)) == Eval(w, s.key)
    ensures var n, next := i + 2 + |Print(s.key, pad)|, Lookup(w, cur, Eval(w, s.key));
            && n <= |t| && t[n..] == PrintSteps(s.rest, pad)
            && (Walk(w, t, n, next) == EvalSteps(w, s.rest, next) ==> Walk(w, t, i, cur) == EvalSteps(w, s, cur))
  {
    hide Walk, Lookup, ResolveTrimmed, Eval, Print, ExprOk, AllSpaces, Framed, Balanced;
    PrintFramed(s.key, pad);
    PrintBalanced(Squares, s.key, pad);
    IndexIsWalked(w, t, i, Print(s.key, pad), PrintSteps(s.rest, pad), cur);
  }

  lemma EndEvaluates(w: World, t: string, i: nat, pad: string, cur: Value)
    requires i <= |t| && t[i..] == PrintSteps(End, pad)
    ensures Walk(w, t, i, cur) == EvalSteps(w, End, cur)
  {
    assert i == |t|;
  }

  lemma {:induction false} WalkEvaluates(w: World, t: string, i: nat, s: Steps, pad: string, cur: Value)
    requires StepsOk(s) && AllSpaces(pad) && i <= |t| && t[i..] == PrintSteps(s, pad)
    ensures Walk(w, t, i, cur) == EvalSteps(w, s, cur)
    decreases s, 0
  {
    hide Print, PrintSteps, Eval, EvalSteps, Walk, Resolve, ResolveTrimmed, Lookup, ExprOk, IsIdent, AllDigits,
         AllSpaces;
    match s {
      case End => EndEvaluates(w, t, i, pad, cur);
      case Dot(name, rest) =>
        DotEvaluates(w, t, i, s, pad, cur);
        WalkEvaluates(w, t, i + 1 + |name|, rest, pad, Lookup(w, cur, Str(name)));
      case Index(key, rest) =>
        PrintEvaluates(w, key, pad);
        IndexEvaluates(w, t, i, s, pad, cur);
        WalkEvaluates(w, t, i + 2 + |Print(key, pad)|, rest, pad, Lookup(w, cur, Eval(w, key)));
    }
  }

  lemma {:induction false} PrintEvaluates(w: World, e: Expr, pad: string)
    requires ExprOk(e) && AllSpaces(pad)
    ensures ResolveTrimmed(w, Print(e, pad)) == Eval(w, e)
    decreases e, 2
  {
    var t := Print(e, pad);
    assert t[0..|t|] == t;
    if e.Binary? {
      BinaryEvaluates(w, e, pad);
    } else {
      hide ResolveTrimmed, LiteralValue, LiteralText, LiteralOk, Walk, FindFrom, EvalSteps, IsIdent, Framed, AllSpaces;
      OperandIsQuiet(t, 0, e, pad);
      FindEnds(t);
      match e {
        case Lit(l) => LiteralValueOf(w, l);
        case Path(head, steps) =>
          StepsFramed(steps, pad);
          PathText(w, head, PrintSteps(steps, pad));
          assert t[|head|..] == PrintSteps(steps, pad);
          WalkEvaluates(w, t, |head|, steps, pad, Lookup(w, w.vals, Str(head)));
        case Not(arg) =>
          PrintFramed(arg, pad);
          OperandEvaluates(w, arg, pad);
          NotText(w, Operand(arg, pad));
      }
    }
  }

  /** Evaluating a printed tree, with any spacing around it and around its operators, and with or without
      parentheses around the whole, gives what the tree means. */
  lemma EvaluatesPrinted(w: World, e: Expr, pad: string, before: string, after: string)
    requires ExprOk(e) && AllSpaces(pad) && AllSpaces(before) && AllSpaces(after)
    ensures Resolve(w, before + Print(e, pad) + after) == Eval(w, e)
    ensures Resolve(w, before + Operand(e, pad) + after) == Eval(w, e)
  {
    PrintFramed(e, pad);
    PrintEvaluates(w, e, pad);
    OperandEvaluates(w, e, pad);
    FramedIsTrimmed(Print(e, pad));
    FramedIsTrimmed(Operand(e, pad));
    hide *;
    TrimmedResolves(w, before, Print(e, pad), after);
    TrimmedResolves(w, before, Operand(e, pad), after);
  }

  // ----- Literals beyond the plain ones -----

  /** Any text between two equal quotes evaluates to itself exactly when the scan for an equality, which
      knows nothing of quotes, finds none in it. */
  lemma QuotedReadsBackIff(w: World, quote: char, text: string)
    requires IsQuote(quote)
    ensures var t := [quote] + text + [quote];
            Resolve(w, t) == Str(text) <==> FindFrom(t, 0, 0).None?
  {
    var t := [quote] + text + [quote];
    assert t[1..|t| - 1] == text && t[|t| - 1] == quote;
    BareResolves(w, t);
    assert !IsNumber(t) by { if IsNumber(t) { NumberChars(t); } }
    hide WrapsFrom, FindFrom, Resolve, Trim, IsNumber, Walk;
  }

  /** For instance a quoted `a==b` is compared, not read. */
  lemma QuotedEqualityIsCompared(w: World)
    ensures FindFrom("\"a==b\"", 0, 0) == Some(Equality(2, LooseEq))
    ensures Resolve(w, "\"a==b\"") != Str("a==b")
  {
    var t := "\"a==b\"";
    PlainFind(t, 0, 2);
    assert t[..2] == "\"a";
    assert FindFrom(t, 2, 0) == Some(Equality(2, LooseEq));
    assert t == ['\"'] + "a==b" + ['\"'];
    QuotedReadsBackIff(w, '\"', "a==b");
  }

  // ----- The loops as they run -----

  method ParensWrapWhole(expr: string) returns (whole: bool)
    ensures whole == WrapsFrom(expr, 0, 0)
  {
    var depth, i := 0, 0;
    while i < |expr| - 1
      invariant 0 <= i && (i <= |expr| - 1 || |expr| == 0) && WrapsFrom(expr, 0, 0) == WrapsFrom(expr, i, depth)
    {
      if expr[i] == '(' {
        depth := depth + 1;
      } else if expr[i] == ')' {
        depth := depth - 1;
        if depth == 0 { return false; }
      }
      i := i + 1;
    }
    return true;
  }

  method FindTopLevelEquality(expr: string) returns (eq: Option<Equality>)
    ensures eq == FindFrom(expr, 0, 0)
  {
    var depth, i := 0, 0;
    while i < |expr|
      invariant 0 <= i <= |expr| && FindFrom(expr, 0, 0) == FindFrom(expr, i, depth)
    {
      var c := expr[i];
      if c == '[' || c == '(' {
        depth := depth + 1;
      } else if c == ']' || c == ')' {
        depth := depth - 1;
      } else if depth == 0 && (c == '=' || c == '!') && i + 1 < |expr| && expr[i + 1] == '=' {
        if !(i > 0 && (expr[i - 1] == '=' || expr[i - 1] == '!')) && Trim(expr[..i]) != "" {
          return Some(Equality(i, OpAt(expr, i)));
        }
      }
      i := i + 1;
    }
    return None;
  }

  /** The inner loop of resolvePath: the bracket that closes the one before `from`. */
  method FindClose(expr: string, from: nat) returns (close: Option<nat>)
    requires from <= |expr|
    ensures close == CloseFrom(expr, from, 1)
  {
    var depth, j := 1, from;
    while j < |expr| && depth > 0
      invariant from <= j <= |expr| && depth >= 0
      invariant CloseFrom(expr, from, 1) == if depth > 0 then CloseFrom(expr, j, depth) else Some(j)
      invariant depth == 0 ==> j < |expr|
      decreases |expr| - j, depth
    {
      if expr[j] == '[' {
        depth := depth + 1;
      } else if expr[j] == ']' {
        depth := depth - 1;
        if depth == 0 { break; }
      }
      j := j + 1;
    }
    return if depth != 0 then None else Some(j);
  }

  method ResolvePath(w: World, expr: string) returns (v: Value)
    ensures v == PathValue(w, expr)
  {
    hide Resolve, ResolveTrimmed, CloseFrom, IdentEnd, DigitEnd, Lookup;
    var i := IdentEnd(expr, 0);
    if i == 0 { return Undefined; }
    v := Lookup(w, w.vals, Str(expr[..i]));
    while i < |expr|
      invariant 0 <= i <= |expr| && PathValue(w, expr) == Walk(w, expr, i, v)
    {
      if expr[i] == '.' {
        var n := IdentEnd(expr, i + 1);
        if n == i + 1 { n := DigitEnd(expr, i + 1); }
        if n == i + 1 { return Undefined; }
        v := Lookup(w, v, Str(expr[i + 1..n]));
        i := n;
      } else if expr[i] == '[' {
        var close := FindClose(expr, i + 1);
        if close.None? { return Undefined; }
        var j := close.value;
        v := Lookup(w, v, Resolve(w, expr[i + 1..j]));
        i := j + 1;
      } else {
        return Undefined;
      }
    }
  }
}
