/** What the evaluator gives, law by law, in the terms of the language's own operators. */
module TemplateMeaning {
  import opened Common
  import opened TemplateText
  import opened Template

  // ----- Comparisons and negation -----

  /** What a printed operand evaluates to. */
  function ValueOf(w: World, x: Expr, pad: string): Value { Resolve(w, Operand(x, pad)) }

  /** The four comparisons of two printed operands. */
  lemma ComparisonsMean(w: World, x: Expr, y: Expr, pad: string)
    requires ExprOk(x) && ExprOk(y) && AllSpaces(pad)
    ensures var a, b, p, q := ValueOf(w, x, pad), ValueOf(w, y, pad), Operand(x, pad) + pad, pad + Operand(y, pad);
            && Resolve(w, p + "===" + q) == Bool(w.strict(a, b))
            && Resolve(w, p + "!==" + q) == Bool(!w.strict(a, b))
            && Resolve(w, p + "==" + q) == Bool(w.loose(a, b))
            && Resolve(w, p + "!=" + q) == Bool(!w.loose(a, b))
  {
    hide Resolve, Operand, AllSpaces, ExprOk;
    OperandMeans(w, x, pad);
    OperandMeans(w, y, pad);
    ComparisonMeans(w, StrictEq, x, y, pad);
    ComparisonMeans(w, StrictNe, x, y, pad);
    ComparisonMeans(w, LooseEq, x, y, pad);
    ComparisonMeans(w, LooseNe, x, y, pad);
  }

  lemma OperandMeans(w: World, x: Expr, pad: string)
    requires ExprOk(x) && AllSpaces(pad)
    ensures ValueOf(w, x, pad) == Eval(w, x)
  {
    hide Resolve, Eval, Operand, ExprOk;
    EvaluatesPrinted(w, x, pad, "", "");
    assert "" + Operand(x, pad) + "" == Operand(x, pad);
  }

  lemma PrintMeans(w: World, x: Expr, pad: string)
    requires ExprOk(x) && AllSpaces(pad)
    ensures Resolve(w, Print(x, pad)) == Eval(w, x)
  {
    hide Resolve, Eval, Print, ExprOk;
    EvaluatesPrinted(w, x, pad, "", "");
    assert "" + Print(x, pad) + "" == Print(x, pad);
  }

  lemma ComparisonMeans(w: World, op: Op, x: Expr, y: Expr, pad: string)
    requires ExprOk(x) && ExprOk(y) && AllSpaces(pad)
    ensures Resolve(w, Operand(x, pad) + pad + OpText(op) + (pad + Operand(y, pad))) ==
            Compare(w, op, Eval(w, x), Eval(w, y))
  {
    hide Resolve, Compare, AllSpaces;
    var e := Binary(op, x, y);
    PrintMeans(w, e, pad);
    var front := Operand(x, pad) + pad + OpText(op);
    assert front + pad + Operand(y, pad) == front + (pad + Operand(y, pad));
  }

  lemma NegationMeans(w: World, x: Expr, pad: string)
    requires ExprOk(x) && AllSpaces(pad)
    ensures Resolve(w, "!" + Operand(x, pad)) == Bool(!w.truthy(ValueOf(w, x, pad)))
  {
    hide Resolve, Operand, AllSpaces;
    PrintMeans(w, Not(x), pad);
    OperandMeans(w, x, pad);
  }

  // ----- Literals -----

  lemma LiteralMeans(w: World, l: Literal)
    requires LiteralOk(l)
    ensures Resolve(w, LiteralText(l)) == LiteralValue(w, l)
  {
    hide Resolve, LiteralText, LiteralValue, LiteralOk;
    PrintMeans(w, Lit(l), "");
  }

  /** The words, numbers and quoted texts. */
  lemma LiteralsMean(w: World, number: string, quote: char, text: string)
    requires IsNumber(number) && IsQuote(quote) && IsNeutral([quote] + text + [quote])
    ensures Resolve(w, "true") == Bool(true) && Resolve(w, "false") == Bool(false)
    ensures Resolve(w, "null") == Null && Resolve(w, "undefined") == Undefined
    ensures Resolve(w, number) == w.number(number) && Resolve(w, [quote] + text + [quote]) == Str(text)
  {
    hide Resolve, IsNumber, IsNeutral, IsQuote;
    LiteralMeans(w, True);
    LiteralMeans(w, False);
    LiteralMeans(w, NullLit);
    LiteralMeans(w, UndefinedLit);
    LiteralMeans(w, Number(number));
    LiteralMeans(w, Quoted(quote, text));
  }

  // ----- Lookups -----

  /** `from[key]`, where nothing has no properties. */
  predicate IsMember(w: World, from: Value, key: Value, v: Value) {
    v == if from == Undefined || from == Null then Undefined else w.get(from, key)
  }

  /** A name is looked up among the values in scope. */
  lemma NameMeans(w: World, head: string)
    requires IsIdent(head) && !IsReserved(head)
    ensures IsMember(w, w.vals, Str(head), Resolve(w, head))
  {
    hide Resolve, IsIdent, IsReserved;
    PrintMeans(w, Path(head, End), "");
    assert head + "" == head;
  }

  function Then(s: Steps, more: Steps): Steps {
    match s
    case End => more
    case Dot(name, rest) => Dot(name, Then(rest, more))
    case Index(key, rest) => Index(key, Then(rest, more))
  }

  lemma {:induction false} ThenPrints(s: Steps, more: Steps, pad: string)
    requires StepsOk(s) && StepsOk(more)
    ensures PrintSteps(Then(s, more), pad) == PrintSteps(s, pad) + PrintSteps(more, pad) && StepsOk(Then(s, more))
    ensures Then(s, more).End? ==> s.End? && more.End?
  {
    hide Print, ExprOk, IsIdent, AllDigits;
    match s
    case End =>
    case Dot(name, rest) => ThenPrints(rest, more, pad);
    case Index(key, rest) => ThenPrints(rest, more, pad);
  }

  lemma {:induction false} ThenEvaluates(w: World, s: Steps, more: Steps, cur: Value)
    ensures EvalSteps(w, Then(s, more), cur) == EvalSteps(w, more, EvalSteps(w, s, cur))
  {
    hide Eval, Lookup;
    match s
    case End =>
    case Dot(name, rest) => ThenEvaluates(w, rest, more, Lookup(w, cur, Str(name)));
    case Index(key, rest) => ThenEvaluates(w, rest, more, Lookup(w, cur, Eval(w, key)));
  }

  /** A longer path: what the shorter one gives, and then the rest. */
  lemma PathExtends(w: World, head: string, s: Steps, more: Steps, pad: string)
    requires IsIdent(head) && !IsReserved(head) && StepsOk(s) && StepsOk(more) && AllSpaces(pad)
    ensures Resolve(w, Print(Path(head, s), pad) + PrintSteps(more, pad)) ==
            EvalSteps(w, more, Resolve(w, Print(Path(head, s), pad)))
  {
    hide Resolve, PrintSteps, EvalSteps, StepsOk, IsIdent, IsReserved, AllSpaces;
    ThenPrints(s, more, pad);
    PrintMeans(w, Path(head, s), pad);
    PrintMeans(w, Path(head, Then(s, more)), pad);
    ThenEvaluates(w, s, more, Lookup(w, w.vals, Str(head)));
    assert head + (PrintSteps(s, pad) + PrintSteps(more, pad)) == head + PrintSteps(s, pad) + PrintSteps(more, pad);
  }

  /** A point and a name or an index look the name up in what stands before; so do brackets, with the value of
      the expression between them. */
  lemma LookupsMean(w: World, head: string, s: Steps, name: string, key: Expr, pad: string)
    requires IsIdent(head) && !IsReserved(head) && StepsOk(s) && AllSpaces(pad)
    requires (IsIdent(name) || AllDigits(name)) && ExprOk(key)
    ensures var path := Print(Path(head, s), pad);
            && IsMember(w, Resolve(w, path), Str(name), Resolve(w, path + "." + name))
            && IsMember(w, Resolve(w, path), Resolve(w, Print(key, pad)),
               Resolve(w, path + "[" + Print(key, pad) + "]"))
  {
    hide Resolve, Print, Eval, ExprOk, IsIdent, AllDigits, IsReserved, AllSpaces;
    var path, k := Print(Path(head, s), pad), Print(key, pad);
    PathExtends(w, head, s, Dot(name, End), pad);
    PathExtends(w, head, s, Index(key, End), pad);
    PrintMeans(w, key, pad);
    assert "." + name + "" == "." + name && "[" + k + "]" + "" == "[" + k + "]";
    assert path + ("." + name) == path + "." + name && path + ("[" + k + "]") == path + "[" + k + "]";
  }

  // ----- Text that means nothing -----

  lemma {:induction false} SpacesTrimAway(pad: string)
    requires AllSpaces(pad)
    ensures TrimLeft(pad) == ""
  {
    if pad != "" { SpacesTrimAway(pad[1..]); }
  }

  /** Blank text has no value. */
  lemma BlankMeansNothing(w: World, pad: string)
    requires AllSpaces(pad)
    ensures Resolve(w, pad) == Undefined
  {
    SpacesTrimAway(pad);
    hide TrimLeft;
    assert TrimRight("") == "";
  }
}
