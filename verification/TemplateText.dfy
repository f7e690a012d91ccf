/** The characters, scanners and bracket levels of the template expressions. */
module TemplateText {
  import opened Common

  // ----- Characters -----

  predicate IsSpace(c: char) {
    c in " \t\n\r\U{b}\U{c}\U{a0}\U{1680}\U{2028}\U{2029}\U{202f}\U{205f}\U{3000}\U{feff}" ||
      '\U{2000}' <= c <= '\U{200a}'
  }

  predicate IsDigit(c: char) { '0' <= c <= '9' }

  predicate IdentStart(c: char) { 'a' <= c <= 'z' || 'A' <= c <= 'Z' || c == '_' || c == '$' }

  predicate IdentChar(c: char) { IdentStart(c) || IsDigit(c) }

  predicate IsQuote(c: char) { c == '\"' || c == '\'' }

  // ----- Trimming -----

  function TrimLeft(s: string): string { if s != "" && IsSpace(s[0]) then TrimLeft(s[1..]) else s }

  function TrimRight(s: string): string {
    if s != "" && IsSpace(s[|s| - 1]) then TrimRight(s[..|s| - 1]) else s
  }

  function Trim(s: string): (r: string)
    ensures |r| <= |s|
  {
    TrimLeftLength(s);
    TrimRightLength(TrimLeft(s));
    TrimRight(TrimLeft(s))
  }

  lemma TrimLeftLength(s: string)
    ensures |TrimLeft(s)| <= |s|
  {
  }

  lemma TrimRightLength(s: string)
    ensures |TrimRight(s)| <= |s|
  {
  }

  predicate AllSpaces(s: string) { forall k :: 0 <= k < |s| ==> IsSpace(s[k]) }

  /** Text that neither begins nor ends with a space. */
  predicate IsTrimmed(s: string) { s != "" && !IsSpace(s[0]) && !IsSpace(s[|s| - 1]) }

  lemma {:induction false} TrimLeftPadded(pad: string, s: string)
    requires AllSpaces(pad) && s != "" && !IsSpace(s[0])
    ensures TrimLeft(pad + s) == s
  {
    if pad == "" {
      assert pad + s == s;
    } else {
      assert (pad + s)[1..] == pad[1..] + s;
      TrimLeftPadded(pad[1..], s);
    }
  }

  lemma {:induction false} TrimRightPadded(s: string, pad: string)
    requires AllSpaces(pad) && s != "" && !IsSpace(s[|s| - 1])
    ensures TrimRight(s + pad) == s
  {
    if pad == "" {
      assert s + pad == s;
    } else {
      assert (s + pad)[..|s + pad| - 1] == s + pad[..|pad| - 1];
      TrimRightPadded(s, pad[..|pad| - 1]);
    }
  }

  /** Padding on either side is trimmed away. */
  lemma TrimPadded(before: string, s: string, after: string)
    requires AllSpaces(before) && AllSpaces(after) && IsTrimmed(s)
    ensures Trim(before + s + after) == s
  {
    assert before + s + after == before + (s + after);
    TrimLeftPadded(before, s + after);
    TrimRightPadded(s, after);
  }

  lemma {:induction false} TrimRightKeepsFirst(s: string)
    requires s != "" && !IsSpace(s[0])
    ensures TrimRight(s) != ""
  {
    if IsSpace(s[|s| - 1]) { TrimRightKeepsFirst(s[..|s| - 1]); }
  }

  lemma TrimKeepsFirst(s: string)
    requires s != "" && !IsSpace(s[0])
    ensures Trim(s) != ""
  {
    TrimRightKeepsFirst(s);
  }

  // ----- Runs of characters -----

  /** The end of the longest run of identifier characters from `i`. */
  function RunEnd(t: string, i: nat): (e: nat)
    requires i <= |t|
    ensures i <= e <= |t|
    decreases |t| - i
  {
    if i < |t| && IdentChar(t[i]) then RunEnd(t, i + 1) else i
  }

  /** An identifier at `i` ends here; `i` itself when there is none. */
  function IdentEnd(t: string, i: nat): (e: nat)
    requires i <= |t|
    ensures i <= e <= |t|
  {
    if i < |t| && IdentStart(t[i]) then RunEnd(t, i + 1) else i
  }

  function DigitEnd(t: string, i: nat): (e: nat)
    requires i <= |t|
    ensures i <= e <= |t|
    decreases |t| - i
  {
    if i < |t| && IsDigit(t[i]) then DigitEnd(t, i + 1) else i
  }

  predicate IsIdent(s: string) { s != "" && IdentStart(s[0]) && forall k :: 0 <= k < |s| ==> IdentChar(s[k]) }

  predicate AllDigits(s: string) { s != "" && forall k :: 0 <= k < |s| ==> IsDigit(s[k]) }

  /** An optional sign, digits, and optionally a point and digits. */
  predicate IsNumber(s: string) {
    var from := if s != "" && s[0] == '-' then 1 else 0;
    var mid := DigitEnd(s, from);
    mid > from && (mid == |s| || (s[mid] == '.' && mid + 1 < |s| && DigitEnd(s, mid + 1) == |s|))
  }

  lemma {:induction false} RunEndIs(t: string, i: nat, e: nat)
    requires i <= e <= |t| && (forall k :: i <= k < e ==> IdentChar(t[k])) && (e < |t| ==> !IdentChar(t[e]))
    ensures RunEnd(t, i) == e
    decreases e - i
  {
    if i < e { RunEndIs(t, i + 1, e); }
  }

  lemma {:induction false} DigitEndIs(t: string, i: nat, e: nat)
    requires i <= e <= |t| && (forall k :: i <= k < e ==> IsDigit(t[k])) && (e < |t| ==> !IsDigit(t[e]))
    ensures DigitEnd(t, i) == e
    decreases e - i
  {
    if i < e { DigitEndIs(t, i + 1, e); }
  }

  lemma {:induction false} DigitEndDigits(t: string, i: nat)
    requires i <= |t|
    ensures forall k :: i <= k < DigitEnd(t, i) ==> IsDigit(t[k])
    decreases |t| - i
  {
    if i < |t| && IsDigit(t[i]) { DigitEndDigits(t, i + 1); }
  }

  /** The characters of a number. */
  lemma NumberChars(s: string)
    requires IsNumber(s)
    ensures forall k :: 0 <= k < |s| ==> IsDigit(s[k]) || s[k] == '-' || s[k] == '.'
    ensures IsDigit(s[|s| - 1]) && (s[0] == '-' || IsDigit(s[0]))
  {
    var from := if s[0] == '-' then 1 else 0;
    DigitEndDigits(s, from);
    var mid := DigitEnd(s, from);
    if mid < |s| { DigitEndDigits(s, mid + 1); }
  }

  predicate IsDecimal(s: string) { s != "" && forall k :: 0 <= k < |s| ==> s[k] in "0123456789" }

  lemma DigitMeans(c: char)
    ensures IsDigit(c) <==> c in "0123456789"
  {
    assert c in "0123456789" ==> exists k :: 0 <= k < 10 && "0123456789"[k] == c;
    if IsDigit(c) { assert "0123456789"[c as int - 48] == c; }
  }

  lemma DigitsMean(t: string, i: nat, e: nat)
    requires i < e <= |t|
    ensures IsDecimal(t[i..e]) <==> forall k :: i <= k < e ==> IsDigit(t[k])
  {
    hide IsDigit;
    var d := t[i..e];
    forall k | i <= k < e ensures IsDigit(t[k]) <==> d[k - i] in "0123456789" { DigitMeans(t[k]); }
    assert forall k :: 0 <= k < |d| ==> d[k] == t[i + k];
  }

  /** Numbers are what the program's pattern matches: a sign or none, digits, and a point with digits or none. */
  lemma NumberIs(sign: string, whole: string, rest: string)
    requires (sign == "" || sign == "-") && IsDecimal(whole)
    requires rest == "" || (rest[0] == '.' && IsDecimal(rest[1..]))
    ensures IsNumber(sign + whole + rest)
  {
    hide IsDigit, IsDecimal;
    var s := sign + whole + rest;
    var from, mid := |sign|, |sign| + |whole|;
    assert s[from..mid] == whole && |whole| > 0 by { NotEmpty(whole); }
    DigitsMean(s, from, mid);
    DigitMeans('.');
    DigitMeans('-');
    if sign == "" { DigitIsNoSign(s); }
    DigitEndIs(s, from, mid);
    if rest != "" {
      NotEmpty(rest[1..]);
      assert s[mid] == rest[0] && s[mid + 1..|s|] == rest[1..];
      DigitsMean(s, mid + 1, |s|);
      DigitEndIs(s, mid + 1, |s|);
    }
  }

  lemma NotEmpty(s: string)
    requires IsDecimal(s)
    ensures s != ""
  {
  }

  lemma DigitIsNoSign(s: string)
    ensures s != "" && IsDigit(s[0]) ==> s[0] != '-'
  {
  }

  lemma NumberParts(s: string) returns (sign: string, whole: string, rest: string)
    requires IsNumber(s)
    ensures s == sign + whole + rest && (sign == "" || sign == "-") && IsDecimal(whole)
    ensures rest == "" || (rest[0] == '.' && IsDecimal(rest[1..]))
  {
    hide IsDigit, IsDecimal;
    var from := if s[0] == '-' then 1 else 0;
    var mid := DigitEnd(s, from);
    sign, whole, rest := s[..from], s[from..mid], s[mid..];
    assert from == 1 ==> sign == "-";
    DigitEndDigits(s, from);
    DigitsMean(s, from, mid);
    if mid < |s| {
      DigitEndDigits(s, mid + 1);
      DigitsMean(s, mid + 1, |s|);
      assert rest[1..] == s[mid + 1..|s|];
    }
  }

  /** White space and the characters of names, by their numbers. */
  lemma CharactersMean(c: char, n: int)
    requires n == c as int
    ensures 0x2000 <= n <= 0x200A || n == 32 || 9 <= n <= 13 || n == 0xA0 || n == 0xFEFF ==> IsSpace(c)
    ensures n == 0x1680 || n == 0x2028 || n == 0x2029 || n == 0x202F || n == 0x205F || n == 0x3000 ==> IsSpace(c)
    ensures 33 <= n < 127 ==> !IsSpace(c)
    ensures IdentStart(c) <==> 65 <= n <= 90 || 97 <= n <= 122 || n == 95 || n == 36
    ensures IdentChar(c) <==> IdentStart(c) || 48 <= n <= 57
  {
  }

  // ----- Bracket levels -----

  /** Which brackets a scanner counts. */
  datatype Kind = Both | Parens | Squares

  predicate Opens(k: Kind, c: char) { (c == '(' && !k.Squares?) || (c == '[' && !k.Parens?) }

  predicate Closes(k: Kind, c: char) { (c == ')' && !k.Squares?) || (c == ']' && !k.Parens?) }

  /** The level after `s` from level `d`; None when it goes below zero on the way. */
  function Level(k: Kind, s: string, d: nat): Option<nat>
    decreases |s|
  {
    if s == "" then Some(d)
    else if Opens(k, s[0]) then Level(k, s[1..], d + 1)
    else if Closes(k, s[0]) then (if d == 0 then None else Level(k, s[1..], d - 1))
    else Level(k, s[1..], d)
  }

  predicate Balanced(k: Kind, s: string) { Level(k, s, 0) == Some(0) }

  lemma {:induction false} LevelAppend(k: Kind, a: string, b: string, d: nat)
    ensures Level(k, a + b, d) == match Level(k, a, d) case None => None case Some(e) => Level(k, b, e)
    decreases |a|
  {
    if a == "" {
      assert a + b == b;
    } else {
      assert (a + b)[1..] == a[1..] + b;
      var e: int := if Opens(k, a[0]) then d + 1 else if Closes(k, a[0]) then d - 1 else d;
      if e >= 0 { LevelAppend(k, a[1..], b, e); }
    }
  }

  /** Text that is balanced from zero keeps any level. */
  lemma {:induction false} LevelLifts(k: Kind, s: string, d: nat, up: nat)
    requires Level(k, s, d).Some?
    ensures Level(k, s, d + up) == Some(Level(k, s, d).value + up)
    decreases |s|
  {
    if s != "" {
      var e: int := if Opens(k, s[0]) then d + 1 else if Closes(k, s[0]) then d - 1 else d;
      LevelLifts(k, s[1..], e, up);
    }
  }

  lemma BalancedAppend(k: Kind, a: string, b: string)
    requires Balanced(k, a) && Balanced(k, b)
    ensures Balanced(k, a + b)
  {
    LevelAppend(k, a, b, 0);
  }

  lemma {:induction false} PlainIsBalanced(k: Kind, s: string)
    requires forall i :: 0 <= i < |s| ==> !Opens(k, s[i]) && !Closes(k, s[i])
    ensures Balanced(k, s)
  {
    if s != "" { PlainIsBalanced(k, s[1..]); }
  }

  /** Wrapping in one pair of brackets. */
  lemma WrappedIsBalanced(k: Kind, open: char, s: string, close: char)
    requires Balanced(k, s) && ((open == '(' && close == ')') || (open == '[' && close == ']'))
    ensures Balanced(k, [open] + s + [close])
  {
    var t := s + [close];
    assert [open] + s + [close] == [open] + t && ([open] + t)[1..] == t;
    var d := if Opens(k, open) then 1 else 0;
    assert Level(k, [open] + t, 0) == Level(k, t, d);
    LevelAppend(k, s, [close], d);
    LevelLifts(k, s, 0, d);
    assert [close][1..] == "";
  }
}
