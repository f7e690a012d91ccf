/** Decimal numbers as the programs print and read them. */
module Decimal {
  import opened DumpText

  predicate IsDigit(b: Byte) { 48 <= b <= 57 }

  predicate AllDigits(s: Text) { forall k :: 0 <= k < |s| ==> IsDigit(s[k]) }

  function Digits(n: nat): (s: Text)
    ensures s != [] && AllDigits(s)
  {
    if n < 10 then [48 + n] else Digits(n / 10) + [48 + n % 10]
  }

  function Value(s: Text): nat
    requires AllDigits(s)
  {
    if s == [] then 0 else 10 * Value(s[..|s| - 1]) + (s[|s| - 1] - 48)
  }

  lemma {:induction false} ValueOfDigits(n: nat)
    ensures Value(Digits(n)) == n
  {
    if n >= 10 {
      ValueOfDigits(n / 10);
      var s := Digits(n);
      assert s[..|s| - 1] == Digits(n / 10);
    }
  }

  lemma DigitsInjective(a: nat, b: nat)
    requires Digits(a) == Digits(b)
    ensures a == b
  {
    ValueOfDigits(a);
    ValueOfDigits(b);
  }

  type Uint64 = n: nat | n < 0x1_0000_0000_0000_0000
  type Int64 = n: int | -0x8000_0000_0000_0000 <= n < 0x8000_0000_0000_0000

  /** strconv.ParseUint(text, 10, 64) */
  function ParseUint(s: Text): Result<Uint64> {
    if s != [] && AllDigits(s) && Value(s) < 0x1_0000_0000_0000_0000 then Ok(Value(s)) else Err
  }

  /** strconv.ParseInt(text, 10, 64) */
  function ParseInt(s: Text): Result<Int64> {
    var signed := s != [] && (s[0] == 43 || s[0] == 45);
    var digits := if signed then s[1..] else s;
    if digits == [] || !AllDigits(digits) then Err
    else
      var magnitude: int := Value(digits);
      var n := if signed && s[0] == 45 then -magnitude else magnitude;
      if -0x8000_0000_0000_0000 <= n < 0x8000_0000_0000_0000 then Ok(n) else Err
  }

  function PrintInt(n: int): Text {
    if n < 0 then [45] + Digits(-n) else Digits(n)
  }

  lemma ParseUintDigits(n: Uint64)
    ensures ParseUint(Digits(n)) == Ok(n)
  {
    ValueOfDigits(n);
  }

  function Zeros(k: nat): Text { if k == 0 then [] else Zeros(k - 1) + [48] }

  lemma {:induction false} ValueOfPadded(k: nat, s: Text)
    requires AllDigits(s)
    ensures AllDigits(Zeros(k) + s) && Value(Zeros(k) + s) == Value(s)
  {
    var t := Zeros(k) + s;
    if s != [] {
      ValueOfPadded(k, s[..|s| - 1]);
      assert t[..|t| - 1] == Zeros(k) + s[..|s| - 1];
    } else if k > 0 {
      ValueOfPadded(k - 1, []);
      assert t == Zeros(k) && t[..|t| - 1] == Zeros(k - 1) && Zeros(k - 1) + [] == Zeros(k - 1);
    }
  }

  /** Decimal digits with any number of leading zeros are read as their number, or refused if it is too big. */
  lemma ParseUintPadded(k: nat, n: nat)
    ensures ParseUint(Zeros(k) + Digits(n)) == if n < 0x1_0000_0000_0000_0000 then Ok(n) else Err
  {
    ValueOfDigits(n);
    ValueOfPadded(k, Digits(n));
  }

  /** Any other text is refused. */
  lemma ParseUintReadsOnlyDigits(s: Text)
    ensures s == [] || (exists i :: 0 <= i < |s| && !IsDigit(s[i])) ==> ParseUint(s) == Err
  {
  }

  /** A sign may stand in front of the digits; what does not fit 64 bits is refused. */
  lemma ParseIntSigned(k: nat, n: nat)
    ensures var s, m: int := Zeros(k) + Digits(n), n;
            && ParseInt(s) == ParseInt([43] + s) == (if m < 0x8000_0000_0000_0000 then Ok(m) else Err)
            && ParseInt([45] + s) == (if m <= 0x8000_0000_0000_0000 then Ok(-m) else Err)
  {
    ValueOfDigits(n);
    ValueOfPadded(k, Digits(n));
    var s := Zeros(k) + Digits(n);
    assert IsDigit(s[0]) && ([43] + s)[1..] == s && ([45] + s)[1..] == s;
  }

  lemma ParseIntReadsOnlyDigits(s: Text)
    ensures s == [] || (exists i :: 0 < i < |s| && !IsDigit(s[i])) ==> ParseInt(s) == Err
    ensures s != [] && !IsDigit(s[0]) && (s[0] !in {43, 45} || |s| == 1) ==> ParseInt(s) == Err
  {
    if i :| 0 < i < |s| && !IsDigit(s[i]) {
      assert s[1..][i - 1] == s[i];
    }
  }

  lemma ParseIntPrintInt(n: Int64)
    ensures ParseInt(PrintInt(n)) == Ok(n)
  {
    var m: int := n;
    var d := Digits(if m < 0 then -m else m);
    ValueOfDigits(if m < 0 then -m else m);
    if n < 0 {
      assert ([45] + d)[1..] == d;
    } else {
      assert IsDigit(d[0]);
    }
  }
}
