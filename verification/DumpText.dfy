/** Bytes, and what Go's rune-wise reading and writing does to them. */
module DumpText {

  type Byte = b: nat | b < 256
  type Text = seq<Byte>

  datatype Result<+T> = Ok(value: T) | Err

  const QUOTE: Byte := 39
  const BACKSLASH: Byte := 92
  const COMMA: Byte := 44
  const OPEN: Byte := 40
  const CLOSE: Byte := 41
  const SEMICOLON: Byte := 59
  const BACKTICK: Byte := 96
  const SPACE: Byte := 32
  const NEWLINE: Byte := 10
  const TAB: Byte := 9

  /** U+FFFD, which stands in for every byte that is not part of a well-formed character. */
  const REPLACEMENT: Text := [0xEF, 0xBF, 0xBD]

  predicate Continues(b: Byte) { 0x80 <= b <= 0xBF }

  /** The range of the second byte of a character whose first byte is `b`. */
  predicate Follows(b: Byte, c: Byte) {
    (if b == 0xE0 then 0xA0 else if b == 0xF0 then 0x90 else 0x80) <= c
    && c <= (if b == 0xED then 0x9F else if b == 0xF4 then 0x8F else 0xBF)
  }

  /** The length of the character at the front of `s`; 0 when its first byte starts no character. */
  function RuneLen(s: Text): (n: nat)
    requires s != []
    ensures n <= |s|
    ensures n == 1 <==> s[0] < 0x80
    ensures forall k :: 0 <= k < n && n > 1 ==> s[k] >= 0x80
  {
    var b := s[0];
    if b < 0x80 then 1
    else if 0xC2 <= b <= 0xDF then (if |s| > 1 && Continues(s[1]) then 2 else 0)
    else if 0xE0 <= b <= 0xEF then (if |s| > 2 && Follows(b, s[1]) && Continues(s[2]) then 3 else 0)
    else if 0xF0 <= b <= 0xF4 then
      (if |s| > 3 && Follows(b, s[1]) && Continues(s[2]) && Continues(s[3]) then 4 else 0)
    else 0
  }

  // ----- The characters are those of UTF-8 -----

  /** A character number; the surrogates are none. */
  predicate IsScalar(c: nat) { c < 0xD800 || 0xDFFF < c < 0x110000 }

  /** The bytes of a character (section 3 of RFC 3629). */
  function Encoded(c: nat): (s: Text)
    requires IsScalar(c)
    ensures 1 <= |s| <= 4
  {
    if c < 0x80 then [c]
    else if c < 0x800 then [0xC0 + c / 0x40, 0x80 + c % 0x40]
    else if c < 0x10000 then [0xE0 + c / 0x1000, 0x80 + c / 0x40 % 0x40, 0x80 + c % 0x40]
    else [0xF0 + c / 0x40000, 0x80 + c / 0x1000 % 0x40, 0x80 + c / 0x40 % 0x40, 0x80 + c % 0x40]
  }

  /** The number that the first `n` bytes of `s` spell. */
  function Spelled(s: Text, n: nat): int
    requires n <= |s| && n <= 4
  {
    if n == 0 then 0
    else
      var b := seq(n, i requires 0 <= i < n => s[i] as int);
      if n == 1 then b[0]
      else if n == 2 then (b[0] - 0xC0) * 0x40 + (b[1] - 0x80)
      else if n == 3 then (b[0] - 0xE0) * 0x1000 + (b[1] - 0x80) * 0x40 + (b[2] - 0x80)
      else (b[0] - 0xF0) * 0x40000 + (b[1] - 0x80) * 0x1000 + (b[2] - 0x80) * 0x40 + (b[3] - 0x80)
  }

  lemma By64(q: nat, r: nat)
    requires r < 0x40
    ensures (q * 0x40 + r) / 0x40 == q && (q * 0x40 + r) % 0x40 == r
  {
  }

  lemma By4096(q: nat, r: nat)
    requires r < 0x1000
    ensures (q * 0x1000 + r) / 0x1000 == q
  {
  }

  lemma By262144(q: nat, r: nat)
    requires r < 0x40000
    ensures (q * 0x40000 + r) / 0x40000 == q
  {
  }

  lemma SpelledOne(a: nat)
    requires a < 0x80
    ensures IsScalar(a) && Encoded(a) == [a]
  {
  }

  lemma SpelledTwo(a: nat, b: nat)
    requires 2 <= a <= 0x1F && b < 0x40
    ensures IsScalar(a * 0x40 + b) && Encoded(a * 0x40 + b) == [0xC0 + a, 0x80 + b]
  {
    By64(a, b);
  }

  lemma SpelledThree(a: nat, b: nat, c: nat)
    requires a <= 0xF && b < 0x40 && c < 0x40 && (a == 0 ==> b >= 0x20) && (a == 0xD ==> b < 0x20)
    ensures IsScalar(a * 0x1000 + b * 0x40 + c) && Encoded(a * 0x1000 + b * 0x40 + c) == [0xE0 + a, 0x80 + b, 0x80 + c]
  {
    By64(a * 0x40 + b, c);
    By64(a, b);
    By4096(a, b * 0x40 + c);
  }

  lemma SpelledFour(a: nat, b: nat, c: nat, d: nat)
    requires a <= 4 && b < 0x40 && c < 0x40 && d < 0x40 && (a == 0 ==> b >= 0x10) && (a == 4 ==> b < 0x10)
    ensures var n := a * 0x40000 + b * 0x1000 + c * 0x40 + d;
            IsScalar(n) && Encoded(n) == [0xF0 + a, 0x80 + b, 0x80 + c, 0x80 + d]
  {
    By64(a * 0x1000 + b * 0x40 + c, d);
    By64(a * 0x40 + b, c);
    By64(a, b);
    By4096(a * 0x40 + b, c * 0x40 + d);
    By262144(a, b * 0x1000 + c * 0x40 + d);
  }

  /** A character is found at the front of a text if and only if the text begins with the bytes of one. */
  lemma RuneIsCharacter(s: Text)
    requires s != []
    ensures RuneLen(s) > 0 ==>
              && Spelled(s, RuneLen(s)) >= 0 && IsScalar(Spelled(s, RuneLen(s)))
              && s[..RuneLen(s)] == Encoded(Spelled(s, RuneLen(s)))
    ensures forall c :: 0 <= c && IsScalar(c) && Encoded(c) <= s ==> RuneLen(s) == |Encoded(c)|
  {
    hide Encoded, IsScalar;
    match RuneLen(s) {
      case 1 => SpelledOne(s[0]);
      case 2 => SpelledTwo(s[0] - 0xC0, s[1] - 0x80);
      case 3 => SpelledThree(s[0] - 0xE0, s[1] - 0x80, s[2] - 0x80);
      case 4 => SpelledFour(s[0] - 0xF0, s[1] - 0x80, s[2] - 0x80, s[3] - 0x80);
      case _ =>
    }
    forall c | 0 <= c && IsScalar(c) && Encoded(c) <= s ensures RuneLen(s) == |Encoded(c)| {
      CharacterIsRune(c, s[|Encoded(c)|..]);
      assert s == Encoded(c) + s[|Encoded(c)|..];
    }
  }

  lemma CharacterIsRune(c: nat, rest: Text)
    requires IsScalar(c)
    ensures RuneLen(Encoded(c) + rest) == |Encoded(c)|
  {
    var e := Encoded(c);
    var s := e + rest;
    assert forall k :: 0 <= k < |e| ==> s[k] == e[k];
  }

  /** Reading a text rune by rune and writing the runes back. */
  function Sanitize(s: Text): Text {
    if s == [] then []
    else var n := RuneLen(s);
         if n == 0 then REPLACEMENT + Sanitize(s[1..]) else s[..n] + Sanitize(s[n..])
  }

  /** Well-formed UTF-8 (section 4 of RFC 3629). */
  predicate ValidUtf8(s: Text) {
    s == [] || (RuneLen(s) > 0 && ValidUtf8(s[RuneLen(s)..]))
  }

  /** Rune-wise copying is the identity exactly on well-formed text. */
  lemma {:induction false} SanitizeIsIdentity(s: Text)
    ensures |Sanitize(s)| >= |s|
    ensures Sanitize(s) == s <==> ValidUtf8(s)
  {
    if s != [] {
      var n := RuneLen(s);
      if n == 0 {
        SanitizeIsIdentity(s[1..]);
        assert |Sanitize(s)| > |s|;
      } else {
        SanitizeIsIdentity(s[n..]);
        assert s == s[..n] + s[n..];
        if Sanitize(s) == s {
          assert Sanitize(s)[n..] == Sanitize(s[n..]);
        }
      }
    }
  }

  lemma RuneLenAppend(a: Text, b: Text)
    requires a != [] && (b == [] || b[0] < 0x80)
    ensures RuneLen(a + b) == RuneLen(a)
  {
    assert forall k :: 0 <= k < |a| ==> (a + b)[k] == a[k];
    if b != [] { assert (a + b)[|a|] == b[0]; }
  }

  /** One rune, well-formed or a stray byte, is copied. */
  lemma SanitizeStep(p: Text, rest: Text)
    requires p != [] && (RuneLen(p + rest) == |p| || (|p| == 1 && RuneLen(p + rest) == 0))
    ensures Sanitize(p + rest) == (if RuneLen(p + rest) == 0 then REPLACEMENT else p) + Sanitize(rest)
  {
    hide RuneLen;
    assert (p + rest)[|p|..] == rest && (p + rest)[..|p|] == p;
  }

  /** A byte below 128 never belongs to a longer character, so text may be cut in front of it. */
  lemma {:induction false} SanitizeAppend(a: Text, b: Text)
    requires b == [] || b[0] < 0x80
    ensures Sanitize(a + b) == Sanitize(a) + Sanitize(b)
  {
    hide RuneLen;
    if a == [] {
      assert a + b == b;
    } else {
      RuneLenAppend(a, b);
      var n := if RuneLen(a) == 0 then 1 else RuneLen(a);
      var p, r := a[..n], a[n..];
      SanitizeAppend(r, b);
      hide Sanitize;
      assert p + r == a;
      Assoc(p, r, b);
      SanitizeStep(p, r);
      SanitizeStep(p, r + b);
      Assoc(if RuneLen(a) == 0 then REPLACEMENT else p, Sanitize(r), Sanitize(b));
    }
  }

  predicate IsAscii(s: Text) { forall k :: 0 <= k < |s| ==> s[k] < 0x80 }

  lemma {:induction false} SanitizeAscii(s: Text)
    requires IsAscii(s)
    ensures Sanitize(s) == s
  {
    if s != [] { SanitizeAscii(s[1..]); }
  }

  // ----- Escaping in dumps -----

  /** How a dump writes one byte of a quoted string. */
  function EscapeByte(b: Byte): Text {
    if b == 0 then [BACKSLASH, 48]
    else if b == 10 then [BACKSLASH, 110]
    else if b == 13 then [BACKSLASH, 114]
    else if b == 26 then [BACKSLASH, 90]
    else if b == QUOTE || b == BACKSLASH || b == 34 then [BACKSLASH, b]
    else [b]
  }

  function Escape(s: Text): Text {
    if s == [] then [] else EscapeByte(s[0]) + Escape(s[1..])
  }

  /** unescapeMariaDBByte */
  function Unescape(b: Byte): Byte {
    if b == 48 then 0
    else if b == 110 then 10
    else if b == 114 then 13
    else if b == 116 then 9
    else if b == 98 then 8
    else if b == 90 then 26
    else b
  }

  /** The bytes above 127 at the front of a text; a character never reaches beyond them. */
  function HighRun(s: Text): Text {
    if s == [] || s[0] < 0x80 then [] else [s[0]] + HighRun(s[1..])
  }

  lemma {:induction false} HighRunIsPrefix(s: Text)
    ensures var h := HighRun(s); h <= s && (h == s || s[|h|] < 0x80)
  {
    if s != [] && s[0] >= 0x80 { HighRunIsPrefix(s[1..]); }
  }

  lemma RuneLenOfHighRun(s: Text)
    requires s != [] && s[0] >= 0x80
    ensures HighRun(s) != [] && RuneLen(s) == RuneLen(HighRun(s))
  {
    HighRunIsPrefix(s);
    var h := HighRun(s);
    assert s == h + s[|h|..];
    RuneLenAppend(h, s[|h|..]);
  }

  lemma {:induction false} EscapeKeepsHighRun(u: Text)
    ensures HighRun(Escape(u)) == HighRun(u)
  {
    if u != [] && u[0] >= 0x80 {
      EscapeKeepsHighRun(u[1..]);
      assert Escape(u)[1..] == Escape(u[1..]);
    }
  }

  /** Escaping leaves the characters of a text, well-formed or not, where they are. */
  lemma EscapeSplits(u: Text, m: nat)
    requires m <= |u| && forall k :: 0 <= k < m ==> u[k] >= 0x80
    ensures Escape(u) == u[..m] + Escape(u[m..])
  {
    hide Escape;
    EscapeHigh(u[..m]);
    EscapeAppend(u[..m], u[m..]);
    assert u == u[..m] + u[m..];
  }

  lemma RuneLenEscape(b: Byte, u: Text)
    requires b >= 0x80
    ensures RuneLen([b] + Escape(u)) == RuneLen([b] + u)
    ensures var n := RuneLen([b] + u); n > 0 ==> Escape(u) == u[..n - 1] + Escape(u[n - 1..])
  {
    hide RuneLen;
    var s, e := [b] + u, [b] + Escape(u);
    RuneLenOfHighRun(s);
    RuneLenOfHighRun(e);
    EscapeKeepsHighRun(u);
    assert s[1..] == u && e[1..] == Escape(u);
    var n := RuneLen(s);
    if n > 0 {
      assert n > 1;
      assert forall k :: 0 <= k < n - 1 ==> u[k] == s[k + 1] >= 0x80;
      EscapeSplits(u, n - 1);
    }
  }

  lemma {:induction false} SanitizeEscape(s: Text)
    ensures Sanitize(Escape(s)) == Escape(Sanitize(s))
    decreases |s|, 1
  {
    hide RuneLen;
    if s != [] {
      var b, u := s[0], s[1..];
      assert s == [b] + u;
      if b < 0x80 {
        SanitizeEscape(u);
        EscapeByteIsAscii(b, Escape(u));
        assert Sanitize(s) == [b] + Sanitize(u);
        assert ([b] + Sanitize(u))[1..] == Sanitize(u);
      } else {
        SanitizeEscapeHigh(b, u);
      }
    }
  }

  lemma SanitizeEscapeHigh(b: Byte, u: Text)
    requires b >= 0x80
    ensures Sanitize(Escape([b] + u)) == Escape(Sanitize([b] + u))
    decreases |u| + 1, 0
  {
    hide RuneLen, Sanitize, Escape;
    var s := [b] + u;
    var n := RuneLen(s);
    RuneLenEscape(b, u);
    EscapeAppend([b], u);
    EscapeHigh([b]);
    if n == 0 {
      SanitizeStep([b], u);
      SanitizeStep([b], Escape(u));
      SanitizeEscape(u);
      EscapeAppend(REPLACEMENT, Sanitize(u));
      EscapeHigh(REPLACEMENT);
    } else {
      var p, rest := s[..n], s[n..];
      assert p == [b] + u[..n - 1] && u[n - 1..] == rest && p + rest == s;
      assert [b] + (u[..n - 1] + Escape(rest)) == p + Escape(rest);
      SanitizeStep(p, rest);
      SanitizeStep(p, Escape(rest));
      SanitizeEscape(rest);
      EscapeAppend(p, Sanitize(rest));
      EscapeHigh(p);
    }
  }

  lemma EscapeByteIsAscii(b: Byte, e: Text)
    requires b < 0x80
    ensures Sanitize(EscapeByte(b) + e) == EscapeByte(b) + Sanitize(e)
  {
    var p := EscapeByte(b);
    assert forall k :: 0 <= k < |p| ==> p[k] < 0x80;
    if |p| == 2 {
      assert p + e == [p[0]] + ([p[1]] + e) && p == [p[0]] + [p[1]];
      AsciiFirst(p[1], e);
      AsciiFirst(p[0], [p[1]] + e);
      Assoc([p[0]], [p[1]], Sanitize(e));
      hide Sanitize, EscapeByte;
    } else {
      assert p == [p[0]];
      AsciiFirst(p[0], e);
    }
  }

  lemma AsciiFirst(b: Byte, e: Text)
    requires b < 0x80
    ensures Sanitize([b] + e) == [b] + Sanitize(e)
  {
    assert ([b] + e)[1..] == e;
  }

  lemma Assoc(a: Text, b: Text, c: Text)
    ensures a + (b + c) == (a + b) + c
  {
  }

  lemma EscapeCons(x: Byte, r: Text)
    ensures Escape([x] + r) == EscapeByte(x) + Escape(r)
  {
    assert ([x] + r)[1..] == r;
  }

  lemma {:induction false} EscapeAppend(a: Text, b: Text)
    ensures Escape(a + b) == Escape(a) + Escape(b)
  {
    if a == [] {
      assert a + b == b;
    } else {
      var x, r := a[0], a[1..];
      EscapeAppend(r, b);
      hide Escape, EscapeByte;
      Assoc([x], r, b);
      assert a == [x] + r;
      EscapeCons(x, r);
      EscapeCons(x, r + b);
      Assoc(EscapeByte(x), Escape(r), Escape(b));
    }
  }

  lemma {:induction false} EscapeHigh(a: Text)
    requires forall k :: 0 <= k < |a| ==> a[k] >= 0x80
    ensures Escape(a) == a
  {
    if a != [] { EscapeHigh(a[1..]); }
  }
}
