/** The file names of the derivative cache: what `Entry` prints, what the pruner recognises, and what the
    temp-file sweeper recognises.  A path is given by its components below the cache directory. */
module CacheNames {
  import opened DumpText
  import opened Decimal

  const DASH: Byte := 45
  const DOT: Byte := 46
  const LETTER_W: Byte := 119

  /** ".jpg", ".tmp" and ".thumb-" */
  const JPG: Text := [46, 106, 112, 103]
  const TMP: Text := [46, 116, 109, 112]
  const THUMB: Text := [46, 116, 104, 117, 109, 98, 45]

  predicate IsHexByte(b: Byte) { IsDigit(b) || 97 <= b <= 102 }

  predicate IsLowerHex(s: Text, length: nat) {
    |s| == length && forall k :: 0 <= k < |s| ==> IsHexByte(s[k])
  }

  predicate IsDecimal(s: Text) { s != [] && AllDigits(s) }

  predicate IsCacheToken(s: Text) { forall k :: 0 <= k < |s| ==> IsHexByte(s[k]) || s[k] == DASH }

  const MIN_SIZE := 64
  const MAX_SIZE := 1024

  function ClampWidth(width: int): nat {
    if width < MIN_SIZE then MIN_SIZE else if width > MAX_SIZE then MAX_SIZE else width
  }

  // ----- Printing -----

  function Name(id: nat, width: nat, token: Text): Text {
    Digits(id) + ([DASH, LETTER_W] + (Digits(width) + ([DASH] + (token + JPG))))
  }

  /** Entry: two shard directories taken from a hash in lower-case hex, then the name. */
  function Entry(id: nat, width: nat, token: Text, shard: Text): seq<Text>
    requires |shard| >= 4
  {
    [shard[..2], shard[2..4], Name(id, width, token)]
  }

  /** ContentToken: the content hash in hex, or the validator without its quotes. */
  function Validator(id: nat, size: nat, modTime: int): Text {
    Digits(id) + ([DASH] + (Digits(size) + ([DASH] + PrintInt(modTime))))
  }

  function HexDigit(n: nat): Byte
    requires n < 16
  {
    if n < 10 then 48 + n else 87 + n
  }

  function Hex(hash: Text): Text {
    if hash == [] then [] else [HexDigit(hash[0] / 16), HexDigit(hash[0] % 16)] + Hex(hash[1..])
  }

  function ContentToken(hash: Text, id: nat, size: nat, modTime: int): Text {
    if hash != [] then Hex(hash) else Validator(id, size, modTime)
  }

  // ----- Recognising -----

  /** The extension: from the last dot on. */
  function Ext(s: Text): Text {
    if s == [] then []
    else if Ext(s[1..]) != [] then Ext(s[1..])
    else if s[0] == DOT then s else []
  }

  datatype Cut = NotFound | Found(before: Text, after: Text)

  /** strings.Cut at the first "-w" */
  function CutWidth(s: Text): Cut {
    if |s| < 2 then NotFound
    else if s[0] == DASH && s[1] == LETTER_W then Found([], s[2..])
    else match CutWidth(s[1..])
      case NotFound => NotFound
      case Found(b, a) => Found([s[0]] + b, a)
  }

  /** strings.Cut at the first "-" */
  function CutDash(s: Text): Cut {
    if s == [] then NotFound
    else if s[0] == DASH then Found([], s[1..])
    else match CutDash(s[1..])
      case NotFound => NotFound
      case Found(b, a) => Found([s[0]] + b, a)
  }

  predicate IsCacheName(name: Text) {
    Ext(name) == JPG && |name| >= 4 &&
    match CutWidth(name[..|name| - 4])
    case NotFound => false
    case Found(id, rest) =>
      IsDecimal(id) &&
      match CutDash(rest)
      case NotFound => false
      case Found(width, token) => IsDecimal(width) && token != [] && IsCacheToken(token)
  }

  predicate IsCacheFile(parts: seq<Text>) {
    |parts| == 3 && IsLowerHex(parts[0], 2) && IsLowerHex(parts[1], 2) && IsCacheName(parts[2])
  }

  /** What SweepTempFiles removes, in any directory below the cache. */
  predicate IsTempName(name: Text) {
    |name| >= |THUMB| && name[..|THUMB|] == THUMB && |name| >= |TMP| && name[|name| - |TMP|..] == TMP
  }

  /** The name of a file that a writer was still filling, whatever random part it was given: .thumb-*.tmp */
  lemma UnfinishedFilesAreSwept(random: Text)
    ensures IsTempName([46, 116, 104, 117, 109, 98, 45] + random + [46, 116, 109, 112])
  {
  }

  // ----- The recogniser accepts exactly the names of the printed shape -----

  lemma {:induction false} ExtAppend(s: Text, ext: Text)
    requires ext != [] && ext[0] == DOT && Ext(ext) == ext
    ensures Ext(s + ext) == ext
  {
    if s == [] {
      assert s + ext == ext;
    } else {
      ExtAppend(s[1..], ext);
      assert (s + ext)[1..] == s[1..] + ext;
    }
  }

  lemma {:induction false} ExtIsSuffix(s: Text)
    ensures |Ext(s)| <= |s| && s[|s| - |Ext(s)|..] == Ext(s)
  {
    if s != [] {
      ExtIsSuffix(s[1..]);
      var e := Ext(s[1..]);
      if e != [] { assert s[|s| - |e|..] == s[1..][|s| - 1 - |e|..]; }
    }
  }

  lemma JpgIsExt()
    ensures Ext(JPG) == JPG && Ext(TMP) == TMP
  {
    assert JPG[1..] == [106, 112, 103] && TMP[1..] == [116, 109, 112];
    assert Ext([103]) == [] && Ext([112]) == [];
    assert [112, 103][1..] == [103] && Ext([112, 103]) == [];
    assert [106, 112, 103][1..] == [112, 103] && Ext([106, 112, 103]) == [];
    assert [109, 112][1..] == [112] && Ext([109, 112]) == [];
    assert [116, 109, 112][1..] == [109, 112] && Ext([116, 109, 112]) == [];
  }

  lemma {:induction false} CutWidthFinds(id: Text, rest: Text)
    requires AllDigits(id)
    ensures CutWidth(id + ([DASH, LETTER_W] + rest)) == Found(id, rest)
  {
    var s := id + ([DASH, LETTER_W] + rest);
    if id == [] {
      assert s[2..] == rest;
    } else {
      CutWidthFinds(id[1..], rest);
      assert s[1..] == id[1..] + ([DASH, LETTER_W] + rest);
    }
  }

  lemma {:induction false} CutDashFinds(width: Text, token: Text)
    requires AllDigits(width)
    ensures CutDash(width + ([DASH] + token)) == Found(width, token)
  {
    var s := width + ([DASH] + token);
    if width == [] {
      assert s[1..] == token;
    } else {
      CutDashFinds(width[1..], token);
      assert s[1..] == width[1..] + ([DASH] + token);
    }
  }

  lemma {:induction false} CutWidthSplits(s: Text)
    ensures CutWidth(s).Found? ==> s == CutWidth(s).before + ([DASH, LETTER_W] + CutWidth(s).after)
  {
    if |s| >= 2 && !(s[0] == DASH && s[1] == LETTER_W) { CutWidthSplits(s[1..]); }
  }

  lemma {:induction false} CutDashSplits(s: Text)
    ensures CutDash(s).Found? ==> s == CutDash(s).before + ([DASH] + CutDash(s).after)
  {
    if s != [] && s[0] != DASH { CutDashSplits(s[1..]); }
  }

  function Spelled(id: Text, width: Text, token: Text): Text {
    id + ([DASH, LETTER_W] + (width + ([DASH] + token)))
  }

  /** The recogniser's language: digits, "-w", digits, "-", a token and ".jpg". */
  ghost predicate HasShape(name: Text) {
    exists id, width, token ::
      IsDecimal(id) && IsDecimal(width) && token != [] && IsCacheToken(token) && name == Spelled(id, width, token) + JPG
  }

  lemma RecogniserIsExact(name: Text)
    ensures IsCacheName(name) <==> HasShape(name)
  {
    if HasShape(name) {
      var id, width, token :|
        IsDecimal(id) && IsDecimal(width) && token != [] && IsCacheToken(token) &&
          name == Spelled(id, width, token) + JPG;
      SpelledIsRecognised(id, width, token);
    }
    if IsCacheName(name) {
      var stem := name[..|name| - 4];
      CutWidthSplits(stem);
      var rest := CutWidth(stem).after;
      CutDashSplits(rest);
      ExtIsSuffix(name);
      assert name == stem + JPG;
      assert name == Spelled(CutWidth(stem).before, CutDash(rest).before, CutDash(rest).after) + JPG;
    }
  }

  lemma SpelledIsRecognised(id: Text, width: Text, token: Text)
    requires IsDecimal(id) && IsDecimal(width) && token != [] && IsCacheToken(token)
    ensures IsCacheName(Spelled(id, width, token) + JPG)
  {
    var stem := Spelled(id, width, token);
    JpgIsExt();
    ExtAppend(stem, JPG);
    assert (stem + JPG)[..|stem + JPG| - 4] == stem;
    CutWidthFinds(id, width + ([DASH] + token));
    CutDashFinds(width, token);
  }

  lemma NameIsSpelled(id: nat, width: nat, token: Text)
    ensures Name(id, width, token) == Spelled(Digits(id), Digits(width), token) + JPG
  {
    var d, w := Digits(id), Digits(width);
    Assoc([DASH], token, JPG);
    Assoc(w, [DASH] + token, JPG);
    Assoc([DASH, LETTER_W], w + ([DASH] + token), JPG);
    Assoc(d, [DASH, LETTER_W] + (w + ([DASH] + token)), JPG);
  }

  lemma {:induction false} HexIsToken(hash: Text)
    ensures IsCacheToken(Hex(hash)) && (hash != [] ==> Hex(hash) != [])
  {
    if hash != [] { HexIsToken(hash[1..]); }
  }

  lemma TokenIsCacheToken(hash: Text, id: nat, size: nat, modTime: int)
    ensures ContentToken(hash, id, size, modTime) != [] && IsCacheToken(ContentToken(hash, id, size, modTime))
  {
    HexIsToken(hash);
  }

  /** Every path that `Entry` builds is one the pruner recognises: for every photo, every requested width
      (after clamping), with or without a content hash, and every modification time. */
  lemma EntriesAreCacheFiles(id: nat, width: int, hash: Text, size: nat, modTime: int, shard: Text)
    requires IsLowerHex(shard, 64)
    ensures IsCacheFile(Entry(id, ClampWidth(width), ContentToken(hash, id, size, modTime), shard))
  {
    var token := ContentToken(hash, id, size, modTime);
    TokenIsCacheToken(hash, id, size, modTime);
    NameIsSpelled(id, ClampWidth(width), token);
    SpelledIsRecognised(Digits(id), Digits(ClampWidth(width)), token);
  }

  /** Different photos, widths or tokens never share a path. */
  lemma EntriesAreDistinct(
      id: nat, width: nat, token: Text, shard: Text, id': nat, width': nat, token': Text, shard': Text)
    requires |shard| >= 4 && |shard'| >= 4
    requires Entry(id, width, token, shard) == Entry(id', width', token', shard')
    ensures id == id' && width == width' && token == token'
  {
    var a, b := Entry(id, width, token, shard), Entry(id', width', token', shard');
    assert a[2] == b[2];
    NameIsSpelled(id, width, token);
    NameIsSpelled(id', width', token');
    var stem, stem' := Spelled(Digits(id), Digits(width), token), Spelled(Digits(id'), Digits(width'), token');
    assert stem == (stem + JPG)[..|stem + JPG| - 4] && stem' == (stem' + JPG)[..|stem' + JPG| - 4];
    CutWidthFinds(Digits(id), Digits(width) + ([DASH] + token));
    CutWidthFinds(Digits(id'), Digits(width') + ([DASH] + token'));
    CutDashFinds(Digits(width), token);
    CutDashFinds(Digits(width'), token');
    DigitsInjective(id, id');
    DigitsInjective(width, width');
  }

  /** The pruner and the temp-file sweeper never act on the same file. */
  lemma SweeperAndPrunerAreDisjoint(name: Text)
    ensures !(IsCacheName(name) && IsTempName(name))
  {
    if IsTempName(name) {
      var stem := name[..|name| - |TMP|];
      assert name == stem + TMP;
      JpgIsExt();
      ExtAppend(stem, TMP);
      assert JPG[1] != TMP[1];
    }
  }
}
