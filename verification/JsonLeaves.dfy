/** What single strings, literals and integers denote, with every octet spelled out. */
module JsonLeaves {
  import opened Results
  import opened Ascii
  import opened Bytes
  import opened Decimals
  import opened Utf8
  import opened JsonGrammar
  import opened JsonReader
  import JsonComplete
  import JsonTheorems

  const LOWER: bytes := [0x30, 0x31, 0x32, 0x33, 0x34, 0x35, 0x36, 0x37, 0x38, 0x39, 0x61, 0x62, 0x63, 0x64, 0x65, 0x66]
  const UPPER: bytes := [0x30, 0x31, 0x32, 0x33, 0x34, 0x35, 0x36, 0x37, 0x38, 0x39, 0x41, 0x42, 0x43, 0x44, 0x45, 0x46]

  /** `b` is the hexadecimal digit of value `d`, in either case. */
  predicate SpellsDigit(b: byte, d: nat) {
    d < 16 && (b == LOWER[d] || b == UPPER[d])
  }

  /** Four hexadecimal digits that spell `v`, the most significant first. */
  predicate Spells(h: bytes, v: nat) {
    && |h| == 4
    && SpellsDigit(h[0], v / 4096) && SpellsDigit(h[1], v / 256 % 16)
    && SpellsDigit(h[2], v / 16 % 16) && SpellsDigit(h[3], v % 16)
  }

  lemma DigitSpelled(b: byte, d: nat)
    requires SpellsDigit(b, d)
    ensures IsHex(b) && HexDigit(b) == d && b < 0x80
  {
  }

  lemma ValueSpelled(h: bytes, v: nat)
    requires Spells(h, v)
    ensures IsHex4(h) && Hex4(h) == v && forall i :: 0 <= i < |h| ==> h[i] < 0x80
  {
    DigitSpelled(h[0], v / 4096);
    DigitSpelled(h[1], v / 256 % 16);
    DigitSpelled(h[2], v / 16 % 16);
    DigitSpelled(h[3], v % 16);
    hide SpellsDigit, HexDigit, IsHex;
    FourDigits(v);
  }

  lemma FourDigits(v: nat)
    ensures ((v / 4096 * 16 + v / 256 % 16) * 16 + v / 16 % 16) * 16 + v % 16 == v
  {
    assert v / 256 == v / 16 / 16 && v / 4096 == v / 16 / 16 / 16;
  }

  /** The limits let a string literal with one escape pass. */
  predicate Allows(env: Env, size: nat) {
    size <= env.maximumBytes && 4 <= env.maximumStringBytes && 1 <= env.maximumValues
  }

  /** A text of one string literal, made of octets below 0x80. */
  lemma OnePiece(input: bytes, p: Piece, env: Env)
    requires PieceOk(p) && input == [QUOTE] + WritePiece(p) + [QUOTE] && Allows(env, |input|)
    requires forall i :: 0 <= i < |input| ==> input[i] < 0x80
    requires |PieceBytes(p)| <= 4
    ensures Parse(input, env) == Ok(Text(PieceBytes(p)))
  {
    var t := StringTree([p]);
    hide WritePiece, PieceBytes, PieceOk;
    assert [p][1..] == [];
    assert PiecesOk([p]) && WritePieces([]) == [] && PiecesBytes([]) == [];
    assert WritePieces([p]) == WritePiece(p) + [] && PiecesBytes([p]) == PieceBytes(p) + [];
    assert WritePieces([p]) == WritePiece(p) && PiecesBytes([p]) == PieceBytes(p);
    assert [] + WriteTree(t) + [] == input;
    AsciiValid(input);
    assert Writes(input, env, [], t, []);
    JsonTheorems.ParseComplete(input, env, [], t, []);
  }

  lemma {:induction false} AsciiValid(s: bytes)
    requires forall i :: 0 <= i < |s| ==> s[i] < 0x80
    ensures Valid(s)
  {
    if s != [] {
      AsciiValid(s[..|s| - 1]);
      ValidConcat(s[..|s| - 1], [s[|s| - 1]]);
      assert s == s[..|s| - 1] + [s[|s| - 1]];
    }
  }

  /**
    A supplementary character written as the escaped pair of its UTF-16 code units, in any spelling of the hexadecimal
    digits, denotes that character.
   */
  lemma PairDenotes(k: nat, high: bytes, low: bytes, env: Env)
    requires 0x10000 <= k <= 0x10FFFF
    requires Spells(high, 0xD800 + (k - 0x10000) / 1024) && Spells(low, 0xDC00 + (k - 0x10000) % 1024)
    requires Allows(env, 14)
    ensures Parse([0x22, 0x5C, 0x75] + high + [0x5C, 0x75] + low + [0x22], env) == Ok(Text(Encode(k)))
  {
    hide *;
    var input := [0x22, 0x5C, 0x75] + high + [0x5C, 0x75] + low + [0x22];
    ValueSpelled(high, 0xD800 + (k - 0x10000) / 1024);
    ValueSpelled(low, 0xDC00 + (k - 0x10000) % 1024);
    UnitsDecode(k);
    PairOk(high, low, k);
    SpelledSize(high, 0xD800 + (k - 0x10000) / 1024);
    SpelledSize(low, 0xDC00 + (k - 0x10000) % 1024);
    PairWritten(high, low);
    OnePiece(input, Pair(high, low), env);
  }

  lemma SpelledSize(h: bytes, v: nat)
    requires Spells(h, v)
    ensures |h| == 4
  {
  }

  lemma PairOk(high: bytes, low: bytes, k: nat)
    requires IsHex4(high) && IsHex4(low) && IsHigh(Hex4(high)) && IsLow(Hex4(low)) && k <= 0x10FFFF
    requires SurrogatePair(Hex4(high), Hex4(low)) == k
    ensures PieceOk(Pair(high, low)) && PieceBytes(Pair(high, low)) == Encode(k) && |Encode(k)| <= 4
  {
    hide IsHex4, Hex4, Encode;
  }

  lemma PairWritten(high: bytes, low: bytes)
    requires |high| == 4 && |low| == 4 && forall i :: 0 <= i < 4 ==> high[i] < 0x80 && low[i] < 0x80
    ensures var input := [0x22, 0x5C, 0x75] + high + [0x5C, 0x75] + low + [0x22];
            && |input| == 14 && input == [QUOTE] + WritePiece(Pair(high, low)) + [QUOTE]
            && forall i :: 0 <= i < |input| ==> input[i] < 0x80
  {
  }

  lemma UnitsDecode(k: nat)
    requires 0x10000 <= k <= 0x10FFFF
    ensures var high, low := 0xD800 + (k - 0x10000) / 1024, 0xDC00 + (k - 0x10000) % 1024;
            IsHigh(high) && IsLow(low) && SurrogatePair(high, low) == k
  {
  }

  /** Any other code unit that is no surrogate denotes the character it numbers. */
  lemma UnitDenotes(k: nat, digits: bytes, env: Env)
    requires k <= 0xFFFF && !(0xD800 <= k <= 0xDFFF) && Spells(digits, k) && Allows(env, 8)
    ensures Parse([0x22, 0x5C, 0x75] + digits + [0x22], env) == Ok(Text(Encode(k)))
  {
    hide *;
    ValueSpelled(digits, k);
    SpelledSize(digits, k);
    UnitWritten(digits, k);
    OnePiece([0x22, 0x5C, 0x75] + digits + [0x22], Unit(digits), env);
  }

  lemma UnitWritten(digits: bytes, k: nat)
    requires IsHex4(digits) && Hex4(digits) == k <= 0xFFFF && !(0xD800 <= k <= 0xDFFF)
    requires forall i :: 0 <= i < |digits| ==> digits[i] < 0x80
    ensures var input := [0x22, 0x5C, 0x75] + digits + [0x22];
            && |input| == 8 && input == [QUOTE] + WritePiece(Unit(digits)) + [QUOTE]
            && (forall i :: 0 <= i < |input| ==> input[i] < 0x80)
    ensures PieceOk(Unit(digits)) && PieceBytes(Unit(digits)) == Encode(k) && |Encode(k)| <= 4
  {
    hide Hex4, Encode;
  }

  /** The letters of the two-character escapes, and the octets they stand for. */
  const ESCAPES: seq<(byte, byte)> :=
    [(0x22, 0x22), (0x5C, 0x5C), (0x2F, 0x2F), (0x62, 0x08), (0x66, 0x0C), (0x6E, 0x0A), (0x72, 0x0D), (0x74, 0x09)]

  lemma EscapeDenotes(i: nat, env: Env)
    requires i < |ESCAPES| && Allows(env, 4)
    ensures Parse([0x22, 0x5C, ESCAPES[i].0, 0x22], env) == Ok(Text([ESCAPES[i].1]))
  {
    var input := [0x22, 0x5C, ESCAPES[i].0, 0x22];
    assert Unescape(ESCAPES[i].0) == Some(ESCAPES[i].1);
    assert input == [QUOTE] + WritePiece(Short(ESCAPES[i].0)) + [QUOTE];
    OnePiece(input, Short(ESCAPES[i].0), env);
  }

  // ---------------------------------------------------------------- literals, integers and blanks

  /** A text of one tree, with blanks around it. */
  lemma OneTree(input: bytes, before: bytes, t: Tree, after: bytes, env: Env)
    requires TreeOk(t, env) && StringsFit(t, env) && Depth(t) == 0 && Size(t) == 1 && 1 <= env.maximumValues
    requires input == before + WriteTree(t) + after && |input| <= env.maximumBytes
    requires AllBlank(before) && AllBlank(after)
    requires forall i :: 0 <= i < |input| ==> input[i] < 0x80
    ensures Parse(input, env) == Ok(Denote(t, env))
  {
    hide WriteTree, TreeOk, Denote, StringsFit;
    AsciiValid(input);
    assert Writes(input, env, before, t, after);
    JsonTheorems.ParseComplete(input, env, before, t, after);
  }

  /** The octets that may stand around a value: space, tab, line feed and carriage return. */
  const BLANKS: bytes := [0x20, 0x09, 0x0A, 0x0D]

  /** What is skipped between tokens is these octets and no others. */
  lemma OnlyBlanksSkipped(s: bytes, p: nat)
    requires p <= |s|
    ensures var q := SkipBlank(s, p);
            && (forall i :: p <= i < q ==> s[i] in BLANKS)
            && (q < |s| ==> s[q] !in BLANKS)
  {
    var q := SkipBlank(s, p);
    assert forall i :: p <= i < q ==> s[i] == s[p..q][i - p];
    hide SkipBlank;
  }

  /** `true`, `false` and `null`, after and before any single blank. */
  lemma LiteralsDenote(i: nat, j: nat, env: Env)
    requires i < 4 && j < 4 && 7 <= env.maximumBytes && 1 <= env.maximumValues
    ensures Parse([BLANKS[i], 0x74, 0x72, 0x75, 0x65, BLANKS[j]], env) == Ok(Boolean(true))
    ensures Parse([BLANKS[i], 0x66, 0x61, 0x6C, 0x73, 0x65, BLANKS[j]], env) == Ok(Boolean(false))
    ensures Parse([BLANKS[i], 0x6E, 0x75, 0x6C, 0x6C, BLANKS[j]], env) == Ok(Null)
  {
    var b, c := [BLANKS[i]], [BLANKS[j]];
    hide Parse;
    OneTree([BLANKS[i], 0x74, 0x72, 0x75, 0x65, BLANKS[j]], b, TrueTree, c, env);
    OneTree([BLANKS[i], 0x66, 0x61, 0x6C, 0x73, 0x65, BLANKS[j]], b, FalseTree, c, env);
    OneTree([BLANKS[i], 0x6E, 0x75, 0x6C, 0x6C, BLANKS[j]], b, NullTree, c, env);
  }

  /** The digits of an integer after its sign, if it has one. */
  function PrintInt(v: int): bytes {
    if v < 0 then [0x2D] + Print(-v) else Print(v)
  }

  lemma PrintedInt(v: int)
    ensures var s := PrintInt(v);
            && s != [] && (s[0] == MINUS <==> v < 0) && (v >= 0 ==> IsDigit(s[0]))
            && Canonical(if v < 0 then s[1..] else s)
            && Decimal(if v < 0 then s[1..] else s) == (if v < 0 then -v else v)
            && (forall i :: 0 <= i < |s| ==> s[i] < 0x80)
  {
    PrintedValue(if v < 0 then -v else v);
    hide Print, Decimal;
  }

  lemma DigitsToEnd(s: bytes, start: nat)
    requires start < |s| && Canonical(s[start..])
    ensures WholeEnd(s, start) == Some(|s|) && FractionEnd(s, |s|) == Some(|s|) && ExponentEnd(s, |s|) == Some(|s|)
  {
    assert At(s, start, s[start..]) by {
      assert s[start..start + |s[start..]|] == s[start..];
    }
    JsonComplete.ReadsWhole(s, start, s[start..]);
  }

  lemma NumberRead(v: int, env: Env)
    ensures var s := PrintInt(v);
            && s != []
            && ReadNumber(s, 0, 1, env) == if FitsInt64(v) then Got(Integer(v), |s|, 1) else Failed(InvalidJson)
  {
    var s := PrintInt(v);
    PrintedInt(v);
    var start: nat := if v < 0 then 1 else 0;
    assert s[0..] == s && s[0..|s|] == s;
    hide PrintInt, Print;
    DigitsToEnd(s, start);
    hide WholeEnd, FractionEnd, ExponentEnd, Decimal, FitsInt64;
    assert ToInteger(s) == if FitsInt64(v) then Some(v) else None;
  }

  lemma ValueRead(s: bytes, env: Env)
    requires s != [] && (s[0] == MINUS || IsDigit(s[0])) && 1 <= env.maximumValues
    ensures ReadValue(s, 0, 0, 0, env) == ReadNumber(s, 0, 1, env)
  {
    hide ReadNumber, ReadObject, ReadArray, ReadString, ReadLiteral;
  }

  /** An integer written without a leading zero is read as itself, if and only if it is a 64-bit integer. */
  lemma IntegerExact(v: int, env: Env)
    requires |PrintInt(v)| <= env.maximumBytes && 1 <= env.maximumValues
    ensures Parse(PrintInt(v), env)
            == if -0x8000_0000_0000_0000 <= v <= 0x7FFF_FFFF_FFFF_FFFF then Ok(Integer(v)) else Err(InvalidJson)
  {
    var s := PrintInt(v);
    PrintedInt(v);
    AsciiValid(s);
    NumberRead(v, env);
    ValueRead(s, env);
    hide PrintInt, ReadNumber, ReadValue, Valid;
    assert FitsInt64(v) <==> -0x8000_0000_0000_0000 <= v <= 0x7FFF_FFFF_FFFF_FFFF;
  }
}
