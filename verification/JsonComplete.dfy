/** Completeness: whatever the grammar and the limits allow, the reader reads, and reads as the grammar means it. */
module JsonComplete {
  import opened Results
  import opened Ascii
  import opened Bytes
  import opened Decimals
  import opened Utf8
  import opened JsonGrammar
  import opened JsonReader

  // ---------------------------------------------------------------- blanks and digits

  lemma {:induction false} SkipsBlank(s: bytes, p: nat, blank: bytes)
    requires At(s, p, blank) && AllBlank(blank)
    requires p + |blank| < |s| ==> !IsBlank(s[p + |blank|])
    ensures SkipBlank(s, p) == p + |blank|
    decreases |blank|
  {
    if blank != [] {
      assert s[p] == s[p..p + |blank|][0];
      assert s[p + 1..p + |blank|] == s[p..p + |blank|][1..];
      SkipsBlank(s, p + 1, blank[1..]);
    }
  }

  lemma {:induction false} SkipsDigits(s: bytes, p: nat, digits: bytes)
    requires At(s, p, digits) && AllDigits(digits)
    requires p + |digits| < |s| ==> !IsDigit(s[p + |digits|])
    ensures SkipDigits(s, p) == p + |digits|
    decreases |digits|
  {
    if digits != [] {
      assert s[p] == s[p..p + |digits|][0];
      assert s[p + 1..p + |digits|] == s[p..p + |digits|][1..];
      SkipsDigits(s, p + 1, digits[1..]);
    }
  }

  // ---------------------------------------------------------------- strings

  lemma ReadsUnit(s: bytes, p: nat, digits: bytes)
    requires |digits| == 4 && At(s, p, [BACKSLASH, LETTER_U] + digits)
    ensures s[p] == BACKSLASH && s[p + 1] == LETTER_U && p + 6 <= |s| && s[p + 2..p + 6] == digits
  {
    var w := [BACKSLASH, LETTER_U] + digits;
    AtIndex(s, p, w, 0);
    AtIndex(s, p, w, 1);
    assert s[p + 2..p + 6] == s[p..p + 6][2..6] == w[2..6] == digits;
  }

  lemma ReadsEscape(s: bytes, p: nat, piece: Piece)
    requires PieceOk(piece) && !piece.Raw? && At(s, p, WritePiece(piece))
    ensures s[p] == BACKSLASH
    ensures ReadEscape(s, p + 1) == Got(PieceBytes(piece), p + |WritePiece(piece)|, 0)
  {
    hide At, Encode, Hex4, SurrogatePair;
    var w := WritePiece(piece);
    AtIndex(s, p, w, 0);
    AtIndex(s, p, w, 1);
    match piece {
      case Short(letter) =>
      case Unit(digits) => ReadsUnit(s, p, digits);
      case Pair(high, low) =>
        assert w == ([BACKSLASH, LETTER_U] + high) + ([BACKSLASH, LETTER_U] + low);
        AtSplit(s, p, [BACKSLASH, LETTER_U] + high, [BACKSLASH, LETTER_U] + low);
        ReadsUnit(s, p, high);
        ReadsUnit(s, p + 6, low);
    }
  }

  lemma {:induction false} ReadsChars(s: bytes, p: nat, output: bytes, pieces: seq<Piece>, limit: nat)
    requires PiecesOk(pieces) && At(s, p, WritePieces(pieces) + [QUOTE])
    requires |output + PiecesBytes(pieces)| <= limit && Valid(output + PiecesBytes(pieces))
    ensures ReadChars(s, p, output, limit)
            == Got(output + PiecesBytes(pieces), p + |WritePieces(pieces)| + 1, 0)
    decreases |pieces|
  {
    hide *;
    if pieces == [] {
      ReadsEndQuote(s, p, output, limit);
    } else {
      var first, rest := pieces[0], pieces[1..];
      PiecesUnfold(output, pieces);
      AtSplit(s, p, WritePiece(first), WritePieces(rest) + [QUOTE]);
      AtFits(s, p, WritePiece(first));
      PieceFits(output, pieces);
      ReadsPiece(s, p, output, first, limit);
      ReadsChars(s, p + |WritePiece(first)|, output + PieceBytes(first), rest, limit);
    }
  }

  lemma ReadsEndQuote(s: bytes, p: nat, output: bytes, limit: nat)
    requires At(s, p, WritePieces([]) + [QUOTE])
    requires |output + PiecesBytes([])| <= limit && Valid(output + PiecesBytes([]))
    ensures ReadChars(s, p, output, limit) == Got(output + PiecesBytes([]), p + |WritePieces([])| + 1, 0)
  {
    assert WritePieces([]) + [QUOTE] == [QUOTE] && output + PiecesBytes([]) == output;
    AtOne(s, p, QUOTE);
  }

  lemma PiecesUnfold(output: bytes, pieces: seq<Piece>)
    requires PiecesOk(pieces) && pieces != []
    ensures PieceOk(pieces[0]) && PiecesOk(pieces[1..])
    ensures WritePieces(pieces) + [QUOTE] == WritePiece(pieces[0]) + (WritePieces(pieces[1..]) + [QUOTE])
    ensures |WritePieces(pieces)| == |WritePiece(pieces[0])| + |WritePieces(pieces[1..])|
    ensures output + PiecesBytes(pieces) == (output + PieceBytes(pieces[0])) + PiecesBytes(pieces[1..])
  {
    hide WritePiece, PieceBytes, PieceOk;
  }

  lemma PieceFits(output: bytes, pieces: seq<Piece>)
    requires PiecesOk(pieces) && pieces != [] && PieceOk(pieces[0])
    ensures |output + PieceBytes(pieces[0])| <= |output + PiecesBytes(pieces)|
  {
  }

  /** One piece is consumed and what it denotes is appended. */
  lemma ReadsPiece(s: bytes, p: nat, output: bytes, piece: Piece, limit: nat)
    requires PieceOk(piece) && At(s, p, WritePiece(piece)) && p + |WritePiece(piece)| <= |s|
    requires |output + PieceBytes(piece)| <= limit
    ensures ReadChars(s, p, output, limit)
            == ReadChars(s, p + |WritePiece(piece)|, output + PieceBytes(piece), limit)
  {
    if piece.Raw? {
      AtOne(s, p, piece.b);
    } else {
      ReadsEscape(s, p, piece);
      hide ReadEscape, WritePiece, PieceBytes, Valid, At;
    }
  }

  lemma ReadsString(s: bytes, p: nat, pieces: seq<Piece>, limit: nat)
    requires PiecesOk(pieces) && At(s, p, WriteString(pieces))
    requires |PiecesBytes(pieces)| <= limit && Valid(PiecesBytes(pieces))
    ensures s[p] == QUOTE
    ensures ReadString(s, p, limit) == Got(PiecesBytes(pieces), p + |WriteString(pieces)|, 0)
  {
    hide At, WritePieces, PiecesBytes, ReadChars, Valid;
    assert WriteString(pieces) == [QUOTE] + (WritePieces(pieces) + [QUOTE]);
    AtSplit(s, p, [QUOTE], WritePieces(pieces) + [QUOTE]);
    AtOne(s, p, QUOTE);
    assert [] + PiecesBytes(pieces) == PiecesBytes(pieces);
    ReadsChars(s, p + 1, [], pieces, limit);
  }

  // ---------------------------------------------------------------- numbers

  /** Nothing that could continue a number stands at `p`. */
  ghost predicate NumberEnds(s: bytes, p: nat) {
    p < |s| ==> !IsDigit(s[p]) && s[p] != DOT && !IsMarker(s[p])
  }

  lemma ReadsWhole(s: bytes, p: nat, whole: bytes)
    requires At(s, p, whole) && AllDigits(whole) && whole != [] && (whole[0] == ZERO ==> |whole| == 1)
    requires p + |whole| < |s| ==> !IsDigit(s[p + |whole|])
    ensures WholeEnd(s, p) == Some(p + |whole|)
  {
    assert s[p] == s[p..p + |whole|][0];
    if whole[0] != ZERO {
      SkipsDigits(s, p, whole);
    }
  }

  lemma ReadsFraction(s: bytes, p: nat, f: Option<bytes>)
    requires At(s, p, WriteFraction(f)) && (f.Some? ==> AllDigits(f.value) && f.value != [])
    requires p + |WriteFraction(f)| < |s| ==> !IsDigit(s[p + |WriteFraction(f)|])
    requires p + |WriteFraction(f)| < |s| && f.None? ==> s[p] != DOT
    ensures FractionEnd(s, p) == Some(p + |WriteFraction(f)|)
    ensures f.Some? ==> s[p] == DOT
  {
    if f.Some? {
      AtSplit(s, p, [DOT], f.value);
      AtOne(s, p, DOT);
      SkipsDigits(s, p + 1, f.value);
    }
  }

  lemma ReadsExponent(s: bytes, p: nat, e: Option<Exponent>)
    requires At(s, p, WriteExponent(e))
    requires e.Some? ==> IsMarker(e.value.marker) && AllDigits(e.value.digits) && e.value.digits != []
                         && (e.value.sign.Some? ==> e.value.sign.value == PLUS || e.value.sign.value == MINUS)
    requires NumberEnds(s, p + |WriteExponent(e)|)
    ensures ExponentEnd(s, p) == Some(p + |WriteExponent(e)|)
    ensures e.Some? ==> s[p] == e.value.marker
  {
    AtFits(s, p, WriteExponent(e));
    if e.Some? {
      hide At, AllDigits, SkipDigits;
      var Exponent(marker, sign, digits) := e.value;
      var signed := if sign.Some? then [sign.value] else [];
      assert WriteExponent(e) == [marker] + (signed + digits);
      AtThree(s, p, [marker], signed, digits);
      AtOne(s, p, marker);
      var first := p + 1 + |signed|;
      AtIndex(s, first, digits, 0);
      if sign.Some? {
        AtOne(s, p + 1, sign.value);
      }
      FirstDigit(digits);
      SkipsDigits(s, first, digits);
    }
  }

  lemma FirstDigit(digits: bytes)
    requires AllDigits(digits) && digits != []
    ensures IsDigit(digits[0])
  {
  }

  lemma FractionOrExponentFirst(n: Lexeme, s: bytes, p: nat)
    requires LexemeOk(n) && At(s, p, WriteFraction(n.fraction) + WriteExponent(n.exponent))
    requires NumberEnds(s, p + |WriteFraction(n.fraction) + WriteExponent(n.exponent)|)
    ensures p < |s| ==> !IsDigit(s[p])
    ensures p + |WriteFraction(n.fraction)| < |s| ==> !IsDigit(s[p + |WriteFraction(n.fraction)|])
    ensures p < |s| && n.fraction.None? ==> s[p] != DOT
  {
    var f, e := WriteFraction(n.fraction), WriteExponent(n.exponent);
    AtSplit(s, p, f, e);
    if f != [] {
      assert s[p] == s[p..p + |f|][0];
    }
    if e != [] {
      assert s[p + |f|] == s[p + |f|..p + |f| + |e|][0];
    }
  }

  /** Where the parts of a written number stand. */
  lemma LexemeParts(s: bytes, p: nat, number: Lexeme)
    requires LexemeOk(number) && At(s, p, WriteLexeme(number))
    ensures p + |WriteLexeme(number)|
            == p + |WriteSign(number.negative)| + |number.whole|
               + |WriteFraction(number.fraction)| + |WriteExponent(number.exponent)|
    ensures At(s, p, WriteSign(number.negative)) && At(s, p + |WriteSign(number.negative)|, number.whole)
    ensures At(s, p + |WriteSign(number.negative)| + |number.whole|,
               WriteFraction(number.fraction) + WriteExponent(number.exponent))
  {
    var sign, whole := WriteSign(number.negative), number.whole;
    var f, e := WriteFraction(number.fraction), WriteExponent(number.exponent);
    assert WriteLexeme(number) == sign + (whole + (f + e));
    hide *;
    AtThree(s, p, sign, whole, f + e);
  }

  /** Where the reader finds the ends of those parts. */
  lemma LexemeEnds(s: bytes, p: nat, number: Lexeme, w: nat, f: nat, e: nat)
    requires LexemeOk(number) && At(s, p, number.whole) && w == p + |number.whole|
    requires At(s, w, WriteFraction(number.fraction) + WriteExponent(number.exponent))
    requires f == w + |WriteFraction(number.fraction)| && e == f + |WriteExponent(number.exponent)|
    requires NumberEnds(s, e)
    ensures WholeEnd(s, p) == Some(w) && FractionEnd(s, w) == Some(f) && ExponentEnd(s, f) == Some(e)
  {
    hide At, WriteFraction, WriteExponent, WholeEnd, FractionEnd, ExponentEnd, NumberEnds, SkipDigits;
    AtSplit(s, w, WriteFraction(number.fraction), WriteExponent(number.exponent));
    FractionOrExponentFirst(number, s, w);
    AtFits(s, p, number.whole);
    ReadsWhole(s, p, number.whole);
    ReadsFraction(s, w, number.fraction);
    ReadsExponent(s, f, number.exponent);
  }

  /** Once the ends of its parts are known, a number is read by conversion alone. */
  lemma NumberByEnds(s: bytes, p: nat, n: nat, env: Env, start: nat, w: nat, f: nat, e: nat)
    requires p < |s| && start == (if s[p] == MINUS then p + 1 else p)
    requires WholeEnd(s, start) == Some(w) && FractionEnd(s, w) == Some(f) && ExponentEnd(s, f) == Some(e)
    ensures e == w ==>
              && (AllDigits(s[p..w]) || (s[p..w] != [] && s[p..w][0] == MINUS && AllDigits(s[p..w][1..])))
              && (ToInteger(s[p..w]).Some? ==> ReadNumber(s, p, n, env) == Got(Integer(ToInteger(s[p..w]).value), w, n))
    ensures e != w && env.toDouble(s[p..e]).Some? ==>
              ReadNumber(s, p, n, env) == Got(Number(env.toDouble(s[p..e]).value), e, n)
  {
    hide FractionEnd, ExponentEnd, ToInteger;
    assert s[p..w] == (if start == p then [] else [s[p]]) + s[start..w];
    if start != p {
      assert s[p..w][1..] == s[start..w];
    }
  }

  lemma ReadsLexeme(s: bytes, p: nat, n: nat, env: Env, number: Lexeme)
    requires LexemeOk(number) && NumberInRange(number, env) && At(s, p, WriteLexeme(number))
    requires NumberEnds(s, p + |WriteLexeme(number)|)
    ensures p <= |s|
    ensures ReadNumber(s, p, n, env) == Got(Denote(NumberTree(number), env), p + |WriteLexeme(number)|, n)
  {
    var sign, whole := WriteSign(number.negative), number.whole;
    var start := p + |sign|;
    var w := start + |whole|;
    var f := w + |WriteFraction(number.fraction)|;
    var e := f + |WriteExponent(number.exponent)|;
    LexemeLengths(number);
    hide At, WholeEnd, FractionEnd, ExponentEnd, NumberEnds, WriteFraction, WriteExponent, ReadNumber;
    AtFits(s, p, WriteLexeme(number));
    LexemeParts(s, p, number);
    LexemeEnds(s, start, number, w, f, e);
    AtIndex(s, start, whole, 0);
    if number.negative {
      AtOne(s, p, MINUS);
    }
    NumberByEnds(s, p, n, env, start, w, f, e);
    if Integral(number) {
      assert s[p..w] == sign + whole;
      assert number.negative ==> (sign + whole)[1..] == whole;
      assert !number.negative ==> sign + whole == whole;
    }
  }

  lemma LexemeLengths(number: Lexeme)
    ensures |WriteFraction(number.fraction)| == 0 <==> number.fraction.None?
    ensures |WriteExponent(number.exponent)| == 0 <==> number.exponent.None?
  {
  }

  // ---------------------------------------------------------------- values

  /** The first octet of a value and what kind of value it starts. */
  lemma FirstOctet(t: Tree, env: Env)
    requires TreeOk(t, env)
    ensures WriteTree(t) != [] && !IsBlank(WriteTree(t)[0]) && WriteTree(t)[0] < 0x80
    ensures WriteTree(t)[0] != CLOSE_BRACKET && WriteTree(t)[0] != CLOSE_BRACE
    ensures WriteTree(t)[0] == OPEN_BRACE <==> t.ObjectTree?
    ensures WriteTree(t)[0] == OPEN_BRACKET <==> t.ArrayTree?
    ensures WriteTree(t)[0] == QUOTE <==> t.StringTree?
    ensures WriteTree(t)[0] == 0x74 <==> t.TrueTree?
    ensures WriteTree(t)[0] == 0x66 <==> t.FalseTree?
    ensures WriteTree(t)[0] == 0x6E <==> t.NullTree?
  {
    if t.NumberTree? {
      var n := t.number;
      assert WriteTree(t)[0] == (if n.negative then MINUS else n.whole[0]);
    }
  }

  /** What may follow a value that is complete: only a number cares. */
  ghost predicate Ends(s: bytes, p: nat, t: Tree) {
    t.NumberTree? ==> NumberEnds(s, p)
  }

  lemma DelimiterEnds(s: bytes, p: nat, t: Tree)
    requires p < |s| ==> IsBlank(s[p]) || s[p] == COMMA || s[p] == CLOSE_BRACKET || s[p] == CLOSE_BRACE
    ensures Ends(s, p, t)
  {
  }

  /** Which reader `ReadValue` hands over to. */
  lemma Dispatch(s: bytes, p: nat, q: nat, depth: nat, n: nat, env: Env)
    requires p <= |s| && SkipBlank(s, p) == q && q < |s| && depth <= env.maximumDepth && n < env.maximumValues
    ensures var r := ReadValue(s, p, depth, n, env);
            && (s[q] == OPEN_BRACE && depth < env.maximumDepth ==> r == ReadObject(s, q, depth + 1, n + 1, env))
            && (s[q] == OPEN_BRACKET && depth < env.maximumDepth ==> r == ReadArray(s, q, depth + 1, n + 1, env))
            && (s[q] == QUOTE && ReadString(s, q, env.maximumStringBytes).Got? ==>
                  var g := ReadString(s, q, env.maximumStringBytes);
                  r == Got(Text(g.value), g.pos, n + 1))
            && (s[q] == 0x74 ==> r == ReadLiteral(s, q, n + 1, TRUE_TEXT, Boolean(true)))
            && (s[q] == 0x66 ==> r == ReadLiteral(s, q, n + 1, FALSE_TEXT, Boolean(false)))
            && (s[q] == 0x6E ==> r == ReadLiteral(s, q, n + 1, NULL_TEXT, Null))
            && (s[q] !in {OPEN_BRACE, OPEN_BRACKET, QUOTE, 0x74, 0x66, 0x6E} ==> r == ReadNumber(s, q, n + 1, env))
  {
    hide SkipBlank, ReadObject, ReadArray, ReadString, ReadLiteral, ReadNumber;
  }

  lemma ReadsLiteral(s: bytes, p: nat, n: nat, text: bytes, v: Value)
    requires At(s, p, text) && text != []
    ensures ReadLiteral(s, p, n, text, v) == Got(v, p + |text|, n)
  {
  }

  lemma ReadsValue(s: bytes, p: nat, depth: nat, n: nat, env: Env, before: bytes, t: Tree)
    requires At(s, p, before + WriteTree(t)) && AllBlank(before)
    requires TreeOk(t, env) && StringsFit(t, env) && AllUtf8(t)
    requires depth + Depth(t) <= env.maximumDepth && n + Size(t) <= env.maximumValues
    requires Ends(s, p + |before + WriteTree(t)|, t)
    ensures ReadValue(s, p, depth, n, env) == Got(Denote(t, env), p + |before + WriteTree(t)|, n + Size(t))
    decreases t, 1
  {
    hide *;
    var q := p + |before|;
    AtSplit(s, p, before, WriteTree(t));
    FirstOctet(t, env);
    AtIndex(s, q, WriteTree(t), 0);
    SkipsBlank(s, p, before);
    TreeMeasures(t);
    Dispatch(s, p, q, depth, n, env);
    if t.ArrayTree? {
      ReadsArray(s, q, depth + 1, n + 1, env, t);
    } else if t.ObjectTree? {
      ReadsObject(s, q, depth + 1, n + 1, env, t);
    } else if t.StringTree? {
      ReadsText(s, q, env, t);
    } else {
      ReadsScalar(s, p, q, depth, n, env, t);
    }
  }

  lemma TreeMeasures(t: Tree)
    ensures Size(t) >= 1
    ensures t.ArrayTree? ==> Depth(t) == 1 + ItemsDepth(t.items) && Size(t) == 1 + ItemsSize(t.items)
    ensures t.ObjectTree? ==> Depth(t) == 1 + MembersDepth(t.members) && Size(t) == 1 + MembersSize(t.members)
    ensures !t.ArrayTree? && !t.ObjectTree? ==> Size(t) == 1
  {
  }

  lemma ReadsText(s: bytes, q: nat, env: Env, t: Tree)
    requires t.StringTree? && At(s, q, WriteTree(t)) && TreeOk(t, env) && StringsFit(t, env) && AllUtf8(t)
    ensures q < |s| && s[q] == QUOTE
    ensures ReadString(s, q, env.maximumStringBytes) == Got(PiecesBytes(t.pieces), q + |WriteTree(t)|, 0)
    ensures Denote(t, env) == Text(PiecesBytes(t.pieces))
  {
    hide At, PiecesOk, PiecesBytes, ReadString, Valid, WriteString;
    ReadsString(s, q, t.pieces, env.maximumStringBytes);
  }

  /** Literals and numbers. */
  lemma ReadsScalar(s: bytes, p: nat, q: nat, depth: nat, n: nat, env: Env, t: Tree)
    requires t.NullTree? || t.TrueTree? || t.FalseTree? || t.NumberTree?
    requires At(s, q, WriteTree(t)) && TreeOk(t, env) && Ends(s, q + |WriteTree(t)|, t)
    requires p <= |s| && SkipBlank(s, p) == q && q < |s| && depth <= env.maximumDepth && n < env.maximumValues
    requires s[q] == WriteTree(t)[0]
    ensures ReadValue(s, p, depth, n, env) == Got(Denote(t, env), q + |WriteTree(t)|, n + 1)
  {
    hide At, SkipBlank, ReadValue, ReadLiteral, ReadNumber, WriteLexeme, NumberEnds, LexemeOk, NumberInRange;
    FirstOctet(t, env);
    Dispatch(s, p, q, depth, n, env);
    match t {
      case NullTree => ReadsLiteral(s, q, n + 1, NULL_TEXT, Null);
      case TrueTree => ReadsLiteral(s, q, n + 1, TRUE_TEXT, Boolean(true));
      case FalseTree => ReadsLiteral(s, q, n + 1, FALSE_TEXT, Boolean(false));
      case NumberTree(number) => ReadsLexeme(s, q, n + 1, env, number);
    }
  }

  lemma ReadsArray(s: bytes, p: nat, depth: nat, n: nat, env: Env, t: Tree)
    requires t.ArrayTree? && At(s, p, WriteTree(t))
    requires TreeOk(t, env) && StringsFit(t, env) && AllUtf8(t)
    requires depth + ItemsDepth(t.items) <= env.maximumDepth && n + ItemsSize(t.items) <= env.maximumValues
    ensures p < |s|
    ensures ReadArray(s, p, depth, n, env) == Got(Denote(t, env), p + |WriteTree(t)|, n + ItemsSize(t.items))
    decreases t, 0
  {
    hide At, SkipBlank, ReadItems, AllBlank, IsBlank;
    var blank, inner := t.blank, WriteItems(t.items);
    AtSplit(s, p, [OPEN_BRACKET], blank + (inner + [CLOSE_BRACKET]));
    AtOne(s, p, OPEN_BRACKET);
    AtSplit(s, p + 1, blank, inner + [CLOSE_BRACKET]);
    if t.items.NoItems? {
      assert inner + [CLOSE_BRACKET] == [CLOSE_BRACKET];
      AtOne(s, p + 1 + |blank|, CLOSE_BRACKET);
      SkipsToClose(s, p + 1, blank, CLOSE_BRACKET);
    } else {
      hide ItemsOk, ItemStringsFit, ItemsUtf8, WriteItems, DenoteItems, ItemsDepth, ItemsSize;
      ItemStart(s, p + 1, env, t.items);
      assert [] + DenoteItems(t.items, env) == DenoteItems(t.items, env);
      ReadsItems(s, SkipBlank(s, p + 1), p + 1, depth, n, env, [], t.items);
    }
  }

  lemma SkipsToClose(s: bytes, p: nat, blank: bytes, close: byte)
    requires At(s, p, blank) && AllBlank(blank) && p + |blank| < |s| && s[p + |blank|] == close
    requires close == CLOSE_BRACKET || close == CLOSE_BRACE
    ensures SkipBlank(s, p) == p + |blank|
  {
    SkipsBlank(s, p, blank);
  }

  /** The blank before a first element may be skipped before or by the element's own reader. */
  lemma ItemStart(s: bytes, p: nat, env: Env, items: Items)
    requires items.Item? && ItemsOk(items, env) && At(s, p, WriteItems(items) + [CLOSE_BRACKET])
    ensures p <= |s|
    ensures var q := SkipBlank(s, p);
            q == p + |items.before| && q < |s| && s[q] != CLOSE_BRACKET
  {
    hide At, SkipBlank, TreeOk, WriteTree, IsBlank;
    var tail := if items.rest.NoItems? then [CLOSE_BRACKET] else [COMMA] + (WriteItems(items.rest) + [CLOSE_BRACKET]);
    ItemParts(s, p, items, tail);
    AtFits(s, p, items.before);
    FirstOctet(items.value, env);
    AtIndex(s, p + |items.before|, WriteTree(items.value), 0);
    SkipsBlank(s, p, items.before);
  }

  /** Where the parts of one written element stand. */
  lemma ItemParts(s: bytes, p: nat, items: Items, tail: bytes)
    requires items.Item?
    requires tail == (if items.rest.NoItems? then [CLOSE_BRACKET]
                      else [COMMA] + (WriteItems(items.rest) + [CLOSE_BRACKET]))
    requires At(s, p, WriteItems(items) + [CLOSE_BRACKET])
    ensures var Item(before, value, after, rest) := items;
            var atAfter := p + |before + WriteTree(value)|;
            && At(s, p, before + WriteTree(value)) && At(s, p, before) && At(s, p + |before|, WriteTree(value))
            && At(s, atAfter, after) && At(s, atAfter + |after|, tail)
            && p + |WriteItems(items)| + 1
                == atAfter + |after| + (if rest.NoItems? then 1 else 1 + |WriteItems(rest)| + 1)
  {
    hide *;
    var lead := items.before + WriteTree(items.value);
    ItemSpelled(items, tail);
    AtThree(s, p, lead, items.after, tail);
    AtSplit(s, p, items.before, WriteTree(items.value));
    ThreeLengths(lead, items.after, tail);
  }

  lemma ItemSpelled(items: Items, tail: bytes)
    requires items.Item?
    requires tail == (if items.rest.NoItems? then [CLOSE_BRACKET]
                      else [COMMA] + (WriteItems(items.rest) + [CLOSE_BRACKET]))
    ensures WriteItems(items) + [CLOSE_BRACKET] == (items.before + WriteTree(items.value)) + (items.after + tail)
    ensures |tail| == (if items.rest.NoItems? then 1 else 1 + |WriteItems(items.rest)| + 1)
  {
    hide WriteTree;
    var last := if items.rest.NoItems? then [] else [COMMA] + WriteItems(items.rest);
    assert last + [CLOSE_BRACKET] == tail;
    RegroupItem(items.before, WriteTree(items.value), items.after, last, [CLOSE_BRACKET]);
  }

  lemma RegroupItem(a: bytes, b: bytes, c: bytes, d: bytes, e: bytes)
    ensures (a + (b + (c + d))) + e == (a + b) + (c + (d + e))
  {
  }

  lemma ThreeLengths(a: bytes, b: bytes, c: bytes)
    ensures |a + (b + c)| == |a| + |b| + |c|
  {
  }

  /** After a value at `afterValue` come blanks and a separator. */
  lemma AfterValue(s: bytes, afterValue: nat, after: bytes, tail: bytes, value: Tree)
    requires At(s, afterValue, after) && AllBlank(after) && At(s, afterValue + |after|, tail) && tail != []
    requires tail[0] == COMMA || tail[0] == CLOSE_BRACKET || tail[0] == CLOSE_BRACE
    ensures SkipBlank(s, afterValue) == afterValue + |after| && afterValue + |after| < |s|
    ensures s[afterValue + |after|] == tail[0]
    ensures Ends(s, afterValue, value)
  {
    AtIndex(s, afterValue + |after|, tail, 0);
    SkipsBlank(s, afterValue, after);
    if after != [] {
      AtIndex(s, afterValue, after, 0);
    }
    DelimiterEnds(s, afterValue, value);
  }

  /** `q` is `p` with the first element's blank already skipped, or `p` itself. */
  lemma ReadsItems(s: bytes, q: nat, p: nat, depth: nat, n: nat, env: Env, read: seq<Value>, items: Items)
    requires items.Item? && At(s, p, WriteItems(items) + [CLOSE_BRACKET])
    requires ItemsOk(items, env) && ItemStringsFit(items, env) && ItemsUtf8(items)
    requires q == p || q == p + |items.before|
    requires depth + ItemsDepth(items) <= env.maximumDepth && n + ItemsSize(items) <= env.maximumValues
    ensures q <= |s|
    ensures ReadItems(s, q, depth, n, env, read)
            == Got(Array(read + DenoteItems(items, env)), p + |WriteItems(items)| + 1, n + ItemsSize(items))
    decreases items, 0
  {
    hide *;
    var rest := items.rest;
    var tail := if rest.NoItems? then [CLOSE_BRACKET] else [COMMA] + (WriteItems(rest) + [CLOSE_BRACKET]);
    ItemsOkParts(items, env);
    ItemParts(s, p, items, tail);
    var afterValue := p + |items.before + WriteTree(items.value)|;
    AtFits(s, p, items.before + WriteTree(items.value));
    AfterValue(s, afterValue, items.after, tail, items.value);
    ReadsItemValue(s, q, p, depth, n, env, items.before, items.value);
    var read' := read + [Denote(items.value, env)];
    var separator := afterValue + |items.after|;
    ItemStep(s, q, depth, n, env, read, ReadValue(s, q, depth, n, env), separator);
    if rest.NoItems? {
      assert read + DenoteItems(items, env) == read';
    } else {
      AtSplit(s, separator, [COMMA], WriteItems(rest) + [CLOSE_BRACKET]);
      assert read + DenoteItems(items, env) == read' + DenoteItems(rest, env);
      ReadsItems(s, separator + 1, separator + 1, depth, n + Size(items.value), env, read', rest);
    }
  }

  lemma ItemsOkParts(items: Items, env: Env)
    requires items.Item? && ItemsOk(items, env) && ItemStringsFit(items, env) && ItemsUtf8(items)
    ensures AllBlank(items.before) && AllBlank(items.after)
    ensures TreeOk(items.value, env) && StringsFit(items.value, env) && AllUtf8(items.value)
    ensures ItemsOk(items.rest, env) && ItemStringsFit(items.rest, env) && ItemsUtf8(items.rest)
    ensures DenoteItems(items, env) == [Denote(items.value, env)] + DenoteItems(items.rest, env)
    ensures items.rest.NoItems? ==> DenoteItems(items.rest, env) == [] && ItemsSize(items.rest) == 0
    ensures ItemsSize(items) == Size(items.value) + ItemsSize(items.rest)
    ensures Depth(items.value) <= ItemsDepth(items) && ItemsDepth(items.rest) <= ItemsDepth(items)
  {
    hide AllBlank, TreeOk, StringsFit, AllUtf8, Denote, Depth, Size;
  }

  /** One unfolding of `ReadItems` on an element that has been read. */
  lemma ItemStep(s: bytes, p: nat, depth: nat, n: nat, env: Env, read: seq<Value>, value: Read<Value>, separator: nat)
    requires p <= |s| && value == ReadValue(s, p, depth, n, env) && value.Got?
    requires separator == SkipBlank(s, value.pos) && separator < |s|
    ensures s[separator] == CLOSE_BRACKET ==>
              ReadItems(s, p, depth, n, env, read) == Got(Array(read + [value.value]), separator + 1, value.values)
    ensures s[separator] == COMMA ==>
              ReadItems(s, p, depth, n, env, read)
              == ReadItems(s, separator + 1, depth, value.values, env, read + [value.value])
  {
    hide SkipBlank, ReadValue;
  }

  lemma ReadsItemValue(s: bytes, q: nat, p: nat, depth: nat, n: nat, env: Env, before: bytes, value: Tree)
    requires At(s, p, before + WriteTree(value)) && AllBlank(before) && (q == p || q == p + |before|)
    requires TreeOk(value, env) && StringsFit(value, env) && AllUtf8(value)
    requires depth + Depth(value) <= env.maximumDepth && n + Size(value) <= env.maximumValues
    requires Ends(s, p + |before + WriteTree(value)|, value)
    ensures q <= |s|
    ensures ReadValue(s, q, depth, n, env) == Got(Denote(value, env), p + |before + WriteTree(value)|, n + Size(value))
    decreases value, 2
  {
    hide At, WriteTree, ReadValue, Ends, AllBlank, TreeOk, StringsFit, AllUtf8, Denote, Depth, Size;
    AtSplit(s, p, before, WriteTree(value));
    AtFits(s, p, before);
    if q == p {
      ReadsValue(s, p, depth, n, env, before, value);
    } else {
      assert [] + WriteTree(value) == WriteTree(value);
      NoBlank();
      ReadsValue(s, q, depth, n, env, [], value);
    }
  }

  lemma NoBlank()
    ensures AllBlank([])
  {
  }

  lemma ReadsObject(s: bytes, p: nat, depth: nat, n: nat, env: Env, t: Tree)
    requires t.ObjectTree? && At(s, p, WriteTree(t))
    requires TreeOk(t, env) && StringsFit(t, env) && AllUtf8(t)
    requires depth + MembersDepth(t.members) <= env.maximumDepth && n + MembersSize(t.members) <= env.maximumValues
    ensures p < |s|
    ensures ReadObject(s, p, depth, n, env) == Got(Denote(t, env), p + |WriteTree(t)|, n + MembersSize(t.members))
    decreases t, 0
  {
    hide *;
    ObjectSpelled(s, p, t);
    ObjectOkParts(t, env);
    if t.members.NoMembers? {
      ReadsEmptyObject(s, p, depth, n, env, t);
    } else {
      MembersOkParts(t.members, env);
      MemberStart(s, p + 1, t.members);
      ReadsMembers(s, SkipBlank(s, p + 1), p + 1, depth, n, env, map[], t.members);
      ObjectStep(s, p, depth, n, env);
      assert map[] + DenoteMembers(t.members, env) == DenoteMembers(t.members, env);
    }
  }

  lemma ObjectSpelled(s: bytes, p: nat, t: Tree)
    requires t.ObjectTree? && At(s, p, WriteTree(t))
    ensures p < |s| && s[p] == OPEN_BRACE && At(s, p + 1, t.blank)
    ensures At(s, p + 1 + |t.blank|, WriteMembers(t.members) + [CLOSE_BRACE])
    ensures |WriteTree(t)| == 1 + |t.blank| + |WriteMembers(t.members)| + 1
  {
    hide At;
    AtThree(s, p, [OPEN_BRACE], t.blank, WriteMembers(t.members) + [CLOSE_BRACE]);
    AtOne(s, p, OPEN_BRACE);
  }

  lemma ObjectOkParts(t: Tree, env: Env)
    requires t.ObjectTree? && TreeOk(t, env) && StringsFit(t, env) && AllUtf8(t)
    ensures AllBlank(t.blank) && (t.members.NoMembers? || t.blank == [])
    ensures MembersOk(t.members, env) && MemberStringsFit(t.members, env) && MembersUtf8(t.members)
    ensures Denote(t, env) == Object(DenoteMembers(t.members, env))
    ensures t.members.NoMembers? ==> WriteMembers(t.members) == [] && DenoteMembers(t.members, env) == map[]
                                     && MembersSize(t.members) == 0
  {
  }

  lemma ReadsEmptyObject(s: bytes, p: nat, depth: nat, n: nat, env: Env, t: Tree)
    requires p < |s| && t.ObjectTree? && At(s, p + 1, t.blank) && AllBlank(t.blank)
    requires At(s, p + 1 + |t.blank|, [] + [CLOSE_BRACE])
    ensures ReadObject(s, p, depth, n, env) == Got(Object(map[]), p + 1 + |t.blank| + 1, n)
  {
    hide At, SkipBlank, AllBlank;
    assert [] + [CLOSE_BRACE] == [CLOSE_BRACE];
    AtOne(s, p + 1 + |t.blank|, CLOSE_BRACE);
    SkipsToClose(s, p + 1, t.blank, CLOSE_BRACE);
  }

  lemma ObjectStep(s: bytes, p: nat, depth: nat, n: nat, env: Env)
    requires p < |s| && SkipBlank(s, p + 1) < |s| && s[SkipBlank(s, p + 1)] == QUOTE
    ensures ReadObject(s, p, depth, n, env) == ReadMembers(s, SkipBlank(s, p + 1), depth, n, env, map[])
  {
    hide SkipBlank, ReadMembers;
  }

  /** The first member's blank may be skipped before or by the members' own reader. */
  lemma MemberStart(s: bytes, p: nat, members: Members)
    requires members.Member? && AllBlank(members.before) && At(s, p, WriteMembers(members) + [CLOSE_BRACE])
    ensures p + |members.before| < |s| && s[p + |members.before|] == QUOTE
    ensures SkipBlank(s, p) == p + |members.before|
    ensures SkipBlank(s, p + |members.before|) == p + |members.before|
  {
    hide *;
    MemberHead(s, p, members);
    QuoteFirst(members.key);
    var q := p + |members.before|;
    AtIndex(s, q, WriteString(members.key), 0);
    SkipsToQuote(s, p, members.before);
    SkipsNothing(s, q);
  }

  lemma MemberHead(s: bytes, p: nat, members: Members)
    requires members.Member? && At(s, p, WriteMembers(members) + [CLOSE_BRACE])
    ensures At(s, p, members.before) && At(s, p + |members.before|, WriteString(members.key))
    ensures p <= |s|
  {
    hide *;
    var tail := if members.rest.NoMembers? then [CLOSE_BRACE]
                else [COMMA] + (WriteMembers(members.rest) + [CLOSE_BRACE]);
    AtFits(s, p, WriteMembers(members) + [CLOSE_BRACE]);
    MemberParts(s, p, members, tail);
  }

  lemma QuoteFirst(pieces: seq<Piece>)
    ensures WriteString(pieces) != [] && WriteString(pieces)[0] == QUOTE
  {
  }

  lemma SkipsToQuote(s: bytes, p: nat, blank: bytes)
    requires At(s, p, blank) && AllBlank(blank) && p + |blank| < |s| && s[p + |blank|] == QUOTE
    ensures SkipBlank(s, p) == p + |blank|
  {
    SkipsBlank(s, p, blank);
  }

  lemma SkipsNothing(s: bytes, p: nat)
    requires p < |s| && s[p] == QUOTE
    ensures SkipBlank(s, p) == p
  {
  }

  /** Where seven concatenated parts stand, the first two ending at `k` and the next three at `v`. */
  lemma SevenParts(s: bytes, p: nat, w: bytes, a: bytes, b: bytes, c: bytes, d: bytes, e: bytes, f: bytes, g: bytes,
                   k: nat, v: nat)
    requires At(s, p, w) && w == a + (b + (c + (d + (e + (f + g)))))
    requires k == p + |a| + |b| && v == k + |c| + |d| + |e|
    ensures At(s, p, a) && At(s, p + |a|, b) && At(s, k, c) && At(s, k + |c|, d)
    ensures At(s, k + |c| + |d|, e) && At(s, v, f) && At(s, v + |f|, g)
    ensures p + |w| == v + |f| + |g|
  {
    hide *;
    AtThree(s, p, a, b, c + (d + (e + (f + g))));
    AtThree(s, k, c, d, e + (f + g));
    AtThree(s, k + |c| + |d|, e, f, g);
  }

  /** Where the parts of one written member stand. */
  lemma MemberParts(s: bytes, p: nat, members: Members, tail: bytes)
    requires members.Member?
    requires tail == (if members.rest.NoMembers? then [CLOSE_BRACE]
                      else [COMMA] + (WriteMembers(members.rest) + [CLOSE_BRACE]))
    requires At(s, p, WriteMembers(members) + [CLOSE_BRACE])
    ensures At(s, p, members.before) && At(s, p + |members.before|, WriteString(members.key))
    ensures At(s, KeyEnd(p, members), members.between)
    ensures At(s, KeyEnd(p, members) + |members.between|, [COLON])
    ensures At(s, KeyEnd(p, members) + |members.between| + 1, members.valueBefore + WriteTree(members.value))
    ensures At(s, ValueEnd(p, members), members.after)
    ensures At(s, ValueEnd(p, members) + |members.after|, tail)
    ensures p + |WriteMembers(members)| + 1 == ValueEnd(p, members) + |members.after| + |tail|
  {
    hide *;
    MemberSpelled(members, tail);
    EndsUnfold(p, members);
    var written, k := WriteMembers(members) + [CLOSE_BRACE], WriteString(members.key);
    assert |written| == |WriteMembers(members)| + 1;
    SevenParts(s, p, written, members.before, k, members.between, [COLON],
               members.valueBefore + WriteTree(members.value),
               members.after, tail, KeyEnd(p, members), ValueEnd(p, members));
  }

  lemma EndsUnfold(p: nat, members: Members)
    requires members.Member?
    ensures KeyEnd(p, members) == p + |members.before| + |WriteString(members.key)|
    ensures ValueEnd(p, members)
            == KeyEnd(p, members) + |members.between| + 1 + |members.valueBefore + WriteTree(members.value)|
  {
  }

  function KeyEnd(p: nat, members: Members): nat
    requires members.Member?
  {
    p + |members.before| + |WriteString(members.key)|
  }

  function ValueEnd(p: nat, members: Members): nat
    requires members.Member?
  {
    KeyEnd(p, members) + |members.between| + 1 + |members.valueBefore + WriteTree(members.value)|
  }

  lemma Regroup(a: bytes, b: bytes, c: bytes, d: bytes, e: bytes, f: bytes, g: bytes, h: bytes, i: bytes)
    ensures (a + (b + (c + (d + (e + (f + (g + h))))))) + i == a + (b + (c + (d + ((e + f) + (g + (h + i))))))
  {
  }

  lemma MemberSpelled(members: Members, tail: bytes)
    requires members.Member?
    requires tail == (if members.rest.NoMembers? then [CLOSE_BRACE]
                      else [COMMA] + (WriteMembers(members.rest) + [CLOSE_BRACE]))
    ensures WriteMembers(members) + [CLOSE_BRACE]
            == members.before + (WriteString(members.key) + (members.between + ([COLON]
               + ((members.valueBefore + WriteTree(members.value)) + (members.after + tail)))))
    ensures |tail| == (if members.rest.NoMembers? then 1 else 1 + |WriteMembers(members.rest)| + 1)
  {
    hide WriteString, WriteTree;
    var Member(before, key, between, valueBefore, value, after, rest) := members;
    var last := if rest.NoMembers? then [] else [COMMA] + WriteMembers(rest);
    assert last + [CLOSE_BRACE] == tail;
    Regroup(before, WriteString(key), between, [COLON], valueBefore, WriteTree(value), after, last, [CLOSE_BRACE]);
  }

  /** One unfolding of `ReadMembers` on a member whose parts have been read. */
  lemma MemberStep(s: bytes, p: nat, depth: nat, n: nat, env: Env, read: map<bytes, Value>,
                   key: Read<bytes>, value: Read<Value>, separator: nat)
    requires p <= |s| && SkipBlank(s, p) < |s| && s[SkipBlank(s, p)] == QUOTE
    requires key == ReadString(s, SkipBlank(s, p), env.maximumStringBytes) && key.Got?
    requires SkipBlank(s, key.pos) < |s| && s[SkipBlank(s, key.pos)] == COLON
    requires value == ReadValue(s, SkipBlank(s, key.pos) + 1, depth, n, env) && value.Got?
    requires key.value !in read && separator == SkipBlank(s, value.pos) && separator < |s|
    ensures s[separator] == CLOSE_BRACE ==>
              ReadMembers(s, p, depth, n, env, read)
              == Got(Object(read[key.value := value.value]), separator + 1, value.values)
    ensures s[separator] == COMMA ==>
              ReadMembers(s, p, depth, n, env, read)
              == ReadMembers(s, separator + 1, depth, value.values, env, read[key.value := value.value])
  {
    hide SkipBlank, ReadString, ReadValue, IsBlank, AllBlank;
    var q := SkipBlank(s, p);
    var colon := SkipBlank(s, key.pos);
    assert key == Got(key.value, key.pos, key.values) && value == Got(value.value, value.pos, value.values);
  }

  lemma ReadsMembers(s: bytes, q: nat, p: nat, depth: nat, n: nat, env: Env, read: map<bytes, Value>, members: Members)
    requires members.Member? && At(s, p, WriteMembers(members) + [CLOSE_BRACE])
    requires MembersOk(members, env) && MemberStringsFit(members, env) && MembersUtf8(members)
    requires q == p || q == p + |members.before|
    requires depth + MembersDepth(members) <= env.maximumDepth && n + MembersSize(members) <= env.maximumValues
    requires read.Keys !! Keys(members)
    ensures q <= |s|
    ensures ReadMembers(s, q, depth, n, env, read)
            == Got(Object(read + DenoteMembers(members, env)), p + |WriteMembers(members)| + 1,
                   n + MembersSize(members))
    decreases members, 0
  {
    hide *;
    var rest := members.rest;
    var tail := if rest.NoMembers? then [CLOSE_BRACE] else [COMMA] + (WriteMembers(rest) + [CLOSE_BRACE]);
    MembersDepthSize(members);
    MembersOkParts(members, env);
    Extends(members, env, read);
    ReadsOneMember(s, p, depth, n, env, members, tail);
    MemberStart(s, p, members);
    MemberParts(s, p, members, tail);
    MemberSpelled(members, tail);
    var separator := ValueEnd(p, members) + |members.after|;
    var read' := read[PiecesBytes(members.key) := Denote(members.value, env)];
    MemberStep(s, q, depth, n, env, read, Got(PiecesBytes(members.key), KeyEnd(p, members), 0),
               Got(Denote(members.value, env), ValueEnd(p, members), n + Size(members.value)), separator);
    if !rest.NoMembers? {
      AtSplit(s, separator, [COMMA], WriteMembers(rest) + [CLOSE_BRACE]);
      ReadsMembers(s, separator + 1, separator + 1, depth, n + Size(members.value), env, read', rest);
      assert separator + 1 + |WriteMembers(rest)| == p + |WriteMembers(members)|;
    }
  }

  /** Reading on after the first member comes to the same members in the end. */
  lemma Extends(members: Members, env: Env, read: map<bytes, Value>)
    requires members.Member? && MembersOk(members, env) && read.Keys !! Keys(members)
    ensures PiecesBytes(members.key) !in read
    ensures var read' := read[PiecesBytes(members.key) := Denote(members.value, env)];
            && read'.Keys !! Keys(members.rest)
            && read + DenoteMembers(members, env) == read' + DenoteMembers(members.rest, env)
            && (members.rest.NoMembers? ==> read + DenoteMembers(members, env) == read')
  {
    hide PiecesBytes, PiecesOk, Denote, TreeOk, AllBlank;
    assert PiecesBytes(members.key) in Keys(members);
  }

  lemma MembersDepthSize(members: Members)
    requires members.Member?
    ensures MembersSize(members) == Size(members.value) + MembersSize(members.rest)
    ensures Depth(members.value) <= MembersDepth(members) && MembersDepth(members.rest) <= MembersDepth(members)
    ensures members.rest.NoMembers? ==> MembersSize(members.rest) == 0
  {
  }

  lemma MembersOkParts(members: Members, env: Env)
    requires members.Member? && MembersOk(members, env) && MemberStringsFit(members, env) && MembersUtf8(members)
    ensures AllBlank(members.before) && AllBlank(members.between) && AllBlank(members.valueBefore)
            && AllBlank(members.after)
    ensures PiecesOk(members.key) && StringFits(members.key, env) && StringUtf8(members.key)
    ensures TreeOk(members.value, env) && StringsFit(members.value, env) && AllUtf8(members.value)
    ensures MembersOk(members.rest, env) && MemberStringsFit(members.rest, env) && MembersUtf8(members.rest)
  {
    hide AllBlank, PiecesOk, StringFits, StringUtf8, TreeOk, StringsFit, AllUtf8, PiecesBytes;
  }

  /** The first member's key and value are read where they stand. */
  lemma ReadsOneMember(s: bytes, p: nat, depth: nat, n: nat, env: Env, members: Members, tail: bytes)
    requires members.Member? && At(s, p, WriteMembers(members) + [CLOSE_BRACE])
    requires tail == (if members.rest.NoMembers? then [CLOSE_BRACE]
                      else [COMMA] + (WriteMembers(members.rest) + [CLOSE_BRACE]))
    requires AllBlank(members.before) && AllBlank(members.between) && AllBlank(members.valueBefore)
             && AllBlank(members.after)
    requires PiecesOk(members.key) && StringFits(members.key, env) && StringUtf8(members.key)
    requires TreeOk(members.value, env) && StringsFit(members.value, env) && AllUtf8(members.value)
    requires depth + Depth(members.value) <= env.maximumDepth && n + Size(members.value) <= env.maximumValues
    ensures p + |members.before| < |s| && KeyEnd(p, members) <= |s| && ValueEnd(p, members) <= |s|
    ensures ReadString(s, p + |members.before|, env.maximumStringBytes)
            == Got(PiecesBytes(members.key), KeyEnd(p, members), 0)
    ensures SkipBlank(s, KeyEnd(p, members)) == KeyEnd(p, members) + |members.between|
    ensures KeyEnd(p, members) + |members.between| < |s| && s[KeyEnd(p, members) + |members.between|] == COLON
    ensures ReadValue(s, KeyEnd(p, members) + |members.between| + 1, depth, n, env)
            == Got(Denote(members.value, env), ValueEnd(p, members), n + Size(members.value))
    ensures SkipBlank(s, ValueEnd(p, members)) == ValueEnd(p, members) + |members.after|
    ensures ValueEnd(p, members) + |members.after| < |s|
    ensures s[ValueEnd(p, members) + |members.after|] == tail[0]
    decreases members.value, 2
  {
    hide At, WriteTree, WriteMembers, WriteString, ReadValue, ReadString, SkipBlank, Ends, AllBlank, TreeOk, StringsFit,
         AllUtf8, Denote, Depth, Size, Valid, PiecesOk, PiecesBytes;
    MemberParts(s, p, members, tail);
    ReadsString(s, p + |members.before|, members.key, env.maximumStringBytes);
    AtFits(s, p + |members.before|, WriteString(members.key));
    var atColon := KeyEnd(p, members) + |members.between|;
    AtOne(s, atColon, COLON);
    SkipsToColon(s, KeyEnd(p, members), members.between);
    AtFits(s, atColon + 1, members.valueBefore + WriteTree(members.value));
    AfterValue(s, ValueEnd(p, members), members.after, tail, members.value);
    ReadsValue(s, atColon + 1, depth, n, env, members.valueBefore, members.value);
  }

  lemma SkipsToColon(s: bytes, p: nat, between: bytes)
    requires At(s, p, between) && AllBlank(between) && p + |between| < |s| && s[p + |between|] == COLON
    ensures SkipBlank(s, p) == p + |between|
  {
    SkipsBlank(s, p, between);
  }
}
