/**
  Soundness: whatever the reader accepts is a text of the grammar within the limits, and it returns what that text
  denotes.
 */
module JsonSound {
  import opened Results
  import opened Ascii
  import opened Bytes
  import opened Decimals
  import opened Utf8
  import opened JsonGrammar
  import opened JsonReader

  // ---------------------------------------------------------------- strings

  lemma HexAt(s: bytes, p: nat)
    requires p + 6 <= |s| && s[p] == BACKSLASH && s[p + 1] == LETTER_U
    ensures At(s, p, [BACKSLASH, LETTER_U] + s[p + 2..p + 6])
  {
    assert s[p..p + 6] == [BACKSLASH, LETTER_U] + s[p + 2..p + 6];
  }

  lemma SoundEscape(s: bytes, p: nat) returns (piece: Piece)
    requires p < |s| && s[p] == BACKSLASH && ReadEscape(s, p + 1).Got?
    ensures PieceOk(piece) && At(s, p, WritePiece(piece))
    ensures ReadEscape(s, p + 1).value == PieceBytes(piece)
    ensures ReadEscape(s, p + 1).pos == p + |WritePiece(piece)|
  {
    hide At, Encode, Hex4, SurrogatePair;
    if s[p + 1] == LETTER_U {
      var high := s[p + 2..p + 6];
      HexAt(s, p);
      if IsHigh(Hex4(high)) {
        var low := s[p + 8..p + 12];
        piece := Pair(high, low);
        HexAt(s, p + 6);
        AtSplit(s, p, [BACKSLASH, LETTER_U] + high, [BACKSLASH, LETTER_U] + low);
        assert WritePiece(piece) == ([BACKSLASH, LETTER_U] + high) + ([BACKSLASH, LETTER_U] + low);
      } else {
        piece := Unit(high);
      }
    } else {
      piece := Short(s[p + 1]);
      ShortAt(s, p);
    }
  }

  lemma ShortAt(s: bytes, p: nat)
    requires p + 1 < |s| && s[p] == BACKSLASH
    ensures At(s, p, [BACKSLASH, s[p + 1]])
  {
    assert s[p..p + 2] == [BACKSLASH, s[p + 1]];
  }

  /** What a successful run over the characters of a string has found. */
  ghost predicate FoundChars(s: bytes, p: nat, output: bytes, limit: nat, r: Read<bytes>, pieces: seq<Piece>) {
    && r.Got? && PiecesOk(pieces) && At(s, p, WritePieces(pieces) + [QUOTE])
    && r.value == output + PiecesBytes(pieces) && r.pos == p + |WritePieces(pieces)| + 1
    && |r.value| <= limit && Valid(r.value)
  }

  lemma {:induction false} SoundChars(s: bytes, p: nat, output: bytes, limit: nat) returns (pieces: seq<Piece>)
    requires p <= |s| && ReadChars(s, p, output, limit).Got?
    ensures FoundChars(s, p, output, limit, ReadChars(s, p, output, limit), pieces)
    decreases |s| - p
  {
    NotAtEnd(s, p, output, limit);
    hide *;
    if s[p] == QUOTE {
      pieces := [];
      EndFound(s, p, output, limit);
    } else {
      var first := SoundPiece(s, p, output, limit);
      var q := p + |WritePiece(first)|;
      var r := ReadChars(s, q, output + PieceBytes(first), limit);
      var rest := SoundChars(s, q, output + PieceBytes(first), limit);
      pieces := [first] + rest;
      PieceFound(s, p, output, limit, r, first, rest);
    }
  }

  lemma NotAtEnd(s: bytes, p: nat, output: bytes, limit: nat)
    requires p <= |s| && ReadChars(s, p, output, limit).Got?
    ensures p < |s|
  {
  }

  lemma EndFound(s: bytes, p: nat, output: bytes, limit: nat)
    requires p < |s| && s[p] == QUOTE && ReadChars(s, p, output, limit).Got?
    ensures FoundChars(s, p, output, limit, ReadChars(s, p, output, limit), [])
  {
    hide At, Valid;
    AtOne(s, p, QUOTE);
    NoPieces(output);
  }

  /** The first piece of what is left of a string. */
  lemma SoundPiece(s: bytes, p: nat, output: bytes, limit: nat) returns (first: Piece)
    requires p < |s| && s[p] != QUOTE && ReadChars(s, p, output, limit).Got?
    ensures PieceOk(first) && At(s, p, WritePiece(first)) && p < p + |WritePiece(first)| <= |s|
    ensures ReadChars(s, p, output, limit)
            == ReadChars(s, p + |WritePiece(first)|, output + PieceBytes(first), limit)
  {
    hide At, Valid, ReadEscape;
    if s[p] != BACKSLASH {
      first := Raw(s[p]);
      AtOne(s, p, s[p]);
    } else {
      first := SoundEscape(s, p);
    }
    hide WritePiece, PieceBytes;
    CharsStep(s, p, output, limit, first);
  }

  lemma PieceFound(s: bytes, p: nat, output: bytes, limit: nat, r: Read<bytes>, first: Piece, rest: seq<Piece>)
    requires PieceOk(first) && At(s, p, WritePiece(first))
    requires FoundChars(s, p + |WritePiece(first)|, output + PieceBytes(first), limit, r, rest)
    ensures FoundChars(s, p, output, limit, r, [first] + rest)
  {
    hide At, Valid, PiecesOk, WritePieces, PiecesBytes, WritePiece, PieceBytes;
    PiecesCons(output, first, rest);
    AtSplit(s, p, WritePiece(first), WritePieces(rest) + [QUOTE]);
  }

  lemma NoPieces(output: bytes)
    ensures WritePieces([]) + [QUOTE] == [QUOTE] && output + PiecesBytes([]) == output && |WritePieces([])| == 0
  {
  }

  /** One unfolding of `ReadChars` past a piece. */
  lemma CharsStep(s: bytes, p: nat, output: bytes, limit: nat, first: Piece)
    requires p < |s| && s[p] != QUOTE && ReadChars(s, p, output, limit).Got? && PieceOk(first)
    requires if s[p] == BACKSLASH then
               var r := ReadEscape(s, p + 1);
               r.Got? && r.value == PieceBytes(first) && r.pos == p + |WritePiece(first)|
             else first == Raw(s[p])
    ensures p < p + |WritePiece(first)| <= |s|
    ensures ReadChars(s, p, output, limit)
            == ReadChars(s, p + |WritePiece(first)|, output + PieceBytes(first), limit)
  {
    hide ReadEscape, Valid;
  }

  lemma PiecesCons(output: bytes, first: Piece, rest: seq<Piece>)
    requires PieceOk(first) && PiecesOk(rest)
    ensures PiecesOk([first] + rest)
    ensures WritePieces([first] + rest) + [QUOTE] == WritePiece(first) + (WritePieces(rest) + [QUOTE])
    ensures |WritePieces([first] + rest)| == |WritePiece(first)| + |WritePieces(rest)|
    ensures output + PiecesBytes([first] + rest) == (output + PieceBytes(first)) + PiecesBytes(rest)
  {
    hide WritePiece, PieceBytes, PieceOk;
    assert ([first] + rest)[1..] == rest;
  }

  lemma SoundString(s: bytes, p: nat, env: Env) returns (pieces: seq<Piece>)
    requires p < |s| && ReadString(s, p, env.maximumStringBytes).Got?
    ensures PiecesOk(pieces) && At(s, p, WriteString(pieces)) && StringFits(pieces, env)
    ensures var r := ReadString(s, p, env.maximumStringBytes);
            r.value == PiecesBytes(pieces) && r.pos == p + |WriteString(pieces)|
  {
    hide At, WritePieces, PiecesBytes, ReadChars, Valid, PiecesOk;
    pieces := SoundChars(s, p + 1, [], env.maximumStringBytes);
    AtOne(s, p, QUOTE);
    AtSplit(s, p, [QUOTE], WritePieces(pieces) + [QUOTE]);
    assert WriteString(pieces) == [QUOTE] + (WritePieces(pieces) + [QUOTE]);
    assert [] + PiecesBytes(pieces) == PiecesBytes(pieces);
  }

  // ---------------------------------------------------------------- numbers

  lemma SoundWhole(s: bytes, p: nat)
    requires p <= |s| && WholeEnd(s, p).Some?
    ensures var whole := s[p..WholeEnd(s, p).value];
            AllDigits(whole) && whole != [] && (whole[0] == ZERO ==> |whole| == 1)
  {
  }

  lemma SoundFraction(s: bytes, p: nat) returns (f: Option<bytes>)
    requires p <= |s| && FractionEnd(s, p).Some?
    ensures s[p..FractionEnd(s, p).value] == WriteFraction(f)
    ensures f.Some? ==> AllDigits(f.value) && f.value != []
  {
    hide SkipDigits, AllDigits;
    var q := FractionEnd(s, p).value;
    if q == p {
      f := None;
    } else {
      f := Some(s[p + 1..q]);
      assert s[p..q] == [s[p]] + s[p + 1..q];
    }
  }

  lemma SoundExponent(s: bytes, p: nat) returns (e: Option<Exponent>)
    requires p <= |s| && ExponentEnd(s, p).Some?
    ensures s[p..ExponentEnd(s, p).value] == WriteExponent(e)
    ensures e.Some? ==> IsMarker(e.value.marker) && AllDigits(e.value.digits) && e.value.digits != []
                        && (e.value.sign.Some? ==> e.value.sign.value == PLUS || e.value.sign.value == MINUS)
  {
    hide SkipDigits, AllDigits;
    var q := ExponentEnd(s, p).value;
    if q == p {
      e := None;
    } else {
      var first := ExponentDigits(s, p);
      var sign := if first == p + 2 then Some(s[p + 1]) else None;
      e := Some(Exponent(s[p], sign, s[first..q]));
      assert s[p..q] == [s[p]] + (if sign.Some? then [sign.value] else []) + s[first..q];
    }
  }

  /** The lexeme between the ends found, and how it splits. */
  lemma LexemeOfEnds(s: bytes, p: nat, start: nat, w: nat, f: nat, e: nat) returns (number: Lexeme)
    requires p < |s| && start == (if s[p] == MINUS then p + 1 else p)
    requires start <= w <= f <= e <= |s|
    requires WholeEnd(s, start) == Some(w) && FractionEnd(s, w) == Some(f) && ExponentEnd(s, f) == Some(e)
    ensures LexemeOk(number) && s[p..e] == WriteLexeme(number) && number.whole == s[start..w]
    ensures number.negative <==> s[p] == MINUS
    ensures Integral(number) <==> e == w
  {
    hide WholeEnd, FractionEnd, ExponentEnd, AllDigits, WriteFraction, WriteExponent;
    SoundWhole(s, start);
    var fraction := SoundFraction(s, w);
    var exponent := SoundExponent(s, f);
    number := Lexeme(s[p] == MINUS, s[start..w], fraction, exponent);
    FourSlices(s, p, start, w, f, e);
    assert s[p..start] == WriteSign(number.negative);
    PartLengths(number);
  }

  lemma FourSlices(s: bytes, p: nat, a: nat, b: nat, c: nat, d: nat)
    requires p <= a <= b <= c <= d <= |s|
    ensures s[p..d] == s[p..a] + s[a..b] + s[b..c] + s[c..d]
  {
    assert s[p..c] == s[p..a] + s[a..b] + s[b..c];
    assert s[p..d] == s[p..c] + s[c..d];
  }

  lemma PartLengths(number: Lexeme)
    ensures |WriteFraction(number.fraction)| == 0 <==> number.fraction.None?
    ensures |WriteExponent(number.exponent)| == 0 <==> number.exponent.None?
  {
  }

  lemma NumberEndsFound(s: bytes, p: nat, n: nat, env: Env) returns (start: nat, w: nat, f: nat, e: nat)
    requires p < |s| && ReadNumber(s, p, n, env).Got?
    ensures start == (if s[p] == MINUS then p + 1 else p) && start <= w <= f <= e <= |s|
    ensures WholeEnd(s, start) == Some(w) && FractionEnd(s, w) == Some(f) && ExponentEnd(s, f) == Some(e)
    ensures AllDigits(s[start..w])
    ensures e == w ==>
              && (AllDigits(s[p..w]) || (s[p..w] != [] && s[p..w][0] == MINUS && AllDigits(s[p..w][1..])))
              && ToInteger(s[p..w]).Some?
              && ReadNumber(s, p, n, env) == Got(Integer(ToInteger(s[p..w]).value), w, n)
    ensures e != w ==>
              && env.toDouble(s[p..e]).Some?
              && ReadNumber(s, p, n, env) == Got(Number(env.toDouble(s[p..e]).value), e, n)
  {
    hide FractionEnd, ExponentEnd, ToInteger;
    start := if s[p] == MINUS then p + 1 else p;
    w := WholeEnd(s, start).value;
    f := FractionEnd(s, w).value;
    e := ExponentEnd(s, f).value;
    assert s[p..w] == (if start == p then [] else [s[p]]) + s[start..w];
    if start != p {
      assert s[p..w][1..] == s[start..w];
    }
  }

  lemma SoundNumber(s: bytes, p: nat, n: nat, env: Env) returns (number: Lexeme)
    requires p < |s| && ReadNumber(s, p, n, env).Got?
    ensures LexemeOk(number) && NumberInRange(number, env) && At(s, p, WriteLexeme(number))
    ensures ReadNumber(s, p, n, env) == Got(Denote(NumberTree(number), env), p + |WriteLexeme(number)|, n)
  {
    hide ReadNumber, WholeEnd, FractionEnd, ExponentEnd, WriteLexeme, AllDigits, Decimal;
    var start, w, f, e := NumberEndsFound(s, p, n, env);
    number := LexemeOfEnds(s, p, start, w, f, e);
    if e == w {
      SignedWhole(s, p, start, w);
    }
  }

  lemma SignedWhole(s: bytes, p: nat, start: nat, w: nat)
    requires p < |s| && start == (if s[p] == MINUS then p + 1 else p) && start <= w <= |s|
    requires AllDigits(s[start..w]) && w > start
    ensures s[p] == MINUS ==> s[p..w] != [] && s[p..w][0] == MINUS && s[p..w][1..] == s[start..w]
    ensures s[p] != MINUS ==> s[p..w] == s[start..w] && s[p..w][0] != MINUS
  {
    assert s[start] == s[start..w][0];
  }

  // ---------------------------------------------------------------- values

  /** What a successful read has found: a tree of the grammar, within the limits, denoting the value returned. */
  ghost predicate Found(s: bytes, p: nat, depth: nat, n: nat, env: Env, r: Read<Value>, before: bytes, t: Tree) {
    && r.Got? && AllBlank(before) && At(s, p, before + WriteTree(t)) && r.pos == p + |before + WriteTree(t)|
    && TreeOk(t, env) && StringsFit(t, env) && r.value == Denote(t, env)
    && depth + Depth(t) <= env.maximumDepth && r.values == n + Size(t) <= env.maximumValues
  }

  lemma SoundValue(s: bytes, p: nat, depth: nat, n: nat, env: Env) returns (before: bytes, t: Tree)
    requires p <= |s| && ReadValue(s, p, depth, n, env).Got?
    ensures Found(s, p, depth, n, env, ReadValue(s, p, depth, n, env), before, t)
    decreases |s| - p, 1
  {
    hide *;
    var q := SkipBlank(s, p);
    Dispatch(s, p, q, depth, n, env);
    before := s[p..q];
    BlankAt(s, p, q);
    var r := ReadValue(s, p, depth, n, env);
    if s[q] == OPEN_BRACE {
      t := SoundObject(s, q, depth + 1, n + 1, env);
      AtSplit(s, p, before, WriteTree(t));
      FoundObject(s, p, depth, n, env, r, before, t);
    } else if s[q] == OPEN_BRACKET {
      t := SoundArray(s, q, depth + 1, n + 1, env);
      AtSplit(s, p, before, WriteTree(t));
      FoundArray(s, p, depth, n, env, r, before, t);
    } else {
      t := SoundLeaf(s, p, q, depth, n, env);
      AtSplit(s, p, before, WriteTree(t));
      FoundLeaf(s, p, depth, n, env, r, before, t);
    }
  }

  lemma BlankAt(s: bytes, p: nat, q: nat)
    requires p <= q <= |s|
    ensures At(s, p, s[p..q])
  {
  }

  /** A value that is read comes after blanks and within the limits, and its first octet says how. */
  lemma Dispatch(s: bytes, p: nat, q: nat, depth: nat, n: nat, env: Env)
    requires p <= |s| && q == SkipBlank(s, p) && ReadValue(s, p, depth, n, env).Got?
    ensures p <= q < |s| && AllBlank(s[p..q])
    ensures s[q] == OPEN_BRACE || s[q] == OPEN_BRACKET ==> depth + 1 <= env.maximumDepth && n + 1 <= env.maximumValues
    ensures s[q] == OPEN_BRACE ==> ReadValue(s, p, depth, n, env) == ReadObject(s, q, depth + 1, n + 1, env)
    ensures s[q] == OPEN_BRACKET ==> ReadValue(s, p, depth, n, env) == ReadArray(s, q, depth + 1, n + 1, env)
  {
    hide SkipBlank, ReadObject, ReadArray, ReadString, ReadLiteral, ReadNumber;
  }

  lemma FoundLeaf(s: bytes, p: nat, depth: nat, n: nat, env: Env, r: Read<Value>, before: bytes, t: Tree)
    requires AllBlank(before) && At(s, p, before + WriteTree(t)) && TreeOk(t, env) && StringsFit(t, env)
    requires r == Got(Denote(t, env), p + |before| + |WriteTree(t)|, n + 1)
    requires depth <= env.maximumDepth && n + 1 <= env.maximumValues && Depth(t) == 0 && Size(t) == 1
    ensures Found(s, p, depth, n, env, r, before, t)
  {
    hide At, WriteTree, AllBlank, TreeOk, StringsFit, Denote;
  }

  /** Strings, literals and numbers. */
  lemma SoundLeaf(s: bytes, p: nat, q: nat, depth: nat, n: nat, env: Env) returns (t: Tree)
    requires p <= |s| && q == SkipBlank(s, p) && q < |s| && s[q] != OPEN_BRACE && s[q] != OPEN_BRACKET
    requires ReadValue(s, p, depth, n, env).Got?
    ensures At(s, q, WriteTree(t)) && TreeOk(t, env) && StringsFit(t, env)
    ensures ReadValue(s, p, depth, n, env) == Got(Denote(t, env), q + |WriteTree(t)|, n + 1)
    ensures depth <= env.maximumDepth && n + 1 <= env.maximumValues && Depth(t) == 0 && Size(t) == 1
  {
    hide SkipBlank, ReadString, ReadNumber, At, WriteString, WriteLexeme, LexemeOk, NumberInRange, PiecesOk,
         PiecesBytes;
    if s[q] == QUOTE {
      var pieces := SoundString(s, q, env);
      t := StringTree(pieces);
    } else if s[q] == 0x74 {
      t := TrueTree;
      LiteralAt(s, q, TRUE_TEXT);
    } else if s[q] == 0x66 {
      t := FalseTree;
      LiteralAt(s, q, FALSE_TEXT);
    } else if s[q] == 0x6E {
      t := NullTree;
      LiteralAt(s, q, NULL_TEXT);
    } else {
      var number := SoundNumber(s, q, n + 1, env);
      t := NumberTree(number);
    }
  }

  lemma LiteralAt(s: bytes, p: nat, text: bytes)
    ensures p + |text| <= |s| && s[p..p + |text|] == text ==> At(s, p, text)
  {
  }

  lemma FoundArray(s: bytes, p: nat, depth: nat, n: nat, env: Env, r: Read<Value>, before: bytes, t: Tree)
    requires t.ArrayTree? && r.Got? && AllBlank(before)
    requires At(s, p, before + WriteTree(t)) && r.pos == p + |before| + |WriteTree(t)|
    requires TreeOk(t, env) && StringsFit(t, env) && r.value == Denote(t, env)
    requires depth + 1 + ItemsDepth(t.items) <= env.maximumDepth
    requires r.values == n + 1 + ItemsSize(t.items) <= env.maximumValues
    ensures Found(s, p, depth, n, env, r, before, t)
  {
    hide At, WriteTree, AllBlank, TreeOk, StringsFit, Denote;
  }

  lemma FoundObject(s: bytes, p: nat, depth: nat, n: nat, env: Env, r: Read<Value>, before: bytes, t: Tree)
    requires t.ObjectTree? && r.Got? && AllBlank(before)
    requires At(s, p, before + WriteTree(t)) && r.pos == p + |before| + |WriteTree(t)|
    requires TreeOk(t, env) && StringsFit(t, env) && r.value == Denote(t, env)
    requires depth + 1 + MembersDepth(t.members) <= env.maximumDepth
    requires r.values == n + 1 + MembersSize(t.members) <= env.maximumValues
    ensures Found(s, p, depth, n, env, r, before, t)
  {
    hide At, WriteTree, AllBlank, TreeOk, StringsFit, Denote;
  }

  // ---------------------------------------------------------------- arrays

  lemma SoundArray(s: bytes, p: nat, depth: nat, n: nat, env: Env) returns (t: Tree)
    requires p < |s| && s[p] == OPEN_BRACKET && depth <= env.maximumDepth && n <= env.maximumValues
    requires ReadArray(s, p, depth, n, env).Got?
    ensures t.ArrayTree? && At(s, p, WriteTree(t)) && TreeOk(t, env) && StringsFit(t, env)
    ensures depth + ItemsDepth(t.items) <= env.maximumDepth && n + ItemsSize(t.items) <= env.maximumValues
    ensures ReadArray(s, p, depth, n, env) == Got(Denote(t, env), p + |WriteTree(t)|, n + ItemsSize(t.items))
    decreases |s| - p, 0
  {
    hide *;
    var q := SkipBlank(s, p + 1);
    var blank := s[p + 1..q];
    BlankAt(s, p + 1, q);
    AtOne(s, p, OPEN_BRACKET);
    if q < |s| && s[q] == CLOSE_BRACKET {
      t := ArrayTree(blank, NoItems);
      SoundEmptyArray(s, p, depth, n, env, q, blank);
    } else {
      ArrayStep(s, p, depth, n, env);
      var items := SoundItems(s, q, depth, n, env, []);
      ItemsFacts(s, q, depth, n, env, ReadItems(s, q, depth, n, env, []), [], items);
      t := ArrayTree([], items.(before := blank + items.before));
      ItemsBlank(items, blank, env);
      var inner := WriteItems(items) + [CLOSE_BRACKET];
      AtSplit(s, p + 1, blank, inner);
      AtSplit(s, p, [OPEN_BRACKET], blank + inner);
      ArrayMade(t, items, blank, env);
      assert [] + DenoteItems(items, env) == DenoteItems(items, env);
    }
  }

  lemma NoBlanks()
    ensures AllBlank([])
  {
  }

  lemma EmptyAt(s: bytes, p: nat, q: nat, open: byte, blank: bytes, close: byte)
    requires p + 1 <= q < |s| && s[p] == open && s[q] == close && blank == s[p + 1..q]
    ensures At(s, p, [open] + (blank + ([] + [close]))) && |[open] + (blank + ([] + [close]))| == q + 1 - p
  {
    assert s[p..q + 1] == [open] + (blank + ([] + [close]));
  }

  lemma SoundEmptyArray(s: bytes, p: nat, depth: nat, n: nat, env: Env, q: nat, blank: bytes)
    requires p < |s| && s[p] == OPEN_BRACKET && q == SkipBlank(s, p + 1) && q < |s| && s[q] == CLOSE_BRACKET
    requires blank == s[p + 1..q]
    ensures var t := ArrayTree(blank, NoItems);
            && At(s, p, WriteTree(t)) && TreeOk(t, env) && StringsFit(t, env) && ItemsDepth(t.items) == 0
            && ReadArray(s, p, depth, n, env) == Got(Denote(t, env), p + |WriteTree(t)|, n + ItemsSize(t.items))
            && ItemsSize(t.items) == 0
  {
    hide SkipBlank, ReadItems, At, AllBlank;
    EmptyAt(s, p, q, OPEN_BRACKET, blank, CLOSE_BRACKET);
  }

  lemma ArrayStep(s: bytes, p: nat, depth: nat, n: nat, env: Env)
    requires p < |s|
    requires var q := SkipBlank(s, p + 1); !(q < |s| && s[q] == CLOSE_BRACKET)
    ensures ReadArray(s, p, depth, n, env) == ReadItems(s, SkipBlank(s, p + 1), depth, n, env, [])
  {
    hide SkipBlank, ReadItems;
  }

  lemma ArrayMade(t: Tree, items: Items, blank: bytes, env: Env)
    requires items.Item? && t == ArrayTree([], items.(before := blank + items.before)) && ItemsOk(t.items, env)
    requires WriteItems(t.items) == blank + WriteItems(items)
    requires ItemStringsFit(t.items, env)
    ensures WriteTree(t) == [OPEN_BRACKET] + (blank + (WriteItems(items) + [CLOSE_BRACKET]))
    ensures |WriteTree(t)| == 1 + |blank| + |WriteItems(items)| + 1
    ensures TreeOk(t, env) && StringsFit(t, env) && Denote(t, env) == Array(DenoteItems(t.items, env))
  {
    hide WriteItems, ItemsOk, ItemStringsFit, DenoteItems;
    NoBlanks();
  }

  /** Blank space before a first element can be counted as that element's own. */
  lemma ItemsBlank(items: Items, blank: bytes, env: Env)
    requires items.Item? && AllBlank(blank) && ItemsOk(items, env) && ItemStringsFit(items, env)
    ensures var more := items.(before := blank + items.before);
            && WriteItems(more) == blank + WriteItems(items)
            && ItemsOk(more, env) && ItemStringsFit(more, env) && DenoteItems(more, env) == DenoteItems(items, env)
            && ItemsSize(more) == ItemsSize(items) && ItemsDepth(more) == ItemsDepth(items)
  {
    hide WriteTree, TreeOk, StringsFit, Denote, Depth, Size;
  }

  /** What a successful run over elements has found. */
  ghost predicate FoundItems(s: bytes, p: nat, depth: nat, n: nat, env: Env, r: Read<Value>, read: seq<Value>,
                             items: Items) {
    && items.Item? && At(s, p, WriteItems(items) + [CLOSE_BRACKET]) && ItemsOk(items, env) && ItemStringsFit(items, env)
    && r == Got(Array(read + DenoteItems(items, env)), p + |WriteItems(items)| + 1, n + ItemsSize(items))
    && depth + ItemsDepth(items) <= env.maximumDepth && n + ItemsSize(items) <= env.maximumValues
  }

  lemma ItemsFacts(s: bytes, p: nat, depth: nat, n: nat, env: Env, r: Read<Value>, read: seq<Value>, items: Items)
    requires FoundItems(s, p, depth, n, env, r, read, items)
    ensures items.Item? && At(s, p, WriteItems(items) + [CLOSE_BRACKET]) && ItemsOk(items, env)
    ensures ItemStringsFit(items, env)
    ensures r == Got(Array(read + DenoteItems(items, env)), p + |WriteItems(items)| + 1, n + ItemsSize(items))
    ensures depth + ItemsDepth(items) <= env.maximumDepth && n + ItemsSize(items) <= env.maximumValues
  {
  }

  lemma SoundItems(s: bytes, p: nat, depth: nat, n: nat, env: Env, read: seq<Value>) returns (items: Items)
    requires p <= |s| && ReadItems(s, p, depth, n, env, read).Got?
    ensures FoundItems(s, p, depth, n, env, ReadItems(s, p, depth, n, env, read), read, items)
    decreases |s| - p, 2
  {
    hide *;
    var value, separator := ItemsUnfold(s, p, depth, n, env, read);
    var after := s[value.pos..separator];
    BlankAt(s, value.pos, separator);
    AtOne(s, separator, s[separator]);
    var before, t := SoundValue(s, p, depth, n, env);
    if s[separator] == CLOSE_BRACKET {
      items := Item(before, t, after, NoItems);
      LastItemFound(s, p, depth, n, env, value, read, items, separator);
    } else {
      var r := ReadItems(s, separator + 1, depth, value.values, env, read + [value.value]);
      var rest := SoundItems(s, separator + 1, depth, value.values, env, read + [value.value]);
      items := Item(before, t, after, rest);
      ItemFound(s, p, depth, n, env, value, read, items, separator, r);
    }
  }

  lemma ItemsUnfold(s: bytes, p: nat, depth: nat, n: nat, env: Env, read: seq<Value>)
    returns (value: Read<Value>, separator: nat)
    requires p <= |s| && ReadItems(s, p, depth, n, env, read).Got?
    ensures value == ReadValue(s, p, depth, n, env) && value.Got? && p < value.pos <= |s|
    ensures value.pos <= separator < |s| && AllBlank(s[value.pos..separator])
    ensures s[separator] != CLOSE_BRACKET ==> s[separator] == COMMA
    ensures s[separator] == CLOSE_BRACKET ==>
              ReadItems(s, p, depth, n, env, read) == Got(Array(read + [value.value]), separator + 1, value.values)
    ensures s[separator] != CLOSE_BRACKET ==>
              ReadItems(s, p, depth, n, env, read)
              == ReadItems(s, separator + 1, depth, value.values, env, read + [value.value])
  {
    hide ReadValue, SkipBlank, AllBlank, IsBlank;
    value := ReadValue(s, p, depth, n, env);
    separator := SkipBlank(s, value.pos);
  }

  lemma LastItemFound(s: bytes, p: nat, depth: nat, n: nat, env: Env, value: Read<Value>, read: seq<Value>,
                      items: Items, separator: nat)
    requires items.Item? && items.rest.NoItems? && Found(s, p, depth, n, env, value, items.before, items.value)
    requires AllBlank(items.after) && At(s, value.pos, items.after) && separator == value.pos + |items.after|
    requires At(s, separator, [CLOSE_BRACKET])
    ensures FoundItems(s, p, depth, n, env, Got(Array(read + [value.value]), separator + 1, value.values), read, items)
  {
    hide At, WriteTree, WriteItems, AllBlank, TreeOk, StringsFit, Denote, Depth, Size;
    AtSplit(s, value.pos, items.after, [CLOSE_BRACKET]);
    AtSplit(s, p, items.before + WriteTree(items.value), items.after + [CLOSE_BRACKET]);
    LastItemWritten(items);
    assert DenoteItems(items.rest, env) == [];
    assert DenoteItems(items, env) == [value.value];
    assert ItemsOk(items.rest, env) && ItemStringsFit(items.rest, env);
    assert ItemsDepth(items.rest) == 0 && ItemsSize(items.rest) == 0;
  }

  lemma LastItemWritten(items: Items)
    requires items.Item? && items.rest.NoItems?
    ensures WriteItems(items) + [CLOSE_BRACKET]
            == (items.before + WriteTree(items.value)) + (items.after + [CLOSE_BRACKET])
    ensures |WriteItems(items)| == |items.before + WriteTree(items.value)| + |items.after|
  {
    hide WriteTree;
    var w := WriteTree(items.value);
    assert WriteItems(items) == (items.before + w) + items.after;
    var lead := items.before + w;
    assert (lead + items.after) + [CLOSE_BRACKET] == lead + (items.after + [CLOSE_BRACKET]);
  }

  lemma ItemFound(s: bytes, p: nat, depth: nat, n: nat, env: Env, value: Read<Value>, read: seq<Value>, items: Items,
                  separator: nat, r: Read<Value>)
    requires items.Item? && Found(s, p, depth, n, env, value, items.before, items.value)
    requires AllBlank(items.after) && At(s, value.pos, items.after) && separator == value.pos + |items.after|
    requires At(s, separator, [COMMA])
    requires FoundItems(s, separator + 1, depth, value.values, env, r, read + [value.value], items.rest)
    ensures FoundItems(s, p, depth, n, env, r, read, items)
  {
    hide At, WriteTree, AllBlank, TreeOk, StringsFit, Denote, Depth, Size;
    var lead, last := items.before + WriteTree(items.value), WriteItems(items.rest) + [CLOSE_BRACKET];
    AtSplit(s, separator, [COMMA], last);
    AtSplit(s, value.pos, items.after, [COMMA] + last);
    AtSplit(s, p, lead, items.after + ([COMMA] + last));
    assert WriteItems(items) + [CLOSE_BRACKET] == lead + (items.after + ([COMMA] + last)) by {
      RegroupItems(items.before, WriteTree(items.value), items.after, [COMMA], WriteItems(items.rest), [CLOSE_BRACKET]);
    }
    assert read + DenoteItems(items, env) == (read + [value.value]) + DenoteItems(items.rest, env);
  }

  lemma RegroupItems(a: bytes, b: bytes, c: bytes, d: bytes, e: bytes, f: bytes)
    ensures (a + (b + (c + (d + e)))) + f == (a + b) + (c + (d + (e + f)))
    ensures |a + (b + (c + (d + e)))| == |a + b| + |c| + |d| + |e|
  {
  }

  // ---------------------------------------------------------------- objects

  lemma SoundObject(s: bytes, p: nat, depth: nat, n: nat, env: Env) returns (t: Tree)
    requires p < |s| && s[p] == OPEN_BRACE && depth <= env.maximumDepth && n <= env.maximumValues
    requires ReadObject(s, p, depth, n, env).Got?
    ensures t.ObjectTree? && At(s, p, WriteTree(t)) && TreeOk(t, env) && StringsFit(t, env)
    ensures depth + MembersDepth(t.members) <= env.maximumDepth && n + MembersSize(t.members) <= env.maximumValues
    ensures ReadObject(s, p, depth, n, env) == Got(Denote(t, env), p + |WriteTree(t)|, n + MembersSize(t.members))
    decreases |s| - p, 0
  {
    hide *;
    var q := SkipBlank(s, p + 1);
    var blank := s[p + 1..q];
    BlankAt(s, p + 1, q);
    AtOne(s, p, OPEN_BRACE);
    if q < |s| && s[q] == CLOSE_BRACE {
      t := ObjectTree(blank, NoMembers);
      SoundEmptyObject(s, p, depth, n, env, q, blank);
    } else {
      ObjectStep(s, p, depth, n, env);
      var members := SoundMembers(s, q, depth, n, env, map[]);
      MembersFacts(s, q, depth, n, env, ReadMembers(s, q, depth, n, env, map[]), map[], members);
      t := ObjectTree([], members.(before := blank + members.before));
      MembersBlank(members, blank, env);
      var inner := WriteMembers(members) + [CLOSE_BRACE];
      AtSplit(s, p + 1, blank, inner);
      AtSplit(s, p, [OPEN_BRACE], blank + inner);
      ObjectMade(t, members, blank, env);
      assert map[] + DenoteMembers(members, env) == DenoteMembers(members, env);
    }
  }

  lemma SoundEmptyObject(s: bytes, p: nat, depth: nat, n: nat, env: Env, q: nat, blank: bytes)
    requires p < |s| && s[p] == OPEN_BRACE && q == SkipBlank(s, p + 1) && q < |s| && s[q] == CLOSE_BRACE
    requires blank == s[p + 1..q]
    ensures var t := ObjectTree(blank, NoMembers);
            && At(s, p, WriteTree(t)) && TreeOk(t, env) && StringsFit(t, env) && MembersDepth(t.members) == 0
            && MembersSize(t.members) == 0
            && ReadObject(s, p, depth, n, env) == Got(Denote(t, env), p + |WriteTree(t)|, n + MembersSize(t.members))
  {
    hide SkipBlank, ReadMembers, At, AllBlank;
    EmptyAt(s, p, q, OPEN_BRACE, blank, CLOSE_BRACE);
  }

  lemma ObjectStep(s: bytes, p: nat, depth: nat, n: nat, env: Env)
    requires p < |s|
    requires var q := SkipBlank(s, p + 1); !(q < |s| && s[q] == CLOSE_BRACE)
    ensures ReadObject(s, p, depth, n, env) == ReadMembers(s, SkipBlank(s, p + 1), depth, n, env, map[])
  {
    hide SkipBlank, ReadMembers;
  }

  lemma ObjectMade(t: Tree, members: Members, blank: bytes, env: Env)
    requires members.Member? && t == ObjectTree([], members.(before := blank + members.before))
    requires MembersOk(t.members, env) && MemberStringsFit(t.members, env)
    requires WriteMembers(t.members) == blank + WriteMembers(members)
    ensures WriteTree(t) == [OPEN_BRACE] + (blank + (WriteMembers(members) + [CLOSE_BRACE]))
    ensures |WriteTree(t)| == 1 + |blank| + |WriteMembers(members)| + 1
    ensures TreeOk(t, env) && StringsFit(t, env) && Denote(t, env) == Object(DenoteMembers(t.members, env))
  {
    hide WriteMembers, MembersOk, MemberStringsFit, DenoteMembers, Keys;
    NoBlanks();
  }

  lemma MembersBlank(members: Members, blank: bytes, env: Env)
    requires members.Member? && AllBlank(blank) && MembersOk(members, env) && MemberStringsFit(members, env)
    ensures var more := members.(before := blank + members.before);
            && WriteMembers(more) == blank + WriteMembers(members)
            && MembersOk(more, env) && MemberStringsFit(more, env)
            && DenoteMembers(more, env) == DenoteMembers(members, env)
            && MembersSize(more) == MembersSize(members) && MembersDepth(more) == MembersDepth(members)
  {
    hide WriteTree, WriteString, TreeOk, StringsFit, Denote, Depth, Size, PiecesOk, PiecesBytes;
  }

  /** What a successful run over members has found. */
  ghost predicate FoundMembers(s: bytes, p: nat, depth: nat, n: nat, env: Env, r: Read<Value>, read: map<bytes, Value>,
                               members: Members) {
    && members.Member? && At(s, p, WriteMembers(members) + [CLOSE_BRACE])
    && MembersOk(members, env) && MemberStringsFit(members, env) && read.Keys !! Keys(members)
    && r == Got(Object(read + DenoteMembers(members, env)), p + |WriteMembers(members)| + 1, n + MembersSize(members))
    && depth + MembersDepth(members) <= env.maximumDepth && n + MembersSize(members) <= env.maximumValues
  }

  lemma MembersFacts(s: bytes, p: nat, depth: nat, n: nat, env: Env, r: Read<Value>, read: map<bytes, Value>,
                     members: Members)
    requires FoundMembers(s, p, depth, n, env, r, read, members)
    ensures members.Member? && At(s, p, WriteMembers(members) + [CLOSE_BRACE])
    ensures MembersOk(members, env) && MemberStringsFit(members, env) && read.Keys !! Keys(members)
    ensures r == Got(Object(read + DenoteMembers(members, env)), p + |WriteMembers(members)| + 1,
                     n + MembersSize(members))
    ensures depth + MembersDepth(members) <= env.maximumDepth && n + MembersSize(members) <= env.maximumValues
  {
  }

  lemma SoundMembers(s: bytes, p: nat, depth: nat, n: nat, env: Env, read: map<bytes, Value>) returns (members: Members)
    requires p <= |s| && ReadMembers(s, p, depth, n, env, read).Got?
    ensures FoundMembers(s, p, depth, n, env, ReadMembers(s, p, depth, n, env, read), read, members)
    decreases |s| - p, 2
  {
    hide *;
    var q, key, colon, value, separator := MembersUnfold(s, p, depth, n, env, read);
    BlankAt(s, p, q);
    BlankAt(s, key.pos, colon);
    BlankAt(s, value.pos, separator);
    var pieces := SoundString(s, q, env);
    var valueBefore, t := SoundValue(s, colon + 1, depth, n, env);
    AtOne(s, colon, COLON);
    AtOne(s, separator, s[separator]);
    var read' := read[key.value := value.value];
    var rest := NoMembers;
    if s[separator] != CLOSE_BRACE {
      rest := SoundMembers(s, separator + 1, depth, value.values, env, read');
    }
    members := Member(s[p..q], pieces, s[key.pos..colon], valueBefore, t, s[value.pos..separator], rest);
    MemberLead(s, p, depth, n, env, q, key, colon, value, members, separator);
    if s[separator] == CLOSE_BRACE {
      LastMemberFound(s, p, depth, n, env, value, read, members, separator);
    } else {
      MemberFound(s, p, depth, n, env, value, read, members, separator,
                  ReadMembers(s, separator + 1, depth, value.values, env, read'));
    }
  }

  lemma MembersUnfold(s: bytes, p: nat, depth: nat, n: nat, env: Env, read: map<bytes, Value>)
    returns (q: nat, key: Read<bytes>, colon: nat, value: Read<Value>, separator: nat)
    requires p <= |s| && ReadMembers(s, p, depth, n, env, read).Got?
    ensures p <= q < |s| && s[q] == QUOTE && AllBlank(s[p..q])
    ensures key == ReadString(s, q, env.maximumStringBytes) && key.Got? && q < key.pos <= |s|
    ensures key.pos <= colon < |s| && s[colon] == COLON && AllBlank(s[key.pos..colon])
    ensures value == ReadValue(s, colon + 1, depth, n, env) && value.Got? && colon + 1 < value.pos <= |s|
    ensures value.pos <= separator < |s| && AllBlank(s[value.pos..separator])
    ensures key.value !in read && (s[separator] == CLOSE_BRACE || s[separator] == COMMA)
    ensures var read' := read[key.value := value.value];
            ReadMembers(s, p, depth, n, env, read)
            == (if s[separator] == CLOSE_BRACE then Got(Object(read'), separator + 1, value.values)
                else ReadMembers(s, separator + 1, depth, value.values, env, read'))
  {
    hide AllBlank, IsBlank, ReadString, ReadValue, SkipBlank, ReadMembers;
    q := SkipBlank(s, p);
    KeyStage(s, p, depth, n, env, read, q);
    key := ReadString(s, q, env.maximumStringBytes);
    colon := SkipBlank(s, key.pos);
    if colon >= |s| || s[colon] != COLON {
      ColonStage(s, p, depth, n, env, read, q, key, colon);
    }
    value := ReadValue(s, colon + 1, depth, n, env);
    ValueStage(s, p, depth, n, env, read, q, key, colon, value);
    separator := SkipBlank(s, value.pos);
    SeparatorStage(s, p, depth, n, env, read, q, key, colon, value, separator);
  }

  /** The written form of a first member up to its separator. */
  function Lead(m: Members): bytes
    requires m.Member?
  {
    m.before + (WriteString(m.key) + (m.between + ([COLON] + (m.valueBefore + (WriteTree(m.value) + m.after)))))
  }

  /** The member read, apart from what follows it. */
  ghost predicate FoundMember(s: bytes, p: nat, depth: nat, n: nat, env: Env, value: Read<Value>, m: Members,
                              separator: nat) {
    && m.Member? && value.Got? && At(s, p, Lead(m)) && separator == p + |Lead(m)|
    && AllBlank(m.before) && AllBlank(m.between) && AllBlank(m.valueBefore) && AllBlank(m.after)
    && PiecesOk(m.key) && StringFits(m.key, env) && TreeOk(m.value, env) && StringsFit(m.value, env)
    && value.value == Denote(m.value, env)
    && depth + Depth(m.value) <= env.maximumDepth && value.values == n + Size(m.value) <= env.maximumValues
  }

  lemma MemberLead(s: bytes, p: nat, depth: nat, n: nat, env: Env, q: nat, key: Read<bytes>, colon: nat,
                   value: Read<Value>, m: Members, separator: nat)
    requires m.Member? && key.Got? && AllBlank(m.before) && AllBlank(m.between) && AllBlank(m.after)
    requires At(s, p, m.before) && q == p + |m.before|
    requires PiecesOk(m.key) && StringFits(m.key, env) && At(s, q, WriteString(m.key))
    requires key.pos == q + |WriteString(m.key)|
    requires At(s, key.pos, m.between) && colon == key.pos + |m.between| && At(s, colon, [COLON])
    requires Found(s, colon + 1, depth, n, env, value, m.valueBefore, m.value)
    requires At(s, value.pos, m.after) && separator == value.pos + |m.after|
    ensures FoundMember(s, p, depth, n, env, value, m, separator)
  {
    hide At, WriteTree, WriteString, AllBlank, TreeOk, StringsFit, StringFits, Denote, Depth, Size, PiecesOk;
    var v := m.valueBefore + WriteTree(m.value);
    AtSplit(s, colon + 1, v, m.after);
    assert v + m.after == m.valueBefore + (WriteTree(m.value) + m.after);
    AtSplit(s, colon, [COLON], v + m.after);
    AtSplit(s, key.pos, m.between, [COLON] + (v + m.after));
    AtSplit(s, q, WriteString(m.key), m.between + ([COLON] + (v + m.after)));
    AtSplit(s, p, m.before, WriteString(m.key) + (m.between + ([COLON] + (v + m.after))));
  }

  lemma LeadWritten(m: Members)
    requires m.Member?
    ensures var last := if m.rest.NoMembers? then [] else [COMMA] + WriteMembers(m.rest);
            && WriteMembers(m) + [CLOSE_BRACE] == Lead(m) + (last + [CLOSE_BRACE])
            && |WriteMembers(m)| == |Lead(m)| + |last|
  {
    hide WriteTree, WriteString;
    var last := if m.rest.NoMembers? then [] else [COMMA] + WriteMembers(m.rest);
    RegroupMember(m.before, WriteString(m.key), m.between, [COLON], m.valueBefore, WriteTree(m.value), m.after, last);
    assert (Lead(m) + last) + [CLOSE_BRACE] == Lead(m) + (last + [CLOSE_BRACE]);
  }

  lemma RegroupMember(a: bytes, b: bytes, c: bytes, d: bytes, e: bytes, f: bytes, g: bytes, h: bytes)
    ensures a + (b + (c + (d + (e + (f + (g + h)))))) == (a + (b + (c + (d + (e + (f + g)))))) + h
  {
  }

  lemma LastMemberFound(s: bytes, p: nat, depth: nat, n: nat, env: Env, value: Read<Value>, read: map<bytes, Value>,
                        m: Members, separator: nat)
    requires FoundMember(s, p, depth, n, env, value, m, separator) && m.rest.NoMembers?
    requires At(s, separator, [CLOSE_BRACE])
    requires PiecesBytes(m.key) !in read
    ensures FoundMembers(s, p, depth, n, env,
                         Got(Object(read[PiecesBytes(m.key) := value.value]), separator + 1, value.values), read, m)
  {
    hide At, WriteTree, WriteString, WriteMembers, Lead, AllBlank, TreeOk, StringsFit, StringFits, Denote, Depth, Size,
         PiecesOk, PiecesBytes;
    LeadWritten(m);
    assert [] + [CLOSE_BRACE] == [CLOSE_BRACE];
    AtSplit(s, p, Lead(m), [CLOSE_BRACE]);
    MembersCons(m, env, read, value.value);
    var read' := read[PiecesBytes(m.key) := value.value];
    assert read' + DenoteMembers(m.rest, env) == read';
    assert MembersDepth(m.rest) == 0 && MembersSize(m.rest) == 0 && MemberStringsFit(m.rest, env);
  }

  lemma MemberFound(s: bytes, p: nat, depth: nat, n: nat, env: Env, value: Read<Value>, read: map<bytes, Value>,
                    m: Members, separator: nat, r: Read<Value>)
    requires FoundMember(s, p, depth, n, env, value, m, separator) && At(s, separator, [COMMA])
    requires PiecesBytes(m.key) !in read
    requires FoundMembers(s, separator + 1, depth, value.values, env, r, read[PiecesBytes(m.key) := value.value],
                          m.rest)
    ensures FoundMembers(s, p, depth, n, env, r, read, m)
  {
    hide At, WriteTree, WriteString, WriteMembers, Lead, AllBlank, TreeOk, StringsFit, StringFits, Denote, Depth, Size,
         PiecesOk, PiecesBytes;
    LeadWritten(m);
    var last := WriteMembers(m.rest) + [CLOSE_BRACE];
    assert ([COMMA] + WriteMembers(m.rest)) + [CLOSE_BRACE] == [COMMA] + last;
    AtSplit(s, separator, [COMMA], last);
    AtSplit(s, p, Lead(m), [COMMA] + last);
    MembersCons(m, env, read, value.value);
  }

  lemma MembersCons(m: Members, env: Env, read: map<bytes, Value>, value: Value)
    requires m.Member? && PiecesOk(m.key) && MembersOk(m.rest, env) && TreeOk(m.value, env)
    requires value == Denote(m.value, env)
    requires AllBlank(m.before) && AllBlank(m.between) && AllBlank(m.valueBefore) && AllBlank(m.after)
    requires PiecesBytes(m.key) !in read && read[PiecesBytes(m.key) := value].Keys !! Keys(m.rest)
    ensures MembersOk(m, env) && read.Keys !! Keys(m)
    ensures read + DenoteMembers(m, env) == read[PiecesBytes(m.key) := value] + DenoteMembers(m.rest, env)
  {
    hide PiecesOk, PiecesBytes, TreeOk, Denote, AllBlank;
    assert PiecesBytes(m.key) in read[PiecesBytes(m.key) := value].Keys;
  }
}
