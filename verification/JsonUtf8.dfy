/** UTF-8 is preserved by decoding: a valid text denotes only valid strings, so checking them again is redundant. */
module JsonUtf8 {
  import opened Results
  import opened Ascii
  import opened Bytes
  import opened Decimals
  import opened Utf8
  import opened JsonGrammar
  import opened JsonReader
  import opened JsonComplete

  // ---------------------------------------------------------------- strings

  lemma {:induction false} AsciiRun(st: Scan, a: bytes)
    requires a != [] && (forall i :: 0 <= i < |a| ==> a[i] <= 0x7F) && Run(st, a) != Bad
    ensures st == Ready && Run(st, a) == Ready
    decreases |a|
  {
    BadStays(a[1..]);
    if |a| > 1 {
      AsciiRun(Next(st, a[0]), a[1..]);
    }
  }

  lemma HexAscii(digits: bytes)
    requires IsHex4(digits)
    ensures forall i :: 0 <= i < |digits| ==> digits[i] <= 0x7F
  {
  }

  /** An escape is ASCII, so it can only stand between characters; what it denotes is whole characters. */
  lemma PieceRuns(st: Scan, piece: Piece)
    requires PieceOk(piece) && Run(st, WritePiece(piece)) != Bad
    ensures Run(st, PieceBytes(piece)) == Run(st, WritePiece(piece))
  {
    hide Run, Encode, Hex4, SurrogatePair;
    match piece {
      case Raw(b) =>
      case Short(letter) =>
        AsciiRun(st, WritePiece(piece));
        assert PieceBytes(piece) == Encode(Unescape(letter).value) by {
          EncodeAscii(Unescape(letter).value);
        }
        EncodeValid(Unescape(letter).value);
      case Unit(digits) =>
        HexAscii(digits);
        AsciiRun(st, WritePiece(piece));
        EncodeValid(Hex4(digits));
      case Pair(high, low) =>
        HexAscii(high);
        HexAscii(low);
        AsciiRun(st, WritePiece(piece));
        EncodeValid(SurrogatePair(Hex4(high), Hex4(low)));
    }
  }

  /** Decoding a string leaves the UTF-8 scanner where reading its source does. */
  lemma {:induction false} PiecesRun(st: Scan, pieces: seq<Piece>)
    requires PiecesOk(pieces) && Run(st, WritePieces(pieces)) != Bad
    ensures Run(st, PiecesBytes(pieces)) == Run(st, WritePieces(pieces))
    decreases |pieces|
  {
    hide Run, WritePiece, PieceBytes;
    if pieces != [] {
      var w, more := WritePieces(pieces[1..]), PiecesBytes(pieces[1..]);
      RunConcat(st, WritePiece(pieces[0]), w);
      BadStays(w);
      PieceRuns(st, pieces[0]);
      RunConcat(st, PieceBytes(pieces[0]), more);
      PiecesRun(Run(st, WritePiece(pieces[0])), pieces[1..]);
    }
  }

  predicate AsciiFirst(s: bytes) {
    s == [] || s[0] <= 0x7F
  }

  /** A valid string may be cut wherever the second part starts with ASCII. */
  lemma Cut(a: bytes, b: bytes)
    requires Valid(a + b) && AsciiFirst(b)
    ensures Valid(a) && Valid(b)
  {
    if b == [] {
      assert a + b == a;
    } else {
      assert a + b == a + [b[0]] + b[1..];
      AsciiCut(Ready, a, b[0], b[1..]);
      RunConcat(Ready, a, b);
    }
  }

  lemma StringValid(pieces: seq<Piece>)
    requires PiecesOk(pieces) && Valid(WriteString(pieces))
    ensures StringUtf8(pieces)
  {
    var w := WritePieces(pieces);
    assert WriteString(pieces) == [QUOTE] + (w + [QUOTE]);
    RunConcat(Ready, [QUOTE], w + [QUOTE]);
    assert Run(Ready, [QUOTE]) == Ready by {
      assert [QUOTE][1..] == [];
    }
    Cut(w, [QUOTE]);
    PiecesRun(Ready, pieces);
  }

  // ---------------------------------------------------------------- whole texts

  lemma BlankAscii(blank: bytes, tail: bytes)
    requires AllBlank(blank) && AsciiFirst(tail)
    ensures AsciiFirst(blank + tail)
  {
    if blank != [] {
      assert IsBlank(blank[0]);
    }
  }

  /** In a text that is valid UTF-8 every string and key denotes valid UTF-8. */
  lemma TreeValid(t: Tree, env: Env)
    requires TreeOk(t, env) && Valid(WriteTree(t))
    ensures AllUtf8(t)
    decreases t
  {
    hide Valid, WriteItems, WriteMembers, PiecesOk, WriteString, WriteLexeme, LexemeOk, NumberInRange, ItemsOk,
         MembersOk, ItemsUtf8, MembersUtf8, AllBlank;
    match t {
      case StringTree(pieces) =>
        StringValid(pieces);
      case ArrayTree(blank, items) =>
        InnerValid(OPEN_BRACKET, blank, WriteItems(items), CLOSE_BRACKET);
        ItemsValid(items, env);
      case ObjectTree(blank, members) =>
        InnerValid(OPEN_BRACE, blank, WriteMembers(members), CLOSE_BRACE);
        MembersValid(members, env);
      case _ =>
    }
  }

  lemma InnerValid(open: byte, blank: bytes, inner: bytes, close: byte)
    requires open <= 0x7F && close <= 0x7F && AllBlank(blank) && Valid([open] + (blank + (inner + [close])))
    ensures Valid(inner)
  {
    AfterAscii([open], blank + (inner + [close]));
    AfterAscii(blank, inner + [close]);
    Cut(inner, [close]);
  }

  /** What follows a run of ASCII in a valid string is valid. */
  lemma {:induction false} AfterAscii(a: bytes, b: bytes)
    requires Valid(a + b) && (forall i :: 0 <= i < |a| ==> a[i] <= 0x7F)
    ensures Valid(b)
    decreases |a|
  {
    if a == [] {
      assert a + b == b;
    } else {
      assert (a + b)[1..] == a[1..] + b;
      AfterAscii(a[1..], b);
    }
  }

  lemma ItemsValid(items: Items, env: Env)
    requires ItemsOk(items, env) && Valid(WriteItems(items))
    ensures ItemsUtf8(items)
    decreases items
  {
    hide Valid, WriteTree, TreeOk, AllUtf8;
    match items {
      case NoItems =>
      case Item(before, value, after, rest) =>
        var last := if rest.NoItems? then [] else [COMMA] + WriteItems(rest);
        AfterAscii(before, WriteTree(value) + (after + last));
        BlankAscii(after, last);
        Cut(WriteTree(value), after + last);
        TreeValid(value, env);
        if !rest.NoItems? {
          AfterAscii(after, last);
          AfterAscii([COMMA], WriteItems(rest));
          ItemsValid(rest, env);
        }
    }
  }

  lemma MembersValid(members: Members, env: Env)
    requires MembersOk(members, env) && Valid(WriteMembers(members))
    ensures MembersUtf8(members)
    decreases members
  {
    hide Valid, WriteTree, TreeOk, AllUtf8, WriteString, PiecesOk, PiecesBytes;
    match members {
      case NoMembers =>
      case Member(before, key, between, valueBefore, value, after, rest) =>
        var last := if rest.NoMembers? then [] else [COMMA] + WriteMembers(rest);
        var fromValue := WriteTree(value) + (after + last);
        AfterAscii(before, WriteString(key) + (between + ([COLON] + (valueBefore + fromValue))));
        BlankAscii(between, [COLON] + (valueBefore + fromValue));
        Cut(WriteString(key), between + ([COLON] + (valueBefore + fromValue)));
        StringValid(key);
        AfterAscii(between, [COLON] + (valueBefore + fromValue));
        AfterAscii([COLON], valueBefore + fromValue);
        AfterAscii(valueBefore, fromValue);
        BlankAscii(after, last);
        Cut(WriteTree(value), after + last);
        TreeValid(value, env);
        if !rest.NoMembers? {
          AfterAscii(after, last);
          AfterAscii([COMMA], WriteMembers(rest));
          MembersValid(rest, env);
        }
    }
  }
}
