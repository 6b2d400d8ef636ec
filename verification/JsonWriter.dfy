/** The string writer of the transport, and its round trip through the reader. */
module JsonWriter {
  import opened Results
  import opened Ascii
  import opened Bytes
  import opened Decimals
  import opened Utf8
  import opened JsonGrammar
  import opened JsonReader
  import JsonUtf8
  import JsonTheorems

  /** The lower-case hexadecimal digit of a nibble. */
  function HexLetter(nibble: nat): byte
    requires nibble < 16
  {
    if nibble < 10 then 0x30 + nibble else 0x61 + nibble - 10
  }

  /** The letter of the two-character escape the writer uses for an octet, if it uses one. */
  function ShortFor(b: byte): Option<byte> {
    if b == QUOTE || b == BACKSLASH then Some(b)
    else if b == 0x08 then Some(0x62)
    else if b == 0x0C then Some(0x66)
    else if b == 0x0A then Some(0x6E)
    else if b == 0x0D then Some(0x72)
    else if b == 0x09 then Some(0x74)
    else None
  }

  /** How one octet is spelled. */
  function EscapePiece(b: byte): Piece {
    if ShortFor(b).Some? then Short(ShortFor(b).value)
    else if b < 0x20 then Unit([0x30, 0x30, HexLetter(b / 16), HexLetter(b % 16)])
    else Raw(b)
  }

  function EscapePieces(s: bytes): (r: seq<Piece>)
    ensures |r| == |s|
  {
    if s == [] then [] else [EscapePiece(s[0])] + EscapePieces(s[1..])
  }

  /** The writer's text for `s`. */
  function Escaped(s: bytes): bytes {
    WriteString(EscapePieces(s))
  }

  method EscapeJson(value: bytes) returns (result: bytes)
    ensures result == Escaped(value)
    ensures forall env: Env ::
              Parse(result, env) == Ok(Text(value)) <==>
              Valid(value) && |value| <= env.maximumStringBytes && |result| <= env.maximumBytes
                  && env.maximumValues >= 1
  {
    result := [QUOTE];
    for i := 0 to |value|
      invariant result + WritePieces(EscapePieces(value[i..])) == [QUOTE] + WritePieces(EscapePieces(value))
    {
      var c := value[i];
      ghost var before := result;
      if c == QUOTE {
        result := result + [BACKSLASH, QUOTE];
      } else if c == BACKSLASH {
        result := result + [BACKSLASH, BACKSLASH];
      } else if c == 0x08 {
        result := result + [BACKSLASH, 0x62];
      } else if c == 0x0C {
        result := result + [BACKSLASH, 0x66];
      } else if c == 0x0A {
        result := result + [BACKSLASH, 0x6E];
      } else if c == 0x0D {
        result := result + [BACKSLASH, 0x72];
      } else if c == 0x09 {
        result := result + [BACKSLASH, 0x74];
      } else if c < 0x20 {
        result := result + [BACKSLASH, LETTER_U, 0x30, 0x30];
        result := result + [HexLetter(c / 16)];
        result := result + [HexLetter(c % 16)];
      } else {
        result := result + [c];
      }
      assert result == before + WritePiece(EscapePiece(c));
      EscapeStep(before, value, i);
    }
    result := result + [QUOTE];
    forall env: Env
      ensures Parse(Escaped(value), env) == Ok(Text(value)) <==>
              Valid(value) && |value| <= env.maximumStringBytes && |Escaped(value)| <= env.maximumBytes
              && env.maximumValues >= 1
    {
      RoundTrip(value, env);
    }
  }

  /** How the text of one octet reads: the short escapes of section 7, the other control characters as `\\u00` and two
      lower-case hexadecimal digits, and everything else as it is. */
  lemma EscapeOctets(b: byte)
    ensures var text := WritePiece(EscapePiece(b));
            if b == 0x22 then text == [0x5C, 0x22]
            else if b == 0x5C then text == [0x5C, 0x5C]
            else if b == 0x08 then text == [0x5C, 0x62]
            else if b == 0x09 then text == [0x5C, 0x74]
            else if b == 0x0A then text == [0x5C, 0x6E]
            else if b == 0x0C then text == [0x5C, 0x66]
            else if b == 0x0D then text == [0x5C, 0x72]
            else if b < 0x20 then
              text == [0x5C, 0x75, 0x30, 0x30, if b < 0x10 then 0x30 else 0x31,
                       [0x30, 0x31, 0x32, 0x33, 0x34, 0x35, 0x36, 0x37, 0x38, 0x39,
                        0x61, 0x62, 0x63, 0x64, 0x65, 0x66][b % 16]]
            else text == [b]
  {
  }

  lemma EscapeStep(before: bytes, value: bytes, i: nat)
    requires i < |value|
    ensures before + WritePieces(EscapePieces(value[i..]))
            == (before + WritePiece(EscapePiece(value[i]))) + WritePieces(EscapePieces(value[i + 1..]))
  {
    hide WritePiece, EscapePiece;
    var pieces := EscapePieces(value[i..]);
    assert value[i..][1..] == value[i + 1..];
    assert pieces[1..] == EscapePieces(value[i + 1..]);
  }

  // ---------------------------------------------------------------- what the text denotes

  lemma PieceDenotes(b: byte)
    ensures PieceOk(EscapePiece(b)) && PieceBytes(EscapePiece(b)) == [b]
  {
    if EscapePiece(b).Unit? {
      assert Hex4(EscapePiece(b).digits) == b / 16 * 16 + b % 16 == b;
    }
  }

  lemma {:induction false} PiecesDenote(s: bytes)
    ensures PiecesOk(EscapePieces(s)) && PiecesBytes(EscapePieces(s)) == s
  {
    hide EscapePiece, PieceOk, PieceBytes;
    if s != [] {
      PieceDenotes(s[0]);
      PiecesDenote(s[1..]);
      assert EscapePieces(s)[1..] == EscapePieces(s[1..]);
      assert s == [s[0]] + s[1..];
    }
  }

  /** Escaping an octet keeps the UTF-8 scanner's state. */
  lemma PieceRuns(st: Scan, b: byte)
    requires Run(st, [b]) != Bad
    ensures Run(st, WritePiece(EscapePiece(b))) == Run(st, [b])
  {
    if !EscapePiece(b).Raw? {
      JsonUtf8.AsciiRun(st, [b]);
      AsciiStays(WritePiece(EscapePiece(b)));
    }
  }

  lemma {:induction false} AsciiStays(a: bytes)
    requires forall i :: 0 <= i < |a| ==> a[i] <= 0x7F
    ensures Run(Ready, a) == Ready
  {
    if a != [] {
      AsciiStays(a[1..]);
    }
  }

  lemma {:induction false} EscapeRuns(st: Scan, s: bytes)
    requires Run(st, s) != Bad
    ensures Run(st, WritePieces(EscapePieces(s))) == Run(st, s)
    decreases |s|
  {
    hide Next, EscapePiece, WritePiece;
    if s != [] {
      assert s == [s[0]] + s[1..];
      RunConcat(st, [s[0]], s[1..]);
      BadStays(s[1..]);
      PieceRuns(st, s[0]);
      assert EscapePieces(s)[1..] == EscapePieces(s[1..]);
      RunConcat(st, WritePiece(EscapePiece(s[0])), WritePieces(EscapePieces(s[1..])));
      EscapeRuns(Run(st, [s[0]]), s[1..]);
    }
  }

  /** The text of a valid string is valid. */
  lemma EscapedValid(s: bytes)
    requires Valid(s)
    ensures Valid(Escaped(s))
  {
    hide Run;
    var w := WritePieces(EscapePieces(s));
    EscapeRuns(Ready, s);
    AsciiStays([QUOTE]);
    ValidConcat([QUOTE], w);
    ValidConcat([QUOTE] + w, [QUOTE]);
  }

  lemma EscapedTree(s: bytes, env: Env)
    ensures var t := StringTree(EscapePieces(s));
            && WriteTree(t) == Escaped(s) && TreeOk(t, env) && Denote(t, env) == Text(s)
            && Depth(t) == 0 && Size(t) == 1
            && (StringsFit(t, env) <==> |s| <= env.maximumStringBytes)
  {
    hide WriteString, EscapePieces, PiecesOk, PiecesBytes;
    PiecesDenote(s);
  }

  lemma EscapedMeans(s: bytes, env: Env)
    requires Valid(s) && |s| <= env.maximumStringBytes && |Escaped(s)| <= env.maximumBytes && env.maximumValues >= 1
    ensures Means(Escaped(s), env, Text(s))
  {
    hide WriteTree, Denote, Valid, Escaped, TreeOk, StringsFit, Depth, Size;
    var t := StringTree(EscapePieces(s));
    EscapedValid(s);
    EscapedTree(s, env);
    assert Escaped(s) == [] + WriteTree(t) + [];
    assert Writes(Escaped(s), env, [], t, []);
  }

  /** A text that denotes a string within limits fits them. */
  lemma TextFits(input: bytes, env: Env, s: bytes)
    requires Means(input, env, Text(s))
    ensures |input| <= env.maximumBytes && |s| <= env.maximumStringBytes && env.maximumValues >= 1
  {
    hide Valid, WriteTree, PiecesBytes;
    var before, t, after := JsonTheorems.MeansTree(input, env, Text(s));
    assert t.StringTree?;
  }

  /** Reading back what the writer wrote yields the same string, exactly when it is UTF-8 and within the limits. */
  lemma RoundTrip(s: bytes, env: Env)
    ensures Parse(Escaped(s), env) == Ok(Text(s)) <==>
            Valid(s) && |s| <= env.maximumStringBytes && |Escaped(s)| <= env.maximumBytes && env.maximumValues >= 1
  {
    hide Parse, Valid, Escaped, Means;
    JsonTheorems.ParseExact(Escaped(s), env, Text(s));
    if Parse(Escaped(s), env) == Ok(Text(s)) {
      TextFits(Escaped(s), env, s);
      JsonTheorems.MeaningUtf8(Escaped(s), env, Text(s));
    }
    if Valid(s) && |s| <= env.maximumStringBytes && |Escaped(s)| <= env.maximumBytes && env.maximumValues >= 1 {
      EscapedMeans(s, env);
    }
  }
}
