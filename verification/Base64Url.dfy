/** The unpadded base64url text of a pairing key (RFC 4648 section 5): the writer, the reader, and their round trips. */
module Base64Url {
  import opened Results
  import opened Bytes

  type digit = d: int | 0 <= d < 64

  const KEY_SIZE: nat := 32
  const TEXT_SIZE: nat := 43

  // ---------------------------------------------------------------- the alphabet

  function Letter(d: digit): byte {
    if d < 26 then 0x41 + d
    else if d < 52 then 0x61 + d - 26
    else if d < 62 then 0x30 + d - 52
    else if d == 62 then 0x2D
    else 0x5F
  }

  function LetterValue(c: byte): Option<digit> {
    if 0x41 <= c <= 0x5A then Some(c - 0x41)
    else if 0x61 <= c <= 0x7A then Some(c - 0x61 + 26)
    else if 0x30 <= c <= 0x39 then Some(c - 0x30 + 52)
    else if c == 0x2D then Some(62)
    else if c == 0x5F then Some(63)
    else None
  }

  /** The alphabet of RFC 4648 section 5, eight letters to a row. */
  const ALPHABET: seq<string> :=
    ["ABCDEFGH", "IJKLMNOP", "QRSTUVWX", "YZabcdef", "ghijklmn", "opqrstuv", "wxyz0123", "456789-_"]

  lemma RowLetters(r: nat, j: nat)
    requires r < 8 && j < 8
    ensures Letter(8 * r + j) as char == ALPHABET[r][j]
  {
    if r == 0 {
    } else if r == 1 {
    } else if r == 2 {
    } else if r == 3 {
    } else if r == 4 {
    } else if r == 5 {
    } else if r == 6 {
    }
  }

  /** A digit is written as the letter of that place in the alphabet, and no other octet is read as it. */
  lemma LetterIsInAlphabet(d: digit, c: byte)
    ensures Letter(d) as char == ALPHABET[d / 8][d % 8]
    ensures LetterValue(c) == Some(d) <==> c as char == ALPHABET[d / 8][d % 8]
  {
    RowLetters(d / 8, d % 8);
    LettersAreInverse(d, c);
    hide Letter, LetterValue;
  }

  lemma LettersAreInverse(d: digit, c: byte)
    ensures LetterValue(Letter(d)) == Some(d)
    ensures LetterValue(c).Some? ==> Letter(LetterValue(c).value) == c
  {
  }

  function Letters(ds: seq<digit>): (r: bytes)
    ensures |r| == |ds| && forall i :: 0 <= i < |ds| ==> r[i] == Letter(ds[i])
  {
    seq(|ds|, i requires 0 <= i < |ds| => Letter(ds[i]))
  }

  predicate InAlphabet(text: bytes) {
    forall i :: 0 <= i < |text| ==> LetterValue(text[i]).Some?
  }

  function DigitsOf(text: bytes): (ds: seq<digit>)
    requires InAlphabet(text)
    ensures |ds| == |text| && forall i :: 0 <= i < |text| ==> ds[i] == LetterValue(text[i]).value
  {
    seq(|text|, i requires 0 <= i < |text| => LetterValue(text[i]).value)
  }

  lemma LettersOfDigits(text: bytes, ds: seq<digit>)
    ensures InAlphabet(text) ==> Letters(DigitsOf(text)) == text
    ensures InAlphabet(Letters(ds)) && DigitsOf(Letters(ds)) == ds
  {
    forall i | 0 <= i < |text| && InAlphabet(text) ensures Letter(LetterValue(text[i]).value) == text[i] {
      LettersAreInverse(0, text[i]);
    }
    forall i | 0 <= i < |ds| ensures LetterValue(Letter(ds[i])) == Some(ds[i]) {
      LettersAreInverse(ds[i], 0);
    }
  }

  // ---------------------------------------------------------------- the standard's grouping (section 4)

  /** Three octets make four digits; one or two left over make two or three, filled up with zero bits. */
  function ToDigits(s: bytes): (r: seq<digit>)
    ensures |r| == (8 * |s| + 5) / 6
  {
    if |s| >= 3 then
      [s[0] / 4, s[0] % 4 * 16 + s[1] / 16, s[1] % 16 * 4 + s[2] / 64, s[2] % 64] + ToDigits(s[3..])
    else if |s| == 2 then [s[0] / 4, s[0] % 4 * 16 + s[1] / 16, s[1] % 16 * 4]
    else if |s| == 1 then [s[0] / 4, s[0] % 4 * 16]
    else []
  }

  function ThreeOctets(x: digit, y: digit, z: digit, w: digit): (r: bytes)
    ensures |r| == 3
  {
    var first: byte := x * 4 + y / 16;
    var second: byte := y % 16 * 16 + z / 4;
    var third: byte := z % 4 * 64 + w;
    [first, second, third]
  }

  /** Three octets and their four digits are the same 24-bit number, most significant first. */
  lemma GroupIsNumber(x: digit, y: digit, z: digit, w: digit)
    ensures var o := ThreeOctets(x, y, z, w);
            (o[0] as int * 256 + o[1] as int) * 256 + o[2] as int
            == ((x as int * 64 + y as int) * 64 + z as int) * 64 + w as int
  {
  }

  /** Four digits make three octets; what is left over makes as many whole octets as it can. */
  function ToOctets(d: seq<digit>): (r: bytes)
    ensures |r| == 6 * |d| / 8
  {
    if |d| >= 4 then ThreeOctets(d[0], d[1], d[2], d[3]) + ToOctets(d[4..])
    else if |d| == 3 then ThreeOctets(d[0], d[1], d[2], 0)[..2]
    else if |d| == 2 then ThreeOctets(d[0], d[1], 0, 0)[..1]
    else []
  }

  lemma {:induction false} OctetsOfDigits(s: bytes)
    ensures ToOctets(ToDigits(s)) == s
  {
    if |s| >= 3 {
      OctetsOfDigits(s[3..]);
      var d := ToDigits(s);
      assert d[4..] == ToDigits(s[3..]);
      GroupOfOctets(s[0], s[1], s[2]);
      assert s == [s[0], s[1], s[2]] + s[3..];
    } else if |s| == 2 {
      GroupOfOctets(s[0], s[1], 0);
      assert s == [s[0], s[1]];
    } else if |s| == 1 {
      GroupOfOctets(s[0], 0, 0);
      assert s == [s[0]];
    }
  }

  lemma GroupOfOctets(a: byte, b: byte, c: byte)
    ensures a / 4 * 4 + (a % 4 * 16 + b / 16) / 16 == a
    ensures (a % 4 * 16 + b / 16) % 16 * 16 + (b % 16 * 4 + c / 64) / 4 == b
    ensures (b % 16 * 4 + c / 64) % 4 * 64 + c % 64 == c
  {
    assert (a % 4 * 16 + b / 16) / 16 == a % 4 && (a % 4 * 16 + b / 16) % 16 == b / 16;
    assert (b % 16 * 4 + c / 64) / 4 == b % 16 && (b % 16 * 4 + c / 64) % 4 == c / 64;
  }

  lemma GroupOfDigits(x: digit, y: digit, z: digit, w: digit)
    ensures (x * 4 + y / 16) / 4 == x
    ensures (x * 4 + y / 16) % 4 * 16 + (y % 16 * 16 + z / 4) / 16 == y
    ensures (y % 16 * 16 + z / 4) % 16 * 4 + (z % 4 * 64 + w) / 64 == z
    ensures (z % 4 * 64 + w) % 64 == w
    ensures (y % 16 * 16 + z / 4) % 16 * 4 == z - z % 4
  {
    assert (x * 4 + y / 16) % 4 == y / 16;
    assert (y % 16 * 16 + z / 4) / 16 == y % 16 && (y % 16 * 16 + z / 4) % 16 == z / 4;
    assert (z % 4 * 64 + w) / 64 == z % 4;
  }

  /** Three digits too many lose exactly the low two bits of the last. */
  lemma {:induction false} DigitsOfOctets(d: seq<digit>)
    requires |d| % 4 == 3
    ensures ToDigits(ToOctets(d)) == d[..|d| - 1] + [d[|d| - 1] - d[|d| - 1] % 4]
    decreases |d|
  {
    if |d| == 3 {
      DigitsOfTwo(d);
    } else {
      hide *;
      var o, rest := ThreeOctets(d[0], d[1], d[2], d[3]), d[4..];
      DigitsOfOctets(rest);
      OctetsOfMore(d);
      OctetsBack(d[0], d[1], d[2], d[3]);
      FourDigits(o, ToOctets(rest));
      LastOf(d, rest);
    }
  }

  lemma OctetsOfMore(d: seq<digit>)
    requires |d| >= 4
    ensures ToOctets(d) == ThreeOctets(d[0], d[1], d[2], d[3]) + ToOctets(d[4..])
  {
    hide ThreeOctets;
  }

  lemma LastOf(d: seq<digit>, rest: seq<digit>)
    requires |d| > 4 && rest == d[4..]
    ensures var last := |d| - 1;
            [d[0], d[1], d[2], d[3]] + (rest[..|rest| - 1] + [rest[|rest| - 1] - rest[|rest| - 1] % 4])
            == d[..last] + [d[last] - d[last] % 4]
  {
    assert d[..|d| - 1] == [d[0], d[1], d[2], d[3]] + rest[..|rest| - 1];
  }

  lemma DigitsOfTwo(d: seq<digit>)
    requires |d| == 3
    ensures ToDigits(ToOctets(d)) == d[..2] + [d[2] - d[2] % 4]
  {
    hide *;
    OctetsOfThree(d);
    var e: digit := d[2] - d[2] % 4;
    OctetsBack(d[0], d[1], d[2], 0);
    DigitsAre(ThreeOctets(d[0], d[1], d[2], 0), d[0], d[1], e);
    assert d[..2] + [e] == [d[0], d[1], e];
  }

  lemma OctetsOfThree(d: seq<digit>)
    requires |d| == 3
    ensures var o := ThreeOctets(d[0], d[1], d[2], 0); ToOctets(d) == [o[0], o[1]]
  {
    hide ThreeOctets;
  }

  lemma DigitsAre(o: bytes, x: digit, y: digit, e: digit)
    requires |o| == 3 && o[0] / 4 == x && o[0] % 4 * 16 + o[1] / 16 == y && o[1] % 16 * 4 == e
    ensures ToDigits([o[0], o[1]]) == [x, y, e]
  {
    TwoOctets(o[0], o[1]);
    hide ToDigits;
  }

  /** Grouping three octets again gives the four digits they came from. */
  lemma OctetsBack(x: digit, y: digit, z: digit, w: digit)
    ensures var o := ThreeOctets(x, y, z, w);
            && o[0] / 4 == x && o[0] % 4 * 16 + o[1] / 16 == y && o[1] % 16 * 4 + o[2] / 64 == z && o[2] % 64 == w
            && o[1] % 16 * 4 == z - z % 4
  {
    GroupOfDigits(x, y, z, w);
  }

  lemma TwoOctets(a: byte, b: byte)
    ensures ToDigits([a, b]) == [a / 4, a % 4 * 16 + b / 16, b % 16 * 4]
  {
  }

  lemma FourDigits(o: bytes, rest: bytes)
    requires |o| == 3
    ensures ToDigits(o + rest)
            == [o[0] / 4, o[0] % 4 * 16 + o[1] / 16, o[1] % 16 * 4 + o[2] / 64, o[2] % 64] + ToDigits(rest)
  {
    assert (o + rest)[3..] == rest;
  }

  // ---------------------------------------------------------------- writing

  /** The digits still to come when `bits` bits of value `carry` are waiting and `s` is still to be read. */
  function Pending(bits: nat, carry: nat, s: bytes): (r: seq<digit>)
    requires (bits == 0 && carry == 0) || (bits == 2 && carry < 4) || (bits == 4 && carry < 16)
    decreases |s|
  {
    if s == [] then
      if bits == 0 then [] else if bits == 2 then [carry * 16] else [carry * 4]
    else if bits == 0 then [s[0] / 4] + Pending(2, s[0] % 4, s[1..])
    else if bits == 2 then [carry * 16 + s[0] / 16] + Pending(4, s[0] % 16, s[1..])
    else [carry * 4 + s[0] / 64, s[0] % 64] + Pending(0, 0, s[1..])
  }

  lemma {:induction false} PendingIsGrouping(s: bytes)
    ensures Pending(0, 0, s) == ToDigits(s)
    decreases |s|
  {
    if |s| >= 3 {
      var x, y, z, w := PendingThree(s);
      hide Pending, ToDigits;
      PendingIsGrouping(s[3..]);
      DigitsThree(s, x, y, z, w);
    } else if |s| == 2 {
      assert s[1..][1..] == [];
      assert Pending(4, s[1] % 16, []) == [s[1] % 16 * 4];
      assert Pending(2, s[0] % 4, s[1..]) == [s[0] % 4 * 16 + s[1] / 16] + Pending(4, s[1] % 16, []);
    } else if |s| == 1 {
      assert s[1..] == [];
    }
  }

  lemma DigitsThree(s: bytes, x: digit, y: digit, z: digit, w: digit)
    requires |s| >= 3
    requires x == s[0] / 4 && y == s[0] % 4 * 16 + s[1] / 16 && z == s[1] % 16 * 4 + s[2] / 64 && w == s[2] % 64
    ensures ToDigits(s) == [x, y, z, w] + ToDigits(s[3..])
  {
  }

  lemma PendingThree(s: bytes) returns (x: digit, y: digit, z: digit, w: digit)
    requires |s| >= 3
    ensures x == s[0] / 4 && y == s[0] % 4 * 16 + s[1] / 16 && z == s[1] % 16 * 4 + s[2] / 64 && w == s[2] % 64
    ensures Pending(0, 0, s) == [x, y, z, w] + Pending(0, 0, s[3..])
  {
    x, y, z, w := s[0] / 4, s[0] % 4 * 16 + s[1] / 16, s[1] % 16 * 4 + s[2] / 64, s[2] % 64;
    var carry1, carry2, a, b, c, rest := s[0] % 4, s[1] % 16, s[0], s[1], s[2], s[3..];
    assert s == [a] + ([b] + ([c] + rest));
    hide Pending;
    PendingFirst(a, [b] + ([c] + rest), x, carry1);
    PendingSecond(carry1, b, [c] + rest, y, carry2);
    PendingThird(carry2, c, rest, z, w);
    hide *;
    Prepend(x, y, z, w, Pending(0, 0, rest));
  }

  lemma Prepend(x: digit, y: digit, z: digit, w: digit, rest: seq<digit>)
    ensures [x] + ([y] + ([z, w] + rest)) == [x, y, z, w] + rest
  {
  }

  lemma PendingFirst(a: byte, rest: bytes, x: digit, carry: nat)
    requires x == a / 4 && carry == a % 4
    ensures Pending(0, 0, [a] + rest) == [x] + Pending(2, carry, rest)
  {
    assert ([a] + rest)[1..] == rest;
  }

  lemma PendingSecond(before: nat, b: byte, rest: bytes, y: digit, carry: nat)
    requires before < 4 && y == before * 16 + b / 16 && carry == b % 16
    ensures Pending(2, before, [b] + rest) == [y] + Pending(4, carry, rest)
  {
    assert ([b] + rest)[1..] == rest;
  }

  lemma PendingThird(before: nat, c: byte, rest: bytes, z: digit, w: digit)
    requires before < 16 && z == before * 4 + c / 64 && w == c % 64
    ensures Pending(4, before, [c] + rest) == [z, w] + Pending(0, 0, rest)
  {
    assert ([c] + rest)[1..] == rest;
  }

  const WORD: nat := 0x1_0000_0000

  /**
    `x` shifted left by eight bits in 32 bits, with an octet in the bits freed: the low twelve bits are the ones
    shifted in, whatever has been lost at the top.
   */
  lemma ShiftIn8(x: nat, b: byte)
    ensures (x * 256 % WORD + b) % 4096 == x % 16 * 256 + b
    ensures x * 256 % WORD + b < WORD
  {
    var top, a := x / 0x100_0000, x % 0x100_0000;
    var h, l := a / 16, a % 16;
    assert x == 0x100_0000 * top + a && a == 16 * h + l;
    ByWord(x * 256, top, 256 * a);
    By16(x, 0x10_0000 * top + h, l);
    By4096(256 * a + b, h, l * 256 + b);
  }

  lemma ShiftIn6(x: nat, d: digit)
    ensures (x * 64 % WORD + d) % 4096 == x % 64 * 64 + d
    ensures x * 64 % WORD + d < WORD
  {
    var top, a := x / 0x400_0000, x % 0x400_0000;
    var h, l := a / 64, a % 64;
    assert x == 0x400_0000 * top + a && a == 64 * h + l;
    ByWord(x * 64, top, 64 * a);
    By64(x, 0x10_0000 * top + h, l);
    By4096(64 * a + d, h, l * 64 + d);
  }

  /** The digits and the rest of a word whose low twelve bits are `c` and an octet. */
  lemma SplitWord8(x: nat, c: nat, b: byte)
    requires c < 16 && x % 4096 == c * 256 + b
    ensures x / 4 % 64 == b / 4 && x % 4 == b % 4
    ensures x / 16 % 64 == c % 4 * 16 + b / 16 && x % 16 == b % 16
    ensures x / 64 % 64 == c * 4 + b / 64 && x % 64 == b % 64
  {
    var q := x / 4096;
    assert x == 4096 * q + c * 256 + b;
    Digit4(x, q, c, b);
    Digit16(x, q, c, b);
    Digit64(x, q, c, b);
  }

  lemma Digit4(x: nat, q: nat, c: nat, b: byte)
    requires c < 16 && x == 4096 * q + c * 256 + b
    ensures x / 4 % 64 == b / 4 && x % 4 == b % 4
  {
    assert x / 4 == 64 * (16 * q + c) + b / 4;
  }

  lemma Digit16(x: nat, q: nat, c: nat, b: byte)
    requires c < 16 && x == 4096 * q + c * 256 + b
    ensures x / 16 % 64 == c % 4 * 16 + b / 16 && x % 16 == b % 16
  {
    var h, l := c / 4, c % 4;
    assert c == 4 * h + l && b == 16 * (b / 16) + b % 16;
    assert x == 16 * (64 * (4 * q + h) + (l * 16 + b / 16)) + b % 16;
    By16(x, 64 * (4 * q + h) + (l * 16 + b / 16), b % 16);
    By64(x / 16, 4 * q + h, l * 16 + b / 16);
  }

  lemma Digit64(x: nat, q: nat, c: nat, b: byte)
    requires c < 16 && x == 4096 * q + c * 256 + b
    ensures x / 64 % 64 == c * 4 + b / 64 && x % 64 == b % 64
  {
    assert x / 64 == 64 * q + (c * 4 + b / 64);
  }

  /** The octets and the rest of a word whose low twelve bits are `c` and a digit. */
  lemma SplitWord6(x: nat, c: nat, d: digit)
    requires c < 64 && x % 4096 == c * 64 + d
    ensures x / 16 % 256 == c * 4 + d / 16 && x % 16 == d % 16
    ensures x / 4 % 256 == c % 16 * 16 + d / 4 && x % 4 == d % 4
    ensures x % 256 == c % 4 * 64 + d && x % 64 == d
  {
    var q := x / 4096;
    assert x == 4096 * q + c * 64 + d;
    SplitBy16(x, q, c, d);
    SplitBy4(x, q, c, d);
    SplitBy1(x, q, c, d);
  }

  lemma SplitBy16(x: nat, q: nat, c: nat, d: digit)
    requires c < 64 && x == 4096 * q + c * 64 + d
    ensures x / 16 % 256 == c * 4 + d / 16 && x % 16 == d % 16
  {
    var h, l := d / 16, d % 16;
    assert x == 16 * (256 * q + (c * 4 + h)) + l;
    By16(x, 256 * q + (c * 4 + h), l);
    By256(x / 16, q, c * 4 + h);
  }

  lemma SplitBy4(x: nat, q: nat, c: nat, d: digit)
    requires c < 64 && x == 4096 * q + c * 64 + d
    ensures x / 4 % 256 == c % 16 * 16 + d / 4 && x % 4 == d % 4
  {
    var h, l := c / 16, c % 16;
    assert c == 16 * h + l && d == 4 * (d / 4) + d % 4;
    assert x == 4 * (256 * (4 * q + h) + (l * 16 + d / 4)) + d % 4;
    By4(x, 256 * (4 * q + h) + (l * 16 + d / 4), d % 4);
    By256(x / 4, 4 * q + h, l * 16 + d / 4);
  }

  lemma SplitBy1(x: nat, q: nat, c: nat, d: digit)
    requires c < 64 && x == 4096 * q + c * 64 + d
    ensures x % 256 == c % 4 * 64 + d && x % 64 == d
  {
    var h, l := c / 4, c % 4;
    assert c == 4 * h + l;
    By256(x, 16 * q + h, l * 64 + d);
    By64(x, 64 * q + c, d);
  }

  lemma By4(x: nat, q: nat, r: nat)
    requires x == 4 * q + r && r < 4
    ensures x / 4 == q && x % 4 == r
  {
  }

  lemma By16(x: nat, q: nat, r: nat)
    requires x == 16 * q + r && r < 16
    ensures x / 16 == q && x % 16 == r
  {
  }

  lemma By64(x: nat, q: nat, r: nat)
    requires x == 64 * q + r && r < 64
    ensures x / 64 == q && x % 64 == r
  {
  }

  lemma By256(x: nat, q: nat, r: nat)
    requires x == 256 * q + r && r < 256
    ensures x / 256 == q && x % 256 == r
  {
  }

  lemma By4096(x: nat, q: nat, r: nat)
    requires x == 4096 * q + r && r < 4096
    ensures x / 4096 == q && x % 4096 == r
  {
  }

  lemma ByWord(x: nat, q: nat, r: nat)
    requires x == WORD * q + r && r < WORD
    ensures x / WORD == q && x % WORD == r
  {
  }

  function Power2(bits: nat): (p: nat)
    requires bits <= 6
    ensures p == [1, 2, 4, 8, 16, 32, 64][bits]
  {
    if bits == 0 then 1 else 2 * Power2(bits - 1)
  }

  /** The digits to come when the low `bits` bits of the accumulator are waiting. */
  function Waiting(bits: nat, x: nat, s: bytes): seq<digit>
    requires bits in {0, 2, 4, 6, 8, 10, 12}
    decreases bits
  {
    if bits >= 6 then [x / Power2(bits - 6) % 64] + Waiting(bits - 6, x, s)
    else Pending(bits, x % Power2(bits), s)
  }

  lemma WaitingFew(x: nat, s: bytes)
    ensures Waiting(0, x, s) == Pending(0, 0, s)
    ensures Waiting(2, x, s) == Pending(2, x % 4, s)
    ensures Waiting(4, x, s) == Pending(4, x % 16, s)
  {
    hide Pending;
  }

  lemma WaitingMany(x: nat, s: bytes)
    ensures Waiting(8, x, s) == [x / 4 % 64] + Waiting(2, x, s)
    ensures Waiting(10, x, s) == [x / 16 % 64] + Waiting(4, x, s)
    ensures Waiting(12, x, s) == [x / 64 % 64, x % 64] + Waiting(0, x, s)
  {
    hide Pending;
    assert Waiting(6, x, s) == [x / 1 % 64] + Waiting(0, x, s);
  }

  lemma PendingUnfold(c: nat, s: bytes)
    requires s != []
    ensures Pending(0, 0, s) == [s[0] / 4] + Pending(2, s[0] % 4, s[1..])
    ensures c < 4 ==> Pending(2, c, s) == [c * 16 + s[0] / 16] + Pending(4, s[0] % 16, s[1..])
    ensures c < 16 ==> Pending(4, c, s) == [c * 4 + s[0] / 64, s[0] % 64] + Pending(0, 0, s[1..])
  {
  }

  lemma WaitingIsPending(bits: nat, x: nat, s: bytes, y: nat)
    requires bits in {0, 2, 4} && s != [] && y % 4096 == x % 16 * 256 + s[0]
    ensures Waiting(bits + 8, y, s[1..]) == Waiting(bits, x, s)
  {
    hide *;
    SplitWord8(y, x % 16, s[0]);
    LowBits(x);
    WaitingFew(x, s);
    WaitingFew(y, s[1..]);
    WaitingMany(y, s[1..]);
    if bits == 4 {
      PendingUnfold(x % 16, s);
    } else {
      PendingUnfold(x % 4, s);
    }
  }

  lemma LettersCons(encoded: bytes, d: digit, ds: seq<digit>)
    ensures encoded + Letters([d] + ds) == encoded + [Letter(d)] + Letters(ds)
  {
  }

  method AuthorizationToken(secret: bytes) returns (encoded: bytes)
    ensures encoded == Letters(ToDigits(secret))
  {
    hide Letters, Power2;
    encoded := [];
    var accumulator: nat, bits: nat := 0, 0;
    PendingIsGrouping(secret);
    ghost var whole := Letters(ToDigits(secret));
    for i := 0 to |secret|
      invariant bits in {0, 2, 4} && accumulator < WORD
      invariant encoded + Letters(Waiting(bits, accumulator, secret[i..])) == whole
    {
      ghost var x := accumulator;
      accumulator := accumulator * 256 % WORD + secret[i];
      ShiftIn8(x, secret[i]);
      assert secret[i..][1..] == secret[i + 1..];
      WaitingIsPending(bits, x, secret[i..], accumulator);
      bits := bits + 8;
      while bits >= 6
        invariant bits in {0, 2, 4, 6, 8, 10, 12}
        invariant encoded + Letters(Waiting(bits, accumulator, secret[i + 1..])) == whole
        decreases bits
      {
        bits := bits - 6;
        var d: digit := accumulator / Power2(bits) % 64;
        LettersCons(encoded, d, Waiting(bits, accumulator, secret[i + 1..]));
        encoded := encoded + [Letter(d)];
      }
    }
    LastDigit(bits, accumulator);
    assert secret[|secret|..] == [];
    if bits != 0 {
      encoded := encoded + [Letter(accumulator * Power2(6 - bits) % WORD % 64)];
    }
  }

  lemma LastDigit(bits: nat, x: nat)
    requires bits in {0, 2, 4}
    ensures Letters(Waiting(bits, x, []))
            == if bits == 0 then [] else [Letter(x * Power2(6 - bits) % WORD % 64)]
  {
    WaitingFew(x, []);
    LowDigit16(x);
    LowDigit4(x);
    hide Waiting, Letter;
  }

  lemma LowDigit16(x: nat)
    ensures x * 16 % WORD % 64 == x % 4 * 16
  {
    var top, a := x / 0x1000_0000, x % 0x1000_0000;
    assert x == 0x1000_0000 * top + a && a == 4 * (a / 4) + a % 4;
    ByWord(x * 16, top, 16 * a);
    By64(16 * a, a / 4, a % 4 * 16);
    By4(x, 0x400_0000 * top + a / 4, a % 4);
  }

  lemma LowDigit4(x: nat)
    ensures x * 4 % WORD % 64 == x % 16 * 4
  {
    var top, a := x / 0x4000_0000, x % 0x4000_0000;
    assert x == 0x4000_0000 * top + a && a == 16 * (a / 16) + a % 16;
    ByWord(x * 4, top, 4 * a);
    By64(4 * a, a / 16, a % 16 * 4);
    By16(x, 0x400_0000 * top + a / 16, a % 16);
  }

  // ---------------------------------------------------------------- reading

  datatype KeyError = BadLength | BadCharacter | TooLong | NotThirtyTwoOctets

  datatype Decoded = Key(key: bytes) | Bad(error: KeyError)

  predicate Fits(bits: nat, carry: nat) {
    (bits == 0 && carry == 0) || (bits == 2 && carry < 4) || (bits == 4 && carry < 16) || (bits == 6 && carry < 64)
  }

  /** The octet made of six, four or two waiting bits and the top of a digit. */
  function Join6(carry: nat, d: digit): byte
    requires carry < 64
  {
    carry * 4 + d / 16
  }

  function Join4(carry: nat, d: digit): byte
    requires carry < 16
  {
    carry * 16 + d / 4
  }

  function Join2(carry: nat, d: digit): byte
    requires carry < 4
  {
    carry * 64 + d
  }

  /** What reading the rest of a text comes to when the low `bits` bits of `carry` are waiting and `read` is done. */
  function Rest(bits: nat, carry: nat, text: bytes, read: bytes): Decoded
    requires Fits(bits, carry)
    decreases |text|
  {
    if text == [] then if |read| == KEY_SIZE then Key(read) else Bad(NotThirtyTwoOctets)
    else if LetterValue(text[0]).None? then Bad(BadCharacter)
    else
      var d := LetterValue(text[0]).value;
      if bits == 0 then Rest(6, d, text[1..], read)
      else if |read| >= KEY_SIZE then Bad(TooLong)
      else if bits == 6 then Rest(4, d % 16, text[1..], read + [Join6(carry, d)])
      else if bits == 4 then Rest(2, d % 4, text[1..], read + [Join4(carry, d)])
      else Rest(0, 0, text[1..], read + [Join2(carry, d)])
  }

  function Decode(encoded: bytes): Decoded {
    if |encoded| != TEXT_SIZE then Bad(BadLength) else Rest(0, 0, encoded, [])
  }

  /** The reader's loop, as the source writes it, computes `Rest` although its accumulator wraps. */
  method DecodePairingKey(encoded: bytes) returns (r: Decoded)
    ensures r == Decode(encoded)
    ensures |encoded| == TEXT_SIZE && InAlphabet(encoded) ==> r == Key(ToOctets(DigitsOf(encoded)))
    ensures r.Key? <==> |encoded| == TEXT_SIZE && InAlphabet(encoded)
    ensures r == Bad(BadCharacter) <==> |encoded| == TEXT_SIZE && !InAlphabet(encoded)
  {
    if |encoded| != TEXT_SIZE {
      return Bad(BadLength);
    }
    ReadsExactly(encoded);
    hide InAlphabet, LetterValue, DigitsOf, ToOctets, Rest;
    var result := new byte[32](_ => 0);
    var accumulator: nat, bits: nat, output: nat := 0, 0, 0;
    ghost var expected := Rest(0, 0, encoded, []);
    for i := 0 to |encoded|
      invariant bits in {0, 2, 4, 6} && accumulator < WORD && output <= 32
      invariant expected == Rest(bits, accumulator % Power2(bits), encoded[i..], result[..output])
    {
      var value := LetterValue(encoded[i]);
      if value.None? {
        RestStops(bits, accumulator % Power2(bits), encoded[i..], result[..output]);
        return Bad(BadCharacter);
      }
      ghost var x, read := accumulator, result[..output];
      accumulator := accumulator * 64 % WORD + value.value;
      OneLetter(bits, x, encoded, i, read, accumulator);
      bits := bits + 6;
      if bits >= 8 {
        bits := bits - 8;
        if output >= result.Length {
          return Bad(TooLong);
        }
        result[output] := accumulator / Power2(bits) % 256;
        output := output + 1;
        assert result[..output] == read + [accumulator / Power2(bits) % 256];
      }
    }
    assert encoded[|encoded|..] == [];
    RestStops(bits, accumulator % Power2(bits), [], result[..output]);
    if output != result.Length {
      return Bad(NotThirtyTwoOctets);
    }
    return Key(result[..]);
  }

  /** One unfolding of `Rest`. */
  lemma RestUnfold(bits: nat, carry: nat, text: bytes, read: bytes, d: digit)
    requires Fits(bits, carry) && text != [] && LetterValue(text[0]) == Some(d)
    ensures bits == 0 ==> Rest(bits, carry, text, read) == Rest(6, d, text[1..], read)
    ensures bits != 0 && |read| >= KEY_SIZE ==> Rest(bits, carry, text, read) == Bad(TooLong)
    ensures |read| < KEY_SIZE ==>
              && (bits == 6 ==> Rest(bits, carry, text, read) == Rest(4, d % 16, text[1..], read + [Join6(carry, d)]))
              && (bits == 4 ==> Rest(bits, carry, text, read) == Rest(2, d % 4, text[1..], read + [Join4(carry, d)]))
              && (bits == 2 ==> Rest(bits, carry, text, read) == Rest(0, 0, text[1..], read + [Join2(carry, d)]))
  {
    hide LetterValue, Join6, Join4, Join2;
  }

  lemma OneLetter(bits: nat, x: nat, encoded: bytes, i: nat, read: bytes, y: nat)
    requires bits in {0, 2, 4, 6} && i < |encoded| && LetterValue(encoded[i]).Some?
    requires y == x * 64 % WORD + LetterValue(encoded[i]).value
    ensures y < WORD
    ensures Rest(bits, x % Power2(bits), encoded[i..], read)
            == if bits == 0 then Rest(6, y % Power2(6), encoded[i + 1..], read)
               else if |read| >= KEY_SIZE then Bad(TooLong)
               else Rest(bits - 2, y % Power2(bits - 2), encoded[i + 1..], read + [y / Power2(bits - 2) % 256])
  {
    hide LetterValue, Rest, Power2;
    ShiftIn6(x, LetterValue(encoded[i]).value);
    assert encoded[i..][1..] == encoded[i + 1..];
    RestStep(bits, x, encoded[i..], read, y);
  }

  /** The end of the text, or a letter outside the alphabet. */
  lemma RestStops(bits: nat, carry: nat, text: bytes, read: bytes)
    requires Fits(bits, carry)
    ensures text == [] ==>
              Rest(bits, carry, text, read) == if |read| == KEY_SIZE then Key(read) else Bad(NotThirtyTwoOctets)
    ensures text != [] && LetterValue(text[0]).None? ==> Rest(bits, carry, text, read) == Bad(BadCharacter)
  {
    hide LetterValue, Join6, Join4, Join2;
  }

  /** One letter: `y` is the accumulator after it. */
  lemma RestStep(bits: nat, x: nat, text: bytes, read: bytes, y: nat)
    requires bits in {0, 2, 4, 6} && text != [] && LetterValue(text[0]).Some?
    requires y % 4096 == x % 64 * 64 + LetterValue(text[0]).value
    ensures Rest(bits, x % Power2(bits), text, read)
            == if bits == 0 then Rest(6, y % Power2(6), text[1..], read)
               else if |read| >= KEY_SIZE then Bad(TooLong)
               else Rest(bits - 2, y % Power2(bits - 2), text[1..], read + [y / Power2(bits - 2) % 256])
  {
    hide LetterValue, Rest, Join6, Join4, Join2, Power2;
    var d := LetterValue(text[0]).value;
    WordParts(x, d, y);
    RestUnfold(bits, x % Power2(bits), text, read, d);
  }

  lemma WordParts(x: nat, d: digit, y: nat)
    requires y % 4096 == x % 64 * 64 + d
    ensures y % 64 == d && y / 16 % 256 == Join6(x % 64, d) && y % 16 == d % 16
    ensures y / 4 % 256 == Join4(x % 16, d) && y % 4 == d % 4
    ensures y / 1 % 256 == Join2(x % 4, d) && y % 1 == 0
  {
    LowBits(x);
    WordJoins(y, x % 64, d);
  }

  lemma LowBits(x: nat)
    ensures x % 64 % 16 == x % 16 && x % 64 % 4 == x % 4 && x % 16 % 4 == x % 4
  {
    LowBits64By16(x);
    LowBits64By4(x);
    LowBits16By4(x);
  }

  lemma LowBits64By16(x: nat)
    ensures x % 64 % 16 == x % 16
  {
    LowPart(x, 16, 4 * (x / 64) + x % 64 / 16, x % 64 % 16);
  }

  lemma LowBits64By4(x: nat)
    ensures x % 64 % 4 == x % 4
  {
    LowPart(x, 4, 16 * (x / 64) + x % 64 / 4, x % 64 % 4);
  }

  lemma LowBits16By4(x: nat)
    ensures x % 16 % 4 == x % 4
  {
    LowPart(x, 4, 4 * (x / 16) + x % 16 / 4, x % 16 % 4);
  }

  lemma LowPart(x: nat, size: nat, q: nat, r: nat)
    requires size == 4 || size == 16
    requires x == size * q + r && r < size
    ensures x % size == r
  {
  }

  lemma WordJoins(y: nat, c: nat, d: digit)
    requires c < 64 && y % 4096 == c * 64 + d
    ensures y % 64 == d && y / 16 % 256 == Join6(c, d) && y % 16 == d % 16
    ensures y / 4 % 256 == Join4(c % 16, d) && y % 4 == d % 4
    ensures y / 1 % 256 == Join2(c % 4, d) && y % 1 == 0
  {
    SplitWord6(y, c, d);
  }

  /** Four letters at a boundary make three octets. */
  lemma FourLetters(text: bytes, read: bytes, x: digit, y: digit, z: digit, w: digit)
    requires |text| >= 4 && |read| + 3 <= KEY_SIZE
    requires LetterValue(text[0]) == Some(x) && LetterValue(text[1]) == Some(y)
             && LetterValue(text[2]) == Some(z) && LetterValue(text[3]) == Some(w)
    ensures Rest(0, 0, text, read) == Rest(0, 0, text[4..], read + ThreeOctets(x, y, z, w))
  {
    var o := ThreeOctets(x, y, z, w);
    assert o == [Join6(x, y), Join4(y % 16, z), Join2(z % 4, w)];
    hide LetterValue, Rest, Join6, Join4, Join2, ThreeOctets;
    assert text[1..][1..] == text[2..] && text[2..][1..] == text[3..] && text[3..][1..] == text[4..];
    RestUnfold(0, 0, text, read, x);
    RestUnfold(6, x, text[1..], read, y);
    RestUnfold(4, y % 16, text[2..], read + [o[0]], z);
    RestUnfold(2, z % 4, text[3..], read + [o[0]] + [o[1]], w);
    assert read + [o[0]] + [o[1]] + [o[2]] == read + o;
  }

  /** Three letters at the end make the last two octets. */
  lemma ThreeLetters(text: bytes, read: bytes, x: digit, y: digit, z: digit)
    requires |text| == 3 && |read| + 2 == KEY_SIZE
    requires LetterValue(text[0]) == Some(x) && LetterValue(text[1]) == Some(y) && LetterValue(text[2]) == Some(z)
    ensures Rest(0, 0, text, read) == Key(read + ThreeOctets(x, y, z, 0)[..2])
  {
    var o := ThreeOctets(x, y, z, 0);
    var all := read + [o[0]] + [o[1]];
    assert Rest(2, z % 4, [], all) == Key(all);
    assert o[0] == Join6(x, y) && o[1] == Join4(y % 16, z);
    hide LetterValue, Rest, Join6, Join4, Join2, ThreeOctets;
    assert text[1..][1..] == text[2..] && text[2..][1..] == [];
    RestUnfold(0, 0, text, read, x);
    RestUnfold(6, x, text[1..], read, y);
    RestUnfold(4, y % 16, text[2..], read + [o[0]], z);
    assert all == read + o[..2];
  }

  /** Reading letters of the alphabet up to the size of a key never fails, and groups as the standard does. */
  lemma {:induction false} ReadsGroups(text: bytes, read: bytes, groups: nat)
    requires InAlphabet(text) && |text| == 4 * groups + 3 && |read| + 3 * groups + 2 == KEY_SIZE
    ensures Rest(0, 0, text, read) == Key(read + ToOctets(DigitsOf(text)))
    decreases groups
  {
    hide *;
    var ds := DigitsOf(text);
    if groups == 0 {
      LastDigits(text);
      ThreeLetters(text, read, ds[0], ds[1], ds[2]);
    } else {
      var o := ThreeOctets(ds[0], ds[1], ds[2], ds[3]);
      GroupDigits(text);
      FourLetters(text, read, ds[0], ds[1], ds[2], ds[3]);
      ReadsGroups(text[4..], read + o, groups - 1);
      AppendTwice(read, o, ToOctets(ds[4..]));
    }
  }

  lemma AppendTwice(a: bytes, b: bytes, c: bytes)
    ensures (a + b) + c == a + (b + c)
  {
  }

  lemma LastDigits(text: bytes)
    requires InAlphabet(text) && |text| == 3
    ensures var ds := DigitsOf(text);
            && ToOctets(ds) == ThreeOctets(ds[0], ds[1], ds[2], 0)[..2]
            && LetterValue(text[0]) == Some(ds[0]) && LetterValue(text[1]) == Some(ds[1])
            && LetterValue(text[2]) == Some(ds[2])
  {
    hide LetterValue, ThreeOctets;
  }

  lemma GroupDigits(text: bytes)
    requires InAlphabet(text) && |text| >= 4
    ensures InAlphabet(text[4..]) && DigitsOf(text[4..]) == DigitsOf(text)[4..]
    ensures var ds := DigitsOf(text);
            && ToOctets(ds) == ThreeOctets(ds[0], ds[1], ds[2], ds[3]) + ToOctets(ds[4..])
            && LetterValue(text[0]) == Some(ds[0]) && LetterValue(text[1]) == Some(ds[1])
            && LetterValue(text[2]) == Some(ds[2]) && LetterValue(text[3]) == Some(ds[3])
  {
    hide LetterValue, ThreeOctets;
  }

  /** A letter outside the alphabet is what rejects, never the size checks. */
  lemma {:induction false} RejectsLetter(bits: nat, carry: nat, text: bytes, read: bytes)
    requires Fits(bits, carry) && !InAlphabet(text)
    requires |read| + (bits + 6 * |text|) / 8 <= KEY_SIZE
    ensures Rest(bits, carry, text, read) == Bad(BadCharacter)
    decreases |text|
  {
    hide LetterValue, Join6, Join4, Join2;
    if LetterValue(text[0]).Some? {
      var d := LetterValue(text[0]).value;
      assert !InAlphabet(text[1..]) by {
        var i :| 0 <= i < |text| && LetterValue(text[i]).None?;
        assert text[1..][i - 1] == text[i];
      }
      RestUnfold(bits, carry, text, read, d);
      if bits == 0 {
        RejectsLetter(6, d, text[1..], read);
      } else if bits == 6 {
        RejectsLetter(4, d % 16, text[1..], read + [Join6(carry, d)]);
      } else if bits == 4 {
        RejectsLetter(2, d % 4, text[1..], read + [Join4(carry, d)]);
      } else {
        RejectsLetter(0, 0, text[1..], read + [Join2(carry, d)]);
      }
    }
  }

  /** On a text of the right length the alphabet alone decides: the other two exits are never taken. */
  lemma ReadsExactly(text: bytes)
    requires |text| == TEXT_SIZE
    ensures InAlphabet(text) ==> Rest(0, 0, text, []) == Key(ToOctets(DigitsOf(text)))
    ensures !InAlphabet(text) ==> Rest(0, 0, text, []) == Bad(BadCharacter)
  {
    hide Rest, ToOctets;
    if InAlphabet(text) {
      ReadsGroups(text, [], 10);
      assert [] + ToOctets(DigitsOf(text)) == ToOctets(DigitsOf(text));
    } else {
      RejectsLetter(0, 0, text, []);
    }
  }

  // ---------------------------------------------------------------- round trips

  /** Reading what was written gives the key back. */
  lemma KeyRoundTrip(key: bytes)
    requires |key| == KEY_SIZE
    ensures Decode(Letters(ToDigits(key))) == Key(key)
  {
    hide Letters, ToDigits, Rest;
    LettersOfDigits([], ToDigits(key));
    OctetsOfDigits(key);
    ReadsExactly(Letters(ToDigits(key)));
  }

  /** Writing what was read gives the text back exactly when its last letter carries no bits beyond the 256. */
  lemma TextRoundTrip(text: bytes)
    requires Decode(text).Key?
    ensures |text| == TEXT_SIZE && InAlphabet(text)
    ensures Letters(ToDigits(Decode(text).key)) == text <==> LetterValue(text[TEXT_SIZE - 1]).value % 4 == 0
  {
    hide Rest, ToDigits, ToOctets, LetterValue, Letter;
    assert |text| == TEXT_SIZE;
    ReadsExactly(text);
    var ds := DigitsOf(text);
    DigitsOfOctets(ds);
    LettersOfDigits(text, ds);
    var last := ds[TEXT_SIZE - 1];
    var again := ds[..TEXT_SIZE - 1] + [last - last % 4];
    LettersOfDigits(text, again);
    if last % 4 == 0 {
      assert again == ds;
    } else {
      assert again[TEXT_SIZE - 1] != ds[TEXT_SIZE - 1];
    }
  }
}
