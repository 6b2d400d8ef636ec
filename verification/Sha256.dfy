/** The streaming SHA-256 of the transport and the HMAC built on it, against FIPS 180-4 and RFC 2104. */
module Sha256 {
  import opened Bytes
  import opened Sha256Compression

  // ---------------------------------------------------------------- padding (section 5.1.1)

  /** `n` in base 256, `k` digits, most significant first. */
  function BigEndian(n: nat, k: nat): (r: bytes)
    ensures |r| == k
  {
    if k == 0 then [] else BigEndian(n / 256, k - 1) + [n % 256]
  }

  function FromBigEndian(s: bytes): nat {
    if s == [] then 0 else FromBigEndian(s[..|s| - 1]) * 256 + s[|s| - 1]
  }

  function Power256(k: nat): (p: nat)
    ensures p >= 1
  {
    if k == 0 then 1 else 256 * Power256(k - 1)
  }

  const MODULUS_64: nat := 0x1_0000_0000_0000_0000

  function Zeros(n: nat): (r: bytes)
    ensures |r| == n
  {
    seq(n, _ => 0)
  }

  /** How many zero octets padding puts after the octet 0x80. */
  function ZeroCount(length: nat): nat {
    (119 - length % 64) % 64
  }

  /** The length field: the number of bits of `n` octets, modulo the width of the counter. */
  function LengthOctets(n: nat): (r: bytes)
    ensures |r| == 8
  {
    BigEndian(8 * n % MODULUS_64, 8)
  }

  /** The padded message; the length field counts bits, modulo the width of the counter. */
  function Pad(message: bytes): bytes {
    message + [0x80] + Zeros(ZeroCount(|message|)) + LengthOctets(|message|)
  }

  predicate Reaches448(l: nat, k: nat) {
    (l + 1 + k) % 512 == 448
  }

  /** The padding is that of the standard: a one bit, the least number of zero bits that reaches 448 modulo 512, and the
      length, which the field holds exactly for every message shorter than 2^64 bits. */
  lemma PadIsStandard(message: bytes)
    ensures var l, k := 8 * |message|, 8 * ZeroCount(|message|) + 7;
            && Reaches448(l, k)
            && (forall j: nat :: j < k ==> !Reaches448(l, j))
            && |Pad(message)| == |message| + 1 + ZeroCount(|message|) + 8
            && |Pad(message)| % 64 == 0
            && (l < MODULUS_64 ==> FromBigEndian(Pad(message)[|Pad(message)| - 8..]) == l)
  {
    var l := 8 * |message|;
    ZeroCountReaches(|message|);
    var k := 8 * ZeroCount(|message|) + 7;
    forall j: nat | j < k ensures !Reaches448(l, j) {
      CloserThan512(l + 1 + j, l + 1 + k);
    }
    LengthField(message);
  }

  /** Octet by octet: the message, the octet 0x80, zeros, and the length. */
  lemma PadOctets(message: bytes)
    ensures message <= Pad(message) && |message| + 9 <= |Pad(message)| && Pad(message)[|message|] == 0x80
    ensures forall i :: |message| < i < |Pad(message)| - 8 ==> Pad(message)[i] == 0
  {
    hide LengthOctets, ZeroCount;
  }

  lemma LengthField(message: bytes)
    ensures |Pad(message)| == |message| + 1 + ZeroCount(|message|) + 8
    ensures 8 * |message| < MODULUS_64 ==> FromBigEndian(Pad(message)[|Pad(message)| - 8..]) == 8 * |message|
  {
    PadUnfold(message);
    LengthDecodes(|message|);
    hide *;
    var padded, body := Pad(message), message + [0x80] + Zeros(ZeroCount(|message|));
    assert padded == body + LengthOctets(|message|);
    assert padded[|padded| - 8..] == LengthOctets(|message|);
  }

  lemma LengthDecodes(n: nat)
    ensures 8 * n < MODULUS_64 ==> FromBigEndian(LengthOctets(n)) == 8 * n
  {
    PowerIsModulus();
    hide Power256, BigEndian, FromBigEndian;
    if 8 * n < MODULUS_64 {
      BigEndianDecodes(8 * n, 8);
    }
  }

  lemma ZeroCountReaches(n: nat)
    ensures 8 * ZeroCount(n) + 7 < 512 && Reaches448(8 * n, 8 * ZeroCount(n) + 7)
    ensures (n + 1 + ZeroCount(n) + 8) % 64 == 0
  {
    var r, q := n % 64, n / 64;
    assert n == 64 * q + r;
    assert ZeroCount(n) == if r <= 55 then 55 - r else 119 - r;
  }

  lemma PowerIsModulus()
    ensures Power256(8) == MODULUS_64
  {
    assert Power256(4) == 0x1_0000_0000;
  }

  lemma CloserThan512(a: nat, b: nat)
    requires a < b < a + 512
    ensures a % 512 != b % 512
  {
  }

  lemma {:induction false} BigEndianDecodes(n: nat, k: nat)
    requires n < Power256(k)
    ensures FromBigEndian(BigEndian(n, k)) == n
    decreases k
  {
    if k > 0 {
      var r := BigEndian(n, k);
      BigEndianDecodes(n / 256, k - 1);
      assert r[..|r| - 1] == BigEndian(n / 256, k - 1);
    }
  }

  /** Digit `i` from the right is what shifting by `8 * i` bits and truncating to an octet leaves. */
  lemma {:induction false} BigEndianDigit(n: nat, k: nat, i: nat)
    requires i < k
    ensures BigEndian(n, k)[k - 1 - i] == n / Power256(i) % 256
    decreases k
  {
    if i > 0 {
      BigEndianDigit(n / 256, k - 1, i - 1);
      DivideTwice(n, Power256(i - 1));
    }
  }

  lemma DivideTwice(n: nat, p: nat)
    requires p >= 1
    ensures n / 256 / p == n / (256 * p)
  {
    var q := n / (256 * p);
    var r := n % (256 * p);
    assert n == 256 * p * q + r;
    assert n / 256 == p * q + r / 256 by {
      assert n == 256 * (p * q) + r;
    }
    assert r / 256 < p;
    QuotientUnique(n / 256, p, q, r / 256);
  }

  // ---------------------------------------------------------------- the digest

  /** Compressing whole blocks in turn. */
  function Fold(state: Words, data: bytes): Words
    decreases |data|
  {
    if |data| < 64 then state else Fold(Compress(state, data[..64]), data[64..])
  }

  lemma {:induction false} FoldConcat(state: Words, a: bytes, b: bytes)
    requires |a| % 64 == 0
    ensures Fold(state, a + b) == Fold(Fold(state, a), b)
    decreases |a|
  {
    hide Compress;
    if a == [] {
      assert a + b == b;
    } else {
      assert (a + b)[..64] == a[..64] && (a + b)[64..] == a[64..] + b;
      FoldConcat(Compress(state, a[..64]), a[64..], b);
    }
  }

  lemma FoldBlock(state: Words, block: Block)
    ensures Fold(state, block) == Compress(state, block)
  {
    hide Compress;
    assert block[..64] == block && block[64..] == [];
  }

  function Output(ws: seq<bv32>): (r: bytes)
    ensures |r| == 4 * |ws|
  {
    if ws == [] then [] else Output(ws[..|ws| - 1]) + WordOctets(ws[|ws| - 1])
  }

  /** SHA-256 of a whole message. */
  function Digest(message: bytes): (r: bytes)
    ensures |r| == 32
  {
    Output(Fold(InitialState(), Pad(message)))
  }

  // ---------------------------------------------------------------- what the streaming object holds

  /** The whole blocks of `message` are in `state` and counted, the rest is `tail`. */
  ghost predicate Holds(state: Words, tail: bytes, bitCount: nat, message: bytes) {
    && |tail| < 64 && |tail| <= |message|
    && var whole := |message| - |tail|;
       && whole % 64 == 0 && bitCount == 8 * whole % MODULUS_64 && tail == message[whole..]
       && state == Fold(InitialState(), message[..whole])
  }

  lemma HoldsNothing()
    ensures Holds(InitialState(), [], 0, [])
  {
  }

  /** One more octet that does not fill the buffer. */
  lemma HoldsMore(state: Words, tail: bytes, bitCount: nat, message: bytes, x: byte)
    requires Holds(state, tail, bitCount, message) && |tail| < 63
    ensures Holds(state, tail + [x], bitCount, message + [x])
  {
    hide Fold;
    var whole := |message| - |tail|;
    assert (message + [x])[..whole] == message[..whole];
  }

  /** One more octet that does. */
  lemma HoldsBlock(state: Words, tail: bytes, bitCount: nat, message: bytes, x: byte)
    requires Holds(state, tail, bitCount, message) && |tail| == 63
    ensures Holds(Compress(state, tail + [x]), [], (bitCount + 512) % MODULUS_64, message + [x])
  {
    hide Fold, Compress, InitialState;
    BlockFolds(state, message, |message| - 63, tail + [x]);
    assert message + [x] == message[..|message| - 63] + (tail + [x]);
    assert (message + [x])[..|message| + 1] == message + [x];
    CountBlock(bitCount, |message| - 63);
  }

  lemma CountBlock(bitCount: nat, whole: nat)
    requires bitCount == 8 * whole % MODULUS_64 && whole % 64 == 0
    ensures (bitCount + 512) % MODULUS_64 == 8 * (whole + 64) % MODULUS_64 && (whole + 64) % 64 == 0
  {
  }

  lemma BlockFolds(state: Words, message: bytes, whole: nat, block: Block)
    requires whole <= |message| && whole % 64 == 0 && state == Fold(InitialState(), message[..whole])
    ensures Fold(InitialState(), message[..whole] + block) == Compress(state, block)
  {
    hide Fold, Compress, InitialState;
    FoldConcat(InitialState(), message[..whole], block);
    FoldBlock(state, block);
  }

  lemma PadShort(message: bytes, size: nat)
    requires size < 56 && size <= |message| && (|message| - size) % 64 == 0
    ensures var whole := |message| - size;
            Pad(message) == message[..whole]
              + ((message[whole..] + [0x80] + Zeros(55 - size)) + LengthOctets(|message|))
  {
    hide *;
    ZeroCountIs(|message|, size);
    Regroup(message, |message| - size, [0x80], Zeros(55 - size), [], LengthOctets(|message|));
    PadUnfold(message);
    assert Zeros(55 - size) + [] == Zeros(55 - size);
    assert [] + LengthOctets(|message|) == LengthOctets(|message|);
  }

  lemma PadLong(message: bytes, size: nat)
    requires 56 <= size < 64 && size <= |message| && (|message| - size) % 64 == 0
    ensures var whole := |message| - size;
            Pad(message) == message[..whole]
              + ((message[whole..] + [0x80] + Zeros(63 - size)) + (Zeros(56) + LengthOctets(|message|)))
  {
    hide *;
    ZeroCountIs(|message|, size);
    ZerosSplit(63 - size, 56);
    Regroup(message, |message| - size, [0x80], Zeros(63 - size), Zeros(56), LengthOctets(|message|));
    PadUnfold(message);
  }

  lemma DigestUnfold(message: bytes)
    ensures Digest(message) == Output(Fold(InitialState(), Pad(message)))
  {
    hide InitialState, Output, Fold, Pad;
  }

  lemma ZeroCountIs(n: nat, size: nat)
    requires size < 64 && size <= n && (n - size) % 64 == 0
    ensures ZeroCount(n) == if size < 56 then 55 - size else 119 - size
  {
    assert n % 64 == size;
  }

  lemma ZerosSplit(a: nat, b: nat)
    ensures Zeros(a + b) == Zeros(a) + Zeros(b)
  {
  }

  lemma PadUnfold(message: bytes)
    ensures Pad(message)
            == message + [0x80] + Zeros(ZeroCount(|message|)) + LengthOctets(|message|)
  {
    hide ZeroCount, Zeros, BigEndian;
  }

  lemma Regroup(m: bytes, i: nat, a: bytes, b: bytes, c: bytes, d: bytes)
    requires i <= |m|
    ensures m + a + (b + c) + d == m[..i] + ((m[i..] + a + b) + (c + d))
  {
    assert m == m[..i] + m[i..];
    var x, y := m[..i], m[i..];
    assert (x + y) + a + (b + c) + d == x + ((y + a + b) + (c + d));
  }

  /** The count of the bits compressed and those of the tail make the length that is padded. */
  lemma LengthIs(bitCount: nat, size: nat, total: nat)
    requires size <= total && bitCount == 8 * (total - size) % MODULUS_64
    ensures BigEndian((bitCount + size * 8) % MODULUS_64, 8) == LengthOctets(total)
  {
    hide BigEndian;
    assert (8 * (total - size) % MODULUS_64 + size * 8) % MODULUS_64 == (8 * (total - size) + size * 8) % MODULUS_64;
  }

  /** The digest when there is room for the length after the 0x80. */
  lemma FinishShort(state: Words, tail: bytes, bitCount: nat, message: bytes)
    requires Holds(state, tail, bitCount, message) && |tail| < 56
    ensures Digest(message)
            == Output(Compress(state,
                               (tail + [0x80] + Zeros(55 - |tail|))
                                   + BigEndian((bitCount + |tail| * 8) % MODULUS_64, 8)))
  {
    hide Compress, Fold, Output, BigEndian, Pad, Zeros, InitialState, Digest;
    var whole := |message| - |tail|;
    var length := BigEndian((bitCount + |tail| * 8) % MODULUS_64, 8);
    LengthIs(bitCount, |tail|, |message|);
    var last := (tail + [0x80] + Zeros(55 - |tail|)) + length;
    PadShort(message, |tail|);
    DigestUnfold(message);
    assert |last| == 64;
    FoldConcat(InitialState(), message[..whole], last);
    FoldBlock(state, last);
  }

  /** The digest when there is not, so that two blocks are left to compress. */
  lemma FinishLong(state: Words, tail: bytes, bitCount: nat, message: bytes)
    requires Holds(state, tail, bitCount, message) && |tail| >= 56
    ensures Digest(message)
            == Output(Compress(Compress(state, tail + [0x80] + Zeros(63 - |tail|)),
                               Zeros(56) + BigEndian((bitCount + |tail| * 8) % MODULUS_64, 8)))
  {
    hide Compress, Fold, Output, BigEndian, Pad, Zeros, InitialState, Digest;
    var whole := |message| - |tail|;
    var length := BigEndian((bitCount + |tail| * 8) % MODULUS_64, 8);
    LengthIs(bitCount, |tail|, |message|);
    var first, last := tail + [0x80] + Zeros(63 - |tail|), Zeros(56) + length;
    PadLong(message, |tail|);
    DigestUnfold(message);
    assert |first| == 64 && |last| == 64;
    FoldTwo(message[..whole], first, last);
  }

  lemma FoldTwo(done: bytes, first: Block, last: Block)
    requires |done| % 64 == 0
    ensures Fold(InitialState(), done + (first + last)) == Compress(Compress(Fold(InitialState(), done), first), last)
  {
    hide Fold, Compress, InitialState;
    var state := Fold(InitialState(), done);
    FoldConcat(InitialState(), done, first + last);
    FoldConcat(state, first, last);
    FoldBlock(state, first);
    FoldBlock(Compress(state, first), last);
  }

  // ---------------------------------------------------------------- the streaming object

  class Hasher {
    var state: Words
    const buffer: array<byte>
    var bufferSize: nat
    var bitCount: nat
    /** Everything given so far. */
    ghost var message: bytes

    ghost predicate Valid()
      reads this, buffer
    {
      buffer.Length == 64 && bufferSize < 64 && Holds(state, buffer[..bufferSize], bitCount, message)
    }

    constructor ()
      ensures Valid() && fresh(buffer) && message == []
    {
      state := InitialState();
      buffer := new byte[64](_ => 0);
      bufferSize := 0;
      bitCount := 0;
      message := [];
      HoldsNothing();
    }

    method Update(input: bytes)
      requires Valid()
      modifies this, buffer
      ensures Valid() && message == old(message) + input
    {
      hide Compress, Holds;
      for i := 0 to |input|
        invariant Valid() && message == old(message) + input[..i]
      {
        ghost var tail := buffer[..bufferSize];
        ghost var before := message;
        buffer[bufferSize] := input[i];
        bufferSize := bufferSize + 1;
        message := message + [input[i]];
        assert buffer[..bufferSize] == tail + [input[i]];
        if bufferSize == buffer.Length {
          assert buffer[..] == tail + [input[i]];
          HoldsBlock(state, tail, bitCount, before, input[i]);
          state := Transform(state, buffer);
          bitCount := (bitCount + 512) % MODULUS_64;
          bufferSize := 0;
          assert buffer[..0] == [];
        } else {
          HoldsMore(state, tail, bitCount, before, input[i]);
        }
      }
    }

    method FillZeros(limit: nat)
      requires buffer.Length == 64 && bufferSize <= limit <= 64
      modifies buffer, `bufferSize
      ensures bufferSize == limit
      ensures buffer[..limit] == old(buffer[..bufferSize]) + Zeros(limit - old(bufferSize))
    {
      ghost var start := bufferSize;
      while bufferSize < limit
        invariant start <= bufferSize <= limit
        invariant buffer[..bufferSize] == old(buffer[..bufferSize]) + Zeros(bufferSize - start)
      {
        buffer[bufferSize] := 0;
        bufferSize := bufferSize + 1;
      }
    }

    method WriteLength(totalBits: nat)
      requires buffer.Length == 64
      modifies buffer
      ensures buffer[..] == old(buffer[..56]) + BigEndian(totalBits, 8)
    {
      for index := 0 to 8
        invariant buffer[..56] == old(buffer[..56])
        invariant forall i :: 64 - index <= i < 64 ==> buffer[i] == BigEndian(totalBits, 8)[i - 56]
      {
        hide BigEndian, Power256;
        BigEndianDigit(totalBits, 8, index);
        buffer[63 - index] := totalBits / Power256(index) % 256;
      }
    }

    /** However the message was split into updates, this is the digest of all of it. */
    method Finish() returns (output: bytes)
      requires Valid()
      modifies this, buffer
      ensures output == Digest(old(message))
    {
      hide Compress, Output, BigEndian, Zeros, Digest, Holds;
      ghost var tail, start := buffer[..bufferSize], state;
      var totalBits := (bitCount + bufferSize * 8) % MODULUS_64;
      ghost var count := bitCount;
      buffer[bufferSize] := 0x80;
      bufferSize := bufferSize + 1;
      assert buffer[..bufferSize] == tail + [0x80];
      if bufferSize > 56 {
        FillZeros(64);
        assert buffer[..] == buffer[..64];
        state := Transform(state, buffer);
        bufferSize := 0;
        assert buffer[..0] == [];
        FillZeros(56);
        assert [] + Zeros(56) == Zeros(56);
        WriteLength(totalBits);
        state := Transform(state, buffer);
        FinishLong(start, tail, count, message);
      } else {
        FillZeros(56);
        WriteLength(totalBits);
        state := Transform(state, buffer);
        FinishShort(start, tail, count, message);
      }
      ghost var final := state;
      assert Digest(message) == Output(final);
      output := [];
      NoOutput();
      for word := 0 to 8
        invariant output == Output(state[..word]) && state == final
      {
        OutputNext(state, word);
        output := output + WordOctets(state[word]);
      }
      assert state[..8] == state;
    }
  }

  lemma NoOutput()
    ensures Output([]) == []
  {
  }

  lemma OutputNext(ws: seq<bv32>, i: nat)
    requires i < |ws|
    ensures Output(ws[..i + 1]) == Output(ws[..i]) + WordOctets(ws[i])
  {
    hide WordOctets;
    assert ws[..i + 1][..i] == ws[..i];
  }

  /** The digest of a string in one update. */
  method Sha256(value: bytes) returns (digest: bytes)
    ensures digest == Digest(value)
  {
    var hasher := new Hasher();
    hasher.Update(value);
    assert [] + value == value;
    digest := hasher.Finish();
  }

  // ---------------------------------------------------------------- HMAC (RFC 2104 section 2)

  function Xor(a: byte, b: byte): byte {
    ((a as bv8) ^ (b as bv8)) as byte
  }

  function XorAll(s: bytes, x: byte): (r: bytes)
    ensures |r| == |s| && forall i :: 0 <= i < |s| ==> r[i] == Xor(s[i], x)
  {
    seq(|s|, i requires 0 <= i < |s| => Xor(s[i], x))
  }

  /** H((K xor opad) || H((K xor ipad) || text)), the key padded with zeros to a block. */
  function Hmac(key: bytes, message: bytes): bytes
    requires |key| <= 64
  {
    var k := key + Zeros(64 - |key|);
    Digest(XorAll(k, 0x5C) + Digest(XorAll(k, 0x36) + message))
  }

  /** `pad` is the key, filled up with zeros to 64 octets, with every octet changed by `x`. */
  predicate IsPad(pad: bytes, key: bytes, x: bv8) {
    |pad| == 64 && forall i :: 0 <= i < 64 ==> pad[i] == ((if i < |key| then key[i] as bv8 else 0) ^ x) as byte
  }

  /** The definition in the words of the standard: the two pads are told apart by their octets. */
  lemma HmacIsStandard(key: bytes, message: bytes, inner: bytes, outer: bytes)
    requires |key| <= 64 && IsPad(inner, key, 0x36) && IsPad(outer, key, 0x5C)
    ensures Hmac(key, message) == Digest(outer + Digest(inner + message))
  {
    var k := key + Zeros(64 - |key|);
    hide Digest;
    assert forall i :: 0 <= i < 64 ==> k[i] == if i < |key| then key[i] else 0;
    assert inner == XorAll(k, 0x36) && outer == XorAll(k, 0x5C);
  }

  method HmacSha256(key: bytes, message: bytes) returns (digest: bytes)
    requires |key| == 32
    ensures digest == Hmac(key, message)
  {
    hide Digest, Xor, XorAll, Holds;
    var innerPad, outerPad := Pads(key);
    ghost var k := key + Zeros(64 - |key|);
    var inner := new Hasher();
    inner.Update(innerPad[..]);
    inner.Update(message);
    assert [] + XorAll(k, 0x36) + message == XorAll(k, 0x36) + message;
    var innerHash := inner.Finish();
    var outer := new Hasher();
    outer.Update(outerPad[..]);
    outer.Update(innerHash);
    assert [] + XorAll(k, 0x5C) + innerHash == XorAll(k, 0x5C) + innerHash;
    digest := outer.Finish();
  }

  /** The two pads: the key, filled up with zeros to a block, with every octet changed. */
  method Pads(key: bytes) returns (innerPad: array<byte>, outerPad: array<byte>)
    requires |key| == 32
    ensures fresh(innerPad) && fresh(outerPad) && innerPad.Length == outerPad.Length == 64
    ensures innerPad[..] == XorAll(key + Zeros(64 - |key|), 0x36)
    ensures outerPad[..] == XorAll(key + Zeros(64 - |key|), 0x5C)
  {
    hide Xor;
    var block := new byte[64](_ => 0);
    for i := 0 to |key|
      invariant forall j :: 0 <= j < i ==> block[j] == key[j]
      invariant forall j :: i <= j < 64 ==> block[j] == 0
    {
      block[i] := key[i];
    }
    ghost var k := key + Zeros(64 - |key|);
    assert block[..] == k;
    innerPad := new byte[64](_ => 0);
    outerPad := new byte[64](_ => 0);
    for index := 0 to 64
      invariant forall j :: 0 <= j < index ==> innerPad[j] == Xor(block[j], 0x36) && outerPad[j] == Xor(block[j], 0x5C)
      invariant block[..] == k
    {
      innerPad[index] := Xor(block[index], 0x36);
      outerPad[index] := Xor(block[index], 0x5C);
    }
    assert innerPad[..] == XorAll(k, 0x36) && outerPad[..] == XorAll(k, 0x5C);
  }
}
