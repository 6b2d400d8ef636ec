/** The SHA-256 compression function, FIPS 180-4 sections 4.1.2 and 6.2.2, and the loops that compute it. */
module Sha256Compression {
  import opened Bytes

  /** Eight working words. */
  type Words = s: seq<bv32> | |s| == 8 witness [0, 0, 0, 0, 0, 0, 0, 0]

  type Block = s: bytes | |s| == 64 witness seq(64, _ => 0)

  /** The round constants of section 4.2.2, eight to a row. */
  const K: seq<seq<bv32>> := [
    [0x428a2f98, 0x71374491, 0xb5c0fbcf, 0xe9b5dba5, 0x3956c25b, 0x59f111f1, 0x923f82a4, 0xab1c5ed5],
    [0xd807aa98, 0x12835b01, 0x243185be, 0x550c7dc3, 0x72be5d74, 0x80deb1fe, 0x9bdc06a7, 0xc19bf174],
    [0xe49b69c1, 0xefbe4786, 0x0fc19dc6, 0x240ca1cc, 0x2de92c6f, 0x4a7484aa, 0x5cb0a9dc, 0x76f988da],
    [0x983e5152, 0xa831c66d, 0xb00327c8, 0xbf597fc7, 0xc6e00bf3, 0xd5a79147, 0x06ca6351, 0x14292967],
    [0x27b70a85, 0x2e1b2138, 0x4d2c6dfc, 0x53380d13, 0x650a7354, 0x766a0abb, 0x81c2c92e, 0x92722c85],
    [0xa2bfe8a1, 0xa81a664b, 0xc24b8b70, 0xc76c51a3, 0xd192e819, 0xd6990624, 0xf40e3585, 0x106aa070],
    [0x19a4c116, 0x1e376c08, 0x2748774c, 0x34b0bcb5, 0x391c0cb3, 0x4ed8aa4a, 0x5b9cca4f, 0x682e6ff3],
    [0x748f82ee, 0x78a5636f, 0x84c87814, 0x8cc70208, 0x90befffa, 0xa4506ceb, 0xbef9a3f7, 0xc67178f2]]

  function RoundConstant(i: nat): bv32
    requires i < 64
  {
    K[i / 8][i % 8]
  }

  function InitialState(): Words {
    [0x6a09e667, 0xbb67ae85, 0x3c6ef372, 0xa54ff53a, 0x510e527f, 0x9b05688c, 0x1f83d9ab, 0x5be0cd19]
  }

  /** Addition modulo 2^32. */
  function Add(a: bv32, b: bv32): bv32 {
    a + b
  }

  function Rotate(x: bv32, bits: nat): bv32
    requires bits < 32
  {
    (x >> bits) | (x << (32 - bits))
  }

  function SmallSigma0(x: bv32): bv32 {
    Rotate(x, 7) ^ Rotate(x, 18) ^ (x >> 3)
  }

  function SmallSigma1(x: bv32): bv32 {
    Rotate(x, 17) ^ Rotate(x, 19) ^ (x >> 10)
  }

  function BigSigma0(a: bv32): bv32 {
    Rotate(a, 2) ^ Rotate(a, 13) ^ Rotate(a, 22)
  }

  function BigSigma1(e: bv32): bv32 {
    Rotate(e, 6) ^ Rotate(e, 11) ^ Rotate(e, 25)
  }

  function Choice(e: bv32, f: bv32, g: bv32): bv32 {
    (e & f) ^ ((!e) & g)
  }

  function Majority(a: bv32, b: bv32, c: bv32): bv32 {
    (a & b) ^ (a & c) ^ (b & c)
  }

  /** An octet as a word. */
  function Wide(a: byte): bv32 {
    (a as bv8) as bv32
  }

  function Word(a: byte, b: byte, c: byte, d: byte): bv32 {
    (Wide(a) << 24) | (Wide(b) << 16) | (Wide(c) << 8) | Wide(d)
  }

  /** The message schedule word after `w`. */
  function NextWord(w: seq<bv32>): bv32
    requires |w| >= 16
  {
    Add(Add(Add(w[|w| - 16], SmallSigma0(w[|w| - 15])), w[|w| - 7]), SmallSigma1(w[|w| - 2]))
  }

  /** The first `n` words of the message schedule. */
  function Schedule(block: Block, n: nat): (w: seq<bv32>)
    requires n <= 64
    ensures |w| == n
  {
    if n == 0 then []
    else
      var w := Schedule(block, n - 1);
      if n <= 16
      then w + [Word(block[4 * n - 4], block[4 * n - 3], block[4 * n - 2], block[4 * n - 1])]
      else w + [NextWord(w)]
  }

  function Temp1(e: bv32, f: bv32, g: bv32, h: bv32, i: nat, w: bv32): bv32
    requires i < 64
  {
    Add(Add(Add(Add(h, BigSigma1(e)), Choice(e, f, g)), RoundConstant(i)), w)
  }

  function Temp2(a: bv32, b: bv32, c: bv32): bv32 {
    Add(BigSigma0(a), Majority(a, b, c))
  }

  function Round(v: Words, i: nat, w: bv32): Words
    requires i < 64
  {
    var t1 := Temp1(v[4], v[5], v[6], v[7], i, w);
    [Add(t1, Temp2(v[0], v[1], v[2])), v[0], v[1], v[2], Add(v[3], t1), v[4], v[5], v[6]]
  }

  function Rounds(v: Words, block: Block, n: nat): Words
    requires n <= 64
  {
    if n == 0 then v else Round(Rounds(v, block, n - 1), n - 1, Schedule(block, 64)[n - 1])
  }

  function Compress(state: Words, block: Block): Words {
    var v := Rounds(state, block, 64);
    [Add(state[0], v[0]), Add(state[1], v[1]), Add(state[2], v[2]), Add(state[3], v[3]),
     Add(state[4], v[4]), Add(state[5], v[5]), Add(state[6], v[6]), Add(state[7], v[7])]
  }

  /** A word's octets, most significant first: each is a right shift cut to an octet. */
  function WordOctets(w: bv32): (r: bytes)
    ensures |r| == 4
  {
    var n := w as int;
    [n / 0x100_0000 % 256, n / 0x1_0000 % 256, n / 0x100 % 256, n % 256]
  }

  lemma NextWordIs(w: seq<bv32>, a: bv32, b: bv32, c: bv32, d: bv32)
    requires |w| >= 16 && a == w[|w| - 16] && b == w[|w| - 15] && c == w[|w| - 7] && d == w[|w| - 2]
    ensures NextWord(w) == Add(Add(Add(a, SmallSigma0(b)), c), SmallSigma1(d))
  {
    hide SmallSigma0, SmallSigma1, Add;
  }

  lemma RoundIs(v: Words, i: nat, w: bv32, temp1: bv32, temp2: bv32)
    requires i < 64
    requires temp1 == Add(Add(Add(Add(v[7], BigSigma1(v[4])), Choice(v[4], v[5], v[6])), RoundConstant(i)), w)
    requires temp2 == Add(BigSigma0(v[0]), Majority(v[0], v[1], v[2]))
    ensures Round(v, i, w) == [Add(temp1, temp2), v[0], v[1], v[2], Add(v[3], temp1), v[4], v[5], v[6]]
  {
    hide BigSigma0, BigSigma1, Choice, Majority, RoundConstant, Add;
  }

  lemma NoRounds(v: Words, block: Block)
    ensures Rounds(v, block, 0) == v
  {
  }

  lemma RoundsNext(v: Words, block: Block, n: nat)
    requires n < 64
    ensures Rounds(v, block, n + 1) == Round(Rounds(v, block, n), n, Schedule(block, 64)[n])
  {
    hide Round, Schedule;
  }

  method PrepareWords(buffer: array<byte>) returns (words: array<bv32>)
    requires buffer.Length == 64
    ensures fresh(words) && words.Length == 64 && words[..] == Schedule(buffer[..], 64)
  {
    hide Word, SmallSigma0, SmallSigma1, NextWord, Add;
    words := new bv32[64](_ => 0);
    ghost var block: Block := buffer[..];
    for i := 0 to 16
      invariant words[..i] == Schedule(block, i) && buffer[..] == block
    {
      words[i] := Word(buffer[4 * i], buffer[4 * i + 1], buffer[4 * i + 2], buffer[4 * i + 3]);
      assert words[..i + 1] == words[..i] + [words[i]];
    }
    hide Schedule;
    for i := 16 to 64
      invariant words[..i] == Schedule(block, i) && buffer[..] == block
    {
      ghost var w := words[..i];
      var s0 := SmallSigma0(words[i - 15]);
      var s1 := SmallSigma1(words[i - 2]);
      var next := Add(Add(Add(words[i - 16], s0), words[i - 7]), s1);
      NextWordIs(w, words[i - 16], words[i - 15], words[i - 7], words[i - 2]);
      ScheduleNext(block, i);
      words[i] := next;
      assert words[..i + 1] == w + [next];
    }
    assert words[..] == words[..64];
  }

  lemma ScheduleNext(block: Block, n: nat)
    requires 16 <= n < 64
    ensures Schedule(block, n + 1) == Schedule(block, n) + [NextWord(Schedule(block, n))]
  {
    hide Word, NextWord;
  }

  method Transform(state: Words, buffer: array<byte>) returns (r: Words)
    requires buffer.Length == 64
    ensures r == Compress(state, buffer[..])
  {
    hide BigSigma0, BigSigma1, Choice, Majority, RoundConstant, Schedule, Round, Rounds, Add;
    var words := PrepareWords(buffer);
    ghost var block: Block := buffer[..];
    var v := state;
    NoRounds(state, block);
    for i := 0 to 64
      invariant v == Rounds(state, block, i) && words[..] == Schedule(block, 64)
    {
      var a, b, c, d, e, f, g, h := v[0], v[1], v[2], v[3], v[4], v[5], v[6], v[7];
      var temp1 := Add(Add(Add(Add(h, BigSigma1(e)), Choice(e, f, g)), RoundConstant(i)), words[i]);
      var temp2 := Add(BigSigma0(a), Majority(a, b, c));
      assert words[..][i] == words[i];
      RoundIs(v, i, words[i], temp1, temp2);
      RoundsNext(state, block, i);
      v := [Add(temp1, temp2), a, b, c, Add(d, temp1), e, f, g];
    }
    r := [Add(state[0], v[0]), Add(state[1], v[1]), Add(state[2], v[2]), Add(state[3], v[3]),
          Add(state[4], v[4]), Add(state[5], v[5]), Add(state[6], v[6]), Add(state[7], v[7])];
  }
}
