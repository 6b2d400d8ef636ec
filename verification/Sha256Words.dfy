/** The words of the hash as numbers: octet order, digest words, and where the constants come from. */
module Sha256Words {
  import opened Bytes
  import opened Sha256Compression
  import opened Sha256

  // ---------------------------------------------------------------- input words (section 3.1)

  function Number(x: bv32): nat {
    x as int
  }

  function Join24(x: bv32, y: bv32): bv32 {
    (x << 24) | y
  }

  function Join16(x: bv32, y: bv32): bv32 {
    (x << 16) | y
  }

  function Join8(x: bv32, y: bv32): bv32 {
    (x << 8) | y
  }

  predicate Below8(x: bv32) {
    x < 0x100
  }

  predicate Below16(x: bv32) {
    x < 0x1_0000
  }

  predicate Below24(x: bv32) {
    x < 0x100_0000
  }

  lemma Joined24(x: bv32, y: bv32)
    requires Below8(x) && Below24(y)
    ensures Number(Join24(x, y)) == Number(x) * 0x100_0000 + Number(y)
  {
  }

  lemma Joined16(x: bv32, y: bv32)
    requires Below8(x) && Below16(y)
    ensures Number(Join16(x, y)) == Number(x) * 0x1_0000 + Number(y) && Below24(Join16(x, y))
  {
  }

  lemma Joined8(x: bv32, y: bv32)
    requires Below8(x) && Below8(y)
    ensures Number(Join8(x, y)) == Number(x) * 0x100 + Number(y) && Below16(Join8(x, y))
  {
  }

  lemma WideIsSmall(a: byte)
    ensures Below8(Wide(a))
  {
  }

  lemma OctetKept(x: bv8)
    ensures (x as bv32) as int == x as int
  {
  }

  lemma OctetNumber(a: int)
    requires 0 <= a < 256
    ensures (a as bv8) as int == a
  {
    OctetNear(a, a / 32 * 32);
  }

  lemma OctetNear(a: int, k: int)
    requires k in {0, 32, 64, 96, 128, 160, 192, 224} && k <= a < k + 32
    ensures (a as bv8) as int == a
  {
  }

  lemma WideNumber(a: byte)
    ensures Number(Wide(a)) == a
  {
    OctetNumber(a);
    OctetKept(a as bv8);
  }

  lemma WordJoins(a: byte, b: byte, c: byte, d: byte)
    ensures Word(a, b, c, d) == Join24(Wide(a), Join16(Wide(b), Join8(Wide(c), Wide(d))))
  {
    hide Wide;
  }

  lemma WordSum(a: byte, b: byte, c: byte, d: byte)
    ensures Number(Word(a, b, c, d)) as int == a as int * 0x100_0000 + b as int * 0x1_0000 + c as int * 0x100 + d
  {
    hide *;
    WideIsSmall(a);
    WideIsSmall(b);
    WideIsSmall(c);
    WideIsSmall(d);
    WideNumber(a);
    WideNumber(b);
    WideNumber(c);
    WideNumber(d);
    WordJoins(a, b, c, d);
    Joined8(Wide(c), Wide(d));
    Joined16(Wide(b), Join8(Wide(c), Wide(d)));
    Joined24(Wide(a), Join16(Wide(b), Join8(Wide(c), Wide(d))));
  }

  lemma FourOctets(s: bytes)
    requires |s| == 4
    ensures FromBigEndian(s) as int == s[0] as int * 0x100_0000 + s[1] as int * 0x1_0000 + s[2] as int * 0x100 + s[3]
  {
    assert s[..3][..2] == s[..2] && s[..2][..1] == s[..1] && s[..1][..0] == [];
    assert FromBigEndian(s[..1]) == s[0];
    assert FromBigEndian(s[..2]) as int == s[0] as int * 256 + s[1];
    assert FromBigEndian(s[..3]) as int == (s[0] as int * 256 + s[1]) * 256 + s[2];
  }

  /** Four octets of a block make the word they spell, most significant first. */
  lemma WordValue(a: byte, b: byte, c: byte, d: byte)
    ensures Word(a, b, c, d) as int == FromBigEndian([a, b, c, d])
  {
    WordSum(a, b, c, d);
    FourOctets([a, b, c, d]);
    hide Word, FromBigEndian;
  }

  /** The first sixteen words of the schedule are the block's words. */
  lemma ScheduleWord(block: Block, i: nat)
    requires i < 16
    ensures Schedule(block, 64)[i] as int == FromBigEndian(block[4 * i..4 * i + 4])
  {
    SchedulePrefix(block, 64, i);
    ScheduleLast(block, i);
    WordValue(block[4 * i], block[4 * i + 1], block[4 * i + 2], block[4 * i + 3]);
    assert block[4 * i..4 * i + 4] == [block[4 * i], block[4 * i + 1], block[4 * i + 2], block[4 * i + 3]];
    hide Word, FromBigEndian;
  }

  lemma {:induction false} SchedulePrefix(block: Block, n: nat, i: nat)
    requires i < n <= 64
    ensures Schedule(block, n)[i] == Schedule(block, i + 1)[i]
    decreases n
  {
    hide Word, NextWord;
    if i < n - 1 {
      SchedulePrefix(block, n - 1, i);
    }
  }

  lemma ScheduleLast(block: Block, i: nat)
    requires i < 16
    ensures Schedule(block, i + 1)[i] == Word(block[4 * i], block[4 * i + 1], block[4 * i + 2], block[4 * i + 3])
  {
    hide Word, NextWord;
  }

  // ---------------------------------------------------------------- output words (section 6.2.2, last step)

  /** A word is output most significant octet first. */
  lemma WordOctetsDecode(w: bv32)
    ensures FromBigEndian(WordOctets(w)) == w as int
  {
    FourOctets(WordOctets(w));
    hide FromBigEndian;
    OctetsOfNumber(w as int);
  }

  lemma OctetsOfNumber(n: int)
    requires 0 <= n < 0x1_0000_0000
    ensures n / 0x100_0000 % 256 * 0x100_0000 + n / 0x1_0000 % 256 * 0x1_0000 + n / 0x100 % 256 * 0x100 + n % 256 == n
  {
    assert n / 0x1_0000 == n / 0x100 / 256 && n / 0x100_0000 == n / 0x1_0000 / 256;
  }

  lemma {:induction false} OutputWord(ws: seq<bv32>, i: nat)
    requires i < |ws|
    ensures Output(ws)[4 * i..4 * i + 4] == WordOctets(ws[i])
    decreases |ws|
  {
    hide WordOctets;
    var n := |ws| - 1;
    if i < n {
      OutputWord(ws[..n], i);
      SliceOfPrefix(Output(ws[..n]), WordOctets(ws[n]), 4 * i, 4 * i + 4);
    } else {
      assert Output(ws)[4 * n..4 * n + 4] == WordOctets(ws[n]);
    }
  }

  lemma SliceOfPrefix(a: bytes, b: bytes, i: nat, j: nat)
    requires i <= j <= |a|
    ensures (a + b)[i..j] == a[i..j]
  {
  }

  /** Octets 4 i to 4 i + 4 of a digest spell word i of the state after the whole padded message. */
  lemma DigestWord(message: bytes, i: nat)
    requires i < 8
    ensures FromBigEndian(Digest(message)[4 * i..4 * i + 4]) == Fold(InitialState(), Pad(message))[i] as int
  {
    hide Fold, Pad, WordOctets, FromBigEndian, Output, InitialState;
    OutputWord(Fold(InitialState(), Pad(message)), i);
    WordOctetsDecode(Fold(InitialState(), Pad(message))[i]);
  }

  // ---------------------------------------------------------------- where the constants come from

  // Sections 4.2.2 and 5.3.3.

  /** The first 64 prime numbers, eight to a row. */
  const PRIMES: seq<seq<nat>> := [
    [2, 3, 5, 7, 11, 13, 17, 19],
    [23, 29, 31, 37, 41, 43, 47, 53],
    [59, 61, 67, 71, 73, 79, 83, 89],
    [97, 101, 103, 107, 109, 113, 127, 131],
    [137, 139, 149, 151, 157, 163, 167, 173],
    [179, 181, 191, 193, 197, 199, 211, 223],
    [227, 229, 233, 239, 241, 251, 257, 263],
    [269, 271, 277, 281, 283, 293, 307, 311]]

  function Prime(i: nat): nat
    requires i < 64
  {
    PRIMES[i / 8][i % 8]
  }

  /** `n` over 2^32 is the square root of `p`, cut after 32 binary places. */
  predicate IsSquareRoot(n: nat, p: nat) {
    n * n <= p * 0x1_0000_0000_0000_0000 < (n + 1) * (n + 1)
  }

  predicate IsCubeRoot(n: nat, p: nat) {
    n * n * n <= p * 0x1_0000_0000_0000_0000_0000_0000 < (n + 1) * (n + 1) * (n + 1)
  }

  ghost predicate SquareRootAt(i: nat)
    requires i < 8
  {
    exists whole: nat :: IsSquareRoot(whole * 0x1_0000_0000 + InitialState()[i] as int, Prime(i))
  }

  ghost predicate CubeRootAt(i: nat)
    requires i < 64
  {
    exists whole: nat :: IsCubeRoot(whole * 0x1_0000_0000 + RoundConstant(i) as int, Prime(i))
  }

  lemma SquareRoot(i: nat, whole: nat, part: nat, p: nat)
    requires i < 8 && InitialState()[i] as int == part && Prime(i) == p
    requires IsSquareRoot(whole * 0x1_0000_0000 + part, p)
    ensures SquareRootAt(i)
  {
  }

  lemma CubeRoot(i: nat, whole: nat, part: nat, p: nat)
    requires i < 64 && RoundConstant(i) as int == part && Prime(i) == p && IsCubeRoot(whole * 0x1_0000_0000 + part, p)
    ensures CubeRootAt(i)
  {
  }

  /** The initial state is the first 32 bits of the fractional parts of the square roots of the first eight primes. */
  lemma InitialStateIsRoots(i: nat)
    requires i < 8
    ensures SquareRootAt(i)
  {
    hide SquareRootAt;
    SquareRoot(0, 1, 0x6a09e667, 2);
    SquareRoot(1, 1, 0xbb67ae85, 3);
    SquareRoot(2, 2, 0x3c6ef372, 5);
    SquareRoot(3, 2, 0xa54ff53a, 7);
    SquareRoot(4, 3, 0x510e527f, 11);
    SquareRoot(5, 3, 0x9b05688c, 13);
    SquareRoot(6, 4, 0x1f83d9ab, 17);
    SquareRoot(7, 4, 0x5be0cd19, 19);
  }

  lemma CubeRoots0()
    ensures forall i :: 0 <= i < 4 ==> CubeRootAt(i)
  {
    hide CubeRootAt;
    CubeRoot(0, 1, 0x428a2f98, 2);
    CubeRoot(1, 1, 0x71374491, 3);
    CubeRoot(2, 1, 0xb5c0fbcf, 5);
    CubeRoot(3, 1, 0xe9b5dba5, 7);
  }

  lemma CubeRoots1()
    ensures forall i :: 4 <= i < 8 ==> CubeRootAt(i)
  {
    hide CubeRootAt;
    CubeRoot(4, 2, 0x3956c25b, 11);
    CubeRoot(5, 2, 0x59f111f1, 13);
    CubeRoot(6, 2, 0x923f82a4, 17);
    CubeRoot(7, 2, 0xab1c5ed5, 19);
  }

  lemma CubeRoots2()
    ensures forall i :: 8 <= i < 12 ==> CubeRootAt(i)
  {
    hide CubeRootAt;
    CubeRoot(8, 2, 0xd807aa98, 23);
    CubeRoot(9, 3, 0x12835b01, 29);
    CubeRoot(10, 3, 0x243185be, 31);
    CubeRoot(11, 3, 0x550c7dc3, 37);
  }

  lemma CubeRoots3()
    ensures forall i :: 12 <= i < 16 ==> CubeRootAt(i)
  {
    hide CubeRootAt;
    CubeRoot(12, 3, 0x72be5d74, 41);
    CubeRoot(13, 3, 0x80deb1fe, 43);
    CubeRoot(14, 3, 0x9bdc06a7, 47);
    CubeRoot(15, 3, 0xc19bf174, 53);
  }

  lemma CubeRoots4()
    ensures forall i :: 16 <= i < 20 ==> CubeRootAt(i)
  {
    hide CubeRootAt;
    CubeRoot(16, 3, 0xe49b69c1, 59);
    CubeRoot(17, 3, 0xefbe4786, 61);
    CubeRoot(18, 4, 0x0fc19dc6, 67);
    CubeRoot(19, 4, 0x240ca1cc, 71);
  }

  lemma CubeRoots5()
    ensures forall i :: 20 <= i < 24 ==> CubeRootAt(i)
  {
    hide CubeRootAt;
    CubeRoot(20, 4, 0x2de92c6f, 73);
    CubeRoot(21, 4, 0x4a7484aa, 79);
    CubeRoot(22, 4, 0x5cb0a9dc, 83);
    CubeRoot(23, 4, 0x76f988da, 89);
  }

  lemma CubeRoots6()
    ensures forall i :: 24 <= i < 28 ==> CubeRootAt(i)
  {
    hide CubeRootAt;
    CubeRoot(24, 4, 0x983e5152, 97);
    CubeRoot(25, 4, 0xa831c66d, 101);
    CubeRoot(26, 4, 0xb00327c8, 103);
    CubeRoot(27, 4, 0xbf597fc7, 107);
  }

  lemma CubeRoots7()
    ensures forall i :: 28 <= i < 32 ==> CubeRootAt(i)
  {
    hide CubeRootAt;
    CubeRoot(28, 4, 0xc6e00bf3, 109);
    CubeRoot(29, 4, 0xd5a79147, 113);
    CubeRoot(30, 5, 0x06ca6351, 127);
    CubeRoot(31, 5, 0x14292967, 131);
  }

  lemma CubeRoots8()
    ensures forall i :: 32 <= i < 36 ==> CubeRootAt(i)
  {
    hide CubeRootAt;
    CubeRoot(32, 5, 0x27b70a85, 137);
    CubeRoot(33, 5, 0x2e1b2138, 139);
    CubeRoot(34, 5, 0x4d2c6dfc, 149);
    CubeRoot(35, 5, 0x53380d13, 151);
  }

  lemma CubeRoots9()
    ensures forall i :: 36 <= i < 40 ==> CubeRootAt(i)
  {
    hide CubeRootAt;
    CubeRoot(36, 5, 0x650a7354, 157);
    CubeRoot(37, 5, 0x766a0abb, 163);
    CubeRoot(38, 5, 0x81c2c92e, 167);
    CubeRoot(39, 5, 0x92722c85, 173);
  }

  lemma CubeRoots10()
    ensures forall i :: 40 <= i < 44 ==> CubeRootAt(i)
  {
    hide CubeRootAt;
    CubeRoot(40, 5, 0xa2bfe8a1, 179);
    CubeRoot(41, 5, 0xa81a664b, 181);
    CubeRoot(42, 5, 0xc24b8b70, 191);
    CubeRoot(43, 5, 0xc76c51a3, 193);
  }

  lemma CubeRoots11()
    ensures forall i :: 44 <= i < 48 ==> CubeRootAt(i)
  {
    hide CubeRootAt;
    CubeRoot(44, 5, 0xd192e819, 197);
    CubeRoot(45, 5, 0xd6990624, 199);
    CubeRoot(46, 5, 0xf40e3585, 211);
    CubeRoot(47, 6, 0x106aa070, 223);
  }

  lemma CubeRoots12()
    ensures forall i :: 48 <= i < 52 ==> CubeRootAt(i)
  {
    hide CubeRootAt;
    CubeRoot(48, 6, 0x19a4c116, 227);
    CubeRoot(49, 6, 0x1e376c08, 229);
    CubeRoot(50, 6, 0x2748774c, 233);
    CubeRoot(51, 6, 0x34b0bcb5, 239);
  }

  lemma CubeRoots13()
    ensures forall i :: 52 <= i < 56 ==> CubeRootAt(i)
  {
    hide CubeRootAt;
    CubeRoot(52, 6, 0x391c0cb3, 241);
    CubeRoot(53, 6, 0x4ed8aa4a, 251);
    CubeRoot(54, 6, 0x5b9cca4f, 257);
    CubeRoot(55, 6, 0x682e6ff3, 263);
  }

  lemma CubeRoots14()
    ensures forall i :: 56 <= i < 60 ==> CubeRootAt(i)
  {
    hide CubeRootAt;
    CubeRoot(56, 6, 0x748f82ee, 269);
    CubeRoot(57, 6, 0x78a5636f, 271);
    CubeRoot(58, 6, 0x84c87814, 277);
    CubeRoot(59, 6, 0x8cc70208, 281);
  }

  lemma CubeRoots15()
    ensures forall i :: 60 <= i < 64 ==> CubeRootAt(i)
  {
    hide CubeRootAt;
    CubeRoot(60, 6, 0x90befffa, 283);
    CubeRoot(61, 6, 0xa4506ceb, 293);
    CubeRoot(62, 6, 0xbef9a3f7, 307);
    CubeRoot(63, 6, 0xc67178f2, 311);
  }

  /** The round constants are the first 32 bits of the fractional parts of the cube roots of the first 64 primes. */
  lemma RoundConstantIsRoot(i: nat)
    requires i < 64
    ensures CubeRootAt(i)
  {
    hide CubeRootAt;
    CubeRoots0();
    CubeRoots1();
    CubeRoots2();
    CubeRoots3();
    CubeRoots4();
    CubeRoots5();
    CubeRoots6();
    CubeRoots7();
    CubeRoots8();
    CubeRoots9();
    CubeRoots10();
    CubeRoots11();
    CubeRoots12();
    CubeRoots13();
    CubeRoots14();
    CubeRoots15();
  }
}
