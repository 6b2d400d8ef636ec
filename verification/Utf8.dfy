/** UTF-8 validity as the bridge checks it, against the encoding of RFC 3629 section 3. */
module Utf8 {
  import opened Bytes

  // ---------------------------------------------------------------- the encoding

  predicate IsScalar(k: int) {
    0 <= k <= 0x10FFFF && !(0xD800 <= k <= 0xDFFF)
  }

  /** The octets RFC 3629 section 3 assigns to a scalar value. */
  function Encode(k: nat): (r: bytes)
    requires k <= 0x10FFFF
    ensures 1 <= |r| <= 4
  {
    if k <= 0x7F then [k]
    else if k <= 0x7FF then [0xC0 + k / 64, 0x80 + k % 64]
    else if k <= 0xFFFF then [0xE0 + k / 4096, 0x80 + k / 64 % 64, 0x80 + k % 64]
    else [0xF0 + k / 262144, 0x80 + k / 4096 % 64, 0x80 + k / 64 % 64, 0x80 + k % 64]
  }

  /** The number that the payload bits of an encoding make, `lead` being the mark of its first octet. */
  function Payload(r: bytes, lead: int): int
    requires r != []
  {
    if |r| == 1 then r[0] as int - lead else Payload(r[..|r| - 1], lead) * 64 + (r[|r| - 1] as int - 0x80)
  }

  /** The mark of the first octet, by the number of octets. */
  function LeadMark(size: nat): int {
    if size == 2 then 0xC0 else if size == 3 then 0xE0 else if size == 4 then 0xF0 else 0
  }

  /** RFC 3629 section 3, from the octets back: how many there are, and the number their payload bits make. */
  lemma EncodeIsPositional(k: nat)
    requires k <= 0x10FFFF
    ensures |Encode(k)| == if k <= 0x7F then 1 else if k <= 0x7FF then 2 else if k <= 0xFFFF then 3 else 4
    ensures forall i :: 1 <= i < |Encode(k)| ==> 0x80 <= Encode(k)[i] <= 0xBF
    ensures Payload(Encode(k), LeadMark(|Encode(k)|)) == k
  {
    hide Payload;
    if k <= 0x7F {
      PayloadOfOne(k);
    } else if k <= 0x7FF {
      PayloadOfTwo(0xC0 + k / 64, 0x80 + k % 64, 0xC0);
    } else if k <= 0xFFFF {
      PayloadOfThree(0xE0 + k / 4096, 0x80 + k / 64 % 64, 0x80 + k % 64, 0xE0);
      SixBits(k);
    } else {
      PayloadOfFour(0xF0 + k / 262144, 0x80 + k / 4096 % 64, 0x80 + k / 64 % 64, 0x80 + k % 64, 0xF0);
      SixBits(k);
    }
  }

  lemma SixBits(k: nat)
    ensures k / 4096 * 4096 + k / 64 % 64 * 64 + k % 64 == k
    ensures k / 262144 * 262144 + k / 4096 % 64 * 4096 == k / 4096 * 4096
  {
    assert k / 4096 == k / 64 / 64 && k / 262144 == k / 4096 / 64;
  }

  lemma PayloadOfOne(a: byte)
    ensures Payload([a], 0) == a
  {
  }

  lemma PayloadOfTwo(a: byte, b: byte, lead: int)
    ensures Payload([a, b], lead) == (a as int - lead) * 64 + (b as int - 0x80)
  {
    assert [a, b][..1] == [a];
  }

  lemma PayloadOfThree(a: byte, b: byte, c: byte, lead: int)
    ensures Payload([a, b, c], lead) == (a as int - lead) * 4096 + (b as int - 0x80) * 64 + (c as int - 0x80)
  {
    assert [a, b, c][..2] == [a, b];
    PayloadOfTwo(a, b, lead);
  }

  lemma PayloadOfFour(a: byte, b: byte, c: byte, e: byte, lead: int)
    ensures Payload([a, b, c, e], lead)
            == (a as int - lead) * 262144 + (b as int - 0x80) * 4096 + (c as int - 0x80) * 64 + (e as int - 0x80)
  {
    assert [a, b, c, e][..3] == [a, b, c];
    PayloadOfThree(a, b, c, lead);
  }

  ghost predicate AllScalars(ks: seq<nat>) {
    forall i :: 0 <= i < |ks| ==> IsScalar(ks[i])
  }

  function EncodeAll(ks: seq<nat>): bytes
    requires forall i :: 0 <= i < |ks| ==> ks[i] <= 0x10FFFF
  {
    if ks == [] then [] else Encode(ks[0]) + EncodeAll(ks[1..])
  }

  /** The shifts and masks of the source, on the ranges where it uses them, are the quotients and sums above. */
  lemma ShiftsAreQuotients(k: bv32)
    requires k <= 0x10FFFF
    ensures k <= 0x7FF ==> 0xC0 | (k >> 6) == 0xC0 + k / 64
    ensures k <= 0xFFFF ==> 0xE0 | (k >> 12) == 0xE0 + k / 4096
    ensures 0xF0 | (k >> 18) == 0xF0 + k / 262144
    ensures 0x80 | (k & 0x3F) == 0x80 + k % 64
    ensures 0x80 | ((k >> 6) & 0x3F) == 0x80 + k / 64 % 64
    ensures 0x80 | ((k >> 12) & 0x3F) == 0x80 + k / 4096 % 64
  {
  }

  lemma MasksAreRanges(b: bv8, code: bv32)
    requires code <= 0x3FFFF
    ensures b & 0xC0 == 0x80 <==> 0x80 <= b <= 0xBF
    ensures (code << 6) | ((b & 0x3F) as bv32) == code * 64 + ((b % 64) as bv32)
  {
  }

  // ---------------------------------------------------------------- the scanner

  /** Between characters, inside one, or beyond repair. */
  datatype Scan = Ready | Reading(left: nat, code: nat, minimum: nat) | Bad

  function Lead(b: byte): Scan {
    if b <= 0x7F then Ready
    else if 0xC2 <= b <= 0xDF then Reading(1, b % 32, 0x80)
    else if 0xE0 <= b <= 0xEF then Reading(2, b % 16, 0x800)
    else if 0xF0 <= b <= 0xF4 then Reading(3, b % 8, 0x10000)
    else Bad
  }

  predicate InRange(code: nat, minimum: nat) {
    minimum <= code <= 0x10FFFF && !(0xD800 <= code <= 0xDFFF)
  }

  function Next(st: Scan, b: byte): Scan {
    match st
    case Bad => Bad
    case Ready => Lead(b)
    case Reading(left, code, minimum) =>
      if !(0x80 <= b <= 0xBF) then Bad
      else
        var code' := code * 64 + b % 64;
        if left > 1 then Reading(left - 1, code', minimum)
        else if InRange(code', minimum) then Ready
        else Bad
  }

  function Run(st: Scan, s: bytes): Scan
    decreases |s|
  {
    if s == [] then st else Run(Next(st, s[0]), s[1..])
  }

  predicate Valid(s: bytes) {
    Run(Ready, s) == Ready
  }

  // ---------------------------------------------------------------- laws of the scanner

  lemma {:induction false} RunConcat(st: Scan, a: bytes, b: bytes)
    ensures Run(st, a + b) == Run(Run(st, a), b)
    decreases |a|
  {
    if a == [] {
      assert a + b == b;
    } else {
      assert (a + b)[1..] == a[1..] + b;
      RunConcat(Next(st, a[0]), a[1..], b);
    }
  }

  lemma {:induction false} BadStays(s: bytes)
    ensures Run(Bad, s) == Bad
  {
    if s != [] {
      BadStays(s[1..]);
    }
  }

  /** Validity is closed under concatenation. */
  lemma ValidConcat(a: bytes, b: bytes)
    requires Valid(a) && Valid(b)
    ensures Valid(a + b)
  {
    RunConcat(Ready, a, b);
  }

  /** An ASCII octet can only follow a complete character. */
  lemma AsciiCut(st: Scan, a: bytes, x: byte, b: bytes)
    requires x <= 0x7F && Run(st, a + [x] + b) == Ready
    ensures Run(st, a) == Ready && Valid(b)
  {
    RunConcat(st, a + [x], b);
    RunConcat(st, a, [x]);
    BadStays(b);
  }

  /** Validity is closed under cutting at an ASCII octet. */
  lemma ValidCut(a: bytes, x: byte, b: bytes)
    requires x <= 0x7F && Valid(a + [x] + b)
    ensures Valid(a) && Valid(b)
  {
    AsciiCut(Ready, a, x, b);
  }

  lemma Run2(st: Scan, a: byte, b: byte)
    ensures Run(st, [a, b]) == Next(Next(st, a), b)
  {
    assert [a, b][1..] == [b];
    assert Run(Next(Next(st, a), b), [b][1..]) == Next(Next(st, a), b);
  }

  lemma Run3(st: Scan, a: byte, b: byte, c: byte)
    ensures Run(st, [a, b, c]) == Next(Next(Next(st, a), b), c)
  {
    assert [a, b, c][1..] == [b, c];
    Run2(Next(st, a), b, c);
  }

  lemma Run4(st: Scan, a: byte, b: byte, c: byte, d: byte)
    ensures Run(st, [a, b, c, d]) == Next(Next(Next(Next(st, a), b), c), d)
  {
    assert [a, b, c, d][1..] == [b, c, d];
    Run3(Next(st, a), b, c, d);
  }

  /** Splitting a number into base-64 digits. */
  lemma Digits64(k: nat)
    ensures k / 64 * 64 + k % 64 == k
    ensures k / 4096 * 64 + k / 64 % 64 == k / 64
    ensures k / 262144 * 64 + k / 4096 % 64 == k / 4096
  {
  }

  lemma EncodeValid2(k: nat)
    requires 0x80 <= k <= 0x7FF
    ensures Valid([0xC0 + k / 64, 0x80 + k % 64])
  {
    Run2(Ready, 0xC0 + k / 64, 0x80 + k % 64);
    assert (0xC0 + k / 64) % 32 == k / 64 && (0x80 + k % 64) % 64 == k % 64;
  }

  lemma EncodeValid3(k: nat)
    requires 0x800 <= k <= 0xFFFF && IsScalar(k)
    ensures Valid([0xE0 + k / 4096, 0x80 + k / 64 % 64, 0x80 + k % 64])
  {
    hide Run, Next, Lead;
    Digits64(k);
    Run3(Ready, 0xE0 + k / 4096, 0x80 + k / 64 % 64, 0x80 + k % 64);
    LeadsThree(k / 4096);
    Reads(2, k / 4096, 0x800, k / 64 % 64);
    Reads(1, k / 64, 0x800, k % 64);
  }

  lemma LeadsThree(a: nat)
    requires a <= 15
    ensures Next(Ready, 0xE0 + a) == Reading(2, a, 0x800)
  {
  }

  lemma EncodeValid4(k: nat)
    requires 0x10000 <= k <= 0x10FFFF
    ensures Valid([0xF0 + k / 262144, 0x80 + k / 4096 % 64, 0x80 + k / 64 % 64, 0x80 + k % 64])
  {
    hide Run, Next, Lead;
    var b0, b1, b2, b3 := 0xF0 + k / 262144, 0x80 + k / 4096 % 64, 0x80 + k / 64 % 64, 0x80 + k % 64;
    Digits64(k);
    Run4(Ready, b0, b1, b2, b3);
    LeadsFour(k / 262144);
    Reads(3, k / 262144, 0x10000, k / 4096 % 64);
    Reads(2, k / 4096, 0x10000, k / 64 % 64);
    Reads(1, k / 64, 0x10000, k % 64);
  }

  lemma LeadsFour(a: nat)
    requires a <= 4
    ensures Next(Ready, 0xF0 + a) == Reading(3, a, 0x10000)
  {
  }

  lemma Reads(left: nat, code: nat, minimum: nat, digit: nat)
    requires digit < 64
    ensures left > 1 ==>
              Next(Reading(left, code, minimum), 0x80 + digit) == Reading(left - 1, code * 64 + digit, minimum)
    ensures left == 1 && InRange(code * 64 + digit, minimum) ==>
              Next(Reading(left, code, minimum), 0x80 + digit) == Ready
  {
    assert (0x80 + digit) % 64 == digit;
  }

  /** Every scalar value's encoding is one complete character. */
  lemma EncodeValid(k: nat)
    requires IsScalar(k)
    ensures Valid(Encode(k))
  {
    if k <= 0x7F {
      assert [k][1..] == [];
      assert Run(Ready, [k]) == Run(Ready, [k][1..]);
    } else if k <= 0x7FF {
      EncodeValid2(k);
    } else if k <= 0xFFFF {
      EncodeValid3(k);
    } else {
      EncodeValid4(k);
    }
  }

  /** One more octet of a character that ends up complete. */
  lemma Continue(left: nat, code: nat, minimum: nat, s: bytes)
    requires left >= 1 && Run(Reading(left, code, minimum), s) == Ready
    ensures s != [] && 0x80 <= s[0] <= 0xBF
    ensures left > 1 ==> Run(Reading(left - 1, code * 64 + s[0] % 64, minimum), s[1..]) == Ready
    ensures left == 1 ==> InRange(code * 64 + s[0] % 64, minimum) && Valid(s[1..])
  {
    if s != [] {
      BadStays(s[1..]);
    }
  }

  lemma EncodeOf2(a: nat, x: byte)
    requires a < 32 && 0x80 <= x <= 0xBF && InRange(a * 64 + x % 64, 0x80)
    ensures Encode(a * 64 + x % 64) == [0xC0 + a, x]
  {
    var k := a * 64 + x % 64;
    assert k / 64 == a && k % 64 == x % 64 && x == 0x80 + x % 64;
  }

  lemma EncodeOf3(a: nat, x: byte, y: byte)
    requires a < 16 && 0x80 <= x <= 0xBF && 0x80 <= y <= 0xBF && InRange((a * 64 + x % 64) * 64 + y % 64, 0x800)
    ensures Encode((a * 64 + x % 64) * 64 + y % 64) == [0xE0 + a, x, y]
  {
    var k := (a * 64 + x % 64) * 64 + y % 64;
    assert k / 64 == a * 64 + x % 64 && k % 64 == y % 64 && k / 64 % 64 == x % 64 && k / 4096 == a;
    assert x == 0x80 + x % 64 && y == 0x80 + y % 64;
  }

  lemma EncodeOf4(a: nat, x: byte, y: byte, z: byte)
    requires a < 8 && 0x80 <= x <= 0xBF && 0x80 <= y <= 0xBF && 0x80 <= z <= 0xBF
    requires InRange(((a * 64 + x % 64) * 64 + y % 64) * 64 + z % 64, 0x10000)
    ensures Encode(((a * 64 + x % 64) * 64 + y % 64) * 64 + z % 64) == [0xF0 + a, x, y, z]
  {
    var k1 := a * 64 + x % 64;
    var k2 := k1 * 64 + y % 64;
    var k := k2 * 64 + z % 64;
    Base64Step(a, x);
    Base64Step(k1, y);
    Base64Step(k2, z);
    Digits64(k);
    assert k / 64 == k2 && k / 4096 == k1 && k / 262144 == a;
  }

  lemma Base64Step(a: nat, x: byte)
    requires 0x80 <= x <= 0xBF
    ensures (a * 64 + x % 64) / 64 == a && (a * 64 + x % 64) % 64 == x % 64 && x == 0x80 + x % 64
  {
  }

  lemma Split2(a: nat, t: bytes) returns (k: nat)
    requires a < 32 && Run(Reading(1, a, 0x80), t) == Ready
    ensures IsScalar(k) && |t| >= 1 && Encode(k) == [0xC0 + a, t[0]] && Valid(t[1..])
  {
    Continue(1, a, 0x80, t);
    EncodeOf2(a, t[0]);
    k := a * 64 + t[0] % 64;
  }

  lemma Split3(a: nat, t: bytes) returns (k: nat)
    requires a < 16 && Run(Reading(2, a, 0x800), t) == Ready
    ensures IsScalar(k) && |t| >= 2 && Encode(k) == [0xE0 + a, t[0], t[1]] && Valid(t[2..])
  {
    Continue(2, a, 0x800, t);
    Continue(1, a * 64 + t[0] % 64, 0x800, t[1..]);
    assert t[1..][1..] == t[2..];
    EncodeOf3(a, t[0], t[1]);
    k := (a * 64 + t[0] % 64) * 64 + t[1] % 64;
  }

  lemma Split4(a: nat, t: bytes) returns (k: nat)
    requires a < 8 && Run(Reading(3, a, 0x10000), t) == Ready
    ensures IsScalar(k) && |t| >= 3 && Encode(k) == [0xF0 + a, t[0], t[1], t[2]] && Valid(t[3..])
  {
    Continue(3, a, 0x10000, t);
    Continue(2, a * 64 + t[0] % 64, 0x10000, t[1..]);
    assert t[1..][1..] == t[2..];
    Continue(1, (a * 64 + t[0] % 64) * 64 + t[1] % 64, 0x10000, t[2..]);
    assert t[2..][1..] == t[3..];
    EncodeOf4(a, t[0], t[1], t[2]);
    k := ((a * 64 + t[0] % 64) * 64 + t[1] % 64) * 64 + t[2] % 64;
  }

  /** A valid non-empty string starts with the encoding of a scalar value, and the rest is valid. */
  lemma SplitFirst(s: bytes) returns (k: nat, rest: bytes)
    requires Valid(s) && s != []
    ensures IsScalar(k) && s == Encode(k) + rest && Valid(rest)
  {
    hide Encode;
    var first: nat, t := s[0], s[1..];
    BadStays(t);
    if first <= 0x7F {
      k, rest := first, t;
      assert Encode(k) == [first] by {
        EncodeAscii(k);
      }
    } else if first <= 0xDF {
      k := Split2(first - 0xC0, t);
      rest := t[1..];
    } else if first <= 0xEF {
      k := Split3(first - 0xE0, t);
      rest := t[2..];
    } else {
      k := Split4(first - 0xF0, t);
      rest := t[3..];
    }
    assert s == Encode(k) + rest;
  }

  lemma EncodeAscii(k: nat)
    requires k <= 0x7F
    ensures Encode(k) == [k]
  {
  }

  // ---------------------------------------------------------------- exactness

  lemma {:induction false} EncodeAllValid(ks: seq<nat>)
    requires AllScalars(ks)
    ensures Valid(EncodeAll(ks))
  {
    if ks != [] {
      EncodeValid(ks[0]);
      EncodeAllValid(ks[1..]);
      ValidConcat(Encode(ks[0]), EncodeAll(ks[1..]));
    }
  }

  lemma {:induction false} ValidDecodes(s: bytes) returns (ks: seq<nat>)
    requires Valid(s)
    ensures AllScalars(ks) && EncodeAll(ks) == s
    decreases |s|
  {
    if s == [] {
      ks := [];
    } else {
      var k, rest := SplitFirst(s);
      var more := ValidDecodes(rest);
      ks := [k] + more;
      assert ks[1..] == more;
    }
  }

  /** The scanner accepts exactly the concatenations of encodings of Unicode scalar values. */
  lemma ValidIffEncoded(s: bytes)
    ensures Valid(s) <==> exists ks: seq<nat> :: AllScalars(ks) && EncodeAll(ks) == s
  {
    if Valid(s) {
      var ks := ValidDecodes(s);
    }
    if exists ks: seq<nat> :: AllScalars(ks) && EncodeAll(ks) == s {
      var ks: seq<nat> :| AllScalars(ks) && EncodeAll(ks) == s;
      EncodeAllValid(ks);
    }
  }

  /** The length of an encoding shows in its first octet. */
  function Width(first: byte): nat {
    if first <= 0x7F then 1 else if first <= 0xDF then 2 else if first <= 0xEF then 3 else 4
  }

  lemma EncodeWidth(k: nat)
    requires IsScalar(k)
    ensures |Encode(k)| == Width(Encode(k)[0])
  {
  }

  lemma EncodeInjective(j: nat, k: nat)
    requires IsScalar(j) && IsScalar(k) && Encode(j) == Encode(k)
    ensures j == k
  {
    var e := Encode(j);
    assert |e| == |Encode(k)|;
    Digits64(j);
    Digits64(k);
    assert |e| >= 2 ==> e[|e| - 1] == 0x80 + j % 64 == 0x80 + k % 64;
    assert |e| == 2 ==> e[0] == 0xC0 + j / 64 == 0xC0 + k / 64;
    assert |e| == 3 ==> e[0] == 0xE0 + j / 4096 == 0xE0 + k / 4096 && e[1] == 0x80 + j / 64 % 64 == 0x80 + k / 64 % 64;
    assert |e| == 4 ==> e[0] == 0xF0 + j / 262144 == 0xF0 + k / 262144
                        && e[1] == 0x80 + j / 4096 % 64 == 0x80 + k / 4096 % 64
                        && e[2] == 0x80 + j / 64 % 64 == 0x80 + k / 64 % 64;
  }

  /** Two different scalar values never have encodings one of which starts the other. */
  lemma EncodePrefixFree(j: nat, k: nat, a: bytes, b: bytes)
    requires IsScalar(j) && IsScalar(k) && Encode(j) + a == Encode(k) + b
    ensures j == k && a == b
  {
    hide Encode;
    var s := Encode(j) + a;
    EncodeWidth(j);
    EncodeWidth(k);
    assert s[0] == Encode(j)[0] && s[0] == Encode(k)[0];
    assert s[..|Encode(j)|] == Encode(j) && s[..|Encode(k)|] == Encode(k);
    assert s[|Encode(j)|..] == a && s[|Encode(k)|..] == b;
    EncodeInjective(j, k);
  }

  /** So a valid string is the encoding of one scalar sequence only. */
  lemma {:induction false} DecodingUnique(js: seq<nat>, ks: seq<nat>)
    requires AllScalars(js) && AllScalars(ks) && EncodeAll(js) == EncodeAll(ks)
    ensures js == ks
    decreases |js|
  {
    if js == [] || ks == [] {
    } else {
      EncodePrefixFree(js[0], ks[0], EncodeAll(js[1..]), EncodeAll(ks[1..]));
      DecodingUnique(js[1..], ks[1..]);
      assert js == [js[0]] + js[1..] && ks == [ks[0]] + ks[1..];
    }
  }

  // ---------------------------------------------------------------- the check itself

  /** Fewer octets than a character still needs never complete it. */
  lemma {:induction false} Truncated(left: nat, code: nat, minimum: nat, s: bytes)
    requires |s| < left
    ensures Run(Reading(left, code, minimum), s) != Ready
    decreases |s|
  {
    if s != [] {
      BadStays(s[1..]);
      if 0x80 <= s[0] <= 0xBF {
        Truncated(left - 1, code * 64 + s[0] % 64, minimum, s[1..]);
      }
    }
  }

  method IsValidUtf8(input: bytes) returns (ok: bool)
    ensures ok <==> exists ks: seq<nat> :: AllScalars(ks) && EncodeAll(ks) == input
    ensures ok <==> Valid(input)
  {
    ValidIffEncoded(input);
    hide EncodeAll, AllScalars;
    var i := 0;
    while i < |input|
      invariant i <= |input| && Run(Ready, input) == Run(Ready, input[i..])
      decreases |input| - i
    {
      var first := input[i];
      BadStays(input[i + 1..]);
      i := i + 1;
      if first <= 0x7F {
        continue;
      }
      var count: nat, code: nat, minimum: nat := 0, 0, 0;
      if 0xC2 <= first <= 0xDF {
        count, code, minimum := 1, first % 32, 0x80;
      } else if 0xE0 <= first <= 0xEF {
        count, code, minimum := 2, first % 16, 0x800;
      } else if 0xF0 <= first <= 0xF4 {
        count, code, minimum := 3, first % 8, 0x10000;
      } else {
        return false;
      }
      assert Run(Ready, input) == Run(Reading(count, code, minimum), input[i..]);
      if i + count > |input| {
        Truncated(count, code, minimum, input[i..]);
        return false;
      }
      var n := 0;
      ghost var start := i;
      while n < count
        invariant start <= i && n <= count && i + (count - n) <= |input|
        invariant n < count ==> Run(Ready, input) == Run(Reading(count - n, code, minimum), input[i..])
        invariant n == count ==> Run(Ready, input) == (if InRange(code, minimum) then Run(Ready, input[i..]) else Bad)
      {
        var continuation := input[i];
        BadStays(input[i + 1..]);
        i := i + 1;
        if !(0x80 <= continuation <= 0xBF) {
          return false;
        }
        code := code * 64 + continuation % 64;
        n := n + 1;
      }
      if code < minimum || code > 0x10FFFF || 0xD800 <= code <= 0xDFFF {
        return false;
      }
    }
    return true;
  }
}
