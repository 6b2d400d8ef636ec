/** Octets, where a byte string occurs inside another, and quotients. */
module Bytes {
  type byte = b: int | 0 <= b < 256

  type bytes = seq<byte>

  /** `part` stands in `s` at position `p`. */
  ghost predicate At(s: bytes, p: nat, part: bytes) {
    p + |part| <= |s| && s[p..p + |part|] == part
  }

  lemma AtSplit(s: bytes, p: nat, a: bytes, b: bytes)
    ensures At(s, p, a + b) <==> At(s, p, a) && At(s, p + |a|, b)
  {
    if At(s, p, a + b) {
      assert s[p..p + |a|] == s[p..p + |a + b|][..|a|] == a;
      assert s[p + |a|..p + |a| + |b|] == s[p..p + |a + b|][|a|..] == b;
    }
    if At(s, p, a) && At(s, p + |a|, b) {
      assert s[p..p + |a + b|] == s[p..p + |a|] + s[p + |a|..p + |a| + |b|];
    }
  }

  lemma AtOne(s: bytes, p: nat, b: byte)
    ensures At(s, p, [b]) <==> p < |s| && s[p] == b
  {
    if p < |s| {
      assert s[p..p + 1] == [s[p]];
    }
  }

  lemma AtIndex(s: bytes, p: nat, part: bytes, i: nat)
    requires At(s, p, part) && i < |part|
    ensures p + i < |s| && s[p + i] == part[i]
  {
    assert s[p + i] == s[p..p + |part|][i];
  }

  lemma AtFits(s: bytes, p: nat, part: bytes)
    requires At(s, p, part)
    ensures p + |part| <= |s| && s[p..p + |part|] == part
  {
  }

  lemma AtThree(s: bytes, p: nat, a: bytes, b: bytes, c: bytes)
    requires At(s, p, a + (b + c))
    ensures At(s, p, a) && At(s, p + |a|, b) && At(s, p + |a| + |b|, c)
  {
    AtSplit(s, p, a, b + c);
    AtSplit(s, p + |a|, b, c);
  }

  lemma QuotientUnique(n: nat, p: nat, q: nat, r: nat)
    requires p >= 1 && n == p * q + r && r < p
    ensures n / p == q
  {
    var q' := n / p;
    assert n == p * q' + n % p;
    assert p * q - p * q' == n % p - r;
    if q' < q {
      AtLeast(p, q - q');
    } else if q' > q {
      AtLeast(p, q' - q);
    }
  }

  lemma AtLeast(p: nat, d: nat)
    requires d >= 1
    ensures p * d >= p
  {
  }
}
