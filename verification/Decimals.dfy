/** Decimal numbers as texts. */
module Decimals {
  import opened Ascii
  import opened Bytes

  predicate IsDigit(b: byte) {
    0x30 <= b <= 0x39
  }

  predicate AllDigits(s: bytes) {
    forall i :: 0 <= i < |s| ==> IsDigit(s[i])
  }

  function Decimal(digits: bytes): nat
    requires AllDigits(digits)
  {
    if digits == [] then 0 else Decimal(digits[..|digits| - 1]) * 10 + (digits[|digits| - 1] - 0x30)
  }

  /** Decimal digits without a leading zero. */
  predicate Canonical(s: bytes) {
    s != [] && AllDigits(s) && (|s| > 1 ==> s[0] != ZERO)
  }

  function Print(n: nat): (r: bytes)
    ensures Canonical(r)
  {
    if n < 10 then [0x30 + n] else Print(n / 10) + [0x30 + n % 10]
  }

  lemma {:induction false} PrintedValue(n: nat)
    ensures Decimal(Print(n)) == n
  {
    if n >= 10 {
      PrintedValue(n / 10);
      var s := Print(n);
      assert s[..|s| - 1] == Print(n / 10);
    } else {
      assert Decimal([]) == 0;
    }
  }

  function Power10(k: nat): (p: nat)
    ensures p >= 1
  {
    if k == 0 then 1 else 10 * Power10(k - 1)
  }

  /** Digit `i` from the right of a printed number. */
  lemma {:induction false} PrintedDigit(n: nat, i: nat)
    requires i < |Print(n)|
    ensures Print(n)[|Print(n)| - 1 - i] == 0x30 + n / Power10(i) % 10
    decreases i
  {
    if i > 0 {
      assert n >= 10;
      PrintedDigit(n / 10, i - 1);
      TenTimes(n, Power10(i - 1));
    }
  }

  lemma TenTimes(n: nat, p: nat)
    requires p >= 1
    ensures n / 10 / p == n / (10 * p)
  {
    var q, r := n / (10 * p), n % (10 * p);
    assert n == 10 * (p * q) + r;
    assert n / 10 == p * q + r / 10 && r / 10 < p;
    QuotientUnique(n / 10, p, q, r / 10);
  }

  lemma {:induction false} ValuePrinted(s: bytes)
    requires Canonical(s)
    ensures Print(Decimal(s)) == s
    decreases |s|
  {
    var init, last := s[..|s| - 1], s[|s| - 1];
    if |s| == 1 {
      assert Decimal(init) == 0;
      assert s == [last];
    } else {
      ValuePrinted(init);
      PositiveValue(init);
      assert s == init + [last];
    }
  }

  lemma {:induction false} PositiveValue(s: bytes)
    requires AllDigits(s) && s != [] && s[0] != ZERO
    ensures Decimal(s) >= 1
    decreases |s|
  {
    if |s| > 1 {
      PositiveValue(s[..|s| - 1]);
    } else {
      assert Decimal(s[..0]) == 0;
    }
  }

  lemma PrintedShort(n: nat)
    requires n <= 65535
    ensures |Print(n)| <= 5
  {
    assert |Print(n / 10 / 10 / 10 / 10)| == 1;
    assert |Print(n / 10 / 10 / 10)| <= 2;
    assert |Print(n / 10 / 10)| <= 3;
    assert |Print(n / 10)| <= 4;
  }
}
