/** UTF-8 (section 3 of RFC 3629) and decimal numerals, as far as byte lengths
    and character boundaries go. */
module Utf8 {
  type Byte = x: int | 0 <= x < 256

  function EncodeChar(c: char): (bs: seq<Byte>)
    ensures 1 <= |bs| <= 4
    ensures !IsContinuation(bs[0]) && forall k :: 1 <= k < |bs| ==> IsContinuation(bs[k])
  {
    var n := c as int;
    if n < 0x80 then [n]
    else if n < 0x800 then [0xC0 + n / 64, 0x80 + n % 64]
    else if n < 0x1_0000 then [0xE0 + n / 4096, 0x80 + n / 64 % 64, 0x80 + n % 64]
    else [0xF0 + n / 262144, 0x80 + n / 4096 % 64, 0x80 + n / 64 % 64, 0x80 + n % 64]
  }

  predicate IsContinuation(b: Byte) {
    0x80 <= b < 0xC0
  }

  function Encode(s: string): seq<Byte> {
    if s == "" then [] else EncodeChar(s[0]) + Encode(s[1..])
  }

  function ByteLen(s: string): nat {
    |Encode(s)|
  }

  /** Position `k` does not fall inside the encoding of a character. */
  predicate IsCharBoundary(bs: seq<Byte>, k: nat)
    requires k <= |bs|
  {
    k == 0 || k == |bs| || !IsContinuation(bs[k])
  }

  /** How many leading characters of `s` lie wholly within its first `k` bytes. */
  function CharsWithin(s: string, k: nat): (m: nat)
    ensures m <= |s|
  {
    if s == "" || |EncodeChar(s[0])| > k then 0
    else 1 + CharsWithin(s[1..], k - |EncodeChar(s[0])|)
  }

  lemma {:induction false} EncodeConcat(a: string, b: string)
    ensures Encode(a + b) == Encode(a) + Encode(b)
  {
    if a == "" {
      assert a + b == b;
    } else {
      assert (a + b)[1..] == a[1..] + b;
      EncodeConcat(a[1..], b);
    }
  }

  /** Cutting the bytes at a character boundary cuts the text between characters. */
  lemma {:induction false} BoundaryIsPrefix(s: string, k: nat)
    requires k <= ByteLen(s) && IsCharBoundary(Encode(s), k)
    ensures Encode(s)[..k] == Encode(s[..CharsWithin(s, k)])
  {
    if s != "" {
      var c := EncodeChar(s[0]);
      var rest := Encode(s[1..]);
      assert forall j :: 0 <= j < |c| ==> Encode(s)[j] == c[j];
      if k >= |c| {
        assert IsCharBoundary(rest, k - |c|) by {
          if |c| < k < |Encode(s)| { assert Encode(s)[k] == rest[k - |c|]; }
          if k == |c| && k < |Encode(s)| { assert k - |c| == 0; }
        }
        BoundaryIsPrefix(s[1..], k - |c|);
        var m := CharsWithin(s[1..], k - |c|);
        assert s[..m + 1][1..] == s[1..][..m];
        assert Encode(s)[..k] == c + rest[..k - |c|];
      }
    }
  }

  lemma {:induction false} AsciiLength(s: string)
    requires forall k :: 0 <= k < |s| ==> s[k] as int < 0x80
    ensures ByteLen(s) == |s|
  {
    if s != "" {
      AsciiLength(s[1..]);
    }
  }

  lemma ByteLenConcat(a: string, b: string)
    ensures ByteLen(a + b) == ByteLen(a) + ByteLen(b)
  {
    EncodeConcat(a, b);
  }

  // ---- decimal numerals ----

  function Digit(d: nat): char
    requires d < 10
  {
    '0' + d as char
  }

  function Decimal(n: nat): (s: string)
    ensures |s| >= 1 && forall k :: 0 <= k < |s| ==> '0' <= s[k] <= '9'
  {
    if n < 10 then [Digit(n)] else Decimal(n / 10) + [Digit(n % 10)]
  }

  function Pow10(k: nat): nat {
    if k == 0 then 1 else 10 * Pow10(k - 1)
  }

  /** `n` has `|Decimal(n)|` digits: it lies between the powers of ten around it. */
  lemma {:induction false} DecimalLength(n: nat)
    ensures n < Pow10(|Decimal(n)|)
    ensures n > 0 ==> Pow10(|Decimal(n)| - 1) <= n
  {
    if n >= 10 {
      DecimalLength(n / 10);
    }
  }

  lemma {:induction false} Pow10Monotonic(a: nat, b: nat)
    requires a <= b
    ensures Pow10(a) <= Pow10(b)
  {
    if a < b {
      Pow10Monotonic(a, b - 1);
    }
  }

  /** Numbers below `10^k` need at most `k` digits. */
  lemma DecimalAtMost(n: nat, k: nat)
    requires n < Pow10(k) && k >= 1
    ensures |Decimal(n)| <= k
  {
    DecimalLength(n);
    if |Decimal(n)| > k && n > 0 {
      Pow10Monotonic(k, |Decimal(n)| - 1);
    }
  }

  lemma {:induction false} DecimalInjective(a: nat, b: nat)
    requires Decimal(a) == Decimal(b)
    ensures a == b
    decreases a
  {
    var s, t := Decimal(a), Decimal(b);
    assert s[|s| - 1] == t[|t| - 1];
    assert s[|s| - 1] == Digit(a % 10) && t[|t| - 1] == Digit(b % 10);
    assert s[..|s| - 1] == t[..|t| - 1];
    if a >= 10 {
      assert s[..|s| - 1] == Decimal(a / 10);
      assert b >= 10 ==> t[..|t| - 1] == Decimal(b / 10);
      DecimalInjective(a / 10, b / 10);
    }
  }

  lemma DecimalBytes(n: nat)
    ensures ByteLen(Decimal(n)) == |Decimal(n)|
  {
    AsciiLength(Decimal(n));
  }
}
