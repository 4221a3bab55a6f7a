// Zero-padded integer formatting as done by Python's "{n:08x}" and "{n:03d}"
// format specifications: at least `width` digits, more when the number needs
// them, lower-case hexadecimal letters.
module Fmt {

  function Pow(base: nat, k: nat): (r: nat)
    requires base >= 2
    ensures r >= 1
  {
    if k == 0 then 1 else base * Pow(base, k - 1)
  }

  /** The character of one digit: '0'..'9', then 'a'..'f'. */
  function DigitChar(d: nat): (c: char)
    requires d < 16
    ensures '0' <= c <= '9' || 'a' <= c <= 'f'
  {
    if d < 10 then (48 + d) as char else (87 + d) as char
  }

  lemma DigitCharInjective(d1: nat, d2: nat)
    requires d1 < 16 && d2 < 16 && DigitChar(d1) == DigitChar(d2)
    ensures d1 == d2
  {
  }

  /** Number of digits needed to write n in the given base (at least one). */
  function NumDigits(n: nat, base: nat): (k: nat)
    requires 2 <= base <= 16
    ensures k >= 1
  {
    if n < base then 1 else 1 + NumDigits(n / base, base)
  }

  lemma MulMonotone(b: nat, x: nat, y: nat)
    requires x <= y
    ensures b * x <= b * y
  {
    assert b * y == b * x + b * (y - x);
  }

  /** n < b * P exactly when n / b < P (Euclidean division, b >= 1). */
  lemma DivBelow(n: nat, b: nat, p: nat)
    requires b >= 1
    ensures n < b * p <==> n / b < p
  {
    var q, r := n / b, n % b;
    assert n == b * q + r && r < b;
    if q < p {
      MulMonotone(b, q + 1, p);
      assert b * (q + 1) == b * q + b;
    } else {
      MulMonotone(b, p, q);
    }
  }

  lemma {:induction false} NumDigitsBound(n: nat, base: nat)
    requires 2 <= base <= 16
    ensures n < Pow(base, NumDigits(n, base))
  {
    if n >= base {
      NumDigitsBound(n / base, base);
      DivBelow(n, base, Pow(base, NumDigits(n / base, base)));
    }
  }

  /** Exactly k digits of n, most significant first (n taken modulo base^k). */
  function Fixed(n: nat, k: nat, base: nat): (s: string)
    requires 2 <= base <= 16
    ensures |s| == k
  {
    if k == 0 then "" else Fixed(n / base, k - 1, base) + [DigitChar(n % base)]
  }

  lemma DivModDetermines(a: nat, b: nat, base: nat)
    requires base >= 1 && a / base == b / base && a % base == b % base
    ensures a == b
  {
    assert a == base * (a / base) + a % base;
    assert b == base * (b / base) + b % base;
  }

  /** The last character of Fixed is the lowest digit, the rest is the higher part. */
  lemma FixedSplit(n: nat, k: nat, base: nat)
    requires 2 <= base <= 16 && k >= 1
    ensures Fixed(n, k, base)[..k - 1] == Fixed(n / base, k - 1, base)
    ensures Fixed(n, k, base)[k - 1] == DigitChar(n % base)
  {
  }

  /** Equal renderings have equal lowest digits and equal higher parts. */
  lemma FixedEqualParts(a: nat, b: nat, k: nat, base: nat)
    requires 2 <= base <= 16 && k >= 1
    requires Fixed(a, k, base) == Fixed(b, k, base)
    ensures a % base == b % base
    ensures Fixed(a / base, k - 1, base) == Fixed(b / base, k - 1, base)
  {
    FixedSplit(a, k, base);
    FixedSplit(b, k, base);
    DigitCharInjective(a % base, b % base);
  }

  lemma NumDigitsQuot(n: nat, k: nat, base: nat)
    requires 2 <= base <= 16 && NumDigits(n, base) <= k
    ensures k >= 1
    ensures n < base ==> n / base == 0
    ensures n >= base ==> NumDigits(n / base, base) <= k - 1
  {
  }

  /** Numbers of at most k digits are told apart by their k-digit rendering. */
  lemma {:induction false} FixedInjective(a: nat, b: nat, k: nat, base: nat)
    requires 2 <= base <= 16
    requires NumDigits(a, base) <= k && NumDigits(b, base) <= k
    requires Fixed(a, k, base) == Fixed(b, k, base)
    ensures a == b
    decreases k
  {
    NumDigitsQuot(a, k, base);
    NumDigitsQuot(b, k, base);
    FixedEqualParts(a, b, k, base);
    var qa, qb := a / base, b / base;
    if a >= base || b >= base {
      assert k >= 2;
      FixedInjective(qa, qb, k - 1, base);
    }
    DivModDetermines(a, b, base);
  }

  /** n written with at least `width` digits, zero-padded on the left. */
  function Padded(n: nat, width: nat, base: nat): (s: string)
    requires 2 <= base <= 16
    ensures |s| == if width >= NumDigits(n, base) then width else NumDigits(n, base)
  {
    var k := if width >= NumDigits(n, base) then width else NumDigits(n, base);
    Fixed(n, k, base)
  }

  /** Padding never merges two numbers: the rendering is injective. */
  lemma PaddedInjective(a: nat, b: nat, width: nat, base: nat)
    requires 2 <= base <= 16
    requires Padded(a, width, base) == Padded(b, width, base)
    ensures a == b
  {
    FixedInjective(a, b, |Padded(a, width, base)|, base);
  }

  /** A number below base^width is written with exactly `width` digits. */
  lemma {:induction false} PaddedWidthExact(n: nat, width: nat, base: nat)
    requires 2 <= base <= 16
    requires width >= 1 && n < Pow(base, width)
    ensures |Padded(n, width, base)| == width
  {
    NumDigitsFits(n, width, base);
  }

  lemma {:induction false} NumDigitsFits(n: nat, width: nat, base: nat)
    requires 2 <= base <= 16
    requires width >= 1 && n < Pow(base, width)
    ensures NumDigits(n, base) <= width
    decreases width
  {
    if n >= base {
      assert Pow(base, width) == base * Pow(base, width - 1);
      DivBelow(n, base, Pow(base, width - 1));
      NumDigitsFits(n / base, width - 1, base);
    }
  }

  function Hex(n: nat, width: nat): string { Padded(n, width, 16) }

  function Dec(n: nat, width: nat): string { Padded(n, width, 10) }

  /** Python's str(n) for a natural number. */
  function Str(n: nat): string { Padded(n, 1, 10) }

  /** Every rendered character is a digit: never a dash, and only '0'..'9' in bases up to ten. */
  lemma {:induction false} FixedDigits(n: nat, k: nat, base: nat, i: nat)
    requires 2 <= base <= 16 && i < k
    ensures Fixed(n, k, base)[i] != '-'
    ensures base <= 10 ==> '0' <= Fixed(n, k, base)[i] <= '9'
    decreases k
  {
    var s := Fixed(n, k, base);
    var q, d := n / base, n % base;
    var hi := Fixed(q, k - 1, base);
    assert s == hi + [DigitChar(d)];
    if i < k - 1 {
      FixedDigits(q, k - 1, base, i);
      assert s[i] == hi[i];
    } else {
      assert s[i] == DigitChar(d);
      DecimalDigit(d, base);
    }
  }

  lemma DecimalDigit(d: nat, base: nat)
    requires 2 <= base <= 16 && d < base
    ensures DigitChar(d) != '-'
    ensures base <= 10 ==> '0' <= DigitChar(d) <= '9'
  {
  }

  lemma HexNoDash(n: nat, width: nat)
    ensures forall i :: 0 <= i < |Hex(n, width)| ==> Hex(n, width)[i] != '-'
  {
    forall i | 0 <= i < |Hex(n, width)|
      ensures Hex(n, width)[i] != '-'
    {
      FixedDigits(n, |Hex(n, width)|, 16, i);
    }
  }

  /** str(n) consists of decimal digits only. */
  lemma StrDigits(n: nat)
    ensures forall i :: 0 <= i < |Str(n)| ==> '0' <= Str(n)[i] <= '9'
  {
    forall i | 0 <= i < |Str(n)|
      ensures '0' <= Str(n)[i] <= '9'
    {
      FixedDigits(n, |Str(n)|, 10, i);
    }
  }

  /** Position of the first dash in s, or |s| when there is none. */
  function FirstDash(s: string): (k: nat)
    ensures k <= |s|
  {
    if |s| == 0 || s[0] == '-' then 0 else 1 + FirstDash(s[1..])
  }

  lemma {:induction false} FirstDashAfter(h: string, r: string)
    requires forall i :: 0 <= i < |h| ==> h[i] != '-'
    requires |r| > 0 && r[0] == '-'
    ensures FirstDash(h + r) == |h|
  {
    if |h| > 0 {
      assert (h + r)[1..] == h[1..] + r;
      FirstDashAfter(h[1..], r);
    }
  }

  /**
   * A sequential UUID: n written in 8 and in 12 hexadecimal digits around a
   * fixed middle part that starts with a dash.
   */
  function SeqUuid(n: nat, mid: string): string
  {
    Hex(n, 8) + mid + Hex(n, 12)
  }

  /** Different counter values give different UUIDs, however large they grow. */
  lemma SeqUuidInjective(a: nat, b: nat, mid: string)
    requires |mid| > 0 && mid[0] == '-'
    requires SeqUuid(a, mid) == SeqUuid(b, mid)
    ensures a == b
  {
    var ha, hb := Hex(a, 8), Hex(b, 8);
    HexNoDash(a, 8);
    HexNoDash(b, 8);
    assert SeqUuid(a, mid) == ha + (mid + Hex(a, 12));
    assert SeqUuid(b, mid) == hb + (mid + Hex(b, 12));
    FirstDashAfter(ha, mid + Hex(a, 12));
    FirstDashAfter(hb, mid + Hex(b, 12));
    assert ha == SeqUuid(a, mid)[..|ha|];
    assert hb == SeqUuid(b, mid)[..|hb|];
    PaddedInjective(a, b, 8, 16);
  }

  /** Below 2^32 both hexadecimal fields have their nominal width: 36 characters with a 16-character middle. */
  lemma SeqUuidLength(n: nat, mid: string)
    requires n < 0x1_0000_0000
    ensures |SeqUuid(n, mid)| == 20 + |mid|
  {
    assert Pow(16, 8) == 0x1_0000_0000;
    assert Pow(16, 12) == 0x1_0000_0000_0000;
    PaddedWidthExact(n, 8, 16);
    PaddedWidthExact(n, 12, 16);
  }
}
