/** Decimal and hexadecimal text. */
module Text {
  import opened Crypto

  const DIGITS: string := "0123456789abcdef"

  predicate IsHexDigit(c: char) {
    '0' <= c <= '9' || 'a' <= c <= 'f' || 'A' <= c <= 'F'
  }

  function Digit(n: nat): (c: char)
    requires n < 16
    ensures c != ':' && IsHexDigit(c) && DigitValue(c) == n
  {
    DIGITS[n]
  }

  function DigitValue(c: char): nat
    requires IsHexDigit(c)
  {
    if c <= '9' then c as int - '0' as int
    else if c <= 'F' then c as int - 'A' as int + 10
    else c as int - 'a' as int + 10
  }

  function Decimal(n: nat): string {
    if n < 10 then [Digit(n)] else Decimal(n / 10) + [Digit(n % 10)]
  }

  lemma {:induction false} DecimalShape(n: nat)
    ensures |Decimal(n)| >= 1 && (|Decimal(n)| == 1 <==> n < 10) && ':' !in Decimal(n)
  {
    if n >= 10 {
      DecimalShape(n / 10);
    }
  }

  lemma {:induction false} DecimalInjective(m: nat, n: nat)
    requires Decimal(m) == Decimal(n)
    ensures m == n
  {
    DecimalShape(m);
    DecimalShape(n);
    assert Decimal(m)[|Decimal(m)| - 1] == Digit(m % 10) && Decimal(n)[|Decimal(n)| - 1] == Digit(n % 10);
    if m >= 10 {
      assert Decimal(m / 10) == Decimal(m)[..|Decimal(m)| - 1] == Decimal(n)[..|Decimal(n)| - 1] == Decimal(n / 10);
      DecimalInjective(m / 10, n / 10);
    }
  }

  predicate IsDigits(s: string) {
    forall i :: 0 <= i < |s| ==> '0' <= s[i] <= '9'
  }

  /** The number that decimal digits stand for, the first one the most significant. */
  function DecimalValue(s: string): nat
    requires IsDigits(s)
  {
    if s == [] then 0
    else DecimalValue(s[..|s| - 1]) * 10 + (s[|s| - 1] as int - '0' as int)
  }

  lemma DecimalSnoc(s: string, n: nat)
    requires IsDigits(s) && n < 10
    ensures IsDigits(s + [Digit(n)]) && DecimalValue(s + [Digit(n)]) == 10 * DecimalValue(s) + n
  {
    var t := s + [Digit(n)];
    assert t[..|t| - 1] == s;
  }

  /** Decimal text: digits with that value, and no zero in front. */
  lemma {:induction false} DecimalExact(n: nat)
    ensures IsDigits(Decimal(n)) && DecimalValue(Decimal(n)) == n
    ensures Decimal(n) != [] && (Decimal(n)[0] == '0' ==> n == 0)
  {
    if n >= 10 {
      DecimalExact(n / 10);
      DecimalSnoc(Decimal(n / 10), n % 10);
    }
  }

  function HexEncode(b: seq<byte>): string {
    if b == [] then []
    else [Digit(b[0] as int / 16), Digit(b[0] as int % 16)] + HexEncode(b[1..])
  }

  function HexDecode(s: string): Option<seq<byte>> {
    if s == [] then Some([])
    else if |s| == 1 || !IsHexDigit(s[0]) || !IsHexDigit(s[1]) then None
    else match HexDecode(s[2..])
      case None => None
      case Some(rest) => Some([(16 * DigitValue(s[0]) + DigitValue(s[1])) as byte] + rest)
  }

  /** Hex text: two lower-case digits to a byte, the high one first. */
  lemma {:induction false} HexBytewise(b: seq<byte>, i: nat)
    requires i < |b|
    ensures |HexEncode(b)| == 2 * |b|
    ensures HexEncode(b)[2 * i] == "0123456789abcdef"[b[i] as int / 16]
    ensures HexEncode(b)[2 * i + 1] == "0123456789abcdef"[b[i] as int % 16]
  {
    HexRoundTrip(b);
    if i > 0 {
      HexBytewise(b[1..], i - 1);
    }
  }

  /** Either case of a digit is read as the same value. */
  lemma HexDigits(c: char, k: nat)
    ensures IsHexDigit(c) <==> c in "0123456789abcdefABCDEF"
    ensures k < 16 ==> DigitValue("0123456789abcdef"[k]) == k && DigitValue("0123456789ABCDEF"[k]) == k
  {
  }

  /** Decoding: the first digit of a pair is the high one. */
  lemma {:induction false} HexDecodeBytewise(s: string, i: nat)
    requires HexDecode(s).Some? && i < |HexDecode(s).value|
    ensures |s| == 2 * |HexDecode(s).value| && IsHexDigit(s[2 * i]) && IsHexDigit(s[2 * i + 1])
    ensures HexDecode(s).value[i] as int == 16 * DigitValue(s[2 * i]) + DigitValue(s[2 * i + 1])
  {
    HexDecodes(s);
    assert s[2 * i] in s && s[2 * i + 1] in s;
    if i > 0 {
      HexDecodeBytewise(s[2..], i - 1);
    }
  }

  lemma ByteFromDigits(x: byte)
    ensures 16 * DigitValue(Digit(x as int / 16)) + DigitValue(Digit(x as int % 16)) == x as int
  {
  }

  lemma DecodeStep(x: byte, rest: string)
    requires HexDecode(rest).Some?
    ensures HexDecode([Digit(x as int / 16), Digit(x as int % 16)] + rest) == Some([x] + HexDecode(rest).value)
  {
    var s := [Digit(x as int / 16), Digit(x as int % 16)] + rest;
    assert s[2..] == rest;
    ByteFromDigits(x);
  }

  lemma {:induction false} HexRoundTrip(b: seq<byte>)
    ensures HexDecode(HexEncode(b)) == Some(b) && |HexEncode(b)| == 2 * |b|
  {
    if b != [] {
      HexRoundTrip(b[1..]);
      DecodeStep(b[0], HexEncode(b[1..]));
      assert b == [b[0]] + b[1..];
    }
  }

  lemma HexInjective(b: seq<byte>, c: seq<byte>)
    requires HexEncode(b) == HexEncode(c)
    ensures b == c
  {
    HexRoundTrip(b);
    HexRoundTrip(c);
  }

  /** What decodes: hex digits in pairs, two to a byte. */
  lemma {:induction false} HexDecodes(s: string)
    ensures HexDecode(s).Some? <==> |s| % 2 == 0 && forall c :: c in s ==> IsHexDigit(c)
    ensures HexDecode(s).Some? ==> 2 * |HexDecode(s).value| == |s|
  {
    if |s| >= 2 {
      HexDecodes(s[2..]);
      assert s == [s[0], s[1]] + s[2..];
    }
  }
}
