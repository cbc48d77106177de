/**
 The encodings that byte accounting refers to: UTF-16 decoding (RFC 2781,
 section 2.2), UTF-8 encoding (RFC 3629, section 3) and decimal integers.
 */
module TextEncoding {
  import opened Options

  type CodeUnit = u: int | 0 <= u < 0x1_0000
  type Byte = b: int | 0 <= b < 0x100

  /** A Unicode scalar value: surrogate code points are excluded. */
  type Scalar = c: int | 0 <= c < 0xd800 || 0xe000 <= c < 0x11_0000

  /** What an encoder writes for a surrogate that has no partner. */
  const REPLACEMENT: Scalar := 0xfffd

  predicate IsHigh(u: CodeUnit) { 0xd800 <= u <= 0xdbff }

  predicate IsLow(u: CodeUnit) { 0xdc00 <= u <= 0xdfff }

  function FromPair(high: CodeUnit, low: CodeUnit): Scalar
    requires IsHigh(high) && IsLow(low)
  {
    0x1_0000 + (high - 0xd800) * 0x400 + (low - 0xdc00)
  }

  /** The scalar values a UTF-16 string stands for; a lone surrogate becomes the replacement character. */
  function Decode(units: seq<CodeUnit>): seq<Scalar> {
    if units == [] then []
    else if IsHigh(units[0]) && |units| > 1 && IsLow(units[1]) then [FromPair(units[0], units[1])] + Decode(units[2..])
    else if IsHigh(units[0]) || IsLow(units[0]) then [REPLACEMENT] + Decode(units[1..])
    else [units[0]] + Decode(units[1..])
  }

  /** The octets of one scalar value. */
  function Octets(c: Scalar): seq<Byte> {
    if c <= 0x7f then [c]
    else if c <= 0x7ff then [0xc0 + c / 0x40, 0x80 + c % 0x40]
    else if c <= 0xffff then [0xe0 + c / 0x1000, 0x80 + c / 0x40 % 0x40, 0x80 + c % 0x40]
    else [0xf0 + c / 0x4_0000, 0x80 + c / 0x1000 % 0x40, 0x80 + c / 0x40 % 0x40, 0x80 + c % 0x40]
  }

  function Encode(text: seq<Scalar>): seq<Byte> {
    if text == [] then [] else Octets(text[0]) + Encode(text[1..])
  }

  /** The UTF-8 form of a UTF-16 string. */
  function ToUtf8(units: seq<CodeUnit>): seq<Byte> {
    Encode(Decode(units))
  }

  /** Reads one scalar value off the front of an octet string, by the bit layout of RFC 3629. */
  function ReadScalar(octets: seq<Byte>): Option<(Scalar, nat)> {
    if octets == [] then None
    else if octets[0] < 0x80 then Some((octets[0], 1))
    else if 0xc0 <= octets[0] < 0xe0 && |octets| >= 2 then Scalars(Bits2(octets[0], octets[1]), 2)
    else if 0xe0 <= octets[0] < 0xf0 && |octets| >= 3 then Scalars(Bits3(octets[0], octets[1], octets[2]), 3)
    else if 0xf0 <= octets[0] < 0xf8 && |octets| >= 4 then
      Scalars(Bits4(octets[0], octets[1], octets[2], octets[3]), 4)
    else None
  }

  function Scalars(c: int, n: nat): Option<(Scalar, nat)> {
    if 0 <= c < 0xd800 || 0xe000 <= c < 0x11_0000 then Some((c, n)) else None
  }

  function Bits2(a: int, b: int): int { (a - 0xc0) * 0x40 + (b - 0x80) }

  function Bits3(a: int, b: int, c: int): int { (a - 0xe0) * 0x1000 + (b - 0x80) * 0x40 + (c - 0x80) }

  function Bits4(a: int, b: int, c: int, d: int): int {
    (a - 0xf0) * 0x4_0000 + (b - 0x80) * 0x1000 + (c - 0x80) * 0x40 + (d - 0x80)
  }

  function Read(octets: seq<Byte>): Option<seq<Scalar>>
    decreases |octets|
  {
    if octets == [] then Some([])
    else match ReadScalar(octets)
      case None => None
      case Some((c, n)) =>
        if n > |octets| || n == 0 then None
        else match Read(octets[n..])
          case None => None
          case Some(rest) => Some([c] + rest)
  }

  lemma BitsRebuild(c: int)
    requires 0 <= c < 0x11_0000
    ensures Bits2(0xc0 + c / 0x40, 0x80 + c % 0x40) == c
    ensures Bits3(0xe0 + c / 0x1000, 0x80 + c / 0x40 % 0x40, 0x80 + c % 0x40) == c
    ensures Bits4(0xf0 + c / 0x4_0000, 0x80 + c / 0x1000 % 0x40, 0x80 + c / 0x40 % 0x40, 0x80 + c % 0x40) == c
  {
    var low, mid, high := c / 0x40, c / 0x1000, c / 0x4_0000;
    assert mid == low / 0x40;
    assert high == mid / 0x40;
    assert c == low * 0x40 + c % 0x40;
    assert low == mid * 0x40 + low % 0x40;
    assert mid == high * 0x40 + mid % 0x40;
  }

  lemma OneScalarReads(c: Scalar, rest: seq<Byte>)
    ensures ReadScalar(Octets(c) + rest) == Some((c, |Octets(c)|))
  {
    var o := Octets(c) + rest;
    BitsRebuild(c);
    hide Bits2, Bits3, Bits4;
    assert forall i :: 0 <= i < |Octets(c)| ==> o[i] == Octets(c)[i];
  }

  /** The encoding loses nothing: reading the octets gives the text back. */
  lemma {:induction false} EncodingReadsBack(text: seq<Scalar>)
    ensures Read(Encode(text)) == Some(text)
  {
    if text != [] {
      var rest := Encode(text[1..]);
      OneScalarReads(text[0], rest);
      EncodingReadsBack(text[1..]);
      assert (Octets(text[0]) + rest)[|Octets(text[0])|..] == rest;
      assert [text[0]] + text[1..] == text;
    }
  }

  function Digits(n: nat): (d: string)
    ensures |d| >= 1
  {
    if n < 10 then ['0' + n as char] else Digits(n / 10) + ['0' + (n % 10) as char]
  }

  function Decimal(n: int): string {
    if n < 0 then "-" + Digits(-n) else Digits(n)
  }

  lemma {:induction false} DigitsDiffer(a: nat, b: nat)
    ensures Digits(a) == Digits(b) ==> a == b
    decreases a
  {
    var x, y := Digits(a), Digits(b);
    if x == y && a >= 10 && b >= 10 {
      assert x[..|x| - 1] == Digits(a / 10) && y[..|y| - 1] == Digits(b / 10);
      DigitsDiffer(a / 10, b / 10);
      assert x[|x| - 1] == y[|y| - 1];
    }
  }

  function Power10(k: nat): nat {
    if k == 0 then 1 else 10 * Power10(k - 1)
  }

  /** The number of digits of n is the k with 10^(k-1) <= n < 10^k. */
  lemma {:induction false} DigitCount(n: nat, k: nat)
    requires k >= 1
    requires k == 1 || Power10(k - 1) <= n
    requires n < Power10(k)
    ensures |Digits(n)| == k
  {
    if n < 10 {
      if k > 1 { PowerGrows(1, k - 1); }
    } else {
      DigitCount(n / 10, k - 1);
    }
  }

  lemma {:induction false} PowerGrows(j: nat, k: nat)
    requires j <= k
    ensures Power10(j) <= Power10(k) && 1 <= Power10(j)
    decreases k
  {
    if k > 0 {
      if j == k { PowerGrows(j - 1, k - 1); } else { PowerGrows(j, k - 1); }
    }
  }
}
