/** Content digests: the text form "sha256:<64 hex digits>" and the 32 bytes it stands for. */
module Digests {
  import opened Basics

  const PREFIX := "sha256:"

  datatype Digest = Digest(text: string)

  datatype DigestError = InvalidDigest

  predicate IsHexDigit(c: char)
  {
    '0' <= c <= '9' || 'a' <= c <= 'f'
  }

  predicate IsDigest(text: string)
  {
    && |text| == |PREFIX| + 64
    && text[..|PREFIX|] == PREFIX
    && forall i :: |PREFIX| <= i < |text| ==> IsHexDigit(text[i])
  }

  /** The digests that `FromText` and `FromBytes` hand out. */
  ghost predicate Valid(d: Digest)
  {
    IsDigest(d.text)
  }

  function FromText(text: string): (r: Result<Digest, DigestError>)
    ensures r.Ok? <==> IsDigest(text)
    ensures r.Ok? ==> r.value.text == text
  {
    if IsDigest(text) then Ok(Digest(text)) else Err(InvalidDigest)
  }

  function Hex(d: Digest): string
    requires |d.text| >= |PREFIX|
  {
    d.text[|PREFIX|..]
  }

  function HexDigit(n: int): (c: char)
    requires 0 <= n < 16
    ensures IsHexDigit(c)
  {
    if n < 10 then '0' + n as char else 'a' + (n - 10) as char
  }

  function DigitValue(c: char): (n: int)
    requires IsHexDigit(c)
    ensures 0 <= n < 16
  {
    if c <= '9' then c as int - '0' as int else c as int - 'a' as int + 10
  }

  /** Lower-case hex, two digits a byte, high digit first. */
  function EncodeHex(bytes: Bytes): (hex: string)
    ensures |hex| == 2 * |bytes|
    ensures forall i :: 0 <= i < |hex| ==> IsHexDigit(hex[i])
  {
    if bytes == [] then
      ""
    else
      var last := bytes[|bytes| - 1] as int;
      EncodeHex(bytes[..|bytes| - 1]) + [HexDigit(last / 16), HexDigit(last % 16)]
  }

  function DecodeHex(hex: string): (bytes: Bytes)
    requires |hex| % 2 == 0 && forall i :: 0 <= i < |hex| ==> IsHexDigit(hex[i])
    ensures |bytes| == |hex| / 2
  {
    if hex == "" then
      []
    else
      var last := 16 * DigitValue(hex[|hex| - 2]) + DigitValue(hex[|hex| - 1]);
      DecodeHex(hex[..|hex| - 2]) + [last as byte]
  }

  function FromBytes(bytes: Bytes): (r: Result<Digest, DigestError>)
    ensures r.Ok? <==> |bytes| == 32
    ensures r.Ok? ==> Valid(r.value)
  {
    if |bytes| != 32 then Err(InvalidDigest) else Ok(Digest(PREFIX + EncodeHex(bytes)))
  }

  /** The bytes a valid digest stands for. */
  function AsBytes(d: Digest): (bytes: Bytes)
    requires Valid(d)
    ensures |bytes| == 32
  {
    DecodeHex(Hex(d))
  }

  /** The loop of the source: two hex digits at a time, most significant first. */
  method ReadBytes(d: Digest) returns (bytes: Bytes)
    requires Valid(d)
    ensures bytes == AsBytes(d)
  {
    var hex := Hex(d);
    hide DigitValue;
    bytes := [];
    var i := 0;
    while i + 1 < |hex|
      invariant i % 2 == 0 && 0 <= i <= |hex|
      invariant bytes == DecodeHex(hex[..i])
    {
      var high := DigitValue(hex[i]);
      var low := DigitValue(hex[i + 1]);
      bytes := bytes + [(16 * high + low) as byte];
      assert hex[..i + 2][..i] == hex[..i];
      i := i + 2;
    }
    assert hex[..i] == hex;
  }

  lemma ValueOfDigit(n: int)
    requires 0 <= n < 16
    ensures DigitValue(HexDigit(n)) == n
  {}

  lemma DigitsRoundTrip(high: char, low: char)
    requires IsHexDigit(high) && IsHexDigit(low)
    ensures var n := 16 * DigitValue(high) + DigitValue(low);
            0 <= n < 256 && HexDigit(n / 16) == high && HexDigit(n % 16) == low
  {}

  lemma {:induction false} DecodeEncode(bytes: Bytes)
    ensures DecodeHex(EncodeHex(bytes)) == bytes
  {
    if bytes != [] {
      hide HexDigit, DigitValue;
      var front, last := bytes[..|bytes| - 1], bytes[|bytes| - 1] as int;
      var hex := EncodeHex(bytes);
      DecodeEncode(front);
      ValueOfDigit(last / 16);
      ValueOfDigit(last % 16);
      assert hex[|hex| - 2] == HexDigit(last / 16) && hex[|hex| - 1] == HexDigit(last % 16);
      assert hex[..|hex| - 2] == EncodeHex(front);
      assert bytes == front + [bytes[|bytes| - 1]];
    }
  }

  lemma {:induction false} EncodeDecode(hex: string)
    requires |hex| % 2 == 0 && forall i :: 0 <= i < |hex| ==> IsHexDigit(hex[i])
    ensures EncodeHex(DecodeHex(hex)) == hex
  {
    if hex != "" {
      hide HexDigit, DigitValue, IsHexDigit;
      var front, bytes := hex[..|hex| - 2], DecodeHex(hex);
      var high, low := hex[|hex| - 2], hex[|hex| - 1];
      EncodeDecode(front);
      DigitsRoundTrip(high, low);
      assert bytes[|bytes| - 1] as int == 16 * DigitValue(high) + DigitValue(low);
      assert bytes[..|bytes| - 1] == DecodeHex(front);
      assert hex == front + [high, low];
    }
  }

  /** Bytes to digest and back, for all 32-byte values. */
  lemma BytesRoundTrip(bytes: Bytes)
    requires |bytes| == 32
    ensures FromBytes(bytes).Ok? && AsBytes(FromBytes(bytes).value) == bytes
    ensures FromText(FromBytes(bytes).value.text) == FromBytes(bytes)
  {
    DecodeEncode(bytes);
  }

  /** Text to bytes and back: two digests stand for the same bytes only if they are the same text. */
  lemma TextRoundTrip(d: Digest)
    requires Valid(d)
    ensures FromBytes(AsBytes(d)) == Ok(d)
  {
    EncodeDecode(Hex(d));
    assert d.text == PREFIX + Hex(d);
  }

  lemma AsBytesInjective(d: Digest, e: Digest)
    requires Valid(d) && Valid(e) && AsBytes(d) == AsBytes(e)
    ensures d == e
  {
    TextRoundTrip(d);
    TextRoundTrip(e);
  }

  const HEX_DIGITS := "0123456789abcdef"

  lemma DigitOf(n: nat)
    requires n < 16
    ensures DigitValue(HEX_DIGITS[n]) == n
  {}

  lemma {:induction false} DigitsOfBytes(hex: string, i: nat, high: nat, low: nat)
    requires |hex| % 2 == 0 && 2 * i + 1 < |hex| && high < 16 && low < 16
    requires forall k :: 0 <= k < |hex| ==> IsHexDigit(hex[k])
    requires hex[2 * i] == HEX_DIGITS[high] && hex[2 * i + 1] == HEX_DIGITS[low]
    ensures DecodeHex(hex)[i] as int == 16 * high + low
  {
    hide DigitValue, IsHexDigit;
    if 2 * i + 2 < |hex| {
      DigitsOfBytes(hex[..|hex| - 2], i, high, low);
    } else {
      DigitOf(high);
      DigitOf(low);
    }
  }

  /** A digest is "sha256:" and the bytes in lower-case hex, in order, high digit first. */
  lemma BytesOfText(d: Digest, i: nat, high: nat, low: nat)
    requires Valid(d) && i < 32 && high < 16 && low < 16
    requires d.text[7 + 2 * i] == HEX_DIGITS[high] && d.text[8 + 2 * i] == HEX_DIGITS[low]
    ensures d.text[..7] == "sha256:" && |d.text| == 71
    ensures AsBytes(d)[i] as int == 16 * high + low
  {
    DigitsOfBytes(Hex(d), i, high, low);
  }
}
