/**
  Node's `Buffer` hex codec, as the device-state cache uses it: `toString('hex')`
  writes each byte as two lower-case digits; `new Buffer(s, 'hex')` reads
  pairs of digits of either case and stops at the first pair that is not hex
  (an odd trailing digit is dropped).
 */
module Hex {

  type byte = b: int | 0 <= b < 256

  /** The lower-case digit `toString('hex')` writes for a value below 16. */
  function HexChar(k: nat): (c: char)
    requires k < 16
    ensures IsLowerHexChar(c)
  {
    if k < 10 then ('0' as int + k) as char else ('a' as int + k - 10) as char
  }

  predicate IsLowerHexChar(c: char) {
    '0' <= c <= '9' || 'a' <= c <= 'f'
  }

  /** The value of one hex digit, if it is one. */
  function DigitValue(c: char): (v: int)
    ensures -1 <= v < 16
  {
    if '0' <= c <= '9' then c as int - '0' as int
    else if 'a' <= c <= 'f' then c as int - 'a' as int + 10
    else if 'A' <= c <= 'F' then c as int - 'A' as int + 10
    else -1
  }

  /** `buffer.toString('hex')` */
  function HexEncode(bytes: seq<byte>): (s: string)
    ensures |s| == 2 * |bytes|
    ensures forall i :: 0 <= i < |s| ==> IsLowerHexChar(s[i])
  {
    if bytes == [] then ""
    else [HexChar(bytes[0] / 16), HexChar(bytes[0] % 16)] + HexEncode(bytes[1..])
  }

  /** `new Buffer(s, 'hex')` */
  function HexDecode(s: string): (bytes: seq<byte>)
    ensures |bytes| <= |s| / 2
  {
    if |s| < 2 then []
    else
      var hi, lo := DigitValue(s[0]), DigitValue(s[1]);
      if hi < 0 || lo < 0 then [] else [hi * 16 + lo] + HexDecode(s[2..])
  }

  /** Pair `j` of `s` is two hex digits, of either case. */
  predicate IsHexPair(s: string, j: nat) {
    2 * j + 1 < |s| && DigitValue(s[2 * j]) >= 0 && DigitValue(s[2 * j + 1]) >= 0
  }

  /** The byte pair `j` of `s` stands for. */
  function PairValue(s: string, j: nat): byte
    requires IsHexPair(s, j)
  {
    DigitValue(s[2 * j]) * 16 + DigitValue(s[2 * j + 1])
  }

  /**
    Decoding reads the pairs of `s` from the start: byte `j` is the value of
    pair `j`, and it stops at the first pair that is not two hex digits, or
    at a single trailing digit.
   */
  lemma {:induction false} HexDecodePairs(s: string)
    ensures forall j :: 0 <= j < |HexDecode(s)| ==> IsHexPair(s, j) && HexDecode(s)[j] == PairValue(s, j)
    ensures !IsHexPair(s, |HexDecode(s)|)
  {
    if |s| >= 2 && DigitValue(s[0]) >= 0 && DigitValue(s[1]) >= 0 {
      var t := s[2..];
      HexDecodePairs(t);
      assert HexDecode(s) == [PairValue(s, 0)] + HexDecode(t);
      forall j: nat | j <= |HexDecode(t)|
        ensures IsHexPair(s, j + 1) <==> IsHexPair(t, j)
        ensures IsHexPair(t, j) ==> PairValue(s, j + 1) == PairValue(t, j)
      {
        if 2 * j + 1 < |t| {
          assert s[2 * (j + 1)] == t[2 * j] && s[2 * (j + 1) + 1] == t[2 * j + 1];
        }
      }
      forall j | 0 < j < |HexDecode(s)|
        ensures IsHexPair(s, j) && HexDecode(s)[j] == PairValue(s, j)
      {
        assert HexDecode(s)[j] == HexDecode(t)[j - 1];
      }
    }
  }

  /** A first pair that is not hex decodes to nothing. */
  lemma HexDecodeStops(s: string)
    requires |s| < 2 || DigitValue(s[0]) < 0 || DigitValue(s[1]) < 0
    ensures HexDecode(s) == []
  {
  }

  /** A leading hex pair gives the first byte, and decoding goes on after it. */
  lemma HexDecodeStep(s: string)
    requires IsHexPair(s, 0)
    ensures HexDecode(s) == [PairValue(s, 0)] + HexDecode(s[2..])
  {
  }

  /** Decoding the hex text of a blob gives the blob back. */
  lemma {:induction false} HexRoundTrip(bytes: seq<byte>)
    ensures HexDecode(HexEncode(bytes)) == bytes
  {
    if bytes != [] {
      var b := bytes[0];
      var s := HexEncode(bytes);
      assert s[2..] == HexEncode(bytes[1..]);
      HexRoundTrip(bytes[1..]);
      assert bytes == [b] + bytes[1..];
    }
  }

  /** The text a device-state entry holds: lower-case digits, two per byte. */
  predicate IsLowerHex(s: string) {
    |s| % 2 == 0 && forall i :: 0 <= i < |s| ==> IsLowerHexChar(s[i])
  }

  /** Every lower-case hex text of even length is the encoding of its own decoding. */
  lemma {:induction false} HexEncodeOfDecode(s: string)
    requires IsLowerHex(s)
    ensures HexEncode(HexDecode(s)) == s
  {
    if |s| >= 2 {
      var hi, lo := DigitValue(s[0]), DigitValue(s[1]);
      assert 0 <= hi && 0 <= lo;
      assert HexChar(hi) == s[0] && HexChar(lo) == s[1];
      assert IsLowerHex(s[2..]);
      HexEncodeOfDecode(s[2..]);
      var b: byte := hi * 16 + lo;
      assert b / 16 == hi && b % 16 == lo;
      assert HexDecode(s) == [b] + HexDecode(s[2..]);
      assert s == [s[0], s[1]] + s[2..];
    }
  }
}
