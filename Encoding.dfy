/**
 * The two text encodings the session code relies on:
 *  - base 32 with the alphabet of section 6 of RFC 4648, lower-cased and
 *    without `=` padding (the transport form of a session token), and
 *  - base 16 of section 8 of RFC 4648, lower-cased (the storage form of a
 *    session id).
 * Each encoder is paired with a decoder and the round trip is proved.
 * Base 32 works on the big-endian bit string of the input, five bits per
 * character, the last group filled with zero bits.
 */
module Encoding {
  import opened Wrappers

  type byte = x: int | 0 <= x < 256

  function Pow2(k: nat): (p: nat)
    ensures p >= 1
  {
    if k == 0 then 1 else 2 * Pow2(k - 1)
  }

  /** The `k` low-order bits of `v`, most significant first. */
  function ToBits(v: nat, k: nat): (bits: seq<bool>)
    ensures |bits| == k
  {
    if k == 0 then [] else ToBits(v / 2, k - 1) + [v % 2 == 1]
  }

  /** The number whose binary digits, most significant first, are `bits`. */
  function FromBits(bits: seq<bool>): (v: nat)
    ensures v < Pow2(|bits|)
  {
    if bits == [] then 0
    else 2 * FromBits(bits[..|bits| - 1]) + (if bits[|bits| - 1] then 1 else 0)
  }

  lemma {:induction false} FromToBits(v: nat, k: nat)
    requires v < Pow2(k)
    ensures FromBits(ToBits(v, k)) == v
  {
    if k > 0 {
      assert ToBits(v, k)[..k - 1] == ToBits(v / 2, k - 1);
      FromToBits(v / 2, k - 1);
    }
  }

  lemma {:induction false} ToFromBits(bits: seq<bool>)
    ensures ToBits(FromBits(bits), |bits|) == bits
  {
    if bits != [] {
      var n := |bits| - 1;
      ToFromBits(bits[..n]);
      assert bits == bits[..n] + [bits[n]];
    }
  }

  function Zeros(n: nat): (z: seq<bool>)
    ensures |z| == n && forall i :: 0 <= i < n ==> !z[i]
  {
    seq(n, _ => false)
  }

  /** The bits of each byte in turn, eight per byte, most significant first. */
  function BytesToBits(bs: seq<byte>): (bits: seq<bool>)
    ensures |bits| == 8 * |bs|
  {
    if bs == [] then [] else ToBits(bs[0], 8) + BytesToBits(bs[1..])
  }

  function BitsToBytes(bits: seq<bool>): (bs: seq<byte>)
    requires |bits| % 8 == 0
    ensures |bs| == |bits| / 8
  {
    if bits == [] then []
    else
      assert Pow2(8) == 256;
      [FromBits(bits[..8]) as byte] + BitsToBytes(bits[8..])
  }

  lemma {:induction false} BytesBitsRoundTrip(bs: seq<byte>)
    ensures BitsToBytes(BytesToBits(bs)) == bs
  {
    if bs != [] {
      var bits := BytesToBits(bs);
      assert bits[..8] == ToBits(bs[0], 8);
      assert bits[8..] == BytesToBits(bs[1..]);
      assert Pow2(8) == 256;
      FromToBits(bs[0], 8);
      BytesBitsRoundTrip(bs[1..]);
    }
  }

  // ---------------------------------------------------------------- base 32

  predicate IsBase32LowerDigit(c: char) {
    'a' <= c <= 'z' || '2' <= c <= '7'
  }

  /** The character for the 5-bit value `v`: `a`-`z` for 0-25, `2`-`7` for 26-31. */
  function Base32Digit(v: nat): (c: char)
    requires v < 32
    ensures IsBase32LowerDigit(c)
  {
    if v < 26 then ('a' as int + v) as char else ('2' as int + (v - 26)) as char
  }

  function Base32Value(c: char): (r: Option<nat>)
    ensures r.Some? <==> IsBase32LowerDigit(c)
  {
    if 'a' <= c <= 'z' then Some(c as int - 'a' as int)
    else if '2' <= c <= '7' then Some(c as int - '2' as int + 26)
    else None
  }

  lemma Base32DigitValue(v: nat)
    requires v < 32
    ensures Base32Value(Base32Digit(v)) == Some(v)
  {
  }

  /** Zero bits appended so that a bit string fills whole 5-bit groups. */
  function Padding(n: nat): nat {
    (5 - n % 5) % 5
  }

  function EncodeBits(bits: seq<bool>): (s: string)
    ensures |s| == (|bits| + 4) / 5
    ensures forall i :: 0 <= i < |s| ==> IsBase32LowerDigit(s[i])
    decreases |bits|
  {
    assert Pow2(5) == 32;
    if bits == [] then ""
    else if |bits| < 5 then [Base32Digit(FromBits(bits + Zeros(5 - |bits|)))]
    else [Base32Digit(FromBits(bits[..5]))] + EncodeBits(bits[5..])
  }

  /** `encodeBase32LowerCaseNoPadding`. */
  function EncodeBase32LowerCaseNoPadding(bs: seq<byte>): (s: string)
    ensures |s| == (8 * |bs| + 4) / 5
    ensures forall i :: 0 <= i < |s| ==> IsBase32LowerDigit(s[i])
  {
    EncodeBits(BytesToBits(bs))
  }

  /** Five bits per character; `None` on a character outside the alphabet. */
  function DecodeDigits(s: string): (r: Option<seq<bool>>)
    ensures r.Some? ==> |r.value| == 5 * |s|
  {
    if s == [] then Some([])
    else match (Base32Value(s[0]), DecodeDigits(s[1..]))
      case (Some(v), Some(rest)) => Some(ToBits(v, 5) + rest)
      case _ => None
  }

  /** Decoder for the encoding above: the trailing bits that do not fill a byte are dropped. */
  function DecodeBase32LowerCaseNoPadding(s: string): (r: Option<seq<byte>>)
  {
    match DecodeDigits(s)
    case None => None
    case Some(bits) => Some(BitsToBytes(bits[..8 * (|bits| / 8)]))
  }

  lemma {:induction false} DecodeEncodeBits(bits: seq<bool>)
    ensures DecodeDigits(EncodeBits(bits)) == Some(bits + Zeros(Padding(|bits|)))
    decreases |bits|
  {
    assert Pow2(5) == 32;
    var s := EncodeBits(bits);
    if bits == [] {
      assert bits + Zeros(0) == bits;
    } else if |bits| < 5 {
      var padded := bits + Zeros(5 - |bits|);
      ToFromBits(padded);
      Base32DigitValue(FromBits(padded));
      assert s == [Base32Digit(FromBits(padded))];
      assert s[1..] == "";
      assert Padding(|bits|) == 5 - |bits|;
      assert ToBits(FromBits(padded), 5) + [] == padded;
    } else {
      var head := bits[..5];
      ToFromBits(head);
      Base32DigitValue(FromBits(head));
      assert s[0] == Base32Digit(FromBits(head));
      assert s[1..] == EncodeBits(bits[5..]);
      DecodeEncodeBits(bits[5..]);
      assert Padding(|bits| - 5) == Padding(|bits|);
      assert bits == head + bits[5..];
      assert head + (bits[5..] + Zeros(Padding(|bits|))) == bits + Zeros(Padding(|bits|));
    }
  }

  /** Decoding an encoded byte string gives it back. */
  lemma Base32RoundTrip(bs: seq<byte>)
    ensures DecodeBase32LowerCaseNoPadding(EncodeBase32LowerCaseNoPadding(bs)) == Some(bs)
  {
    var bits := BytesToBits(bs);
    DecodeEncodeBits(bits);
    var padded := bits + Zeros(Padding(|bits|));
    assert |padded| / 8 == |bs|;
    assert padded[..8 * |bs|] == bits;
    BytesBitsRoundTrip(bs);
  }

  // ---------------------------------------------------------------- base 16

  predicate IsLowerHexDigit(c: char) {
    '0' <= c <= '9' || 'a' <= c <= 'f'
  }

  function HexDigit(v: nat): (c: char)
    requires v < 16
    ensures IsLowerHexDigit(c)
  {
    if v < 10 then ('0' as int + v) as char else ('a' as int + (v - 10)) as char
  }

  function HexValue(c: char): (r: Option<nat>)
    ensures r.Some? <==> IsLowerHexDigit(c)
    ensures r.Some? ==> r.value < 16
  {
    if '0' <= c <= '9' then Some(c as int - '0' as int)
    else if 'a' <= c <= 'f' then Some(c as int - 'a' as int + 10)
    else None
  }

  /** `encodeHexLowerCase`: two digits per byte, high nibble first. */
  function EncodeHexLowerCase(bs: seq<byte>): (s: string)
    ensures |s| == 2 * |bs|
    ensures forall i :: 0 <= i < |s| ==> IsLowerHexDigit(s[i])
  {
    if bs == [] then ""
    else [HexDigit(bs[0] / 16), HexDigit(bs[0] % 16)] + EncodeHexLowerCase(bs[1..])
  }

  function DecodeHexLowerCase(s: string): (r: Option<seq<byte>>)
    ensures r.Some? ==> 2 * |r.value| == |s|
  {
    if s == [] then Some([])
    else if |s| == 1 then None
    else match (HexValue(s[0]), HexValue(s[1]), DecodeHexLowerCase(s[2..]))
      case (Some(hi), Some(lo), Some(rest)) => Some([(16 * hi + lo) as byte] + rest)
      case _ => None
  }

  /** Decoding an encoded byte string gives it back. */
  lemma {:induction false} HexRoundTrip(bs: seq<byte>)
    ensures DecodeHexLowerCase(EncodeHexLowerCase(bs)) == Some(bs)
  {
    if bs != [] {
      var s := EncodeHexLowerCase(bs);
      var hi, lo := bs[0] / 16, bs[0] % 16;
      assert HexValue(HexDigit(hi)) == Some(hi);
      assert HexValue(HexDigit(lo)) == Some(lo);
      assert s[0] == HexDigit(hi) && s[1] == HexDigit(lo);
      assert s[2..] == EncodeHexLowerCase(bs[1..]);
      assert 16 * hi + lo == bs[0];
      HexRoundTrip(bs[1..]);
      assert DecodeHexLowerCase(s) == Some([bs[0]] + bs[1..]);
      assert [bs[0]] + bs[1..] == bs;
    }
  }

  /** Hence distinct byte strings never share a hex encoding. */
  lemma HexInjective(a: seq<byte>, b: seq<byte>)
    requires EncodeHexLowerCase(a) == EncodeHexLowerCase(b)
    ensures a == b
  {
    HexRoundTrip(a);
    HexRoundTrip(b);
  }
}
