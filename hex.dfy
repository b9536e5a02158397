/**
 * Base16 encoding as `Convert.ToHexString` produces it: two digits per octet,
 * most significant nibble first, in the upper-case alphabet of section 8 of
 * RFC 4648. `FromHexString` is the decoder (`Convert.FromHexString`), which
 * accepts both letter cases.
 */
module Hex {
  import opened Common

  const UpperDigits: string := "0123456789ABCDEF"

  predicate IsUpperHexDigit(c: char) { '0' <= c <= '9' || 'A' <= c <= 'F' }

  predicate IsLowerHexDigit(c: char) { '0' <= c <= '9' || 'a' <= c <= 'f' }

  predicate IsUpperHex(s: string) { forall i | 0 <= i < |s| :: IsUpperHexDigit(s[i]) }

  predicate IsLowerHex(s: string) { forall i | 0 <= i < |s| :: IsLowerHexDigit(s[i]) }

  /** The digit for a nibble. */
  function Digit(n: nat): (c: char)
    requires n < 16
    ensures IsUpperHexDigit(c)
  {
    UpperDigits[n]
  }

  /** The nibble a digit of either case stands for. */
  function DigitValue(c: char): (r: Option<nat>)
    ensures r.Some? ==> r.value < 16
    ensures r.Some? <==> IsUpperHexDigit(c) || IsLowerHexDigit(c)
  {
    if '0' <= c <= '9' then Some(c as nat - '0' as nat)
    else if 'A' <= c <= 'F' then Some(c as nat - 'A' as nat + 10)
    else if 'a' <= c <= 'f' then Some(c as nat - 'a' as nat + 10)
    else None
  }

  lemma DigitRoundTrip(n: nat)
    requires n < 16
    ensures DigitValue(Digit(n)) == Some(n)
  {
  }

  function ToHexString(bs: seq<byte>): (s: string)
  {
    if bs == [] then []
    else [Digit(bs[0] as nat / 16), Digit(bs[0] as nat % 16)] + ToHexString(bs[1..])
  }

  function FromHexString(s: string): (r: Option<seq<byte>>)
    decreases |s|
  {
    if |s| == 0 then Some([])
    else if |s| == 1 then None
    else
      match (DigitValue(s[0]), DigitValue(s[1]), FromHexString(s[2..]))
      case (Some(hi), Some(lo), Some(rest)) => Some([(hi * 16 + lo) as byte] + rest)
      case _ => None
  }

  /** Two digits per octet, all of them upper-case hexadecimal. */
  lemma {:induction false} ToHexStringShape(bs: seq<byte>)
    ensures |ToHexString(bs)| == 2 * |bs|
    ensures IsUpperHex(ToHexString(bs))
  {
    if bs != [] {
      ToHexStringShape(bs[1..]);
      var s := ToHexString(bs);
      forall i | 0 <= i < |s| ensures IsUpperHexDigit(s[i]) {
        if i >= 2 { assert s[i] == ToHexString(bs[1..])[i - 2]; }
      }
    }
  }

  lemma NibbleSplit(b: byte)
    ensures (b as nat / 16 * 16 + b as nat % 16) as byte == b
  {
  }

  /** Decoding undoes encoding. */
  lemma {:induction false} HexRoundTrip(bs: seq<byte>)
    ensures FromHexString(ToHexString(bs)) == Some(bs)
  {
    if bs != [] {
      var hi, lo := bs[0] as nat / 16, bs[0] as nat % 16;
      var rest := ToHexString(bs[1..]);
      var s := [Digit(hi), Digit(lo)] + rest;
      assert ToHexString(bs) == s;
      HexRoundTrip(bs[1..]);
      DigitRoundTrip(hi);
      DigitRoundTrip(lo);
      assert s[2..] == rest;
      NibbleSplit(bs[0]);
      assert FromHexString(s) == Some([(hi * 16 + lo) as byte] + bs[1..]);
      assert [bs[0]] + bs[1..] == bs;
    }
  }

  /** So distinct digests never share a hex string. */
  lemma ToHexStringInjective(a: seq<byte>, b: seq<byte>)
    ensures ToHexString(a) == ToHexString(b) <==> a == b
  {
    if ToHexString(a) == ToHexString(b) {
      HexRoundTrip(a);
      HexRoundTrip(b);
    }
  }
}
