/**
 Lower-case hexadecimal text of a byte string, as Node's
 `Buffer.toString("hex")` writes it. The pairing token is the hex text of
 32 random bytes; the decoder is the inverse used to show that distinct
 random draws give distinct tokens.
 */
module Hex {
  import opened Values

  newtype byte = x: int | 0 <= x < 256

  /** The random draw behind one pairing token: exactly 32 bytes. */
  type Random32 = b: seq<byte> | |b| == 32 witness seq(32, _ => 0 as byte)

  const Digits: string := "0123456789abcdef"

  predicate IsHexDigit(c: char) {
    ('0' <= c <= '9') || ('a' <= c <= 'f')
  }

  /** Text of the shape a pairing token has: 64 lower-case hex digits. */
  predicate IsPairingToken(t: string) {
    |t| == 64 && forall i :: 0 <= i < |t| ==> IsHexDigit(t[i])
  }

  /** The digit character for a nibble. */
  function DigitChar(d: int): (c: char)
    requires 0 <= d < 16
    ensures IsHexDigit(c)
  {
    Digits[d]
  }

  /** The nibble a digit character stands for. */
  function DigitValue(c: char): (d: int)
    requires IsHexDigit(c)
    ensures 0 <= d < 16
    ensures DigitChar(d) == c
  {
    if c <= '9' then c as int - '0' as int else c as int - 'a' as int + 10
  }

  lemma DigitRoundTrip(d: int)
    requires 0 <= d < 16
    ensures DigitValue(DigitChar(d)) == d
  {
  }

  /** Two digits per byte, high nibble first. */
  function Encode(bs: seq<byte>): (t: string)
    ensures |t| == 2 * |bs|
    ensures forall i :: 0 <= i < |t| ==> IsHexDigit(t[i])
  {
    if bs == [] then ""
    else [DigitChar(bs[0] as int / 16), DigitChar(bs[0] as int % 16)] + Encode(bs[1..])
  }

  /** Hex text back to bytes; `None` for odd length or a non-digit character. */
  function Decode(t: string): (r: Option<seq<byte>>)
    ensures r.Some? ==> 2 * |r.value| == |t|
  {
    if t == "" then Some([])
    else if |t| == 1 || !IsHexDigit(t[0]) || !IsHexDigit(t[1]) then None
    else
      match Decode(t[2..])
      case None => None
      case Some(rest) => Some([(16 * DigitValue(t[0]) + DigitValue(t[1])) as byte] + rest)
  }

  /** Decoding undoes encoding. */
  lemma {:induction false} DecodeEncode(bs: seq<byte>)
    ensures Decode(Encode(bs)) == Some(bs)
  {
    if bs != [] {
      var hi, lo := bs[0] as int / 16, bs[0] as int % 16;
      var t := Encode(bs);
      assert t[0] == DigitChar(hi) && t[1] == DigitChar(lo);
      assert t[2..] == Encode(bs[1..]);
      DigitRoundTrip(hi);
      DigitRoundTrip(lo);
      DecodeEncode(bs[1..]);
      assert [bs[0]] + bs[1..] == bs;
    }
  }

  /** Distinct byte strings have distinct hex text. */
  lemma EncodeInjective(a: seq<byte>, b: seq<byte>)
    requires a != b
    ensures Encode(a) != Encode(b)
  {
    DecodeEncode(a);
    DecodeEncode(b);
  }

  /** The hex text of a 32-byte draw has the pairing-token shape. */
  lemma EncodeRandomIsPairingToken(b: Random32)
    ensures IsPairingToken(Encode(b))
  {
  }
}
