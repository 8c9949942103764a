/** Base16 as in section 8 of RFC 4648, in the form Go's `encoding/hex` uses:
    encoding writes the lower-case alphabet, decoding accepts both cases. */
module Hex {
  import opened Base

  predicate IsLowerHexDigit(c: char) {
    '0' <= c <= '9' || 'a' <= c <= 'f'
  }

  predicate IsLowerHex(s: string) {
    forall i :: 0 <= i < |s| ==> IsLowerHexDigit(s[i])
  }

  /** The value of one hexadecimal digit, of either case; None for any other character. */
  function DigitValue(c: char): (r: Option<int>)
    ensures r.Some? ==> 0 <= r.value < 16
    ensures IsLowerHexDigit(c) ==> r.Some?
  {
    if '0' <= c <= '9' then Some(c as int - '0' as int)
    else if 'a' <= c <= 'f' then Some(c as int - 'a' as int + 10)
    else if 'A' <= c <= 'F' then Some(c as int - 'A' as int + 10)
    else None
  }

  /** The lower-case digit for a value below 16. */
  function DigitChar(v: int): (c: char)
    requires 0 <= v < 16
    ensures IsLowerHexDigit(c) && DigitValue(c) == Some(v)
  {
    if v < 10 then ('0' as int + v) as char else ('a' as int + v - 10) as char
  }

  lemma DigitCharOfValue(c: char)
    requires IsLowerHexDigit(c)
    ensures DigitChar(DigitValue(c).value) == c
  {
  }

  /** Two lower-case digits per byte, high nibble first (`hex.EncodeToString`). */
  function Encode(bytes: seq<byte>): (s: string)
    ensures |s| == 2 * |bytes|
    ensures IsLowerHex(s)
  {
    if bytes == [] then ""
    else
      var rest := Encode(bytes[1..]);
      var s := [DigitChar((bytes[0] / 16) as int), DigitChar((bytes[0] % 16) as int)] + rest;
      assert forall i :: 2 <= i < |s| ==> s[i] == rest[i - 2];
      s
  }

  /** Inverse of Encode: None for an odd length or a character that is not a
      hexadecimal digit (`hex.DecodeString`). */
  function Decode(s: string): (r: Option<seq<byte>>)
    ensures r.Some? ==> 2 * |r.value| == |s|
    decreases |s|
  {
    if s == [] then Some([])
    else if |s| == 1 then None
    else
      match (DigitValue(s[0]), DigitValue(s[1]), Decode(s[2..]))
      case (Some(hi), Some(lo), Some(rest)) => Some([(hi * 16 + lo) as byte] + rest)
      case _ => None
  }

  lemma ByteNibbles(b: byte)
    ensures 0 <= (b / 16) as int < 16 && 0 <= (b % 16) as int < 16
    ensures (b / 16) as int * 16 + (b % 16) as int == b as int
  {
  }

  lemma NibblesByte(hi: int, lo: int)
    requires 0 <= hi < 16 && 0 <= lo < 16
    ensures ((hi * 16 + lo) as byte / 16) as int == hi
    ensures ((hi * 16 + lo) as byte % 16) as int == lo
  {
  }

  /** Decoding an encoding gives back the bytes. */
  lemma {:induction false} DecodeEncode(bytes: seq<byte>)
    ensures Decode(Encode(bytes)) == Some(bytes)
  {
    if bytes != [] {
      var s := Encode(bytes);
      DecodeEncode(bytes[1..]);
      ByteNibbles(bytes[0]);
      assert s[2..] == Encode(bytes[1..]);
      assert bytes == [bytes[0]] + bytes[1..];
    }
  }

  /** Encoding what a lower-case string decodes to gives back the string. */
  lemma {:induction false} EncodeDecode(s: string)
    requires IsLowerHex(s)
    requires Decode(s).Some?
    ensures Encode(Decode(s).value) == s
  {
    if s != [] {
      var hi, lo := DigitValue(s[0]).value, DigitValue(s[1]).value;
      var bytes := Decode(s).value;
      assert IsLowerHex(s[2..]) by {
        forall i | 0 <= i < |s[2..]| ensures IsLowerHexDigit(s[2..][i]) {
          assert s[2..][i] == s[i + 2];
        }
      }
      EncodeDecode(s[2..]);
      NibblesByte(hi, lo);
      DigitCharOfValue(s[0]);
      DigitCharOfValue(s[1]);
      assert bytes[1..] == Decode(s[2..]).value;
      assert s == [s[0], s[1]] + s[2..];
    }
  }

  /** On lower-case strings, Decode and Encode are inverse to each other. */
  lemma DecodeIffEncode(s: string, bytes: seq<byte>)
    requires IsLowerHex(s)
    ensures Decode(s) == Some(bytes) <==> Encode(bytes) == s
  {
    if Decode(s) == Some(bytes) {
      EncodeDecode(s);
    }
    if Encode(bytes) == s {
      DecodeEncode(bytes);
    }
  }

  /** Distinct byte strings have distinct encodings. */
  lemma EncodeInjective(a: seq<byte>, b: seq<byte>)
    requires Encode(a) == Encode(b)
    ensures a == b
  {
    DecodeEncode(a);
    DecodeEncode(b);
  }
}
