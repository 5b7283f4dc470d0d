/**
 * Base16 encoding as in section 8 of RFC 4648, in the form of Go's
 * `encoding/hex`: `EncodeToString` emits the lowercase alphabet, and
 * `DecodeString` accepts either case, reporting the first invalid
 * character before an odd length.
 */
module Hex {
  import opened Wrappers

  newtype byte = x: int | 0 <= x < 0x100

  /** The alphabet `EncodeToString` emits, indexed by nibble value. */
  const LowerDigits: string := "0123456789abcdef"

  predicate IsLowerHexDigit(c: char) {
    '0' <= c <= '9' || 'a' <= c <= 'f'
  }

  /** Every character of `s` is one `EncodeToString` could have emitted. */
  predicate IsLowerHex(s: string) {
    forall i :: 0 <= i < |s| ==> IsLowerHexDigit(s[i])
  }

  /** Value of one base16 digit; both cases are accepted, as Go's decoder does. */
  function DigitValue(c: char): (r: Option<byte>)
    ensures r.Some? ==> r.value < 16
    ensures IsLowerHexDigit(c) ==> r.Some? && LowerDigits[r.value] == c
  {
    if '0' <= c <= '9' then Some((c as int - '0' as int) as byte)
    else if 'a' <= c <= 'f' then Some((c as int - 'a' as int + 10) as byte)
    else if 'A' <= c <= 'F' then Some((c as int - 'A' as int + 10) as byte)
    else None
  }

  /** Each emitted digit decodes to the nibble it was emitted for. */
  lemma DigitOfNibble(n: byte)
    requires n < 16
    ensures DigitValue(LowerDigits[n]) == Some(n)
  {
  }

  /** Go's `hex.EncodeToString`: two lowercase digits per byte, high nibble first. */
  function EncodeToString(src: seq<byte>): (s: string)
    ensures |s| == 2 * |src|
    ensures IsLowerHex(s)
  {
    if src == [] then ""
    else [LowerDigits[src[0] / 16], LowerDigits[src[0] % 16]] + EncodeToString(src[1..])
  }

  datatype HexError = InvalidByteError(c: char) | ErrLength

  /** Go's `hex.DecodeString`. */
  function DecodeString(s: string): (r: Result<seq<byte>, HexError>)
    ensures r.Success? ==> |s| == 2 * |r.value|
    ensures r.Failure? && r.error == ErrLength ==> |s| % 2 == 1
  {
    if |s| == 0 then Success([])
    else if |s| == 1 then
      if DigitValue(s[0]).None? then Failure(InvalidByteError(s[0])) else Failure(ErrLength)
    else if DigitValue(s[0]).None? then Failure(InvalidByteError(s[0]))
    else if DigitValue(s[1]).None? then Failure(InvalidByteError(s[1]))
    else
      var b := (DigitValue(s[0]).value as int * 16 + DigitValue(s[1]).value as int) as byte;
      match DecodeString(s[2..])
      case Success(rest) => Success([b] + rest)
      case Failure(e) => Failure(e)
  }

  /** Decoding what `EncodeToString` emitted gives back the bytes. */
  lemma {:induction false} DecodeOfEncode(src: seq<byte>)
    ensures DecodeString(EncodeToString(src)) == Success(src)
  {
    if src != [] {
      var s := EncodeToString(src);
      var hi, lo := src[0] / 16, src[0] % 16;
      assert s[0] == LowerDigits[hi] && s[1] == LowerDigits[lo];
      assert s[2..] == EncodeToString(src[1..]);
      DigitOfNibble(hi);
      DigitOfNibble(lo);
      assert (hi as int * 16 + lo as int) as byte == src[0];
      DecodeOfEncode(src[1..]);
      assert DecodeString(s) == Success([src[0]] + src[1..]);
      assert [src[0]] + src[1..] == src;
    }
  }

  /** A lowercase base16 string that decodes to `src` is exactly the encoding of `src`. */
  lemma {:induction false} EncodeOfDecode(s: string, src: seq<byte>)
    requires IsLowerHex(s)
    requires DecodeString(s) == Success(src)
    ensures EncodeToString(src) == s
  {
    if |s| >= 2 {
      var rest := DecodeString(s[2..]);
      assert rest.Success? && rest.value == src[1..];
      assert IsLowerHex(s[2..]) by {
        forall i | 0 <= i < |s[2..]| ensures IsLowerHexDigit(s[2..][i]) {
          assert s[2..][i] == s[i + 2];
        }
      }
      EncodeOfDecode(s[2..], src[1..]);
      assert IsLowerHexDigit(s[0]) && IsLowerHexDigit(s[1]);
      var hi, lo := DigitValue(s[0]).value, DigitValue(s[1]).value;
      assert src[0] as int == hi as int * 16 + lo as int;
      assert src[0] / 16 == hi && src[0] % 16 == lo;
    }
  }

  /**
   * `EncodeToString` characterised without its body: its output is the one
   * lowercase base16 string that decodes to the input.
   */
  lemma EncodeToStringIff(src: seq<byte>, s: string)
    ensures EncodeToString(src) == s <==> IsLowerHex(s) && DecodeString(s) == Success(src)
  {
    if EncodeToString(src) == s {
      DecodeOfEncode(src);
    }
    if IsLowerHex(s) && DecodeString(s) == Success(src) {
      EncodeOfDecode(s, src);
    }
  }
}
