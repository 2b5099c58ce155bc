/** Bytes as pairs of hexadecimal digits: `encodeHexString` and `unsignedCharArrayToHexString`. */
module Hex {
  import opened Numerals

  type Byte = b: int | 0 <= b < 256

  /** A C++ `char`, whether the platform makes it signed or unsigned. */
  type Char8 = c: int | -128 <= c < 256

  /** The byte that a `char` holds. */
  function ToByte(c: Char8): Byte {
    c % 256
  }

  /** A signed platform holds the bytes from 128 on as negative characters. */
  lemma SignedBytes(b: Byte)
    ensures ToByte(b) == b && (b >= 128 ==> ToByte(b - 256) == b)
  {
  }

  function ToBytes(str: seq<Char8>): (bytes: seq<Byte>)
    ensures |bytes| == |str|
  {
    seq(|str|, i requires 0 <= i < |str| => ToByte(str[i]))
  }

  /** The digits that the encoders write. */
  predicate IsLowerDigit(c: char) {
    '0' <= c <= '9' || 'a' <= c <= 'f'
  }

  function HexOf(bytes: seq<Byte>): (hex: string)
    ensures |hex| == 2 * |bytes|
    ensures forall i :: 0 <= i < |hex| ==> IsLowerDigit(hex[i]) && IsDigit(hex[i], 16)
  {
    if bytes == [] then []
    else
      var b := bytes[|bytes| - 1];
      HexOf(bytes[..|bytes| - 1]) + [DigitChar(b / 16, false), DigitChar(b % 16, false)]
  }

  /** Reads pairs of digits back as bytes, as `hexStringToUnsignedCharArray` does: a digit left over at
      the end is ignored. */
  function UnHex(hex: string): (bytes: seq<Byte>)
    requires AllDigits(hex, 16)
  {
    if |hex| < 2 then []
    else
      [16 * DigitValue(hex[0]) + DigitValue(hex[1])] + UnHex(hex[2..])
  }

  lemma {:induction false} UnHexAppend(hex: string, hi: nat, lo: nat)
    requires hi < 16 && lo < 16 && |hex| % 2 == 0 && AllDigits(hex, 16)
    ensures UnHex(hex + [DigitChar(hi, false), DigitChar(lo, false)]) == UnHex(hex) + [16 * hi + lo]
  {
    var pair := [DigitChar(hi, false), DigitChar(lo, false)];
    if hex == [] {
      assert hex + pair == pair;
      assert UnHex(pair[2..]) == [];
    } else {
      assert (hex + pair)[2..] == hex[2..] + pair;
      UnHexAppend(hex[2..], hi, lo);
    }
  }

  /** The hex form has a left inverse, so it is injective. */
  lemma {:induction false} UnHexOfHex(bytes: seq<Byte>)
    ensures UnHex(HexOf(bytes)) == bytes
  {
    if bytes != [] {
      var front, b := bytes[..|bytes| - 1], bytes[|bytes| - 1];
      assert bytes == front + [b];
      UnHexOfHex(front);
      UnHexAppend(HexOf(front), b / 16, b % 16);
    }
  }

  lemma HexInjective(a: seq<Byte>, b: seq<Byte>)
    requires HexOf(a) == HexOf(b)
    ensures a == b
  {
    UnHexOfHex(a);
    UnHexOfHex(b);
  }

  /** `encodeHexString`. Masking a negative `char` with `0xf0` or `0x0f` sees the bits of its byte. */
  method EncodeHexString(str: seq<Char8>) returns (sb: string)
    ensures sb == HexOf(ToBytes(str))
    ensures |sb| == 2 * |str| && UnHex(sb) == ToBytes(str)
    ensures forall i :: 0 <= i < |sb| ==> IsLowerDigit(sb[i])
  {
    sb := [];
    for i := 0 to |str|
      invariant sb == HexOf(ToBytes(str[..i]))
    {
      var highNibble, lowNibble := (str[i] % 256) / 16, str[i] % 16;
      sb := sb + [DigitChar(highNibble, false)];
      sb := sb + [DigitChar(lowNibble, false)];
      var next := ToBytes(str[..i + 1]);
      assert next[..i] == ToBytes(str[..i]);
      assert next[i] / 16 == highNibble && next[i] % 16 == lowNibble;
    }
    assert str[..|str|] == str;
    UnHexOfHex(ToBytes(str));
  }
}
