/**
 UTF-8 as defined by RFC 3629: the encoder of section 3, which the keyboard
 handler uses (through `std::codecvt_utf8<char32_t>`) to turn a key's value
 into text, and the syntax of one encoded character from section 4, which
 the encoder is checked against.
 */
module Utf8 {
  import opened Wrappers

  type Byte = b: int | 0 <= b < 0x100

  /** Section 3: the encodable characters are U+0000..U+10FFFF without the surrogates U+D800..U+DFFF. */
  predicate IsScalarValue(cp: int) {
    0 <= cp <= 0x10FFFF && !(0xD800 <= cp <= 0xDFFF)
  }

  /** UTF8-tail of section 4. */
  predicate IsTail(b: Byte) {
    0x80 <= b <= 0xBF
  }

  /** UTF8-char of section 4 (UTF8-1 / UTF8-2 / UTF8-3 / UTF8-4): exactly one well-formed encoded character. */
  predicate IsUtf8Char(bs: seq<Byte>) {
    if |bs| == 1 then
      bs[0] <= 0x7F
    else if |bs| == 2 then
      0xC2 <= bs[0] <= 0xDF && IsTail(bs[1])
    else if |bs| == 3 then
      && IsTail(bs[2])
      && (|| (bs[0] == 0xE0 && 0xA0 <= bs[1] <= 0xBF)
          || (0xE1 <= bs[0] <= 0xEC && IsTail(bs[1]))
          || (bs[0] == 0xED && 0x80 <= bs[1] <= 0x9F)
          || (0xEE <= bs[0] <= 0xEF && IsTail(bs[1])))
    else if |bs| == 4 then
      && IsTail(bs[2]) && IsTail(bs[3])
      && (|| (bs[0] == 0xF0 && 0x90 <= bs[1] <= 0xBF)
          || (0xF1 <= bs[0] <= 0xF3 && IsTail(bs[1]))
          || (bs[0] == 0xF4 && 0x80 <= bs[1] <= 0x8F))
    else
      false
  }

  /**
   Section 3's encoding of one character: the bits of the code point are
   distributed over one to four bytes by its range. A value that is not a
   scalar value has no encoding.
   */
  function Encode(cp: int): (r: Option<seq<Byte>>)
    ensures r.Some? <==> IsScalarValue(cp)
    ensures r.Some? ==> IsUtf8Char(r.value)
    ensures 0 <= cp < 0x80 ==> r == Some([cp])
  {
    if !IsScalarValue(cp) then None
    else if cp < 0x80 then Some([cp])
    else if cp < 0x800 then Some([0xC0 + cp / 0x40, 0x80 + cp % 0x40])
    else if cp < 0x10000 then
      Some([0xE0 + cp / 0x1000, 0x80 + cp / 0x40 % 0x40, 0x80 + cp % 0x40])
    else
      Some([0xF0 + cp / 0x40000, 0x80 + cp / 0x1000 % 0x40, 0x80 + cp / 0x40 % 0x40, 0x80 + cp % 0x40])
  }

  /** The code point of one well-formed encoded character: the inverse direction of section 3. */
  function Decode(bs: seq<Byte>): (r: Option<int>)
    ensures r.Some? <==> IsUtf8Char(bs)
  {
    if !IsUtf8Char(bs) then None
    else if |bs| == 1 then Some(bs[0] as int)
    else if |bs| == 2 then Some(Payload(bs[0], 0xC0) * 0x40 + Payload(bs[1], 0x80))
    else if |bs| == 3 then
      Some((Payload(bs[0], 0xE0) * 0x40 + Payload(bs[1], 0x80)) * 0x40 + Payload(bs[2], 0x80))
    else
      Some(((Payload(bs[0], 0xF0) * 0x40 + Payload(bs[1], 0x80)) * 0x40 + Payload(bs[2], 0x80)) * 0x40
           + Payload(bs[3], 0x80))
  }

  /** The bits a byte carries once its marker bits `marker` are removed. */
  function Payload(b: Byte, marker: int): int {
    b as int - marker
  }

  /** Decoding undoes encoding: every scalar value is recovered from its bytes. */
  lemma DecodeEncode(cp: int)
    requires IsScalarValue(cp)
    ensures Encode(cp).Some? && Decode(Encode(cp).value) == Some(cp)
  {
    if cp < 0x80 {
    } else if cp < 0x800 {
      var bs := Encode(cp).value;
      assert Payload(bs[0], 0xC0) == cp / 0x40 && Payload(bs[1], 0x80) == cp % 0x40;
    } else if cp < 0x10000 {
      DecodeEncodeThree(cp);
    } else {
      DecodeEncodeFour(cp);
    }
  }

  lemma DecodeEncodeThree(cp: int)
    requires 0x800 <= cp < 0x10000 && IsScalarValue(cp)
    ensures Decode(Encode(cp).value) == Some(cp)
  {
    var bs := Encode(cp).value;
    ShiftTwice(cp);
    assert Payload(bs[0], 0xE0) == cp / 0x40 / 0x40;
    assert Payload(bs[1], 0x80) == cp / 0x40 % 0x40 && Payload(bs[2], 0x80) == cp % 0x40;
  }

  lemma DecodeEncodeFour(cp: int)
    requires 0x10000 <= cp && IsScalarValue(cp)
    ensures Decode(Encode(cp).value) == Some(cp)
  {
    var bs := Encode(cp).value;
    ShiftTwice(cp);
    ShiftTwice(cp / 0x40);
    assert cp / 0x40000 == cp / 0x40 / 0x40 / 0x40 by {
      assert cp / 0x1000 / 0x40 == cp / 0x40000;
    }
    assert Payload(bs[0], 0xF0) == cp / 0x40 / 0x40 / 0x40;
    assert Payload(bs[1], 0x80) == cp / 0x40 / 0x40 % 0x40;
    assert Payload(bs[2], 0x80) == cp / 0x40 % 0x40 && Payload(bs[3], 0x80) == cp % 0x40;
  }

  /** Dropping twelve low bits is dropping six low bits twice. */
  lemma ShiftTwice(n: nat)
    ensures n / 0x1000 == n / 0x40 / 0x40
  {
    var q := n / 0x40;
    assert n == q * 0x40 + n % 0x40;
    assert q == q / 0x40 * 0x40 + q % 0x40;
    assert n == q / 0x40 * 0x1000 + (q % 0x40 * 0x40 + n % 0x40);
  }

  /** Encoding undoes decoding: a well-formed character decodes to a scalar value whose encoding is that character. */
  lemma EncodeDecode(bs: seq<Byte>)
    requires IsUtf8Char(bs)
    ensures Decode(bs).Some? && IsScalarValue(Decode(bs).value)
    ensures Encode(Decode(bs).value) == Some(bs)
  {
    if |bs| == 1 {
      assert [bs[0] as int] == bs;
    } else if |bs| == 2 {
      EncodeDecodeTwo(bs);
    } else if |bs| == 3 {
      EncodeDecodeThree(bs);
    } else {
      EncodeDecodeFour(bs);
    }
  }

  lemma EncodeDecodeTwo(bs: seq<Byte>)
    requires |bs| == 2 && IsUtf8Char(bs)
    ensures IsScalarValue(Decode(bs).value) && Encode(Decode(bs).value) == Some(bs)
  {
    var cp := Decode(bs).value;
    SplitDigit(Payload(bs[0], 0xC0), Payload(bs[1], 0x80));
    assert [0xC0 + cp / 0x40, 0x80 + cp % 0x40] == bs;
  }

  lemma EncodeDecodeThree(bs: seq<Byte>)
    requires |bs| == 3 && IsUtf8Char(bs)
    ensures IsScalarValue(Decode(bs).value) && Encode(Decode(bs).value) == Some(bs)
  {
    var cp := Decode(bs).value;
    var hi := Payload(bs[0], 0xE0) * 0x40 + Payload(bs[1], 0x80);
    SplitDigit(hi, Payload(bs[2], 0x80));
    SplitDigit(Payload(bs[0], 0xE0), Payload(bs[1], 0x80));
    ShiftTwice(cp);
    assert 0x800 <= cp < 0x10000 && !(0xD800 <= cp <= 0xDFFF);
    assert [0xE0 + cp / 0x1000, 0x80 + cp / 0x40 % 0x40, 0x80 + cp % 0x40] == bs;
  }

  lemma EncodeDecodeFour(bs: seq<Byte>)
    requires |bs| == 4 && IsUtf8Char(bs)
    ensures IsScalarValue(Decode(bs).value) && Encode(Decode(bs).value) == Some(bs)
  {
    var cp := Decode(bs).value;
    var hi := Payload(bs[0], 0xF0) * 0x40 + Payload(bs[1], 0x80);
    var mid := hi * 0x40 + Payload(bs[2], 0x80);
    assert 0x10 <= hi <= 0x10F;
    SplitDigit(mid, Payload(bs[3], 0x80));
    SplitDigit(hi, Payload(bs[2], 0x80));
    SplitDigit(Payload(bs[0], 0xF0), Payload(bs[1], 0x80));
    ShiftTwice(cp);
    ShiftTwice(cp / 0x40);
    assert cp / 0x40000 == Payload(bs[0], 0xF0) by {
      assert cp / 0x1000 / 0x40 == cp / 0x40000;
    }
    assert cp / 0x1000 % 0x40 == Payload(bs[1], 0x80);
    assert cp / 0x40 % 0x40 == Payload(bs[2], 0x80);
    assert 0x10000 <= cp <= 0x10FFFF;
    assert [0xF0 + cp / 0x40000, 0x80 + cp / 0x1000 % 0x40, 0x80 + cp / 0x40 % 0x40, 0x80 + cp % 0x40] == bs;
  }

  /** Splitting a number into its last base-64 digit and the rest undoes appending that digit. */
  lemma SplitDigit(high: int, low: int)
    requires 0 <= low < 0x40
    ensures (high * 0x40 + low) / 0x40 == high && (high * 0x40 + low) % 0x40 == low
  {
  }
}
