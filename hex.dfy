// Base16 (section 8 of RFC 4648) as the two services use it: the validation
// service writes each Java byte as two lower-case digits ("%02x"), and the
// migration service reads hex text back into bytes, leniently (white space
// dropped, case folded, an odd length padded with a leading '0', and a
// non-hex character read as Character.digit's -1).

module Base16 {
  import opened JavaStr

  /** A Java byte. */
  type JByte = b: int | -128 <= b < 128

  /** The unsigned value Formatter's %x prints for a negative byte (b + 2^8). */
  function Unsigned(b: JByte): (u: int)
    ensures 0 <= u < 256
    ensures u % 256 == b % 256
  {
    if b < 0 then b + 256 else b
  }

  /** The (byte) narrowing cast: the low eight bits, read as two's complement. */
  function ToByte(v: int): (b: JByte)
    ensures (b - v) % 256 == 0
  {
    (v + 128) % 256 - 128
  }

  lemma ToByteOfUnsigned(b: JByte)
    ensures ToByte(Unsigned(b)) == b
  {
  }

  predicate IsHexChar(c: char)
  {
    IsDigitChar(c) || 'a' <= c <= 'f' || 'A' <= c <= 'F'
  }

  /**
   * Character.digit(c, 16) restricted to ASCII: the digit's value, or -1.
   * Java also accepts the other Unicode decimal digits and the fullwidth
   * letters, which this returns -1 for.
   */
  function HexDigit(c: char): (d: int)
    ensures -1 <= d < 16
    ensures d == -1 <==> !IsHexChar(c)
  {
    if IsDigitChar(c) then c as int - '0' as int
    else if 'a' <= c <= 'f' then c as int - 'a' as int + 10
    else if 'A' <= c <= 'F' then c as int - 'A' as int + 10
    else -1
  }

  /** The lower-case digit Formatter writes for 0 <= d < 16. */
  function LowerHexChar(d: int): (c: char)
    requires 0 <= d < 16
    ensures IsHexChar(c) && HexDigit(c) == d
    ensures !IsUpperChar(c)
  {
    if d < 10 then ('0' as int + d) as char else ('a' as int + d - 10) as char
  }

  /** String.format("%02x", b): two lower-case digits of the unsigned value. */
  function ByteHex(b: JByte): (s: string)
    ensures |s| == 2
  {
    [LowerHexChar(Unsigned(b) / 16), LowerHexChar(Unsigned(b) % 16)]
  }

  /** The digits of every byte, in order. */
  function Encode(bytes: seq<JByte>): (s: string)
    ensures |s| == 2 * |bytes|
    ensures forall i :: 0 <= i < |s| ==> IsHexChar(s[i]) && !IsUpperChar(s[i])
  {
    if bytes == [] then [] else Encode(bytes[..|bytes| - 1]) + ByteHex(bytes[|bytes| - 1])
  }

  lemma {:induction false} EncodeAt(bytes: seq<JByte>, k: nat)
    requires k < |bytes|
    ensures Encode(bytes)[2 * k..2 * k + 2] == ByteHex(bytes[k])
  {
    if k < |bytes| - 1 {
      var init := bytes[..|bytes| - 1];
      EncodeAt(init, k);
      assert Encode(bytes)[2 * k..2 * k + 2] == Encode(init)[2 * k..2 * k + 2];
    }
  }

  /** replaceAll("\\s", ""): every regex white-space character removed. */
  function StripSpaces(s: string): (r: string)
    ensures |r| <= |s|
    ensures forall i :: 0 <= i < |r| ==> !IsRegexSpace(r[i])
  {
    if s == [] then []
    else if IsRegexSpace(s[0]) then StripSpaces(s[1..])
    else [s[0]] + StripSpaces(s[1..])
  }

  lemma {:induction false} StripSpacesNoOp(s: string)
    requires forall i :: 0 <= i < |s| ==> !IsRegexSpace(s[i])
    ensures StripSpaces(s) == s
  {
    if s != [] { StripSpacesNoOp(s[1..]); }
  }

  /** The text the decoder works on: spaces stripped, upper-cased, padded to even length. */
  function Normalize(s: string): (h: string)
    ensures |h| % 2 == 0
    ensures |h| == |StripSpaces(s)| || |h| == |StripSpaces(s)| + 1
  {
    var u := Upper(StripSpaces(s));
    if |u| % 2 != 0 then "0" + u else u
  }

  /** The byte stored for the digit pair (hi, lo). */
  function PairByte(hi: char, lo: char): JByte
  {
    ToByte(HexDigit(hi) * 16 + HexDigit(lo))
  }

  /** One byte per pair of characters, in order. */
  function DecodePairs(h: string): (bytes: seq<JByte>)
    requires |h| % 2 == 0
    ensures |bytes| == |h| / 2
  {
    if h == [] then [] else [PairByte(h[0], h[1])] + DecodePairs(h[2..])
  }

  lemma {:induction false} DecodePairsAt(h: string, k: nat)
    requires |h| % 2 == 0 && k < |h| / 2
    ensures DecodePairs(h)[k] == PairByte(h[2 * k], h[2 * k + 1])
  {
    if k > 0 {
      DecodePairsAt(h[2..], k - 1);
    }
  }

  /** Decoding the upper-cased digits of a byte gives the byte back. */
  lemma PairOfByteHex(b: JByte)
    ensures PairByte(UpperChar(ByteHex(b)[0]), UpperChar(ByteHex(b)[1])) == b
  {
    var hi, lo := Unsigned(b) / 16, Unsigned(b) % 16;
    assert HexDigit(UpperChar(LowerHexChar(hi))) == hi;
    assert HexDigit(UpperChar(LowerHexChar(lo))) == lo;
    assert hi * 16 + lo == Unsigned(b);
    ToByteOfUnsigned(b);
  }

  /**
   * Reading back what Encode wrote recovers every byte: the lenient decoder
   * inverts the lower-case encoder for any byte sequence.
   */
  lemma RoundTrip(bytes: seq<JByte>)
    ensures DecodePairs(Normalize(Encode(bytes))) == bytes
  {
    var e := Encode(bytes);
    forall i | 0 <= i < |e| ensures !IsRegexSpace(e[i]) {
    }
    StripSpacesNoOp(e);
    var h := Normalize(e);
    assert h == Upper(e);
    var d := DecodePairs(h);
    forall k | 0 <= k < |bytes| ensures d[k] == bytes[k] {
      DecodePairsAt(h, k);
      EncodeAt(bytes, k);
      assert e[2 * k] == ByteHex(bytes[k])[0] && e[2 * k + 1] == ByteHex(bytes[k])[1];
      PairOfByteHex(bytes[k]);
    }
  }
}
