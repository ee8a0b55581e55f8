/**
 * Base64 as the client uses it for keys and values: the alphabet of
 * RFC 4648 section 4, an encoder that emits no padding, the client's own
 * `base64pad`, and a decoder that stops at the first character outside the
 * alphabet (so at the first '=').
 */
module Base64 {

  type Byte = b: int | 0 <= b < 256

  /** The character for a 6-bit value (RFC 4648 section 4, table 1). */
  function Alphabet(i: nat): (c: char)
    requires i < 64
  {
    if i < 26 then (('A' as int) + i) as char
    else if i < 52 then (('a' as int) + (i - 26)) as char
    else if i < 62 then (('0' as int) + (i - 52)) as char
    else if i == 62 then '+'
    else '/'
  }

  predicate IsBase64Char(c: char) {
    ('A' <= c <= 'Z') || ('a' <= c <= 'z') || ('0' <= c <= '9') || c == '+' || c == '/'
  }

  predicate AllBase64(s: string) {
    forall i :: 0 <= i < |s| ==> IsBase64Char(s[i])
  }

  /** The 6-bit value of an alphabet character: the inverse of `Alphabet`. */
  function IndexOf(c: char): (i: nat)
    requires IsBase64Char(c)
    ensures i < 64 && Alphabet(i) == c
  {
    if 'A' <= c <= 'Z' then (c as int) - ('A' as int)
    else if 'a' <= c <= 'z' then (c as int) - ('a' as int) + 26
    else if '0' <= c <= '9' then (c as int) - ('0' as int) + 52
    else if c == '+' then 62
    else 63
  }

  lemma AlphabetIsInvertible(i: nat)
    requires i < 64
    ensures IsBase64Char(Alphabet(i)) && IndexOf(Alphabet(i)) == i
  {
  }

  /** Three bytes as four characters: 24 bits cut into four 6-bit values, most significant first. */
  function EncodeTriple(b0: Byte, b1: Byte, b2: Byte): string {
    [Alphabet(b0 / 4), Alphabet((b0 % 4) * 16 + b1 / 16), Alphabet((b1 % 16) * 4 + b2 / 64), Alphabet(b2 % 64)]
  }

  /**
   * The unpadded encoding that `bn::encode_b64` produces: full groups of
   * three bytes, then two or three characters for a trailing one or two bytes.
   */
  function EncodeUnpadded(s: seq<Byte>): (r: string)
    ensures AllBase64(r)
    ensures |r| == (4 * |s| + 2) / 3
    decreases |s|
  {
    if |s| >= 3 then
      AlphabetChars(s[0], s[1], s[2]);
      EncodeTriple(s[0], s[1], s[2]) + EncodeUnpadded(s[3..])
    else if |s| == 2 then
      [Alphabet(s[0] / 4), Alphabet((s[0] % 4) * 16 + s[1] / 16), Alphabet((s[1] % 16) * 4)]
    else if |s| == 1 then
      [Alphabet(s[0] / 4), Alphabet((s[0] % 4) * 16)]
    else
      []
  }

  lemma AlphabetChars(b0: Byte, b1: Byte, b2: Byte)
    ensures AllBase64(EncodeTriple(b0, b1, b2))
  {
    AlphabetIsInvertible(b0 / 4);
    AlphabetIsInvertible((b0 % 4) * 16 + b1 / 16);
    AlphabetIsInvertible((b1 % 16) * 4 + b2 / 64);
    AlphabetIsInvertible(b2 % 64);
  }

  /**
   * `ETCDClient::base64pad`: appends `4 - n % 4` '=' characters unless the
   * length `n` is already a multiple of four.
   */
  function Base64Pad(s: string): (r: string)
    ensures |r| % 4 == 0
    ensures |s| <= |r| < |s| + 4 && r[..|s|] == s
    ensures forall i :: |s| <= i < |r| ==> r[i] == '='
  {
    var padLength := 4 - |s| % 4;
    var padLength := if padLength < 4 then padLength else 0;
    s + seq(padLength, _ => '=')
  }

  /** Padding an already padded string adds nothing. */
  lemma PadIsIdempotent(s: string)
    ensures Base64Pad(Base64Pad(s)) == Base64Pad(s)
  {
    var r := Base64Pad(s);
    assert Base64Pad(r) == r + [];
  }

  /** `ETCDClient::ToBase64`: the unpadded encoding followed by `base64pad`. */
  function ToBase64(s: seq<Byte>): (r: string)
    ensures |r| % 4 == 0
    ensures forall i :: 0 <= i < |r| ==> IsBase64Char(r[i]) || r[i] == '='
  {
    Base64Pad(EncodeUnpadded(s))
  }

  /** The length of the longest prefix of `s` made of alphabet characters. */
  function AlphabetPrefix(s: string): (k: nat)
    ensures k <= |s| && AllBase64(s[..k])
    ensures k < |s| ==> !IsBase64Char(s[k])
  {
    if s != [] && IsBase64Char(s[0]) then
      var k := 1 + AlphabetPrefix(s[1..]);
      assert s[..k] == [s[0]] + s[1..][..k - 1];
      k
    else 0
  }

  /** Four characters back into three bytes. */
  function DecodeQuad(c0: nat, c1: nat, c2: nat, c3: nat): seq<Byte>
    requires c0 < 64 && c1 < 64 && c2 < 64 && c3 < 64
  {
    [c0 * 4 + c1 / 16, (c1 % 16) * 16 + c2 / 4, (c2 % 4) * 64 + c3]
  }

  /** Decodes alphabet characters group by group; a trailing group of k >= 2 characters yields k - 1 bytes. */
  function DecodeChars(s: string): seq<Byte>
    requires AllBase64(s)
    decreases |s|
  {
    if |s| >= 4 then
      DecodeQuad(IndexOf(s[0]), IndexOf(s[1]), IndexOf(s[2]), IndexOf(s[3])) + DecodeChars(s[4..])
    else if |s| == 3 then
      DecodeQuad(IndexOf(s[0]), IndexOf(s[1]), IndexOf(s[2]), 0)[..2]
    else if |s| == 2 then
      DecodeQuad(IndexOf(s[0]), IndexOf(s[1]), 0, 0)[..1]
    else
      []
  }

  /**
   * The base64 decoding of the key and value fields of a response: the
   * alphabet characters up to the first other character (padding included)
   * are decoded; decoding never fails.
   */
  function Decode(s: string): seq<Byte> {
    var k := AlphabetPrefix(s);
    DecodeChars(s[..k])
  }

  lemma TripleRoundTrip(b0: Byte, b1: Byte, b2: Byte)
    ensures DecodeQuad(b0 / 4, (b0 % 4) * 16 + b1 / 16, (b1 % 16) * 4 + b2 / 64, b2 % 64) == [b0, b1, b2]
  {
  }

  lemma DecodeFirstGroup(s: seq<Byte>)
    requires |s| >= 3
    ensures DecodeChars(EncodeUnpadded(s)) == [s[0], s[1], s[2]] + DecodeChars(EncodeUnpadded(s[3..]))
  {
    var e := EncodeUnpadded(s);
    var t := EncodeTriple(s[0], s[1], s[2]);
    assert e[..4] == t && e[4..] == EncodeUnpadded(s[3..]);
    AlphabetIsInvertible(s[0] / 4);
    AlphabetIsInvertible((s[0] % 4) * 16 + s[1] / 16);
    AlphabetIsInvertible((s[1] % 16) * 4 + s[2] / 64);
    AlphabetIsInvertible(s[2] % 64);
    TripleRoundTrip(s[0], s[1], s[2]);
  }

  lemma DecodeTwoBytes(b0: Byte, b1: Byte)
    ensures DecodeChars(EncodeUnpadded([b0, b1])) == [b0, b1]
  {
    AlphabetIsInvertible(b0 / 4);
    AlphabetIsInvertible((b0 % 4) * 16 + b1 / 16);
    AlphabetIsInvertible((b1 % 16) * 4);
    TripleRoundTrip(b0, b1, 0);
  }

  lemma DecodeOneByte(b0: Byte)
    ensures DecodeChars(EncodeUnpadded([b0])) == [b0]
  {
    AlphabetIsInvertible(b0 / 4);
    AlphabetIsInvertible((b0 % 4) * 16);
    TripleRoundTrip(b0, 0, 0);
  }

  lemma {:induction false} DecodeEncodeUnpadded(s: seq<Byte>)
    ensures DecodeChars(EncodeUnpadded(s)) == s
    decreases |s|
  {
    if |s| >= 3 {
      DecodeEncodeUnpadded(s[3..]);
      DecodeEncodeStep(s);
    } else if |s| == 2 {
      DecodeTwoBytes(s[0], s[1]);
      assert s == [s[0], s[1]];
    } else if |s| == 1 {
      DecodeOneByte(s[0]);
      assert s == [s[0]];
    }
  }

  /** A full group decodes back once the rest does. */
  lemma DecodeEncodeStep(s: seq<Byte>)
    requires |s| >= 3 && DecodeChars(EncodeUnpadded(s[3..])) == s[3..]
    ensures DecodeChars(EncodeUnpadded(s)) == s
  {
    DecodeFirstGroup(s);
    SplitFirstThree(s);
  }

  lemma SplitFirstThree(s: seq<Byte>)
    requires |s| >= 3
    ensures [s[0], s[1], s[2]] + s[3..] == s
  {
  }

  lemma {:induction false} AlphabetPrefixStopsAtPadding(e: string, pad: string)
    requires AllBase64(e)
    requires forall i :: 0 <= i < |pad| ==> pad[i] == '='
    ensures AlphabetPrefix(e + pad) == |e|
    decreases |e|
  {
    if e == [] {
      assert e + pad == pad;
    } else {
      assert (e + pad)[1..] == e[1..] + pad;
      AlphabetPrefixStopsAtPadding(e[1..], pad);
    }
  }

  /** Every byte string survives `ToBase64` followed by the response decoder's base64 decoding. */
  lemma DecodeToBase64(s: seq<Byte>)
    ensures Decode(ToBase64(s)) == s
  {
    var e := EncodeUnpadded(s);
    var r := ToBase64(s);
    var pad := r[|e|..];
    assert r == e + pad;
    AlphabetPrefixStopsAtPadding(e, pad);
    assert r[..|e|] == e;
    DecodeEncodeUnpadded(s);
  }

  /** `ToBase64` is one-to-one, so distinct keys are sent as distinct texts. */
  lemma ToBase64IsInjective(a: seq<Byte>, b: seq<Byte>)
    requires ToBase64(a) == ToBase64(b)
    ensures a == b
  {
    DecodeToBase64(a);
    DecodeToBase64(b);
  }
}
