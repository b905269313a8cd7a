/**
 * Unpadded base64url, the encoding RFC 7515 section 2 calls "Base64url
 * Encoding" (the URL- and filename-safe alphabet of RFC 4648 section 5 with
 * the trailing '=' characters left out). The thumbprint in jwk/ecdsa.go
 * applies it to the fixed-width coordinates through the library's internal
 * base64 package, which is not part of this model and is taken to be exactly
 * this encoding.
 */
module Base64Url {
  import opened PointCodec

  /** A 6-bit group, the value one output character carries. */
  type Sextet = i: int | 0 <= i < 64

  /** The characters of the URL-safe alphabet. */
  predicate IsUrlSafeChar(c: char) {
    ('A' <= c <= 'Z') || ('a' <= c <= 'z') || ('0' <= c <= '9') || c == '-' || c == '_'
  }

  /** The character that stands for a sextet: A-Z, a-z, 0-9, '-', '_'. */
  function SextetChar(i: Sextet): (c: char)
    ensures IsUrlSafeChar(c)
  {
    if i < 26 then ('A' as int + i) as char
    else if i < 52 then ('a' as int + (i - 26)) as char
    else if i < 62 then ('0' as int + (i - 52)) as char
    else if i == 62 then '-'
    else '_'
  }

  /** The sextet a character of the alphabet stands for. */
  function CharSextet(c: char): (i: Sextet)
    requires IsUrlSafeChar(c)
  {
    if 'A' <= c <= 'Z' then c as int - 'A' as int
    else if 'a' <= c <= 'z' then c as int - 'a' as int + 26
    else if '0' <= c <= '9' then c as int - '0' as int + 52
    else if c == '-' then 62
    else 63
  }

  lemma SextetRoundTrip(i: Sextet)
    ensures CharSextet(SextetChar(i)) == i
  {
  }

  /** The unpadded length of the encoding of n bytes: ceil(4n / 3). */
  function EncodedLength(n: nat): nat {
    (4 * n + 2) / 3
  }

  predicate AllUrlSafe(s: string) {
    forall i :: 0 <= i < |s| ==> IsUrlSafeChar(s[i])
  }

  /** The four characters of a full group of three bytes. */
  function EncodeGroup(b0: Byte, b1: Byte, b2: Byte): (s: string)
    ensures |s| == 4 && AllUrlSafe(s)
  {
    [SextetChar(b0 / 4), SextetChar(b0 % 4 * 16 + b1 / 16),
     SextetChar(b1 % 16 * 4 + b2 / 64), SextetChar(b2 % 64)]
  }

  /** The two or three characters of a final group of one or two bytes. */
  function EncodeTail(b: seq<Byte>): (s: string)
    requires 1 <= |b| <= 2
    ensures |s| == |b| + 1 && AllUrlSafe(s)
  {
    if |b| == 1 then [SextetChar(b[0] / 4), SextetChar(b[0] % 4 * 16)]
    else [SextetChar(b[0] / 4), SextetChar(b[0] % 4 * 16 + b[1] / 16), SextetChar(b[1] % 16 * 4)]
  }

  /** Base64url without padding: each 3 bytes become 4 characters, a final 1 or 2 bytes become 2 or 3. */
  function Encode(b: seq<Byte>): (s: string)
    ensures |s| == EncodedLength(|b|)
    ensures AllUrlSafe(s)
    decreases |b|
  {
    if |b| == 0 then ""
    else if |b| <= 2 then EncodeTail(b)
    else EncodeGroup(b[0], b[1], b[2]) + Encode(b[3..])
  }

  /** The three bytes four characters carry. */
  function DecodeGroup(s: string): (b: seq<Byte>)
    requires |s| == 4 && AllUrlSafe(s)
  {
    var i0, i1, i2, i3 := CharSextet(s[0]), CharSextet(s[1]), CharSextet(s[2]), CharSextet(s[3]);
    [i0 * 4 + i1 / 16, i1 % 16 * 16 + i2 / 4, i2 % 4 * 64 + i3]
  }

  /** The one or two bytes a final two or three characters carry. */
  function DecodeTail(s: string): (b: seq<Byte>)
    requires 2 <= |s| <= 3 && AllUrlSafe(s)
  {
    var i0, i1 := CharSextet(s[0]), CharSextet(s[1]);
    if |s| == 2 then [i0 * 4 + i1 / 16]
    else [i0 * 4 + i1 / 16, i1 % 16 * 16 + CharSextet(s[2]) / 4]
  }

  /** The inverse of Encode on the strings Encode produces. */
  function Decode(s: string): (b: seq<Byte>)
    requires AllUrlSafe(s)
    decreases |s|
  {
    if |s| < 2 then []
    else if |s| <= 3 then DecodeTail(s)
    else DecodeGroup(s[..4]) + Decode(s[4..])
  }

  /** The arithmetic of a full group: its four sextets give the three bytes back. */
  lemma GroupArithmetic(b0: Byte, b1: Byte, b2: Byte, i0: int, i1: int, i2: int, i3: int)
    requires i0 == b0 / 4 && i1 == b0 % 4 * 16 + b1 / 16
    requires i2 == b1 % 16 * 4 + b2 / 64 && i3 == b2 % 64
    ensures i0 * 4 + i1 / 16 == b0
    ensures i1 % 16 * 16 + i2 / 4 == b1
    ensures i2 % 4 * 64 + i3 == b2
  {
  }

  /** A full group decodes to its three bytes. */
  lemma GroupRoundTrip(b0: Byte, b1: Byte, b2: Byte)
    ensures DecodeGroup(EncodeGroup(b0, b1, b2)) == [b0, b1, b2]
  {
    var i0, i1, i2, i3 := b0 / 4, b0 % 4 * 16 + b1 / 16, b1 % 16 * 4 + b2 / 64, b2 % 64;
    SextetRoundTrip(i0);
    SextetRoundTrip(i1);
    SextetRoundTrip(i2);
    SextetRoundTrip(i3);
    GroupArithmetic(b0, b1, b2, i0, i1, i2, i3);
  }

  /** The arithmetic of a final group of one or two bytes. */
  lemma TailArithmetic(b0: Byte, b1: Byte, i0: int, i1: int, i2: int)
    requires i0 == b0 / 4 && i1 == b0 % 4 * 16 + b1 / 16 && i2 == b1 % 16 * 4
    ensures i0 * 4 + (b0 % 4 * 16) / 16 == b0
    ensures i0 * 4 + i1 / 16 == b0
    ensures i1 % 16 * 16 + i2 / 4 == b1
  {
  }

  /** A final group decodes to its one or two bytes. */
  lemma TailRoundTrip(b: seq<Byte>)
    requires 1 <= |b| <= 2
    ensures DecodeTail(EncodeTail(b)) == b
  {
    var b1 := if |b| == 2 then b[1] else 0;
    var i0, i1, i2 := b[0] / 4, b[0] % 4 * 16 + b1 / 16, b1 % 16 * 4;
    TailArithmetic(b[0], b1, i0, i1, i2);
    SextetRoundTrip(i0);
    if |b| == 1 {
      SextetRoundTrip(b[0] % 4 * 16);
    } else {
      SextetRoundTrip(i1);
      SextetRoundTrip(i2);
    }
  }

  lemma SplitAt<T>(g: seq<T>, rest: seq<T>)
    requires |g| == 4
    ensures (g + rest)[..4] == g && (g + rest)[4..] == rest
  {
  }

  lemma SplitThree<T>(b: seq<T>)
    requires |b| >= 3
    ensures b == [b[0], b[1], b[2]] + b[3..]
  {
  }

  /** Decoding an encoding gives the bytes back. */
  lemma {:induction false} DecodeEncode(b: seq<Byte>)
    ensures Decode(Encode(b)) == b
    decreases |b|
  {
    if 1 <= |b| <= 2 {
      TailRoundTrip(b);
    } else if |b| >= 3 {
      var g := EncodeGroup(b[0], b[1], b[2]);
      SplitAt(g, Encode(b[3..]));
      GroupRoundTrip(b[0], b[1], b[2]);
      DecodeEncode(b[3..]);
      SplitThree(b);
    }
  }

  /** Different byte strings have different encodings. */
  lemma EncodeInjective(a: seq<Byte>, b: seq<Byte>)
    requires Encode(a) == Encode(b)
    ensures a == b
  {
    DecodeEncode(a);
    DecodeEncode(b);
  }
}
