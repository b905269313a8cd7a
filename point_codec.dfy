/**
 * Fixed-width big-endian coordinate codec.
 *
 * Decoding is what `big.Int.SetBytes` does in jwk/ecdsa.go (any length,
 * leading zeros ignored). Encoding stands for `ecutil.AllocECPointBuffer`,
 * which is not part of this model: it is assumed to write the value
 * big-endian into a buffer of the curve's byte width, zero-padded on the left.
 */
module PointCodec {

  type Byte = b: int | 0 <= b < 256

  /** 256 to the power n: one more than the largest value n bytes can hold. */
  function Pow256(n: nat): (r: nat)
    ensures r > 0
  {
    if n == 0 then 1 else 256 * Pow256(n - 1)
  }

  /** A wider byte count holds strictly more values. */
  lemma {:induction false} Pow256Increasing(m: nat, n: nat)
    requires m < n
    ensures Pow256(m) < Pow256(n)
  {
    if m + 1 < n {
      Pow256Increasing(m, n - 1);
    }
  }

  /** The value `v` fits in `width` bytes. */
  predicate FitsIn(v: nat, width: nat) {
    v < Pow256(width)
  }

  /** The unsigned integer a big-endian byte string denotes (`SetBytes`). */
  function BigEndianValue(s: seq<Byte>): (v: nat)
    ensures v < Pow256(|s|)
  {
    if s == [] then 0
    else
      var prefix := s[..|s| - 1];
      var p := BigEndianValue(prefix);
      assert p * 256 <= (Pow256(|prefix|) - 1) * 256;
      p * 256 + s[|s| - 1]
  }

  lemma DivByteBound(v: nat, width: nat)
    requires width > 0 && v < Pow256(width)
    ensures v / 256 < Pow256(width - 1)
  {
  }

  /** `v` written big-endian in exactly `width` bytes (the point buffer). */
  function EncodeFixed(v: nat, width: nat): (s: seq<Byte>)
    requires FitsIn(v, width)
    ensures |s| == width
    ensures BigEndianValue(s) == v
  {
    if width == 0 then []
    else
      DivByteBound(v, width);
      var s := EncodeFixed(v / 256, width - 1) + [v % 256];
      assert s[..|s| - 1] == EncodeFixed(v / 256, width - 1);
      s
  }

  /** `n` zero bytes. */
  function Zeros(n: nat): (s: seq<Byte>)
    ensures |s| == n
    ensures forall i :: 0 <= i < n ==> s[i] == 0
  {
    if n == 0 then [] else [0] + Zeros(n - 1)
  }

  /** Encoding the value of a byte string at its own length gives it back. */
  lemma {:induction false} EncodeDecode(s: seq<Byte>)
    ensures EncodeFixed(BigEndianValue(s), |s|) == s
  {
    if s != [] {
      var prefix := s[..|s| - 1];
      EncodeDecode(prefix);
      var v := BigEndianValue(s);
      assert v / 256 == BigEndianValue(prefix);
      assert v % 256 == s[|s| - 1];
      assert s == prefix + [s[|s| - 1]];
    }
  }

  /** A width-w string with value v is the width-w encoding of v: the encoding is canonical. */
  lemma EncodingIsUnique(s: seq<Byte>, v: nat)
    requires BigEndianValue(s) == v
    ensures FitsIn(v, |s|) && EncodeFixed(v, |s|) == s
  {
    EncodeDecode(s);
  }

  /** Leading zero bytes do not change the value (`SetBytes` accepts any length). */
  lemma {:induction false} LeadingZerosIgnored(s: seq<Byte>)
    ensures BigEndianValue([0] + s) == BigEndianValue(s)
  {
    if s != [] {
      var prefix := s[..|s| - 1];
      LeadingZerosIgnored(prefix);
      assert ([0] + s)[..|s|] == [0] + prefix;
    }
  }

  /** Encoding at a larger width only adds zero bytes on the left. */
  lemma {:induction false} EncodeFixedPads(v: nat, width: nat, extra: nat)
    requires FitsIn(v, width)
    ensures FitsIn(v, width + extra)
    ensures EncodeFixed(v, width + extra) == Zeros(extra) + EncodeFixed(v, width)
  {
    var t := EncodeFixed(v, width);
    var s := Zeros(extra) + t;
    assert |s| == width + extra;
    ZerosValue(extra, t);
    EncodingIsUnique(s, v);
  }

  /**
   * A byte string no longer than `width` re-encodes at `width` as itself
   * with zero bytes added on the left.
   */
  lemma {:induction false} PadTo(s: seq<Byte>, width: nat)
    requires |s| <= width
    ensures FitsIn(BigEndianValue(s), width)
    ensures EncodeFixed(BigEndianValue(s), width) == Zeros(width - |s|) + s
  {
    PadBy(s, width - |s|);
  }

  lemma {:induction false} PadBy(s: seq<Byte>, extra: nat)
    ensures FitsIn(BigEndianValue(s), |s| + extra)
    ensures EncodeFixed(BigEndianValue(s), |s| + extra) == Zeros(extra) + s
  {
    EncodeDecode(s);
    EncodeFixedPads(BigEndianValue(s), |s|, extra);
  }

  lemma {:induction false} ZerosValue(n: nat, s: seq<Byte>)
    ensures BigEndianValue(Zeros(n) + s) == BigEndianValue(s)
  {
    if n > 0 {
      ZerosValue(n - 1, s);
      LeadingZerosIgnored(Zeros(n - 1) + s);
      assert Zeros(n) + s == [0] + (Zeros(n - 1) + s);
    } else {
      assert Zeros(n) + s == s;
    }
  }
}
