/**
 * The curve tables of jwk/ecdsa.go: the native curve objects the Go crypto
 * libraries hand over, the `jwa` curve identifiers stored in a key, the
 * mapping between the two in both directions, and the byte width of a
 * coordinate on each curve.
 */
module Curves {
  import opened Wrappers

  /**
   * A native curve object. The four supported curves are the singletons
   * `elliptic.P256()`, `elliptic.P384()`, `elliptic.P521()` and
   * `secp256k1.S256()`; any other curve object is `OtherCurve`, which the
   * source compares by identity, so an `OtherCurve` never matches one of the
   * four even when its name or size coincide.
   */
  datatype NativeCurve = P256 | P384 | P521 | S256 | OtherCurve(name: string, bitSize: nat)
  {
    predicate Supported() {
      !OtherCurve?
    }
  }

  // The `jwa.EllipticCurveAlgorithm` identifiers.
  const P256Alg := "P-256"
  const P384Alg := "P-384"
  const P521Alg := "P-521"
  const Secp256k1Alg := "secp256k1"
  /** What the key's generated `Crv()` accessor yields when no curve is stored. */
  const InvalidAlg := "P-invalid"

  predicate IsKnownAlg(alg: string) {
    alg == P256Alg || alg == P384Alg || alg == P521Alg || alg == Secp256k1Alg
  }

  /** The order of the curve's field in bits. */
  function BitSize(c: NativeCurve): nat {
    match c
    case P256 => 256
    case P384 => 384
    case P521 => 521
    case S256 => 256
    case OtherCurve(_, bits) => bits
  }

  /** Bytes needed for one coordinate: the least n with 8n >= the bit size. */
  function Width(c: NativeCurve): (w: nat)
    ensures 8 * w >= BitSize(c)
    ensures w == 0 || 8 * (w - 1) < BitSize(c)
  {
    (BitSize(c) + 7) / 8
  }

  /** `crv.Params().Name` of a native curve. */
  function ParamsName(c: NativeCurve): (r: string)
    ensures c.Supported() ==> CurveFor(r) == Some(c)
  {
    match c
    case P256 => "P-256"
    case P384 => "P-384"
    case P521 => "P-521"
    case S256 => "secp256k1"
    case OtherCurve(name, _) => name
  }

  /** The switch of `FromRaw`: native curve to identifier, or none for an unsupported curve. */
  function AlgFor(c: NativeCurve): (r: Option<string>)
    ensures r.Some? <==> c.Supported()
    ensures r.Some? ==> IsKnownAlg(r.value)
  {
    match c
    case P256 => Some(P256Alg)
    case P384 => Some(P384Alg)
    case P521 => Some(P521Alg)
    case S256 => Some(Secp256k1Alg)
    case OtherCurve(_, _) => None
  }

  /** The switch of `buildECDSAPublicKey`: identifier to native curve, or none for an unknown identifier. */
  function CurveFor(alg: string): (r: Option<NativeCurve>)
    ensures r.Some? <==> IsKnownAlg(alg)
    ensures r.Some? ==> r.value.Supported() && AlgFor(r.value) == Some(alg)
  {
    if alg == P256Alg then Some(P256)
    else if alg == P384Alg then Some(P384)
    else if alg == P521Alg then Some(P521)
    else if alg == Secp256k1Alg then Some(S256)
    else None
  }

  /** Exporting inverts importing: the identifier FromRaw stores maps back to the same curve. */
  lemma CurveForInvertsAlgFor(c: NativeCurve)
    requires c.Supported()
    ensures CurveFor(AlgFor(c).value) == Some(c)
  {
  }

  /** The four curves have widths 32, 48, 66 and 32. */
  lemma SupportedWidths()
    ensures Width(P256) == 32 && Width(P384) == 48 && Width(P521) == 66 && Width(S256) == 32
  {
  }

  /** For a supported curve the thumbprint's `crv` (the curve's own name) is the identifier stored in the key. */
  lemma ParamsNameIsAlg(c: NativeCurve)
    requires c.Supported()
    ensures AlgFor(c) == Some(ParamsName(c))
  {
  }

  lemma InvalidAlgIsUnknown()
    ensures CurveFor(InvalidAlg) == None
  {
  }
}
