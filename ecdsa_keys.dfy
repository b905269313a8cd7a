/**
 * EC JSON Web Keys (jwk/ecdsa.go): import from a native key (`FromRaw`),
 * export to a native key (`Raw`, `buildECDSAPublicKey`), projection to the
 * public key (`makeECDSAPublicKey`) and the RFC 7638 thumbprint
 * (`ecdsaThumbprint`, `Thumbprint`), for public and private keys.
 */
module EcdsaKeys {
  import opened Wrappers
  import opened PointCodec
  import opened Curves
  import Base64Url
  import opened ThumbprintInput

  /** `ecdsa.PublicKey`: the curve object and the point's coordinates. */
  datatype NativePublicKey = NativePublicKey(curve: NativeCurve, x: nat, y: nat)

  /** `ecdsa.PrivateKey`: the public key it embeds and the private scalar. */
  datatype NativePrivateKey = NativePrivateKey(pub: NativePublicKey, d: nat)

  /** What `Raw` hands to the caller's variable. */
  datatype NativeKey = PublicNative(pub: NativePublicKey) | PrivateNative(priv: NativePrivateKey)

  /** The kind of key the variable passed to `Raw` can hold. */
  datatype Destination = PublicKeyDest | PrivateKeyDest

  datatype Error =
    | UnsupportedCurve(curve: NativeCurve)        // FromRaw: invalid elliptic curve
    | InvalidCurveAlgorithm(alg: string)          // buildECDSAPublicKey: invalid curve algorithm
    | IncompatibleDestination(dest: Destination)  // AssignIfCompatible refuses the destination
    | FieldCopyFailure(field: string)             // makeECDSAPublicKey: failed to set field

  /** A hash algorithm, seen only as a function from the bytes written to the digest. */
  type HashFunction = seq<Byte> -> seq<Byte>

  /**
   * `FillBytes`, which fills the point buffer, panics on a value wider than
   * the buffer; the coordinates of a native key are below the field size, so
   * they always fit.
   */
  predicate FitsCurve(v: nat, c: NativeCurve) {
    FitsIn(v, Width(c))
  }

  predicate PublicFits(k: NativePublicKey) {
    FitsCurve(k.x, k.curve) && FitsCurve(k.y, k.curve)
  }

  predicate PrivateFits(k: NativePrivateKey) {
    PublicFits(k.pub) && FitsCurve(k.d, k.pub.curve)
  }

  /** `ecutil.AllocECPointBuffer(v, c)`: v big-endian, left zero-padded to the curve's width. */
  function PointBuffer(v: nat, c: NativeCurve): (r: seq<Byte>)
    requires FitsCurve(v, c)
    ensures |r| == Width(c) && BigEndianValue(r) == v
  {
    EncodeFixed(v, Width(c))
  }

  /**
   * `buildECDSAPublicKey`: the identifier chooses the curve (any other
   * identifier is an error) and the buffers are read big-endian, whatever
   * their length.
   */
  function BuildPublicKey(alg: string, xbuf: seq<Byte>, ybuf: seq<Byte>): (r: Result<NativePublicKey, Error>)
    ensures r.Success? <==> IsKnownAlg(alg)
    ensures r.Failure? ==> r.error == InvalidCurveAlgorithm(alg)
    ensures r.Success? ==> AlgFor(r.value.curve) == Some(alg)
    ensures r.Success? ==> r.value.x == BigEndianValue(xbuf) && r.value.y == BigEndianValue(ybuf)
    ensures r.Success? ==> FitsIn(r.value.x, |xbuf|) && FitsIn(r.value.y, |ybuf|)
    ensures r.Success? && |xbuf| == Width(r.value.curve) ==> PointBuffer(r.value.x, r.value.curve) == xbuf
    ensures r.Success? && |ybuf| == Width(r.value.curve) ==> PointBuffer(r.value.y, r.value.curve) == ybuf
  {
    match CurveFor(alg)
    case None => Failure(InvalidCurveAlgorithm(alg))
    case Some(curve) =>
      var x, y := BigEndianValue(xbuf), BigEndianValue(ybuf);
      EncodeDecode(xbuf);
      EncodeDecode(ybuf);
      Success(NativePublicKey(curve, x, y))
  }

  /** Building from the identifier and buffers that FromRaw stores gives the native key back. */
  lemma BuildInvertsImport(k: NativePublicKey)
    requires k.curve.Supported() && PublicFits(k)
    ensures BuildPublicKey(AlgFor(k.curve).value, PointBuffer(k.x, k.curve), PointBuffer(k.y, k.curve)) == Success(k)
  {
    CurveForInvertsAlgFor(k.curve);
  }

  /** `blackmagic.AssignIfCompatible`, reduced to: the destination must hold the kind of key produced. */
  function AssignIfCompatible(dest: Destination, key: NativeKey): (r: Result<NativeKey, Error>)
    ensures r.Success? <==> (dest == PublicKeyDest <==> key.PublicNative?)
    ensures r.Success? ==> r.value == key
    ensures r.Failure? ==> r.error == IncompatibleDestination(dest)
  {
    match (dest, key)
    case (PublicKeyDest, PublicNative(_)) => Success(key)
    case (PrivateKeyDest, PrivateNative(_)) => Success(key)
    case _ => Failure(IncompatibleDestination(dest))
  }

  /** Base64url text is plain ASCII without quotes or whitespace. */
  lemma UrlSafeIsPlain(s: string)
    requires Base64Url.AllUrlSafe(s)
    ensures IsAscii(s) && NoQuote(s) && NoWhitespace(s)
  {
  }

  /** `ecdsaThumbprint`: the digest of the members text of crv, "EC", x and y. */
  function EcdsaThumbprint(hash: HashFunction, crv: string, x: string, y: string): (r: seq<Byte>)
    requires IsAscii(crv) && IsAscii(x) && IsAscii(y)
    ensures IsAscii(MembersText(crv, x, y)) && r == hash(AsciiBytes(MembersText(crv, x, y)))
  {
    MembersTextAscii(crv, x, y);
    hash(HashInput(crv, x, y))
  }

  /** Curve names are plain ASCII without quotes. */
  lemma ParamsNameIsPlain(c: NativeCurve)
    requires c.Supported()
    ensures IsAscii(ParamsName(c)) && NoQuote(ParamsName(c)) && NoWhitespace(ParamsName(c))
  {
  }

  /** The bytes hashed for a curve name and two coordinate buffers, each buffer in base64url. */
  function JwkHashInput(crv: string, xbuf: seq<Byte>, ybuf: seq<Byte>): seq<Byte>
    requires IsAscii(crv)
  {
    UrlSafeIsPlain(Base64Url.Encode(xbuf));
    UrlSafeIsPlain(Base64Url.Encode(ybuf));
    HashInput(crv, Base64Url.Encode(xbuf), Base64Url.Encode(ybuf))
  }

  /** The bytes hashed for a native public key: its curve's name and its coordinates at the curve's width. */
  function KeyHashInput(key: NativePublicKey): seq<Byte>
    requires key.curve.Supported() && PublicFits(key)
  {
    ParamsNameIsPlain(key.curve);
    JwkHashInput(ParamsName(key.curve), PointBuffer(key.x, key.curve), PointBuffer(key.y, key.curve))
  }

  /**
   * What `Thumbprint` does after `Raw`: re-encode the coordinates at the
   * curve's width, base64url them and pass them with the curve's name to
   * `ecdsaThumbprint`.
   */
  function NativeThumbprint(hash: HashFunction, key: NativePublicKey): (r: seq<Byte>)
    requires key.curve.Supported() && PublicFits(key)
    ensures AlgFor(key.curve).Some? && IsAscii(AlgFor(key.curve).value)
    ensures r == hash(JwkHashInput(AlgFor(key.curve).value, PointBuffer(key.x, key.curve), PointBuffer(key.y, key.curve)))
  {
    ParamsNameIsAlg(key.curve);
    var xbuf := PointBuffer(key.x, key.curve);
    var ybuf := PointBuffer(key.y, key.curve);
    UrlSafeIsPlain(Base64Url.Encode(xbuf));
    UrlSafeIsPlain(Base64Url.Encode(ybuf));
    ParamsNameIsPlain(key.curve);
    EcdsaThumbprint(hash, ParamsName(key.curve), Base64Url.Encode(xbuf), Base64Url.Encode(ybuf))
  }

  lemma NativeThumbprintHashesInput(hash: HashFunction, key: NativePublicKey)
    requires key.curve.Supported() && PublicFits(key)
    ensures NativeThumbprint(hash, key) == hash(KeyHashInput(key))
  {
  }

  /**
   * The hash input is canonical: different supported keys give different
   * inputs, so a thumbprint collision can only come from the hash itself.
   */
  lemma KeyHashInputInjective(k: NativePublicKey, k': NativePublicKey)
    requires k.curve.Supported() && PublicFits(k)
    requires k'.curve.Supported() && PublicFits(k')
    requires KeyHashInput(k) == KeyHashInput(k')
    ensures k == k'
  {
    var xb, yb := PointBuffer(k.x, k.curve), PointBuffer(k.y, k.curve);
    var xb', yb' := PointBuffer(k'.x, k'.curve), PointBuffer(k'.y, k'.curve);
    var xs, ys := Base64Url.Encode(xb), Base64Url.Encode(yb);
    var xs', ys' := Base64Url.Encode(xb'), Base64Url.Encode(yb');
    UrlSafeIsPlain(xs);
    UrlSafeIsPlain(ys);
    UrlSafeIsPlain(xs');
    UrlSafeIsPlain(ys');
    ParamsNameIsPlain(k.curve);
    ParamsNameIsPlain(k'.curve);
    HashInputInjective(ParamsName(k.curve), xs, ys, ParamsName(k'.curve), xs', ys');
    CurveNameInjective(k.curve, k'.curve);
    Base64Url.EncodeInjective(xb, xb');
    Base64Url.EncodeInjective(yb, yb');
    assert k.x == BigEndianValue(xb) == BigEndianValue(xb') == k'.x;
    assert k.y == BigEndianValue(yb) == BigEndianValue(yb') == k'.y;
  }

  lemma CurveNameInjective(c: NativeCurve, c': NativeCurve)
    requires c.Supported() && c'.Supported() && ParamsName(c) == ParamsName(c')
    ensures c == c'
  {
    ParamsNameIsAlg(c);
    ParamsNameIsAlg(c');
    CurveForInvertsAlgFor(c);
    CurveForInvertsAlgFor(c');
  }

  /**
   * Stored coordinate buffers whose values fit the width of the curve the
   * identifier names, so that `Thumbprint` can re-encode them.
   */
  predicate BuffersFit(crv: string, x: seq<Byte>, y: seq<Byte>) {
    CurveFor(crv).Some? ==>
      FitsCurve(BigEndianValue(x), CurveFor(crv).value) && FitsCurve(BigEndianValue(y), CurveFor(crv).value)
  }

  /** JWK material of an EC public key (`ecdsaPublicKey`). */
  class ECDSAPublicKey {
    var crv: Option<string>
    var x: seq<Byte>
    var y: seq<Byte>

    constructor ()
      ensures crv == None && x == [] && y == []
    {
      crv, x, y := None, [], [];
    }

    /** The stored curve identifier, or "P-invalid" when none is stored. */
    function Crv(): string
      reads this
    {
      if crv.Some? then crv.value else InvalidAlg
    }

    /**
     * `FromRaw`: the coordinate buffers are filled and copied into the key
     * before the curve is looked at, so an unsupported curve leaves the new
     * coordinates in place and only the curve identifier unchanged.
     */
    method FromRaw(rawKey: NativePublicKey) returns (err: Option<Error>)
      requires PublicFits(rawKey)
      modifies this
      ensures x == PointBuffer(rawKey.x, rawKey.curve) && y == PointBuffer(rawKey.y, rawKey.curve)
      ensures err.None? <==> rawKey.curve.Supported()
      ensures err.None? ==> crv == AlgFor(rawKey.curve)
      ensures err.Some? ==> err.value == UnsupportedCurve(rawKey.curve) && crv == old(crv)
    {
      var xbuf := PointBuffer(rawKey.x, rawKey.curve);
      var ybuf := PointBuffer(rawKey.y, rawKey.curve);
      x := xbuf;
      y := ybuf;
      var alg := AlgFor(rawKey.curve);
      if alg.None? {
        return Some(UnsupportedCurve(rawKey.curve));
      }
      crv := alg;
      return None;
    }

    /** `Raw`: build the native public key and hand it to a destination that holds public keys. */
    function Raw(dest: Destination): (r: Result<NativeKey, Error>)
      reads this
      ensures r.Success? <==> IsKnownAlg(Crv()) && dest == PublicKeyDest
      ensures r.Failure? ==> r.error == if IsKnownAlg(Crv()) then IncompatibleDestination(dest) else InvalidCurveAlgorithm(Crv())
      ensures r.Success? ==> r == Success(PublicNative(BuildPublicKey(Crv(), x, y).value))
    {
      match BuildPublicKey(Crv(), x, y)
      case Failure(e) => Failure(e)
      case Success(pubk) => AssignIfCompatible(dest, PublicNative(pubk))
    }

    /** The stored coordinates fit the stored curve's width (always so after a successful FromRaw). */
    predicate CoordinatesFit()
      reads this
    {
      BuffersFit(Crv(), x, y)
    }

    /**
     * `Thumbprint`: materialize through `Raw`, then hash the members text of
     * the curve name and the re-encoded coordinates. For a key whose buffers
     * already have the curve's width this is the members text of exactly the
     * stored identifier and bytes.
     */
    function Thumbprint(hash: HashFunction): (r: Result<seq<Byte>, Error>)
      reads this
      requires CoordinatesFit()
      ensures r.Success? <==> IsKnownAlg(Crv())
      ensures r.Failure? ==> r.error == InvalidCurveAlgorithm(Crv())
      ensures r.Success? ==>
        && IsAscii(Crv()) && CurveFor(Crv()).Some?
        && r.value == hash(JwkHashInput(Crv(), PointBuffer(BigEndianValue(x), CurveFor(Crv()).value),
                                               PointBuffer(BigEndianValue(y), CurveFor(Crv()).value)))
      ensures r.Success? && |x| == Width(CurveFor(Crv()).value) && |y| == Width(CurveFor(Crv()).value) ==>
        r.value == hash(JwkHashInput(Crv(), x, y))
    {
      match Raw(PublicKeyDest)
      case Failure(e) => Failure(e)
      case Success(key) =>
        var k := key.pub;
        ThumbprintOfBuilt(hash, k, Crv(), x, y);
        Success(NativeThumbprint(hash, k))
    }
  }

  /** JWK material of an EC private key (`ecdsaPrivateKey`). */
  class ECDSAPrivateKey {
    var crv: Option<string>
    var x: seq<Byte>
    var y: seq<Byte>
    var d: seq<Byte>

    constructor ()
      ensures crv == None && x == [] && y == [] && d == []
    {
      crv, x, y, d := None, [], [], [];
    }

    function Crv(): string
      reads this
    {
      if crv.Some? then crv.value else InvalidAlg
    }

    /** `FromRaw`: as for the public key, with the private scalar stored as well, all before the curve check. */
    method FromRaw(rawKey: NativePrivateKey) returns (err: Option<Error>)
      requires PrivateFits(rawKey)
      modifies this
      ensures x == PointBuffer(rawKey.pub.x, rawKey.pub.curve) && y == PointBuffer(rawKey.pub.y, rawKey.pub.curve)
      ensures d == PointBuffer(rawKey.d, rawKey.pub.curve)
      ensures err.None? <==> rawKey.pub.curve.Supported()
      ensures err.None? ==> crv == AlgFor(rawKey.pub.curve)
      ensures err.Some? ==> err.value == UnsupportedCurve(rawKey.pub.curve) && crv == old(crv)
    {
      var curve := rawKey.pub.curve;
      var xbuf := PointBuffer(rawKey.pub.x, curve);
      var ybuf := PointBuffer(rawKey.pub.y, curve);
      var dbuf := PointBuffer(rawKey.d, curve);
      x := xbuf;
      y := ybuf;
      d := dbuf;
      var alg := AlgFor(curve);
      if alg.None? {
        return Some(UnsupportedCurve(curve));
      }
      crv := alg;
      return None;
    }

    /** `Raw`: build the public part, read the scalar big-endian, hand the private key to a destination that holds private keys. */
    function Raw(dest: Destination): (r: Result<NativeKey, Error>)
      reads this
      ensures r.Success? <==> IsKnownAlg(Crv()) && dest == PrivateKeyDest
      ensures r.Failure? ==> r.error == if IsKnownAlg(Crv()) then IncompatibleDestination(dest) else InvalidCurveAlgorithm(Crv())
      ensures r.Success? ==> r == Success(PrivateNative(NativePrivateKey(BuildPublicKey(Crv(), x, y).value, BigEndianValue(d))))
    {
      match BuildPublicKey(Crv(), x, y)
      case Failure(e) => Failure(e)
      case Success(pubk) =>
        var dv := BigEndianValue(d);
        AssignIfCompatible(dest, PrivateNative(NativePrivateKey(pubk, dv)))
    }

    predicate CoordinatesFit()
      reads this
    {
      BuffersFit(Crv(), x, y)
    }

    /** `Thumbprint`: materialize the private key through `Raw` and hash only its public coordinates. */
    function Thumbprint(hash: HashFunction): (r: Result<seq<Byte>, Error>)
      reads this
      requires CoordinatesFit()
      ensures r.Success? <==> IsKnownAlg(Crv())
      ensures r.Failure? ==> r.error == InvalidCurveAlgorithm(Crv())
      ensures r.Success? ==>
        && IsAscii(Crv()) && CurveFor(Crv()).Some?
        && r.value == hash(JwkHashInput(Crv(), PointBuffer(BigEndianValue(x), CurveFor(Crv()).value),
                                               PointBuffer(BigEndianValue(y), CurveFor(Crv()).value)))
      ensures r.Success? && |x| == Width(CurveFor(Crv()).value) && |y| == Width(CurveFor(Crv()).value) ==>
        r.value == hash(JwkHashInput(Crv(), x, y))
    {
      match Raw(PrivateKeyDest)
      case Failure(e) => Failure(e)
      case Success(key) =>
        var k := key.priv.pub;
        ThumbprintOfBuilt(hash, k, Crv(), x, y);
        Success(NativeThumbprint(hash, k))
    }
  }

  /**
   * A native key built from an identifier and two buffers hashes that
   * identifier and the buffers' values re-encoded at the curve's width; for
   * buffers that already have the curve's width, those very buffers.
   */
  lemma ThumbprintOfBuilt(hash: HashFunction, k: NativePublicKey, alg: string, xbuf: seq<Byte>, ybuf: seq<Byte>)
    requires BuildPublicKey(alg, xbuf, ybuf) == Success(k)
    requires PublicFits(k)
    ensures k.curve.Supported() && IsAscii(alg) && CurveFor(alg) == Some(k.curve)
    ensures NativeThumbprint(hash, k) ==
      hash(JwkHashInput(alg, PointBuffer(BigEndianValue(xbuf), k.curve), PointBuffer(BigEndianValue(ybuf), k.curve)))
    ensures |xbuf| == Width(k.curve) && |ybuf| == Width(k.curve) ==>
      NativeThumbprint(hash, k) == hash(JwkHashInput(alg, xbuf, ybuf))
  {
    ParamsNameIsAlg(k.curve);
    ParamsNameIsPlain(k.curve);
    CurveForInvertsAlgFor(k.curve);
  }

  /** Buffers no wider than the stored curve always meet the thumbprint's precondition, for either kind of key. */
  lemma ShortBuffersFit(crv: string, x: seq<Byte>, y: seq<Byte>)
    requires IsKnownAlg(crv)
    requires |x| <= Width(CurveFor(crv).value) && |y| <= Width(CurveFor(crv).value)
    ensures BuffersFit(crv, x, y)
  {
    var w := Width(CurveFor(crv).value);
    PadTo(x, w);
    PadTo(y, w);
  }

  /**
   * RFC 7638 section 3.2.1: a private key and a public key holding the same
   * curve and coordinates have the same thumbprint; the private scalar never
   * takes part.
   */
  lemma PrivateThumbprintIsPublicThumbprint(priv: ECDSAPrivateKey, pub: ECDSAPublicKey, hash: HashFunction)
    requires priv.crv == pub.crv && priv.x == pub.x && priv.y == pub.y
    requires priv.CoordinatesFit()
    ensures pub.CoordinatesFit()
    ensures priv.Thumbprint(hash) == pub.Thumbprint(hash)
  {
  }

  /** Importing a native public key and exporting it again gives the same key. */
  method PublicRoundTrip(rawKey: NativePublicKey) returns (r: Result<NativeKey, Error>)
    requires PublicFits(rawKey)
    ensures rawKey.curve.Supported() ==> r == Success(PublicNative(rawKey))
    ensures !rawKey.curve.Supported() ==> r == Failure(InvalidCurveAlgorithm(InvalidAlg))
  {
    var k := new ECDSAPublicKey();
    var err := k.FromRaw(rawKey);
    if rawKey.curve.Supported() {
      BuildInvertsImport(rawKey);
    }
    r := k.Raw(PublicKeyDest);
  }

  /** Importing a native private key and exporting it again gives the same key, scalar included. */
  method PrivateRoundTrip(rawKey: NativePrivateKey) returns (r: Result<NativeKey, Error>)
    requires PrivateFits(rawKey)
    ensures rawKey.pub.curve.Supported() ==> r == Success(PrivateNative(rawKey))
    ensures !rawKey.pub.curve.Supported() ==> r == Failure(InvalidCurveAlgorithm(InvalidAlg))
  {
    var k := new ECDSAPrivateKey();
    var err := k.FromRaw(rawKey);
    if rawKey.pub.curve.Supported() {
      BuildInvertsImport(rawKey.pub);
    }
    r := k.Raw(PrivateKeyDest);
  }

  /** A private key and its public half, each imported, have the same thumbprint. */
  method ImportedThumbprintsAgree(rawKey: NativePrivateKey, hash: HashFunction) returns (tPriv: Result<seq<Byte>, Error>, tPub: Result<seq<Byte>, Error>)
    requires PrivateFits(rawKey)
    ensures tPriv == tPub
    ensures rawKey.pub.curve.Supported() <==> tPriv.Success?
    ensures rawKey.pub.curve.Supported() ==> tPub == Success(NativeThumbprint(hash, rawKey.pub))
  {
    var priv := new ECDSAPrivateKey();
    var e1 := priv.FromRaw(rawKey);
    var pub := new ECDSAPublicKey();
    var e2 := pub.FromRaw(rawKey.pub);
    if rawKey.pub.curve.Supported() {
      BuildInvertsImport(rawKey.pub);
    }
    PrivateThumbprintIsPublicThumbprint(priv, pub, hash);
    tPriv := priv.Thumbprint(hash);
    tPub := pub.Thumbprint(hash);
  }

  /**
   * A failed import is not all-or-nothing: after importing a key on a
   * supported curve, importing one on an unsupported curve keeps the old
   * identifier but the new coordinates, so exporting then yields the
   * rejected key's coordinates on the earlier key's curve.
   */
  method FailedImportMixesKeys(first: NativePublicKey, second: NativePublicKey)
    returns (crvAfter: Option<string>, exported: Result<NativeKey, Error>)
    requires first.curve.Supported() && PublicFits(first)
    requires !second.curve.Supported() && PublicFits(second)
    ensures crvAfter == AlgFor(first.curve)
    ensures exported == Success(PublicNative(NativePublicKey(first.curve, second.x, second.y)))
  {
    var k := new ECDSAPublicKey();
    var e1 := k.FromRaw(first);
    var e2 := k.FromRaw(second);
    CurveForInvertsAlgFor(first.curve);
    crvAfter := k.crv;
    exported := k.Raw(PublicKeyDest);
  }

  /**
   * The stored buffers can outgrow the stored curve: after a P-256 key, a
   * rejected import of a wider curve's key whose x is 256^32 leaves a P-256
   * identifier with an x that does not fit 32 bytes.
   */
  method FailedImportBreaksFit(first: NativePublicKey, name: string, bits: nat, y: nat)
    returns (crvAfter: Option<string>, fits: bool)
    requires first.curve == P256 && PublicFits(first)
    requires bits > 256 && y < Pow256(Width(OtherCurve(name, bits)))
    ensures crvAfter == Some(P256Alg)
    ensures !fits
  {
    var narrow, wide := Width(first.curve), Width(OtherCurve(name, bits));
    Pow256Increasing(narrow, wide);
    var second := NativePublicKey(OtherCurve(name, bits), Pow256(narrow), y);
    var k := new ECDSAPublicKey();
    var e1 := k.FromRaw(first);
    var e2 := k.FromRaw(second);
    assert CurveFor(k.Crv()) == Some(first.curve);
    crvAfter := k.crv;
    fits := k.CoordinatesFit();
  }

  /** The private-scalar member, skipped by the public projection. */
  const DKey := "d"

  /** A (field name, value) pair of a key's generic field iteration. */
  datatype Pair<V> = Pair(key: string, value: V)

  /** The pairs a public projection copies: every pair whose key is not "d", in order. */
  function PublicPairs<V>(pairs: seq<Pair<V>>): (r: seq<Pair<V>>)
    ensures |r| <= |pairs|
    ensures forall i :: 0 <= i < |r| ==> r[i].key != DKey
  {
    if pairs == [] then []
    else (if pairs[0].key == DKey then [] else [pairs[0]]) + PublicPairs(pairs[1..])
  }

  /** A pair is copied exactly when it is iterated and its key is not "d". */
  lemma {:induction false} PublicPairsMembers<V>(pairs: seq<Pair<V>>, p: Pair<V>)
    ensures p in PublicPairs(pairs) <==> p in pairs && p.key != DKey
  {
    if pairs != [] {
      PublicPairsMembers(pairs[1..], p);
      assert pairs == [pairs[0]] + pairs[1..];
    }
  }

  /** The projection distributes over concatenation, so it keeps the iteration order. */
  lemma {:induction false} PublicPairsAppend<V>(a: seq<Pair<V>>, b: seq<Pair<V>>)
    ensures PublicPairs(a + b) == PublicPairs(a) + PublicPairs(b)
  {
    if a == [] {
      assert a + b == b;
    } else {
      var head := if a[0].key == DKey then [] else [a[0]];
      calc {
        PublicPairs(a + b);
        { assert (a + b)[0] == a[0]; assert (a + b)[1..] == a[1..] + b; }
        head + PublicPairs(a[1..] + b);
        { PublicPairsAppend(a[1..], b); }
        head + (PublicPairs(a[1..]) + PublicPairs(b));
        (head + PublicPairs(a[1..])) + PublicPairs(b);
        PublicPairs(a) + PublicPairs(b);
      }
    }
  }

  /** Projecting a projection changes nothing (the public key of a public key is a copy). */
  lemma {:induction false} PublicPairsIdempotent<V>(pairs: seq<Pair<V>>)
    ensures PublicPairs(PublicPairs(pairs)) == PublicPairs(pairs)
  {
    if pairs != [] {
      PublicPairsIdempotent(pairs[1..]);
      var head := if pairs[0].key == DKey then [] else [pairs[0]];
      PublicPairsAppend(head, PublicPairs(pairs[1..]));
    }
  }

  /** Pair i is the first pair that is copied and refused. */
  predicate FirstRefused<V>(pairs: seq<Pair<V>>, accepts: (string, V) -> bool, i: int) {
    && 0 <= i < |pairs|
    && pairs[i].key != DKey && !accepts(pairs[i].key, pairs[i].value)
    && forall j :: 0 <= j < i && pairs[j].key != DKey ==> accepts(pairs[j].key, pairs[j].value)
  }

  /**
   * `makeECDSAPublicKey`: walk the iteration, skip "d", `Set` every other
   * pair on the new key in order, and stop at the first `Set` that fails.
   * `accepts` says whether `Set` takes a pair; the success value is the
   * sequence of pairs set on the new key.
   */
  method MakePublicKey<V>(pairs: seq<Pair<V>>, accepts: (string, V) -> bool) returns (r: Result<seq<Pair<V>>, Error>)
    ensures r.Success? <==> forall i :: 0 <= i < |pairs| && pairs[i].key != DKey ==> accepts(pairs[i].key, pairs[i].value)
    ensures r.Success? ==> r.value == PublicPairs(pairs)
    ensures r.Failure? ==> exists i :: FirstRefused(pairs, accepts, i) && r.error == FieldCopyFailure(pairs[i].key)
  {
    var copied: seq<Pair<V>> := [];
    var i := 0;
    while i < |pairs|
      invariant 0 <= i <= |pairs|
      invariant copied == PublicPairs(pairs[..i])
      invariant forall j :: 0 <= j < i && pairs[j].key != DKey ==> accepts(pairs[j].key, pairs[j].value)
    {
      var pair := pairs[i];
      PublicPairsAppend(pairs[..i], [pair]);
      assert pairs[..i + 1] == pairs[..i] + [pair];
      if pair.key == DKey {
        i := i + 1;
        continue;
      }
      if !accepts(pair.key, pair.value) {
        assert FirstRefused(pairs, accepts, i);
        return Failure(FieldCopyFailure(pair.key));
      }
      copied := copied + [pair];
      i := i + 1;
    }
    assert pairs[..i] == pairs;
    return Success(copied);
  }
}
