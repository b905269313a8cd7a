# EC JSON Web Keys and the application display of the Auth0 CLI, in Dafny

This project models two parts of the Auth0 CLI repository.

**EC JSON Web Keys** (`jwk/ecdsa.go` of the vendored `lestrrat-go/jwx` library):
- `FromRaw` imports a native ECDSA key. It stores the curve identifier and the fixed-width big-endian coordinate buffers (plus the private scalar for a private key).
- `Raw` and `buildECDSAPublicKey` rebuild the native key.
- `makeECDSAPublicKey` projects a key onto its public members.
- `Thumbprint` and `ecdsaThumbprint` compute the RFC 7638 thumbprint: the hash of `{"crv":…,"kty":"EC","x":…,"y":…}`, with the coordinates in unpadded base64url.

**Application display** (`internal/display/apps.go`):
- the friendly names, quickstart links and colours of application types;
- the table and key/value shapes of an application view;
- secret scrubbing (`safeRaw`);
- the loop of `ApplicationList`, which skips the legacy "All Applications" client and blanks each shown client's secret in place unless secrets are revealed.

## Modules

- `PointCodec` (`point_codec.dfy`) holds bytes, the big-endian value of a byte string (`big.Int.SetBytes`), and the fixed-width encoding a point buffer holds.
- `Base64Url` (`base64url.dfy`) is unpadded base64url (RFC 4648 section 5, without `=`), with its inverse.
- `Curves` (`curves.dfy`) covers:
  - the native curves: P-256, P-384, P-521, secp256k1 and any other curve;
  - their identifiers and byte widths;
  - the two lookups, curve to identifier (`FromRaw`) and identifier to curve (`buildECDSAPublicKey`).
- `ThumbprintInput` (`thumbprint_input.dfy`) is the JSON text that is hashed, its UTF-8 bytes, and the proof that the text determines the members.
- `EcdsaKeys` (`ecdsa_keys.dfy`) holds `ECDSAPublicKey` and `ECDSAPrivateKey`. These are classes whose `FromRaw` updates their fields and whose `Raw` and `Thumbprint` read them. The module also has the public projection and the round-trip scenarios.
- `Display` (`apps.dfy`) holds the `Client` class (the fields of `management.Client` the display touches), the application view and its renderings, `SafeRaw`, and `ApplicationList` as a loop over clients that mutates them in place.
- `Wrappers` (`wrappers.dfy`) holds `Option` and `Result`.

## Modelling choices

- A native curve is a datatype. The Go code compares curve objects by identity (`rawKey.Curve == elliptic.P256()`); here that comparison is constructor equality. Any curve outside the four is `OtherCurve(name, bitSize)`.
- **Point buffer encoding.** `ecutil.AllocECPointBuffer` is not part of this model. It is taken to write the value big-endian into `(bitSize + 7) / 8` bytes, zero-padded on the left.
- **Point buffer overflow.** `FillBytes` panics on a value that is too wide for the buffer. That panic is excluded by preconditions: `FitsCurve` on the native key given to `FromRaw`, and `CoordinatesFit` on the stored buffers before `Thumbprint`. A native key with coordinates below its field size meets the first. The second can fail: a failed import stores the rejected key's wider buffers under the old curve, and a key read from JSON may carry an oversized coordinate (see Left out).
- The generated accessor `Crv()` is not part of this model. It is taken to return `"P-invalid"` (`jwa.InvalidEllipticCurve`) when no curve is stored.
- `key.Curve.Params().Name` is taken to be the curve's JWA identifier for the four supported curves.
- The library's internal `base64.EncodeToString` is not part of this model. It is taken to be unpadded base64url.
- A hash algorithm is a function from the bytes written into it to its digest (`HashFunction`). `fmt.Fprint` of the pieces is their concatenation.
- **`Raw` destination.** The destination of `Raw` is a `Destination` value. `blackmagic.AssignIfCompatible` is reduced to one check: the destination must hold the kind of key produced.
- **Public projection.** `makeECDSAPublicKey` is modelled on a sequence of (name, value) pairs, standing for what `Iterate` yields. A predicate `accepts` says whether `Set` takes a pair. The result is the sequence of pairs set on the new key.
- **Terminal styling.** `ansi.Faint`, `ansi.Italic` and the colour helpers become a `Text` value that records the style and the wrapped text.
- **Views as values.** A view of a client is a function of a value snapshot of the client's fields (`ClientFields`). The list's views are stated against the snapshot taken before the list runs (`ListViews`), and `ListViewsOfKept` relates them to the shown clients one by one.
- **Non-atomic `FromRaw`.** `FromRaw` is not all-or-nothing: it overwrites the coordinate buffers (and the scalar) before it looks at the curve, so on an unsupported curve only the curve identifier keeps its old value. `FailedImportMixesKeys` shows the consequence.
- **No coordinate length check.** `buildECDSAPublicKey` checks no coordinate length: `SetBytes` accepts a buffer of any length, and so does the model. `Thumbprint` then re-encodes the coordinates at the curve's width, so a short buffer is hashed with zero bytes added on the left (`Thumbprint` with `PadTo`).
- **The digest.** `EcdsaThumbprint` is the definition of the digest: the hash of the members text written piece by piece. What is proved is about the hashed text: `MembersTextNoWhitespace`, `MembersTextInjective` and `HashInputInjective`.
- **UTF-8 of the members text.** `AsciiBytes` is a definition, not a proved property: Go writes a string's bytes, and every piece of the members text is ASCII, so each character is one byte holding its code.

## Model

| member | source | states |
|---|---|---|
| PointCodec.BigEndianValue | vendor/github.com/lestrrat-go/jwx/jwk/ecdsa.go:102-104 | the value of an n-byte string is below 256^n |
| PointCodec.EncodeFixed | vendor/github.com/lestrrat-go/jwx/jwk/ecdsa.go:23-24 | the point buffer of a value that fits has exactly the requested width and reads back (big-endian) as that value |
| PointCodec.EncodeDecode | vendor/github.com/lestrrat-go/jwx/jwk/ecdsa.go:102-104 | encoding a byte string's value at the string's own length gives the string back |
| PointCodec.EncodingIsUnique | vendor/github.com/lestrrat-go/jwx/jwk/ecdsa.go:23-24 | a buffer of width w with value v is the width-w encoding of v (the encoding is canonical) |
| PointCodec.LeadingZerosIgnored | vendor/github.com/lestrrat-go/jwx/jwk/ecdsa.go:102-104 | a leading zero byte does not change the value that `SetBytes` reads |
| PointCodec.PadTo | vendor/github.com/lestrrat-go/jwx/jwk/ecdsa.go:192-193 | a byte string no longer than w re-encodes at width w as itself with w minus its length zero bytes on the left |
| PointCodec.ZerosValue | vendor/github.com/lestrrat-go/jwx/jwk/ecdsa.go:102-104 | any number of leading zero bytes leaves the value unchanged |
| PointCodec.EncodeFixedPads | vendor/github.com/lestrrat-go/jwx/jwk/ecdsa.go:23-24 | encoding at a larger width only adds zero bytes on the left |
| Base64Url.Encode | vendor/github.com/lestrrat-go/jwx/jwk/ecdsa.go:200-201 | n bytes encode as ceil(4n/3) characters, all from the URL-safe alphabet |
| Base64Url.DecodeEncode | vendor/github.com/lestrrat-go/jwx/jwk/ecdsa.go:200-201 | decoding the encoding of any bytes gives the bytes back |
| Base64Url.EncodeInjective | vendor/github.com/lestrrat-go/jwx/jwk/ecdsa.go:200-201 | different byte strings have different encodings |
| Curves.Width | vendor/github.com/lestrrat-go/jwx/jwk/ecdsa.go:23-24 | the buffer width is the least number of bytes whose bits cover the curve's bit size |
| Curves.SupportedWidths | vendor/github.com/lestrrat-go/jwx/jwk/ecdsa.go:23-24 | the widths of P-256, P-384, P-521 and secp256k1 are 32, 48, 66 and 32 bytes |
| Curves.AlgFor | vendor/github.com/lestrrat-go/jwx/jwk/ecdsa.go:33-45 | a native curve has an identifier exactly when it is one of the four supported curves, and that identifier is a known one |
| Curves.ParamsName | vendor/github.com/lestrrat-go/jwx/jwk/ecdsa.go:199 | the name a supported curve reports selects that same curve when looked up as an identifier |
| Curves.CurveFor | vendor/github.com/lestrrat-go/jwx/jwk/ecdsa.go:87-100 | an identifier selects a curve exactly when it is one of the four known identifiers; the curve selected is supported and maps back to the same identifier |
| Curves.CurveForInvertsAlgFor | vendor/github.com/lestrrat-go/jwx/jwk/ecdsa.go:33-45 | for a supported curve, looking up the identifier that `FromRaw` stores gives back the same curve |
| Curves.ParamsNameIsAlg | vendor/github.com/lestrrat-go/jwx/jwk/ecdsa.go:199 | for a supported curve, the name that the thumbprint hashes is the identifier stored in the key |
| Curves.InvalidAlgIsUnknown | vendor/github.com/lestrrat-go/jwx/jwk/ecdsa.go:98-99 | "P-invalid", the identifier of a key with no curve, selects no curve |
| ThumbprintInput.AsciiBytesInjective | vendor/github.com/lestrrat-go/jwx/jwk/ecdsa.go:171-177 | different ASCII texts give different bytes |
| ThumbprintInput.MembersTextAscii | vendor/github.com/lestrrat-go/jwx/jwk/ecdsa.go:171-177 | members text built from ASCII pieces is ASCII |
| ThumbprintInput.MembersTextNoWhitespace | vendor/github.com/lestrrat-go/jwx/jwk/ecdsa.go:171-177 | members text built from pieces without whitespace has no whitespace, as RFC 7638 section 3.3 requires |
| ThumbprintInput.MembersTextInjective | vendor/github.com/lestrrat-go/jwx/jwk/ecdsa.go:169-179 | for quote-free members, the text determines crv, x and y |
| ThumbprintInput.HashInput | vendor/github.com/lestrrat-go/jwx/jwk/ecdsa.go:169-179 | the bytes hashed are the members text: the three values plus 35 bytes of fixed JSON framing |
| ThumbprintInput.HashInputInjective | vendor/github.com/lestrrat-go/jwx/jwk/ecdsa.go:169-179 | the bytes hashed determine crv, x and y |
| EcdsaKeys.BuildPublicKey | vendor/github.com/lestrrat-go/jwx/jwk/ecdsa.go:87-107 | the function succeeds exactly for the four known identifiers and otherwise fails with the invalid curve algorithm error. On success the curve maps back to the identifier, and each coordinate is the big-endian value of its buffer, whatever the buffer's length; a buffer of the curve's width re-encodes to itself |
| EcdsaKeys.PointBuffer | vendor/github.com/lestrrat-go/jwx/jwk/ecdsa.go:23-24 | the point buffer of a coordinate has the curve's width and reads back big-endian as the coordinate |
| EcdsaKeys.BuildInvertsImport | vendor/github.com/lestrrat-go/jwx/jwk/ecdsa.go:19-49 | building from the identifier and the buffers that `FromRaw` stores for a supported key gives the same native key |
| EcdsaKeys.AssignIfCompatible | vendor/github.com/lestrrat-go/jwx/jwk/ecdsa.go:119 | the key is handed over unchanged exactly when the destination holds that kind of key; otherwise the call fails with an incompatible destination error |
| EcdsaKeys.ECDSAPublicKey.FromRaw | vendor/github.com/lestrrat-go/jwx/jwk/ecdsa.go:19-49 | the coordinates become the curve-width point buffers in every case. On success the stored identifier is the curve's; on an unsupported curve the call fails with that curve and the identifier keeps its old value |
| EcdsaKeys.ECDSAPrivateKey.FromRaw | vendor/github.com/lestrrat-go/jwx/jwk/ecdsa.go:51-85 | as for the public key, with the scalar also stored as a curve-width buffer before the curve check |
| EcdsaKeys.ECDSAPublicKey.Raw | vendor/github.com/lestrrat-go/jwx/jwk/ecdsa.go:110-120 | succeeds exactly for a known stored identifier and a public-key destination, and gives the key that `buildECDSAPublicKey` builds. An unknown identifier fails with the invalid curve algorithm error and a wrong destination with the incompatible destination error |
| EcdsaKeys.ECDSAPrivateKey.Raw | vendor/github.com/lestrrat-go/jwx/jwk/ecdsa.go:122-138 | succeeds exactly for a known identifier and a private-key destination, and gives the built public key together with the scalar read big-endian. Errors are as for the public key |
| EcdsaKeys.ECDSAPublicKey.Thumbprint | vendor/github.com/lestrrat-go/jwx/jwk/ecdsa.go:183-203 | succeeds exactly for a known stored identifier; otherwise the `Raw` error is passed on. On success it is the hash of the members text of the stored identifier and the base64url of each stored buffer's value re-encoded at the curve's width; with buffers already of that width, of the stored buffers themselves |
| EcdsaKeys.ECDSAPrivateKey.Thumbprint | vendor/github.com/lestrrat-go/jwx/jwk/ecdsa.go:207-227 | the same as the public key's statement, for the private key's stored identifier and its public coordinates |
| EcdsaKeys.ThumbprintOfBuilt | vendor/github.com/lestrrat-go/jwx/jwk/ecdsa.go:192-202 | for a key built from an identifier and two buffers, the curve name hashed is that identifier and the coordinates hashed are the buffers' values re-encoded at the curve's width; buffers already of that width are hashed as they are |
| EcdsaKeys.ShortBuffersFit | vendor/github.com/lestrrat-go/jwx/jwk/ecdsa.go:102-104 | stored buffers no wider than the curve their identifier names meet the thumbprint's precondition (`CoordinatesFit` of either kind of key) |
| EcdsaKeys.NativeThumbprint | vendor/github.com/lestrrat-go/jwx/jwk/ecdsa.go:192-202 | the thumbprint of a supported native key hashes the JWA identifier that `FromRaw` would store and the point buffers of its coordinates |
| EcdsaKeys.NativeThumbprintHashesInput | vendor/github.com/lestrrat-go/jwx/jwk/ecdsa.go:192-202 | the bridge that lets `KeyHashInputInjective` speak about thumbprints: a native key's thumbprint is the hash of exactly the `KeyHashInput` that lemma compares |
| EcdsaKeys.KeyHashInputInjective | vendor/github.com/lestrrat-go/jwx/jwk/ecdsa.go:192-202 | different supported keys give different hash inputs; a thumbprint collision can only come from the hash |
| EcdsaKeys.CurveNameInjective | vendor/github.com/lestrrat-go/jwx/jwk/ecdsa.go:199 | different supported curves have different names |
| EcdsaKeys.PrivateThumbprintIsPublicThumbprint | vendor/github.com/lestrrat-go/jwx/jwk/ecdsa.go:207-227 | a private key and a public key with the same identifier and coordinates have the same thumbprint, and the scalar never takes part |
| EcdsaKeys.PublicRoundTrip | vendor/github.com/lestrrat-go/jwx/jwk/ecdsa.go:110-120 | importing a native public key and exporting it gives the same key back on a supported curve. Otherwise the export fails on "P-invalid" |
| EcdsaKeys.PrivateRoundTrip | vendor/github.com/lestrrat-go/jwx/jwk/ecdsa.go:122-138 | importing a native private key and exporting it gives the same key back, scalar included, on a supported curve. Otherwise the export fails on "P-invalid" |
| EcdsaKeys.ImportedThumbprintsAgree | vendor/github.com/lestrrat-go/jwx/jwk/ecdsa.go:183-227 | an imported private key and its imported public half have equal thumbprints. Both succeed exactly on a supported curve, giving the thumbprint of the native key |
| EcdsaKeys.FailedImportMixesKeys | vendor/github.com/lestrrat-go/jwx/jwk/ecdsa.go:28-46 | a failed import is not all-or-nothing. After a good key, importing a key on an unsupported curve keeps the old identifier and leaves the rejected key's coordinates, and exporting then yields them on the old curve |
| EcdsaKeys.FailedImportBreaksFit | vendor/github.com/lestrrat-go/jwx/jwk/ecdsa.go:28-46 | after a good P-256 key, a rejected import of a key on an unsupported curve of more than 256 bits with x = 256^32 leaves the P-256 identifier with an x too wide for 32 bytes, so the thumbprint's precondition fails |
| EcdsaKeys.PublicPairs | vendor/github.com/lestrrat-go/jwx/jwk/ecdsa.go:146-156 | the public projection has no "d" member and is no longer than the key's members |
| EcdsaKeys.PublicPairsMembers | vendor/github.com/lestrrat-go/jwx/jwk/ecdsa.go:146-156 | a member is copied exactly when it is iterated and is not "d" |
| EcdsaKeys.PublicPairsAppend | vendor/github.com/lestrrat-go/jwx/jwk/ecdsa.go:146-156 | the projection works member by member, so it keeps the iteration order |
| EcdsaKeys.PublicPairsIdempotent | vendor/github.com/lestrrat-go/jwx/jwk/ecdsa.go:161-167 | the public key of a public key is a copy of it |
| EcdsaKeys.MakePublicKey | vendor/github.com/lestrrat-go/jwx/jwk/ecdsa.go:140-159 | succeeds exactly when `Set` accepts every non-"d" member, and then the new key holds exactly the public projection in order. Otherwise it fails naming the first refused member |
| Display.AppTypeFor | internal/display/apps.go:191-206 | the type shown is never empty, and it is the API type itself, "Generic" or one of the four coloured friendly names |
| Display.AppTypeForTable | internal/display/apps.go:191-206 | the empty type is "Generic", each of the four API types gets its friendly name, and any other type is shown as it is |
| Display.QuickstartsURIFor | internal/display/apps.go:208-221 | each of the four API types gets its own quickstart page, and anything else (the empty type too) gets the generic page |
| Display.ApplyColor | internal/display/apps.go:223-236 | the text is kept, and it is styled exactly when it is one of the four friendly names, in that name's colour |
| Display.ColourMatchesQuickstart | internal/display/apps.go:191-236 | for a type that is not itself a friendly name, the type cell is coloured exactly when the type has a specific quickstart page |
| Display.FriendlyNameAsApiType | internal/display/apps.go:191-236 | the API type "Native" is shown coloured although its quickstart page is the generic one |
| Display.SafeRaw | internal/display/apps.go:238-246 | the same client comes back. With secrets revealed nothing changes; otherwise the client secret and signing keys are cleared and every other field is kept |
| Display.Object | internal/display/apps.go:102-104 | the client behind the view comes back, scrubbed exactly when the view does not reveal secrets |
| Display.AsTableHeader | internal/display/apps.go:42-47 | there are three columns, Client ID, Name and Type, plus a "Client Secret" column exactly when the secret is revealed |
| Display.AsTableRow | internal/display/apps.go:49-63 | there is one cell per header column, each the value that its column heading names |
| Display.RevealAddsOnlySecretColumn | internal/display/apps.go:42-63 | revealing the secret only appends the italic secret cell; the other cells are the same |
| Display.KeyValues | internal/display/apps.go:65-100 | the listing has 11 rows when the secret is revealed and 10 otherwise, labelled in the source's order, each holding the value its label names |
| Display.RevealAddsOnlySecretRow | internal/display/apps.go:65-100 | revealing the secret only inserts the "CLIENT SECRET" row at position 5; the other rows are the same |
| Display.MakeApplicationView | internal/display/apps.go:170-186 | the view points at the client it was made from and carries the reveal flag; the secret and the client ID are read through the nil-safe getters, and the type is shown by its friendly name |
| Display.ViewDependsOnFields | internal/display/apps.go:170-186 | two clients with the same fields give the same view, apart from the client each view points at |
| Display.Shown | internal/display/apps.go:123-125 | the secret becomes "" unless secrets are revealed; no other field changes |
| Display.AfterListingOnlyBlanks | internal/display/apps.go:118-125 | the list changes only the secret, and blanks it exactly for a shown client when secrets are hidden. Passing a client twice is the same as passing it once, and the view is unaffected |
| Display.Kept | internal/display/apps.go:118-121 | the shown clients are among the given ones and none of them is "All Applications" |
| Display.KeptMembers | internal/display/apps.go:118-121 | a client is shown exactly when it is given and is not "All Applications" |
| Display.KeptAppend | internal/display/apps.go:118-121 | the filter works client by client, so it keeps the given order |
| Display.Snapshot | internal/display/apps.go:117-128 | a proof device for the loop's pre-state: the fields of each client, in order, as they stand before the list runs |
| Display.ListViews | internal/display/apps.go:117-128 | there are no more views than clients |
| Display.ListViewsStep | internal/display/apps.go:117-128 | each client adds its view, made from its fields with the secret blanked unless revealed, unless it is "All Applications" |
| Display.ListViewsHideSecrets | internal/display/apps.go:123-127 | every view carries the list's reveal flag; with secrets hidden every shown secret is "" |
| Display.ListViewsOfKept | internal/display/apps.go:117-128 | the list's views correspond one to one, in order, to the shown clients, each the view of that client with its secret blanked unless revealed |
| Display.ShowClient | internal/display/apps.go:119-127 | one client is passed. The deprecated client is skipped and unchanged; any other client gets a blank secret unless secrets are revealed, and its view comes back (`makeApplicationView` of the client as it then is) |
| Display.ShowNext | internal/display/apps.go:118-128 | the loop body keeps the list's state invariant: clients already passed are blanked, the others untouched, and it yields the next view |
| Display.ApplicationList | internal/display/apps.go:106-131 | the heading counts every client, and the empty state appears exactly for no clients. Every client is left as `AfterListing` says (only the secret may change), and the views are `ListViews` of the clients as they were before the call |

## Left out

- Locking (`k.mu`) is left out. The model is sequential, so it ignores lock acquisition and the copy of the lock made by `Thumbprint`'s value receiver.
- Hash algorithms (`crypto.Hash`, `hash.New`, `h.Sum`) and elliptic curve arithmetic are left out: a hash is a function parameter, and points are never checked to lie on their curve.
- Buffer pooling in `ecutil.AllocECPointBuffer`/`ReleaseECPointBuffer` is left out, because pooling has no observable effect. The encoding those functions use is assumed (see Modelling choices).
- The error message texts and their `errors.Wrap` context are left out. Errors are the `Error` datatype, one constructor per failure site.
- The `PublicKey()` entry points are left out. They only call `makeECDSAPublicKey` on the key's generated `Iterate`, which is not part of this model, and `MakePublicKey` works on the sequence of pairs that `Iterate` yields.
- The JWK field accessors, `Set` and the rest of the generated key code are not part of this model.
- In `apps.go`, the renderer's output is left out: `Heading` text formatting, `EmptyState`, `Infof` and `Results`/`Result` are I/O. `ApplicationList` returns what it would render.
- `ApplicationShow`, `ApplicationCreate` and `ApplicationUpdate` are left out. `ApplicationShow` renders one client's view without blanking its secret. `ApplicationCreate` and `ApplicationUpdate` blank it unless secrets are revealed, as the list's step does, and skip no client. `ApplicationCreate` also prints the quickstart link and two hints.
- The escape bytes of `ansi` styling are left out.
- `internal/cli/templates.go`, `internal/cli/log_streams_test.go` and `cmd/generateFigSpec.go` are not part of this model.
- EcdsaKeys.ECDSAPublicKey.Thumbprint: the `FillBytes` panic of `AllocECPointBuffer` on a coordinate wider than the stored curve is excluded by the precondition `CoordinatesFit` and not modelled. A failed import reaches it (the rejected key's buffers are stored under the earlier key's curve, as `FailedImportBreaksFit` shows), and so does a key read from JSON with an oversized coordinate.
- EcdsaKeys.ECDSAPrivateKey.Thumbprint: the same `FillBytes` panic is excluded by its `CoordinatesFit` precondition, and the same two routes reach it.
- Display.ListViews: its own contract only bounds the number of views; what the views are is stated by ListViewsStep, ListViewsHideSecrets and ListViewsOfKept.
- Display.Kept: its own contract states membership and the filter only; the order is stated by KeptAppend.
- ThumbprintInput.HashInput: its own contract states the length only; that the bytes determine the members is HashInputInjective.
