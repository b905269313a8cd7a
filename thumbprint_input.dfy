/**
 * The hash input of an EC thumbprint (RFC 7638 sections 3.2 and 3.3): the
 * required members `crv`, `kty`, `x`, `y` in lexicographic order, with no
 * whitespace, written as UTF-8. `ecdsaThumbprint` in jwk/ecdsa.go writes the
 * same pieces one after the other into the hash state; here the pieces are
 * concatenated.
 */
module ThumbprintInput {
  import opened PointCodec

  const Open := "{\"crv\":\""
  const AfterCrv := "\",\"kty\":\"EC\",\"x\":\""
  const AfterX := "\",\"y\":\""
  const Close := "\"}"

  /** The JSON text of the thumbprint members, in the order the hash state receives them. */
  function MembersText(crv: string, x: string, y: string): string {
    Open + (crv + (AfterCrv + (x + (AfterX + (y + Close)))))
  }

  predicate IsAscii(s: string) {
    forall i :: 0 <= i < |s| ==> s[i] < 128 as char
  }

  predicate NoQuote(s: string) {
    forall i :: 0 <= i < |s| ==> s[i] != '"'
  }

  predicate IsWhitespace(c: char) {
    c == ' ' || c == '\t' || c == '\n' || c == '\r'
  }

  predicate NoWhitespace(s: string) {
    forall i :: 0 <= i < |s| ==> !IsWhitespace(s[i])
  }

  /** UTF-8 of an ASCII string: one byte per character, its code. */
  function AsciiBytes(s: string): (b: seq<Byte>)
    requires IsAscii(s)
    ensures |b| == |s|
    ensures forall i :: 0 <= i < |s| ==> b[i] == s[i] as int
  {
    seq(|s|, i requires 0 <= i < |s| => s[i] as int)
  }

  /** Different ASCII strings give different bytes. */
  lemma AsciiBytesInjective(s: string, t: string)
    requires IsAscii(s) && IsAscii(t) && AsciiBytes(s) == AsciiBytes(t)
    ensures s == t
  {
    assert |s| == |t|;
    forall i | 0 <= i < |s| ensures s[i] == t[i] {
      assert AsciiBytes(s)[i] == AsciiBytes(t)[i];
    }
  }

  /** Text made of ASCII pieces is ASCII. */
  lemma MembersTextAscii(crv: string, x: string, y: string)
    requires IsAscii(crv) && IsAscii(x) && IsAscii(y)
    ensures IsAscii(MembersText(crv, x, y))
  {
    var t := MembersText(crv, x, y);
    forall i | 0 <= i < |t| ensures t[i] < 128 as char {
      PieceAt(crv, x, y, i);
    }
  }

  /** Text made of whitespace-free pieces has no whitespace. */
  lemma MembersTextNoWhitespace(crv: string, x: string, y: string)
    requires NoWhitespace(crv) && NoWhitespace(x) && NoWhitespace(y)
    ensures NoWhitespace(MembersText(crv, x, y))
  {
    var t := MembersText(crv, x, y);
    forall i | 0 <= i < |t| ensures !IsWhitespace(t[i]) {
      PieceAt(crv, x, y, i);
    }
  }

  /** Every character of the text comes from one of the seven pieces. */
  lemma PieceAt(crv: string, x: string, y: string, i: int)
    requires 0 <= i < |MembersText(crv, x, y)|
    ensures var t := MembersText(crv, x, y);
      var c1 := 8 + |crv|;
      var x0 := c1 + 18;
      var x1 := x0 + |x|;
      var y0 := x1 + 7;
      var y1 := y0 + |y|;
      if i < 8 then t[i] == Open[i]
      else if i < c1 then t[i] == crv[i - 8]
      else if i < x0 then t[i] == AfterCrv[i - c1]
      else if i < x1 then t[i] == x[i - x0]
      else if i < y0 then t[i] == AfterX[i - x1]
      else if i < y1 then t[i] == y[i - y0]
      else t[i] == Close[i - y1]
  {
  }

  /** In a quote-free string followed by a quote, the first quote stands right after the string. */
  lemma FirstQuote(a: string, p: string)
    requires NoQuote(a) && |p| > 0 && p[0] == '"'
    ensures (a + p)[|a|] == '"'
    ensures forall i :: 0 <= i < |a| ==> (a + p)[i] != '"'
  {
  }

  /** Strings without a quote, each followed by text that starts with a quote, split the same way. */
  lemma SplitAtQuote(a: string, p: string, b: string, q: string)
    requires NoQuote(a) && NoQuote(b)
    requires |p| > 0 && p[0] == '"' && |q| > 0 && q[0] == '"'
    requires a + p == b + q
    ensures a == b && p == q
  {
    FirstQuote(a, p);
    FirstQuote(b, q);
    assert |a| == |b|;
    assert a == (a + p)[..|a|];
    assert b == (b + q)[..|b|];
    assert p == (a + p)[|a|..];
    assert q == (b + q)[|b|..];
  }

  lemma DropPrefix(pre: string, s: string, t: string)
    requires pre + s == pre + t
    ensures s == t
  {
    assert s == (pre + s)[|pre|..];
    assert t == (pre + t)[|pre|..];
  }

  /**
   * The text determines the three member values: a reader can recover `crv`,
   * `x` and `y` from it, provided none of them contains a quote (true of curve
   * names and of base64url text).
   */
  lemma MembersTextInjective(crv: string, x: string, y: string, crv': string, x': string, y': string)
    requires NoQuote(crv) && NoQuote(x) && NoQuote(y)
    requires NoQuote(crv') && NoQuote(x') && NoQuote(y')
    requires MembersText(crv, x, y) == MembersText(crv', x', y')
    ensures crv == crv' && x == x' && y == y'
  {
    var r2, r2' := AfterX + (y + Close), AfterX + (y' + Close);
    var r1, r1' := AfterCrv + (x + r2), AfterCrv + (x' + r2');
    DropPrefix(Open, crv + r1, crv' + r1');
    SplitAtQuote(crv, r1, crv', r1');
    DropPrefix(AfterCrv, x + r2, x' + r2');
    SplitAtQuote(x, r2, x', r2');
    DropPrefix(AfterX, y + Close, y' + Close);
    SplitAtQuote(y, Close, y', Close);
  }

  /** The bytes that are hashed: the members text in UTF-8. */
  function HashInput(crv: string, x: string, y: string): (b: seq<Byte>)
    requires IsAscii(crv) && IsAscii(x) && IsAscii(y)
    ensures |b| == |crv| + |x| + |y| + 35
  {
    MembersTextAscii(crv, x, y);
    AsciiBytes(MembersText(crv, x, y))
  }

  /** The hash input determines the member values. */
  lemma HashInputInjective(crv: string, x: string, y: string, crv': string, x': string, y': string)
    requires IsAscii(crv) && IsAscii(x) && IsAscii(y) && NoQuote(crv) && NoQuote(x) && NoQuote(y)
    requires IsAscii(crv') && IsAscii(x') && IsAscii(y') && NoQuote(crv') && NoQuote(x') && NoQuote(y')
    requires HashInput(crv, x, y) == HashInput(crv', x', y')
    ensures crv == crv' && x == x' && y == y'
  {
    MembersTextAscii(crv, x, y);
    MembersTextAscii(crv', x', y');
    AsciiBytesInjective(MembersText(crv, x, y), MembersText(crv', x', y'));
    MembersTextInjective(crv, x, y, crv', x', y');
  }
}
