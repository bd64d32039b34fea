/**
 The library functions the broker calls: Ed25519, SHA-256, base64, hex, JSON, RFC 3339
 text and SPIFFE identifiers. They are parameters; a theorem names the laws it needs.
 */
module Crypto {
  import opened Wrappers
  import opened Claims

  datatype Header = Header(alg: string, typ: string, kid: string)

  datatype Primitives = Primitives(
    encode: string -> string,
    decode: string -> Option<string>,
    headerJson: Header -> string,
    parseHeader: string -> Option<Header>,
    claimsJson: TknClaims -> string,
    parseClaims: string -> Option<TknClaims>,
    chainJson: seq<DelegRecord> -> string,
    sign: (string, string) -> string,
    verify: (string, string, string) -> bool,
    publicKey: string -> string,
    sha256: string -> string,
    hex: string -> string,
    timeText: int -> string,
    parseTime: string -> Option<int>,
    decodeStd: string -> Option<string>,
    decodeHex: string -> Option<string>,
    spiffeId: (string, string, string, string) -> Option<string>)

  /** The base64url alphabet, and the line ends its decoder skips. */
  predicate Base64Char(c: char) {
    'A' <= c <= 'Z' || 'a' <= c <= 'z' || '0' <= c <= '9' || c == '-' || c == '_' || c == '\r' || c == '\n'
  }

  predicate Base64Text(s: string) {
    forall c | c in s :: Base64Char(c)
  }

  /** Base64url decodes what it encodes and accepts no other alphabet. */
  ghost predicate EncodingLaws(p: Primitives) {
    && (forall s :: p.decode(p.encode(s)) == Some(s))
    && (forall s :: Base64Text(p.encode(s)))
    && (forall s :: p.decode(s).Some? ==> Base64Text(s))
  }

  /** JSON reads back the headers and claims it writes. */
  ghost predicate JsonLaws(p: Primitives) {
    && (forall h :: p.parseHeader(p.headerJson(h)) == Some(h))
    && (forall c :: p.parseClaims(p.claimsJson(c)) == Some(c))
  }

  /** A signature verifies under the key's own public half. */
  ghost predicate SignatureLaw(p: Primitives) {
    forall k, m :: p.verify(p.publicKey(k), m, p.sign(k, m))
  }

  /** RFC 3339 text reads back as the instant it was written for, and holds no bar. */
  ghost predicate TimeLaws(p: Primitives) {
    && (forall t :: p.parseTime(p.timeText(t)) == Some(t))
    && (forall t :: '|' !in p.timeText(t))
  }

  /** Hex text reads back as the bytes it was written for, and holds no bar. */
  ghost predicate HexLaws(p: Primitives) {
    && (forall s :: p.decodeHex(p.hex(s)) == Some(s))
    && (forall s :: '|' !in p.hex(s))
  }

  /** A SPIFFE identifier is a URI of its own scheme. */
  ghost predicate SpiffeLaw(p: Primitives) {
    forall d, o, t, n :: p.spiffeId(d, o, t, n).Some? ==> "spiffe://" <= p.spiffeId(d, o, t, n).value
  }

  /** The hex digest of a text. */
  function Digest(p: Primitives, s: string): string {
    p.hex(p.sha256(s))
  }

  lemma SameDigestSameHash(p: Primitives, s: string, t: string)
    requires HexLaws(p) && Digest(p, s) == Digest(p, t)
    ensures p.sha256(s) == p.sha256(t)
  {
    assert p.decodeHex(p.hex(p.sha256(s))) == Some(p.sha256(s));
    assert p.decodeHex(p.hex(p.sha256(t))) == Some(p.sha256(t));
  }

  lemma TimeTextInjective(p: Primitives, a: int, b: int)
    requires TimeLaws(p) && p.timeText(a) == p.timeText(b)
    ensures a == b
  {
    assert p.parseTime(p.timeText(a)) == Some(a);
    assert p.parseTime(p.timeText(b)) == Some(b);
  }

  ghost predicate Lawful(p: Primitives) {
    EncodingLaws(p) && JsonLaws(p) && SignatureLaw(p)
  }
}
