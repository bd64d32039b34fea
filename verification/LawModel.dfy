/**
 The laws the theorems ask of the libraries hold together: plain encodings that meet all of
 them at once. Nothing here models a library; it shows that no theorem is empty for lack of one.
 */
module LawModel {
  import opened Wrappers
  import opened Text
  import opened Claims
  import opened Crypto
  import opened Handshake

  /** Each character as its number, ended by a separator that is no digit. */
  function Spell(s: string, sep: char): string {
    if s == "" then "" else Decimal(s[0] as int) + [sep] + Spell(s[1..], sep)
  }

  lemma {:induction false} SpellInjective(s: string, t: string, sep: char)
    requires !('0' <= sep <= '9') && Spell(s, sep) == Spell(t, sep)
    ensures s == t
  {
    if s == "" || t == "" {
    } else {
      CutChar(Decimal(s[0] as int), sep, Spell(s[1..], sep));
      CutChar(Decimal(t[0] as int), sep, Spell(t[1..], sep));
      DecimalInjective(s[0] as int, t[0] as int);
      SpellInjective(s[1..], t[1..], sep);
      assert s == [s[0]] + s[1..] && t == [t[0]] + t[1..];
    }
  }

  lemma {:induction false} SpellAlphabet(s: string, sep: char)
    ensures forall c | c in Spell(s, sep) :: '0' <= c <= '9' || c == sep
  {
    if s == "" {
    } else {
      SpellAlphabet(s[1..], sep);
    }
  }

  /** A list of texts, each spelled out and ended by a bar. */
  function Listed(parts: seq<string>): string {
    if parts == [] then "" else Spell(parts[0], '.') + "|" + Listed(parts[1..])
  }

  lemma {:induction false} ListedInjective(a: seq<string>, b: seq<string>)
    requires Listed(a) == Listed(b)
    ensures a == b
  {
    if a == [] || b == [] {
    } else {
      SpellAlphabet(a[0], '.');
      SpellAlphabet(b[0], '.');
      CutChar(Spell(a[0], '.'), '|', Listed(a[1..]));
      CutChar(Spell(b[0], '.'), '|', Listed(b[1..]));
      SpellInjective(a[0], b[0], '.');
      ListedInjective(a[1..], b[1..]);
      assert a == [a[0]] + a[1..] && b == [b[0]] + b[1..];
    }
  }

  function RecordText(r: DelegRecord): string {
    Listed([r.agent, Listed(r.scope), FormatInt(r.delegatedAt), r.signature])
  }

  lemma RecordInjective(r: DelegRecord, q: DelegRecord)
    requires RecordText(r) == RecordText(q)
    ensures r == q
  {
    var a := [r.agent, Listed(r.scope), FormatInt(r.delegatedAt), r.signature];
    var b := [q.agent, Listed(q.scope), FormatInt(q.delegatedAt), q.signature];
    ListedInjective(a, b);
    assert a[0] == b[0] && a[1] == b[1] && a[2] == b[2] && a[3] == b[3];
    ListedInjective(r.scope, q.scope);
    FormatIntInjective(r.delegatedAt, q.delegatedAt);
  }

  function RecordTexts(chain: seq<DelegRecord>): (texts: seq<string>)
    ensures |texts| == |chain| && forall i | 0 <= i < |chain| :: texts[i] == RecordText(chain[i])
  {
    seq(|chain|, i requires 0 <= i < |chain| => RecordText(chain[i]))
  }

  lemma ChainInjective(a: seq<DelegRecord>, b: seq<DelegRecord>)
    requires Listed(RecordTexts(a)) == Listed(RecordTexts(b))
    ensures a == b
  {
    ListedInjective(RecordTexts(a), RecordTexts(b));
    forall i | 0 <= i < |a| ensures a[i] == b[i] {
      assert RecordTexts(a)[i] == RecordTexts(b)[i];
      RecordInjective(a[i], b[i]);
    }
  }

  function ClaimParts(c: TknClaims): seq<string> {
    [c.iss, c.sub, Listed(c.aud), FormatInt(c.exp), FormatInt(c.nbf), FormatInt(c.iat), c.jti, c.sid, Listed(c.scope),
     c.taskId, c.orchId, Listed(RecordTexts(c.chain)), c.chainHash]
  }

  function ClaimsText(c: TknClaims): string {
    Listed(ClaimParts(c))
  }

  lemma ClaimsInjective(c: TknClaims, d: TknClaims)
    requires ClaimsText(c) == ClaimsText(d)
    ensures c == d
  {
    var a, b := ClaimParts(c), ClaimParts(d);
    ListedInjective(a, b);
    assert a[0] == b[0] && a[1] == b[1] && a[2] == b[2] && a[3] == b[3] && a[4] == b[4] && a[5] == b[5];
    assert a[6] == b[6] && a[7] == b[7] && a[8] == b[8] && a[9] == b[9] && a[10] == b[10] && a[11] == b[11];
    assert a[12] == b[12];
    ListedInjective(c.aud, d.aud);
    ListedInjective(c.scope, d.scope);
    ChainInjective(c.chain, d.chain);
    FormatIntInjective(c.exp, d.exp);
    FormatIntInjective(c.nbf, d.nbf);
    FormatIntInjective(c.iat, d.iat);
  }

  function HeaderText(h: Header): string {
    Listed([h.alg, h.typ, h.kid])
  }

  lemma HeaderInjective(h: Header, k: Header)
    requires HeaderText(h) == HeaderText(k)
    ensures h == k
  {
    var a, b := [h.alg, h.typ, h.kid], [k.alg, k.typ, k.kid];
    ListedInjective(a, b);
    assert a[0] == b[0] && a[1] == b[1] && a[2] == b[2];
  }

  function SignText(key: string, m: string): string {
    Listed([key, m])
  }

  lemma SigningInjective(k: string, m: string, l: string, n: string)
    requires SignText(k, m) == SignText(l, n)
    ensures k == l && m == n
  {
    ListedInjective([k, m], [l, n]);
    assert [k, m][0] == [l, n][0] && [k, m][1] == [l, n][1];
  }

  /** Reading back what was written, where it was. */
  ghost function Unspell(t: string, sep: char): Option<string> {
    if s: string :| Spell(s, sep) == t then Some(s) else None
  }

  lemma Unspells(s: string, sep: char)
    requires !('0' <= sep <= '9')
    ensures Unspell(Spell(s, sep), sep) == Some(s)
  {
    SpellInjective(s, Unspell(Spell(s, sep), sep).value, sep);
  }

  ghost function ReadHeader(t: string): Option<Header> {
    if h: Header :| HeaderText(h) == t then Some(h) else None
  }

  lemma ReadsHeader(h: Header)
    ensures ReadHeader(HeaderText(h)) == Some(h)
  {
    HeaderInjective(h, ReadHeader(HeaderText(h)).value);
  }

  ghost function ReadClaims(t: string): Option<TknClaims> {
    if c: TknClaims :| ClaimsText(c) == t then Some(c) else None
  }

  lemma ReadsClaims(c: TknClaims)
    ensures ReadClaims(ClaimsText(c)) == Some(c)
  {
    ClaimsInjective(c, ReadClaims(ClaimsText(c)).value);
  }

  ghost function ReadTime(t: string): Option<int> {
    if n: int :| FormatInt(n) == t then Some(n) else None
  }

  lemma ReadsTime(n: int)
    ensures ReadTime(FormatInt(n)) == Some(n) && '|' !in FormatInt(n)
  {
    FormatIntInjective(n, ReadTime(FormatInt(n)).value);
  }

  ghost function Plain(): Primitives {
    Primitives(
      s => Spell(s, '-'), t => Unspell(t, '-'),
      h => HeaderText(h), t => ReadHeader(t),
      c => ClaimsText(c), t => ReadClaims(t),
      chain => Listed(RecordTexts(chain)),
      (k, m) => SignText(k, m), (pub, m, sig) => sig == SignText(pub, m), k => k,
      s => s, s => Spell(s, '.'),
      n => FormatInt(n), t => ReadTime(t),
      s => Some(s), t => Unspell(t, '.'),
      (d, o, t, n) => Some("spiffe://" + d + o + t + n))
  }

  lemma PlainEncodes()
    ensures EncodingLaws(Plain())
  {
    forall s ensures Unspell(Spell(s, '-'), '-') == Some(s) && Base64Text(Spell(s, '-')) {
      Unspells(s, '-');
      SpellAlphabet(s, '-');
    }
    forall t | Unspell(t, '-').Some? ensures Base64Text(t) {
      SpellAlphabet(Unspell(t, '-').value, '-');
    }
  }

  lemma PlainWritesJson()
    ensures JsonLaws(Plain())
  {
    forall h ensures ReadHeader(HeaderText(h)) == Some(h) {
      ReadsHeader(h);
    }
    forall c ensures ReadClaims(ClaimsText(c)) == Some(c) {
      ReadsClaims(c);
    }
  }

  lemma PlainSigns(key: string, nonce: string)
    ensures SignatureLaw(Plain()) && SignatureBinds(Plain(), key, nonce)
  {
    forall pub ensures SignText(key, nonce) == SignText(pub, nonce) <==> pub == key {
      if SignText(key, nonce) == SignText(pub, nonce) {
        SigningInjective(key, nonce, pub, nonce);
      }
    }
  }

  lemma PlainTells()
    ensures TimeLaws(Plain())
  {
    forall n ensures ReadTime(FormatInt(n)) == Some(n) && '|' !in FormatInt(n) {
      ReadsTime(n);
    }
  }

  lemma PlainHex()
    ensures HexLaws(Plain())
  {
    forall s ensures Unspell(Spell(s, '.'), '.') == Some(s) && '|' !in Spell(s, '.') {
      Unspells(s, '.');
      SpellAlphabet(s, '.');
    }
  }

  lemma PlainNames()
    ensures SpiffeLaw(Plain())
  {
  }

  /** All laws at once, and any key binds its signature of any nonce. */
  lemma LawsHoldTogether(key: string, nonce: string)
    ensures Lawful(Plain()) && TimeLaws(Plain()) && HexLaws(Plain()) && SpiffeLaw(Plain())
    ensures SignatureBinds(Plain(), key, nonce)
  {
    PlainEncodes();
    PlainWritesJson();
    PlainSigns(key, nonce);
    PlainTells();
    PlainHex();
    PlainNames();
  }
}
