/**
 Redaction of audit details (internal/audit/audit_log.go, sanitizePII and
 maskSensitiveValues). Lower-casing maps one character at a time; everything here
 holds for any such mapping.
 */
module Redaction {
  import opened Wrappers
  import opened Text

  const KEYWORDS: seq<string> := ["secret", "password", "token_value", "private_key"]
  const MASK: string := "***REDACTED***"

  function Lower(lower: char -> char, s: string): (r: string)
    ensures |r| == |s| && forall i | 0 <= i < |s| :: r[i] == lower(s[i])
  {
    seq(|s|, i requires 0 <= i < |s| => lower(s[i]))
  }

  predicate Sensitive(lower: char -> char, s: string) {
    exists k | k in KEYWORDS :: Contains(Lower(lower, s), k)
  }

  /** The part before the separator, when that part names something sensitive. */
  function KeyBefore(lower: char -> char, s: string, sep: string): Option<string> {
    match Cut(s, sep)
    case Some((key, _)) => if Sensitive(lower, key) then Some(key) else None
    case None => None
  }

  function MaskSensitiveValues(lower: char -> char, s: string): string {
    match KeyBefore(lower, s, "=")
    case Some(key) => key + "=" + MASK
    case None =>
      match KeyBefore(lower, s, ": ")
      case Some(key) => key + ": " + MASK
      case None => s
  }

  function SanitizePII(lower: char -> char, detail: string): string {
    if Sensitive(lower, detail) then MaskSensitiveValues(lower, detail) else detail
  }

  lemma SensitiveGrows(lower: char -> char, a: string, b: string)
    requires Sensitive(lower, a)
    ensures Sensitive(lower, a + b)
  {
    var k :| k in KEYWORDS && Contains(Lower(lower, a), k);
    var i: nat :| i <= |a| && OccursAt(Lower(lower, a), k, i);
    var l := Lower(lower, a + b);
    assert l[..|a|] == Lower(lower, a);
    assert l[i..i + |k|] == Lower(lower, a)[i..i + |k|];
    assert OccursAt(l, k, i);
  }

  /** Where a text is first cut depends only on the text through the separator. */
  lemma CutKeepsKey(s: string, sep: string, tail: string)
    requires sep != "" && Cut(s, sep).Some?
    ensures var key := Cut(s, sep).value.0;
            Cut(key + sep + tail, sep) == Some((key, tail))
  {
    CutParts(s, sep);
    var i := FindFrom(s, sep, 0).value;
    var key := Cut(s, sep).value.0;
    assert key == s[..i];
    var t := key + sep + tail;
    assert t[i..i + |sep|] == sep;
    forall j: nat | j < i ensures !OccursAt(t, sep, j) {
      assert !OccursAt(s, sep, j);
      assert t[..i + |sep|] == key + sep == s[..i + |sep|];
      assert t[j..j + |sep|] == t[..i + |sep|][j..j + |sep|] == s[j..j + |sep|];
    }
    CutAt(t, sep, i);
    assert t[..i] == key && t[i + |sep|..] == tail;
  }

  /** Cutting at "=" sees only the part of the text up to its first "=". */
  lemma EqualsInPrefix(a: string, b: string, c: string)
    requires '=' in a
    ensures Cut(a + b, "=").Some? && Cut(a + c, "=").Some?
    ensures Cut(a + b, "=").value.0 == Cut(a + c, "=").value.0
  {
    CutCharExact(a, '=');
    CutParts(a, "=");
    var (k, rest) := Cut(a, "=").value;
    assert a + b == k + "=" + (rest + b) && a + c == k + "=" + (rest + c);
    CutChar(k, '=', rest + b);
    CutChar(k, '=', rest + c);
  }

  lemma NoEquals(a: string, lower: char -> char)
    requires '=' !in a
    ensures KeyBefore(lower, a, "=").None?
  {
    CutCharExact(a, '=');
  }

  /** A text cut after something sensitive is sensitive as a whole. */
  lemma KeyMakesSensitive(lower: char -> char, s: string, sep: string)
    requires KeyBefore(lower, s, sep).Some?
    ensures Sensitive(lower, s)
  {
    CutParts(s, sep);
    var (key, rest) := Cut(s, sep).value;
    assert key + (sep + rest) == s;
    SensitiveGrows(lower, key, sep + rest);
  }

  /** With "=" chosen, whatever follows it is dropped. */
  lemma TailDroppedAfterEquals(lower: char -> char, s: string, tail: string)
    requires KeyBefore(lower, s, "=").Some?
    ensures var key := KeyBefore(lower, s, "=").value;
            SanitizePII(lower, s) == key + "=" + MASK == SanitizePII(lower, key + "=" + tail)
  {
    var key := KeyBefore(lower, s, "=").value;
    CutKeepsKey(s, "=", tail);
    KeyMakesSensitive(lower, s, "=");
    KeyMakesSensitive(lower, key + "=" + tail, "=");
  }

  /**
   With ": " chosen, what follows is dropped exactly while it holds no "=" of its own:
   a later "=" becomes the separator and the text before it is kept.
   */
  lemma TailDroppedAfterColonExactly(lower: char -> char, s: string, tail: string)
    requires KeyBefore(lower, s, "=").None? && KeyBefore(lower, s, ": ").Some?
    ensures var key := KeyBefore(lower, s, ": ").value;
            && SanitizePII(lower, s) == key + ": " + MASK
            && (SanitizePII(lower, key + ": " + tail) == key + ": " + MASK <==> '=' in key || '=' !in tail)
  {
    var key := KeyBefore(lower, s, ": ").value;
    var t := key + ": " + tail;
    KeyMakesSensitive(lower, s, ": ");
    CutKeepsKey(s, ": ", tail);
    KeyMakesSensitive(lower, t, ": ");
    if '=' in key {
      SameEqualsKey(lower, s, key, tail);
    } else if '=' !in tail {
      NoEquals(t, lower);
    } else {
      CutCharExact(tail, '=');
      CutParts(tail, "=");
      var (kept, rest) := Cut(tail, "=").value;
      LaterEqualsWins(lower, key, kept, rest);
      assert |key + ": " + kept + "=" + MASK| > |key + ": " + MASK|;
    }
  }

  /** A "=" before the separator is where both texts are cut. */
  lemma SameEqualsKey(lower: char -> char, s: string, key: string, tail: string)
    requires '=' in key && key <= s && KeyBefore(lower, s, "=").None?
    ensures KeyBefore(lower, key + ": " + tail, "=").None?
  {
    assert s == key + s[|key|..] && key + (": " + tail) == key + ": " + tail;
    EqualsInPrefix(key, s[|key|..], ": " + tail);
  }

  /** The text between ": " and a later "=" is kept. */
  lemma LaterEqualsWins(lower: char -> char, key: string, kept: string, rest: string)
    requires Sensitive(lower, key) && '=' !in key && '=' !in kept
    ensures SanitizePII(lower, key + ": " + (kept + "=" + rest)) == key + ": " + kept + "=" + MASK
  {
    var front := key + ": " + kept;
    var t := front + "=" + rest;
    assert key + ": " + (kept + "=" + rest) == t;
    assert Sensitive(lower, front) by {
      SensitiveGrows(lower, key, ": " + kept);
      assert key + (": " + kept) == front;
    }
    assert KeyBefore(lower, t, "=") == Some(front) by {
      assert '=' !in front;
      CutChar(front, '=', rest);
    }
    KeyMakesSensitive(lower, t, "=");
  }

  /** Redacting twice is redacting once, for every detail. */
  lemma SanitizeIdempotent(lower: char -> char, detail: string)
    ensures SanitizePII(lower, SanitizePII(lower, detail)) == SanitizePII(lower, detail)
  {
    if Sensitive(lower, detail) {
      if KeyBefore(lower, detail, "=").Some? {
        TailDroppedAfterEquals(lower, detail, MASK);
      } else if KeyBefore(lower, detail, ": ").Some? {
        TailDroppedAfterColonExactly(lower, detail, MASK);
      }
    }
  }

  // ---------- what redaction comes to ----------

  /** The text names a secret, in any case: it holds one of the four keywords once lower-cased. */
  predicate NamesSecret(lower: char -> char, s: string) {
    || Contains(Lower(lower, s), "secret") || Contains(Lower(lower, s), "password")
    || Contains(Lower(lower, s), "token_value") || Contains(Lower(lower, s), "private_key")
  }

  /** The text is cut at its first separator, after something that names a secret. */
  predicate SecretBefore(lower: char -> char, s: string, sep: string, key: string, rest: string) {
    && s == key + sep + rest && (forall j: nat | j < |key| :: !OccursAt(s, sep, j))
    && NamesSecret(lower, key)
  }

  /** The detail as it may be kept: masked after "=", or else after ": ", or else unchanged. */
  ghost predicate RedactedAs(lower: char -> char, detail: string, kept: string) {
    && (forall key, rest | SecretBefore(lower, detail, "=", key, rest) :: kept == key + "=" + "***REDACTED***")
    && ((forall key, rest :: !SecretBefore(lower, detail, "=", key, rest)) ==>
          && (forall key, rest | SecretBefore(lower, detail, ": ", key, rest) :: kept == key + ": " + "***REDACTED***")
          && ((forall key, rest :: !SecretBefore(lower, detail, ": ", key, rest)) ==> kept == detail))
  }

  lemma SensitiveNames(lower: char -> char, s: string)
    ensures Sensitive(lower, s) <==> NamesSecret(lower, s)
  {
    assert KEYWORDS[0] == "secret" && KEYWORDS[1] == "password" && KEYWORDS[2] == "token_value" && KEYWORDS[3] == "private_key";
  }

  lemma SecretIsKey(lower: char -> char, s: string, sep: string, key: string, rest: string)
    requires SecretBefore(lower, s, sep, key, rest)
    ensures KeyBefore(lower, s, sep) == Some(key)
  {
    SensitiveNames(lower, key);
    assert s == key + (sep + rest);
    assert OccursAt(s, sep, |key|);
    CutAt(s, sep, |key|);
  }

  lemma KeyIsSecret(lower: char -> char, s: string, sep: string)
    requires KeyBefore(lower, s, sep).Some?
    ensures exists rest :: SecretBefore(lower, s, sep, KeyBefore(lower, s, sep).value, rest)
  {
    CutParts(s, sep);
    var (key, rest) := Cut(s, sep).value;
    SensitiveNames(lower, key);
    assert SecretBefore(lower, s, sep, key, rest);
  }

  /** Secrets before a separator are the keys found before it. */
  lemma SecretsAreKeys(lower: char -> char, s: string, sep: string)
    ensures forall key, rest | SecretBefore(lower, s, sep, key, rest) :: KeyBefore(lower, s, sep) == Some(key)
    ensures (forall key, rest :: !SecretBefore(lower, s, sep, key, rest)) <==> KeyBefore(lower, s, sep).None?
  {
    forall key, rest | SecretBefore(lower, s, sep, key, rest) ensures KeyBefore(lower, s, sep) == Some(key) {
      SecretIsKey(lower, s, sep, key, rest);
    }
    if KeyBefore(lower, s, sep).Some? {
      KeyIsSecret(lower, s, sep);
    }
  }

  /** That is what redaction comes to, for every detail. */
  lemma RedactedExactly(lower: char -> char, detail: string)
    ensures RedactedAs(lower, detail, SanitizePII(lower, detail))
  {
    SecretsAreKeys(lower, detail, "=");
    SecretsAreKeys(lower, detail, ": ");
    if KeyBefore(lower, detail, "=").Some? {
      KeyMakesSensitive(lower, detail, "=");
    } else if KeyBefore(lower, detail, ": ").Some? {
      KeyMakesSensitive(lower, detail, ": ");
    }
  }
}
