/**
 Scope strings `action:resource:identifier` and the attenuation check
 (internal/authz/scope.go). A scope means a set of (action, resource, identifier)
 triples; the check is shown to be inclusion of those sets.
 */
module Scope {
  import opened Wrappers
  import opened Text

  datatype ScopeParts = ScopeParts(action: string, resource: string, identifier: string)

  datatype ScopeError = ErrInvalidScope

  function ParseScope(s: string): Result<ScopeParts, ScopeError> {
    match Cut(s, ":")
    case None => Err(ErrInvalidScope)
    case Some((action, rest)) =>
      match Cut(rest, ":")
      case None => Err(ErrInvalidScope)
      case Some((resource, identifier)) =>
        if action == "" || resource == "" || identifier == "" then Err(ErrInvalidScope)
        else Ok(ScopeParts(action, resource, identifier))
  }

  /** The text of three parts. */
  function ScopeText(action: string, resource: string, identifier: string): string {
    action + ":" + (resource + ":" + identifier)
  }

  predicate RendersTo(p: ScopeParts, s: string) {
    && s == ScopeText(p.action, p.resource, p.identifier)
    && p.action != "" && p.resource != "" && p.identifier != ""
    && ':' !in p.action && ':' !in p.resource
  }

  /** Parsing succeeds with given parts exactly on the text those parts render to. */
  lemma ParseScopeExact(s: string, p: ScopeParts)
    ensures ParseScope(s) == Ok(p) <==> RendersTo(p, s)
  {
    if ParseScope(s) == Ok(p) {
      CutCharExact(s, ':');
      CutCharExact(Cut(s, ":").value.1, ':');
    }
    if RendersTo(p, s) {
      RenderedParses(s, p);
    }
  }

  lemma RenderedParses(s: string, p: ScopeParts)
    requires RendersTo(p, s)
    ensures ParseScope(s) == Ok(p)
  {
    var rest := p.resource + ":" + p.identifier;
    assert Cut(s, ":") == Some((p.action, rest)) by {
      CutChar(p.action, ':', rest);
    }
    assert Cut(rest, ":") == Some((p.resource, p.identifier)) by {
      CutChar(p.resource, ':', p.identifier);
    }
  }

  lemma TextWellFormed(action: string, resource: string, identifier: string)
    requires action != "" && resource != "" && identifier != "" && ':' !in action && ':' !in resource
    ensures WellFormed(ScopeText(action, resource, identifier))
  {
    RenderedParses(ScopeText(action, resource, identifier), ScopeParts(action, resource, identifier));
  }

  /** The decision of scopeCovers. */
  predicate Covers(requested: string, allowed: string) {
    && ParseScope(requested).Ok? && ParseScope(allowed).Ok?
    && PartsCover(ParseScope(requested).value, ParseScope(allowed).value)
  }

  predicate PartsCover(r: ScopeParts, a: ScopeParts) {
    r.action == a.action && r.resource == a.resource && (r.identifier == a.identifier || a.identifier == "*")
  }

  predicate CoveredBySome(requested: string, allowed: seq<string>) {
    exists j | 0 <= j < |allowed| :: Covers(requested, allowed[j])
  }

  predicate Subset(requested: seq<string>, allowed: seq<string>) {
    forall i | 0 <= i < |requested| :: CoveredBySome(requested[i], allowed)
  }

  /** The inner loop: is this scope covered by some allowed one? */
  method CoveredByAny(requested: string, allowed: seq<string>) returns (covered: bool)
    ensures covered <==> CoveredBySome(requested, allowed)
  {
    covered := false;
    for j := 0 to |allowed|
      invariant !covered
      invariant forall k | 0 <= k < j :: !Covers(requested, allowed[k])
    {
      if Covers(requested, allowed[j]) {
        covered := true;
        break;
      }
    }
  }

  method ScopeIsSubset(requested: seq<string>, allowed: seq<string>) returns (ok: bool)
    ensures ok <==> Subset(requested, allowed)
  {
    for i := 0 to |requested|
      invariant forall k | 0 <= k < i :: CoveredBySome(requested[k], allowed)
    {
      var covered := CoveredByAny(requested[i], allowed);
      if !covered {
        return false;
      }
    }
    return true;
  }

  // ---------- what a scope list means ----------

  /** An action on a resource named by a concrete identifier, which is never empty or the wildcard. */
  datatype Triple = Triple(action: string, resource: string, identifier: string)

  predicate WellFormed(scope: string) {
    ParseScope(scope).Ok?
  }

  predicate AllWellFormed(scopes: seq<string>) {
    forall i | 0 <= i < |scopes| :: WellFormed(scopes[i])
  }

  predicate Denotes(scope: string, t: Triple) {
    && t.identifier != "" && t.identifier != "*"
    && match ParseScope(scope)
       case Ok(p) =>
         t.action == p.action && t.resource == p.resource && (p.identifier == "*" || t.identifier == p.identifier)
       case Err(_) => false
  }

  predicate Permits(scopes: seq<string>, t: Triple) {
    exists i | 0 <= i < |scopes| :: Denotes(scopes[i], t)
  }

  ghost function Meaning(scopes: seq<string>): iset<Triple> {
    iset t: Triple | Permits(scopes, t)
  }

  function LongestLength(scopes: seq<string>): (n: nat)
    ensures forall i | 0 <= i < |scopes| :: |scopes[i]| <= n
  {
    if scopes == [] then 0
    else
      var n := LongestLength(scopes[1..]);
      if |scopes[0]| > n then |scopes[0]| else n
  }

  /** An identifier no scope of the list names. */
  function FreshIdentifier(scopes: seq<string>): string {
    Zeros(LongestLength(scopes) + 2)
  }

  lemma CoversWhenFreshTripleDoes(action: string, resource: string, allowed: seq<string>)
    requires Permits(allowed, Triple(action, resource, FreshIdentifier(allowed)))
    ensures exists j | 0 <= j < |allowed| :: ParseScope(allowed[j]) == Ok(ScopeParts(action, resource, "*"))
  {
    var t := Triple(action, resource, FreshIdentifier(allowed));
    var j :| 0 <= j < |allowed| && Denotes(allowed[j], t);
    var p := ParseScope(allowed[j]).value;
    ParseScopeExact(allowed[j], p);
    assert |p.identifier| <= |allowed[j]| < |t.identifier|;
  }

  /**
   The check accepts exactly the well-formed lists whose meaning lies inside the allowed meaning.
   A malformed entry means nothing and is still refused.
   */
  lemma SubsetIsInclusion(requested: seq<string>, allowed: seq<string>)
    ensures Subset(requested, allowed) <==> AllWellFormed(requested) && Meaning(requested) <= Meaning(allowed)
  {
    if Subset(requested, allowed) {
      forall i | 0 <= i < |requested| ensures WellFormed(requested[i]) {
        assert CoveredBySome(requested[i], allowed);
      }
      forall t | Permits(requested, t) ensures Permits(allowed, t) {
        var i :| 0 <= i < |requested| && Denotes(requested[i], t);
        assert CoveredBySome(requested[i], allowed);
        var j :| 0 <= j < |allowed| && Covers(requested[i], allowed[j]);
        assert Denotes(allowed[j], t);
      }
    }
    if AllWellFormed(requested) && Meaning(requested) <= Meaning(allowed) {
      forall i | 0 <= i < |requested| ensures CoveredBySome(requested[i], allowed) {
        InclusionCovers(requested, allowed, i);
      }
    }
  }

  lemma InclusionCovers(requested: seq<string>, allowed: seq<string>, i: nat)
    requires i < |requested| && WellFormed(requested[i])
    requires Meaning(requested) <= Meaning(allowed)
    ensures CoveredBySome(requested[i], allowed)
  {
    var p := ParseScope(requested[i]).value;
    ParseScopeExact(requested[i], p);
    var id := if p.identifier == "*" then FreshIdentifier(allowed) else p.identifier;
    var t := Triple(p.action, p.resource, id);
    assert |FreshIdentifier(allowed)| >= 2;
    assert Denotes(requested[i], t);
    assert t in Meaning(requested);
    assert t in Meaning(allowed);
    if p.identifier == "*" {
      CoversWhenFreshTripleDoes(p.action, p.resource, allowed);
      var j :| 0 <= j < |allowed| && ParseScope(allowed[j]) == Ok(ScopeParts(p.action, p.resource, "*"));
      assert Covers(requested[i], allowed[j]);
    } else {
      var j :| 0 <= j < |allowed| && Denotes(allowed[j], t);
      assert Covers(requested[i], allowed[j]);
    }
  }

  /** A well-formed scope lies within every list that has it. */
  lemma MemberWithin(x: string, list: seq<string>)
    requires WellFormed(x) && x in list
    ensures Subset([x], list)
  {
    var j :| 0 <= j < |list| && list[j] == x;
    assert Covers(x, list[j]);
    assert CoveredBySome(x, list);
  }

  /** A wildcard scope is covered by itself only. */
  lemma WildcardWithinExactly(action: string, resource: string, list: seq<string>)
    requires action != "" && resource != "" && ':' !in action && ':' !in resource
    ensures var x := ScopeText(action, resource, "*");
            Subset([x], list) <==> x in list
  {
    var x := ScopeText(action, resource, "*");
    RenderedParses(x, ScopeParts(action, resource, "*"));
    if x in list {
      MemberWithin(x, list);
    }
    if Subset([x], list) {
      assert CoveredBySome([x][0], list);
      var j :| 0 <= j < |list| && Covers(x, list[j]);
      ParseScopeExact(list[j], ParseScope(list[j]).value);
    }
  }

  lemma ThreePassOn(x: string, y: string, z: string)
    requires WellFormed(x) && WellFormed(y) && WellFormed(z)
    ensures Subset([x, y, z], [x, y, z])
  {
    SubsetReflexiveExactly([x, y, z]);
  }

  /** Attenuation composes, also over malformed lists. */
  lemma SubsetTransitive(a: seq<string>, b: seq<string>, c: seq<string>)
    requires Subset(a, b) && Subset(b, c)
    ensures Subset(a, c)
  {
    SubsetIsInclusion(a, b);
    SubsetIsInclusion(b, c);
    SubsetIsInclusion(a, c);
  }

  /** A scope list within another is well formed. */
  lemma WithinWellFormed(requested: seq<string>, allowed: seq<string>)
    requires Subset(requested, allowed)
    ensures AllWellFormed(requested)
  {
    forall i | 0 <= i < |requested| ensures WellFormed(requested[i]) {
      assert CoveredBySome(requested[i], allowed);
    }
  }

  /** A list may be passed on unchanged exactly when it is well formed. */
  lemma SubsetReflexiveExactly(a: seq<string>)
    ensures Subset(a, a) <==> AllWellFormed(a)
  {
    SubsetIsInclusion(a, a);
  }
}
