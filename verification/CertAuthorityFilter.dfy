/** The certificate authority filter of api/types/authority.go: a syntactic containment check
    compared with inclusion of the authorities two filters match. */
module CertAuthorityFilter {
  import opened Common

  const WILDCARD: string := "*"

  /** The known authority types. */
  const CERT_AUTH_TYPES: seq<string> :=
    ["host", "user", "db", "db_client", "openssh", "jwt", "saml_idp", "oidc_idp", "spiffe", "okta"]

  /** From authority type to cluster name or wildcard. */
  type Filter = map<string, string>

  datatype CertAuthority = CertAuthority(kind: string, cluster: string)

  /** Go's map access: a missing key reads as the empty string. */
  function Lookup(f: Filter, key: string): string {
    if key in f then f[key] else ""
  }

  predicate Match(f: Filter, ca: CertAuthority) {
    |f| == 0 || Lookup(f, ca.kind) == WILDCARD || Lookup(f, ca.kind) == ca.cluster
  }

  predicate Covers(f: Filter, key: string, value: string) {
    key in f && (f[key] == WILDCARD || f[key] == value)
  }

  predicate Contains(f: Filter, other: Filter) {
    if |f| == 0 then true
    else if |other| == 0 then forall t :: t in CERT_AUTH_TYPES ==> t in f && f[t] == WILDCARD
    else forall k :: k in other ==> Covers(f, k, other[k])
  }

  /** A filter matches everything if it is empty, and else what its entry for the type says: any cluster, or the named
      one. A type without an entry matches only an authority without a cluster name. */
  lemma MatchesExactly(f: Filter, ca: CertAuthority)
    ensures Match(f, ca) <==>
            || f == map[]
            || (ca.kind in f && (f[ca.kind] == "*" || f[ca.kind] == ca.cluster))
            || (ca.kind !in f && ca.cluster == "")
  {
  }

  /** An authority that can exist: of a known type, in a named cluster. */
  predicate Real(ca: CertAuthority) {
    ca.kind in CERT_AUTH_TYPES && ca.cluster != ""
  }

  /** Everything real that g matches, f matches. */
  ghost predicate Includes(f: Filter, g: Filter) {
    forall ca: CertAuthority :: Real(ca) && Match(g, ca) ==> Match(f, ca)
  }

  /** An entry no real authority can match: its type is unknown or its cluster name empty. */
  predicate Dead(key: string, value: string) {
    key !in CERT_AUTH_TYPES || value == ""
  }

  lemma ContainsImpliesIncludes(f: Filter, g: Filter)
    requires Contains(f, g)
    ensures Includes(f, g)
  {
  }

  /** A cluster name a filter does not ask for under this type. */
  function OtherName(f: Filter, key: string): (name: string)
    ensures name != "" && name != Lookup(f, key)
  {
    Lookup(f, key) + "x"
  }

  lemma IncludesCoversLive(f: Filter, g: Filter, k: string)
    requires Includes(f, g) && |f| != 0 && k in g && !Dead(k, g[k])
    ensures Covers(f, k, g[k])
  {
    if g[k] == WILDCARD {
      var ca := CertAuthority(k, OtherName(f, k));
      assert Real(ca) && Match(g, ca);
      assert Match(f, ca);
    } else {
      var ca := CertAuthority(k, g[k]);
      assert Real(ca) && Match(g, ca);
      assert Match(f, ca);
    }
  }

  lemma IncludesAllMeansWildcards(f: Filter, t: string)
    requires Includes(f, map[]) && |f| != 0 && t in CERT_AUTH_TYPES
    ensures t in f && f[t] == WILDCARD
  {
    var ca := CertAuthority(t, OtherName(f, t));
    assert Real(ca) && Match(map[], ca);
    assert Match(f, ca);
  }

  /** For all filters: containment is inclusion, except that a contained filter's dead entries, which match
      nothing, must be listed by the containing one as well. */
  lemma ContainsExactly(f: Filter, g: Filter)
    ensures Contains(f, g) <==>
            Includes(f, g) && (|f| == 0 || forall k :: k in g && Dead(k, g[k]) ==> Covers(f, k, g[k]))
  {
    if Contains(f, g) {
      ContainsImpliesIncludes(f, g);
    } else if Includes(f, g) && forall k :: k in g && Dead(k, g[k]) ==> Covers(f, k, g[k]) {
      if |g| == 0 {
        assert g == map[];
        forall t | t in CERT_AUTH_TYPES
          ensures t in f && f[t] == WILDCARD
        {
          IncludesAllMeansWildcards(f, t);
        }
      } else {
        forall k | k in g
          ensures Covers(f, k, g[k])
        {
          if !Dead(k, g[k]) {
            IncludesCoversLive(f, g, k);
          }
        }
      }
    }
  }

  /** With known types and non-empty names in the contained filter, containment is inclusion. */
  lemma ContainsIsInclusion(f: Filter, g: Filter)
    requires forall k :: k in g ==> !Dead(k, g[k])
    ensures Contains(f, g) <==> Includes(f, g)
  {
    ContainsExactly(f, g);
  }

  /** Containment is reflexive. It is transitive exactly unless the middle filter is empty and the third
      names an unknown type that the first does not cover. */
  lemma ContainsIsNearlyAPreorder(f: Filter, g: Filter, h: Filter)
    ensures Contains(f, f)
    ensures Contains(f, g) && Contains(g, h) ==>
              (Contains(f, h) <==>
               |f| == 0 || |g| != 0 || forall k :: k in h && k !in CERT_AUTH_TYPES ==> Covers(f, k, h[k]))
  {
  }

  /** It is not transitive for all filters: one that lists every known type contains the empty
      filter, which contains anything. */
  lemma UnknownTypeBreaksTransitivity(f: Filter)
    requires forall t :: t in CERT_AUTH_TYPES ==> t in f && f[t] == WILDCARD
    requires "unknown" !in f
    ensures Contains(f, map[]) && Contains(map[], map["unknown" := WILDCARD])
    ensures !Contains(f, map["unknown" := WILDCARD])
  {
    assert CERT_AUTH_TYPES[0] in CERT_AUTH_TYPES;
    assert |f| != 0;
    assert "unknown" in map["unknown" := WILDCARD];
  }

  // ---------- To and from the wire ----------

  /** The filter of a WatchKind; `None` is a nil map. */
  type Wire = Option<map<string, string>>

  function ToWire(f: Filter): Wire {
    if f == map[] then None else Some(f)
  }

  function OfWire(m: Wire): Filter {
    if m.None? then map[] else m.value
  }

  method CopyMap(f: map<string, string>) returns (m: map<string, string>)
    ensures m == f
  {
    m := map[];
    var rest := f.Keys;
    while rest != {}
      invariant rest <= f.Keys && m.Keys == f.Keys - rest
      invariant forall k :: k in m ==> m[k] == f[k]
      decreases rest
    {
      var k :| k in rest;
      m := m[k := f[k]];
      rest := rest - {k};
    }
  }

  method IntoMap(f: Filter) returns (m: Wire)
    ensures m == ToWire(f)
  {
    if |f| == 0 {
      return None;
    }
    var copy := CopyMap(f);
    return Some(copy);
  }

  method FromMap(m: Wire) returns (f: Filter)
    ensures f == OfWire(m)
  {
    if m.None? || |m.value| == 0 {
      return map[];
    }
    f := CopyMap(m.value);
  }

  /** A filter survives the wire as it is. The other way round only an empty map that is not nil is changed,
      into nil. */
  lemma WireKeepsFilters(f: Filter, m: Wire)
    ensures OfWire(ToWire(f)) == f
    ensures ToWire(OfWire(m)) == m <==> m != Some(map[])
  {
  }
}
