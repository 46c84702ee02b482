/** Role lists of access requests in api/types/access_request.go: `CheckAndSetDefaults` removes duplicates and
    sorts, and `GetOriginalRoles` recovers the roles a request was made with. */
module AccessRequestRoles {

  // ---------- The order of sort.Strings ----------

  /** Byte order of valid UTF-8, which is the order of the code points. */
  predicate Less(a: string, b: string) {
    if b == [] then false
    else if a == [] then true
    else a[0] < b[0] || (a[0] == b[0] && Less(a[1..], b[1..]))
  }

  /** The first position where b goes on and a does not, or goes on with a smaller character, decides. */
  ghost predicate DiffersAt(a: string, b: string, i: nat) {
    i <= |a| && i < |b| && a[..i] == b[..i] && (i == |a| || a[i] < b[i])
  }

  /** The order is ascending and lexicographic. */
  lemma {:induction false} LessIsLexicographic(a: string, b: string)
    ensures Less(a, b) <==> exists i: nat :: DiffersAt(a, b, i)
  {
    if a == [] || b == [] || a[0] != b[0] {
      assert b != [] && (a == [] || a[0] < b[0]) ==> DiffersAt(a, b, 0);
    } else {
      LessIsLexicographic(a[1..], b[1..]);
      forall i: nat | DiffersAt(a[1..], b[1..], i)
        ensures DiffersAt(a, b, i + 1)
      {
        DiffersLater(a, b, i);
      }
      forall i: nat | DiffersAt(a, b, i)
        ensures i > 0 && DiffersAt(a[1..], b[1..], i - 1)
      {
        DiffersLater(a, b, i - 1);
      }
    }
  }

  lemma DiffersLater(a: string, b: string, i: int)
    requires -1 <= i && a != [] && b != [] && a[0] == b[0]
    ensures i >= 0 ==> (DiffersAt(a, b, i + 1) <==> DiffersAt(a[1..], b[1..], i))
    ensures !DiffersAt(a, b, 0)
  {
    if 0 <= i && i + 1 <= |a| && i + 1 <= |b| {
      assert a[..i + 1] == [a[0]] + a[1..][..i];
      assert b[..i + 1] == [b[0]] + b[1..][..i];
      assert a[1..][..i] == a[..i + 1][1..] && b[1..][..i] == b[..i + 1][1..];
    }
  }

  lemma {:induction false} LessIsTotal(a: string, b: string)
    ensures Less(a, b) || a == b || Less(b, a)
  {
    if a != [] && b != [] && a[0] == b[0] {
      LessIsTotal(a[1..], b[1..]);
      assert a == [a[0]] + a[1..];
      assert b == [b[0]] + b[1..];
    }
  }

  lemma {:induction false} LessIsAsymmetric(a: string, b: string)
    requires Less(a, b)
    ensures !Less(b, a) && a != b
  {
    if a != [] && a[0] == b[0] {
      LessIsAsymmetric(a[1..], b[1..]);
    }
  }

  lemma {:induction false} LessIsTransitive(a: string, b: string, c: string)
    requires Less(a, b) && Less(b, c)
    ensures Less(a, c)
  {
    if a != [] && a[0] == b[0] && b[0] == c[0] {
      LessIsTransitive(a[1..], b[1..], c[1..]);
    }
  }

  function Elems(s: seq<string>): set<string> {
    set x | x in s
  }

  /** Sorted and without duplicates. */
  ghost predicate Canonical(s: seq<string>) {
    forall i, j :: 0 <= i < j < |s| ==> Less(s[i], s[j])
  }

  /** The canonical list of a set is unique. */
  lemma {:induction false} CanonicalIsUnique(a: seq<string>, b: seq<string>)
    requires Canonical(a) && Canonical(b) && Elems(a) == Elems(b)
    ensures a == b
  {
    if a != [] {
      NonEmptyElems(a);
    }
    if b != [] {
      NonEmptyElems(b);
    }
    if a != [] {
      FirstIsLeast(a, b);
      FirstIsLeast(b, a);
      if Less(a[0], b[0]) {
        LessIsAsymmetric(a[0], b[0]);
      }
      assert a[0] == b[0];
      TailElems(a);
      TailElems(b);
      CanonicalIsUnique(a[1..], b[1..]);
      assert a == [a[0]] + a[1..];
      assert b == [b[0]] + b[1..];
    }
  }

  lemma NonEmptyElems(s: seq<string>)
    requires s != []
    ensures Elems(s) != {}
  {
    assert s[0] in Elems(s);
  }

  lemma FirstIsLeast(a: seq<string>, b: seq<string>)
    requires a != [] && b != [] && Canonical(a) && Elems(b) <= Elems(a)
    ensures a[0] == b[0] || Less(a[0], b[0])
  {
    assert b[0] in Elems(b);
    var k :| 0 <= k < |a| && a[k] == b[0];
  }

  lemma TailElems(a: seq<string>)
    requires a != [] && Canonical(a)
    ensures Elems(a[1..]) == Elems(a) - {a[0]}
  {
    forall i | 1 <= i < |a|
      ensures a[i] != a[0]
    {
      LessIsAsymmetric(a[0], a[i]);
    }
    assert forall x :: x in a <==> x == a[0] || x in a[1..];
  }

  lemma {:induction false} CanonicalCounts(a: seq<string>)
    requires Canonical(a)
    ensures |Elems(a)| == |a|
  {
    if a != [] {
      TailElems(a);
      CanonicalCounts(a[1..]);
      assert a[0] in Elems(a);
    }
  }

  // ---------- Deduplicate and sort ----------

  /** The first occurrence of each element, in order. */
  function Dedup(s: seq<string>): seq<string> {
    if s == [] then []
    else
      var rest, last := Dedup(s[..|s| - 1]), s[|s| - 1];
      if last in rest then rest else rest + [last]
  }

  ghost predicate Distinct(s: seq<string>) {
    forall i, j :: 0 <= i < j < |s| ==> s[i] != s[j]
  }

  lemma ElemsAppend(s: seq<string>, x: string)
    ensures Elems(s + [x]) == Elems(s) + {x}
  {
  }

  lemma {:induction false} DedupFacts(s: seq<string>)
    ensures Distinct(Dedup(s)) && Elems(Dedup(s)) == Elems(s)
  {
    if s != [] {
      var init, last := s[..|s| - 1], s[|s| - 1];
      DedupFacts(init);
      assert s == init + [last];
      ElemsAppend(init, last);
      ElemsAppend(Dedup(init), last);
      assert last in Dedup(init) ==> last in Elems(Dedup(init));
    }
  }

  function FirstAt(s: seq<string>, x: string): (k: nat)
    requires x in s
    ensures k < |s| && s[k] == x && x !in s[..k]
  {
    if s[0] == x then 0
    else
      var k := FirstAt(s[1..], x);
      assert s[..k + 1] == [s[0]] + s[1..][..k];
      k + 1
  }

  /** The kept elements stand in the order of their first occurrences. */
  lemma {:induction false} DedupKeepsOrder(s: seq<string>, i: nat, j: nat)
    requires i < j < |Dedup(s)| && Dedup(s)[i] in s && Dedup(s)[j] in s
    ensures FirstAt(s, Dedup(s)[i]) < FirstAt(s, Dedup(s)[j])
  {
    var init, last := s[..|s| - 1], s[|s| - 1];
    DedupFacts(init);
    assert forall x :: x in Dedup(init) ==> x in Elems(Dedup(init));
    FirstAtInit(s, Dedup(s)[i]);
    if j < |Dedup(init)| {
      DedupKeepsOrder(init, i, j);
      FirstAtInit(s, Dedup(s)[j]);
    } else {
      assert last !in Elems(init);
    }
  }

  lemma FirstAtInit(s: seq<string>, x: string)
    requires s != [] && x in s[..|s| - 1]
    ensures x in s && FirstAt(s, x) == FirstAt(s[..|s| - 1], x)
  {
    var init := s[..|s| - 1];
    var k, m := FirstAt(s, x), FirstAt(init, x);
    assert s[m] == x && s[..m] == init[..m];
    assert forall j :: 0 <= j < k ==> s[..k][j] == s[j];
    assert forall j :: 0 <= j < m ==> init[..m][j] == s[j];
  }

  method Deduplicate(input: seq<string>) returns (out: seq<string>)
    ensures out == Dedup(input)
  {
    if |input| <= 1 {
      assert |input| == 1 ==> input[..0] == [] && [] + [input[0]] == input;
      return input;
    }
    out := [];
    var seen: set<string> := {};
    for i := 0 to |input|
      invariant out == Dedup(input[..i]) && seen == Elems(out)
    {
      assert input[..i + 1][..i] == input[..i];
      if input[i] !in seen {
        out := out + [input[i]];
        seen := seen + {input[i]};
      }
    }
    assert input[..|input|] == input;
  }

  function Insert(x: string, s: seq<string>): seq<string> {
    if s == [] || !Less(s[0], x) then [x] + s else [s[0]] + Insert(x, s[1..])
  }

  /** The list sort.Strings leaves. */
  function Sort(s: seq<string>): seq<string> {
    if s == [] then [] else Insert(s[0], Sort(s[1..]))
  }

  lemma {:induction false} InsertFacts(x: string, s: seq<string>)
    requires Canonical(s) && x !in s
    ensures Canonical(Insert(x, s)) && Elems(Insert(x, s)) == Elems(s) + {x}
  {
    if s == [] {
    } else if !Less(s[0], x) {
      LessIsTotal(s[0], x);
      forall j | 0 <= j < |s|
        ensures Less(x, s[j])
      {
        if j > 0 {
          LessIsTransitive(x, s[0], s[j]);
        }
      }
    } else {
      InsertFacts(x, s[1..]);
      var r := Insert(x, s[1..]);
      forall j | 0 <= j < |r|
        ensures Less(s[0], r[j])
      {
        assert r[j] in Elems(r);
      }
      assert s == [s[0]] + s[1..];
    }
  }

  lemma {:induction false} SortFacts(s: seq<string>)
    requires Distinct(s)
    ensures Canonical(Sort(s)) && Elems(Sort(s)) == Elems(s)
  {
    if s != [] {
      SortFacts(s[1..]);
      assert s[0] !in s[1..];
      assert s[0] !in Elems(Sort(s[1..]));
      InsertFacts(s[0], Sort(s[1..]));
      assert s == [s[0]] + s[1..];
    }
  }

  function Normalize(roles: seq<string>): seq<string> {
    Sort(Dedup(roles))
  }

  lemma NormalizeFacts(roles: seq<string>)
    ensures Canonical(Normalize(roles)) && Elems(Normalize(roles)) == Elems(roles)
  {
    DedupFacts(roles);
    SortFacts(Dedup(roles));
  }

  /** Two role lists are equal after normalisation exactly when they hold the same roles. */
  lemma NormalizeIsCanonical(a: seq<string>, b: seq<string>)
    ensures Normalize(a) == Normalize(b) <==> Elems(a) == Elems(b)
  {
    NormalizeFacts(a);
    NormalizeFacts(b);
    if Elems(a) == Elems(b) {
      CanonicalIsUnique(Normalize(a), Normalize(b));
    }
  }

  // ---------- The request ----------

  datatype RequestState = None | Pending | Approved | Denied | Promoted

  datatype Error = NoError | BadMetadata | PendingWithReason | PendingWithAnnotations | NoUser | NothingRequested

  class AccessRequest {
    var state: RequestState
    var resolveReason: string
    var resolveAnnotations: map<string, seq<string>>
    var user: string
    var roles: seq<string>
    var resourceIDs: seq<string>
    var roleThresholds: map<string, nat>

    constructor (user: string, roles: seq<string>, resourceIDs: seq<string>)
      ensures this.user == user && this.roles == roles && this.resourceIDs == resourceIDs
      ensures state == None && resolveReason == "" && resolveAnnotations == map[] && roleThresholds == map[]
    {
      this.user, this.roles, this.resourceIDs := user, roles, resourceIDs;
      state, resolveReason, resolveAnnotations, roleThresholds := None, "", map[], map[];
    }

    /** Accepts exactly the requests that name a user and something to request and, while pending, carry no
        resolution; their roles become canonical and are otherwise the same. Whether the
        metadata checks is not part of this model. */
    method CheckAndSetDefaults(metadataOk: bool) returns (err: Error)
      modifies this
      ensures unchanged(`resolveReason, `resolveAnnotations, `user, `resourceIDs, `roleThresholds)
      ensures state == if metadataOk && old(state) == None then Pending else old(state)
      ensures err == NoError <==>
              && metadataOk
              && (state == Pending ==> resolveReason == "" && resolveAnnotations == map[])
              && user != ""
              && (old(roles) != [] || resourceIDs != [])
      ensures err == BadMetadata <==> !metadataOk
      ensures err == PendingWithReason <==> metadataOk && state == Pending && resolveReason != ""
      ensures err == PendingWithAnnotations <==>
              metadataOk && state == Pending && resolveReason == "" && resolveAnnotations != map[]
      ensures err == NoUser ==> user == ""
      ensures err == NothingRequested ==> user != "" && old(roles) == [] && resourceIDs == []
      ensures if err == NoError
              then Canonical(roles) && Elems(roles) == Elems(old(roles)) && roles == Normalize(old(roles))
              else roles == old(roles)
    {
      if !metadataOk {
        return BadMetadata;
      }
      if state == None {
        state := Pending;
      }
      if state == Pending {
        if resolveReason != "" {
          return PendingWithReason;
        }
        if |resolveAnnotations| != 0 {
          return PendingWithAnnotations;
        }
      }
      if user == "" {
        return NoUser;
      }
      if |roles| == 0 && |resourceIDs| == 0 {
        return NothingRequested;
      }
      NormalizeFacts(roles);
      var distinct := Deduplicate(roles);
      roles := Sort(distinct);
      return NoError;
    }

    method GetOriginalRoles() returns (r: seq<string>)
      ensures IsOriginal(roles, roleThresholds, r)
      ensures roleThresholds == map[] || |roleThresholds| == |roles| ==> r == roles
      ensures roleThresholds != map[] && |roleThresholds| != |roles| ==> Canonical(r) && Elems(r) == roleThresholds.Keys
    {
      if |roleThresholds| == 0 || |roleThresholds| == |roles| {
        return roles;
      }
      var keys: seq<string> := [];
      var rest := roleThresholds.Keys;
      while rest != {}
        invariant Distinct(keys) && Elems(keys) + rest == roleThresholds.Keys && Elems(keys) !! rest
        decreases rest
      {
        var role :| role in rest;
        assert role !in Elems(keys);
        keys := keys + [role];
        rest := rest - {role};
      }
      SortFacts(keys);
      return Sort(keys);
    }
  }

  /** What the code returns: the role list itself, or the canonical list of the threshold keys. */
  ghost predicate IsOriginal(roles: seq<string>, thresholds: map<string, nat>, r: seq<string>) {
    if |thresholds| == 0 || |thresholds| == |roles| then r == roles
    else Canonical(r) && Elems(r) == thresholds.Keys
  }

  lemma SubsetOfSameSize(a: set<string>, b: set<string>)
    requires a <= b && |a| == |b|
    ensures a == b
  {
    assert |b - a| == |b| - |a|;
  }

  /** For a normalised request with thresholds, `GetOriginalRoles` returns the canonical list of the threshold
      keys on both branches, exactly unless the lengths agree while some role has no threshold. */
  lemma OriginalRolesExactly(roles: seq<string>, thresholds: map<string, nat>, r: seq<string>)
    requires Canonical(roles) && thresholds != map[] && IsOriginal(roles, thresholds, r)
    ensures Canonical(r) && Elems(r) == thresholds.Keys <==>
            |thresholds| != |roles| || Elems(roles) <= thresholds.Keys
  {
    CanonicalCounts(roles);
    assert |thresholds.Keys| == |thresholds|;
    if |thresholds| == |roles| && Elems(roles) <= thresholds.Keys {
      SubsetOfSameSize(Elems(roles), thresholds.Keys);
    }
  }

  /** Equal lengths can mislead the code: a request for role a whose only threshold is for role b. */
  lemma LengthTestMisleads(r: seq<string>)
    requires IsOriginal(["a"], map["b" := 1], r)
    ensures Canonical(["a"]) && r == ["a"] && Elems(r) != map["b" := 1].Keys
  {
    assert "a" in Elems(["a"]);
  }
}
