/** Cloning and scrubbing of certificate authority key sets in api/types/authority.go. Key pairs are objects
    and byte slices are arrays, both of which may be shared; a nil slice is null. */
module CAKeySet {
  import opened Common

  /** The bytes of a slice, `None` for nil. */
  ghost function Bytes(a: array?<Byte>): Option<seq<Byte>>
    reads a
  {
    if a == null then None else Some(a[..])
  }

  method CloneBytes(a: array?<Byte>) returns (b: array?<Byte>)
    ensures Bytes(b) == Bytes(a)
    ensures b != null ==> fresh(b)
  {
    if a == null {
      return null;
    }
    b := new Byte[a.Length](i requires 0 <= i < a.Length reads a => a[i]);
    assert b[..] == a[..];
  }

  /** What a key pair holds. */
  datatype Content = Content(kind: int, secret: Option<seq<Byte>>, public: Option<seq<Byte>>)

  function Scrubbed(c: Content): Content {
    c.(secret := None)
  }

  /** A TLS, JWT or SSH key pair: the three types have the same shape. */
  class KeyPair {
    var kind: int
    var secret: array?<Byte>
    var public: array?<Byte>

    constructor (kind: int, secret: array?<Byte>, public: array?<Byte>)
      ensures this.kind == kind && this.secret == secret && this.public == public
    {
      this.kind, this.secret, this.public := kind, secret, public;
    }

    ghost function View(): Content
      reads this, secret, public
    {
      Content(kind, Bytes(secret), Bytes(public))
    }

    method Clone() returns (c: KeyPair)
      ensures fresh(c) && c.View() == View()
      ensures (c.secret != null ==> fresh(c.secret)) && (c.public != null ==> fresh(c.public))
      ensures c.secret != null && c.public != null ==> c.secret != c.public
    {
      var s := CloneBytes(secret);
      var p := CloneBytes(public);
      c := new KeyPair(kind, s, p);
    }
  }

  /** The pairs at position i of two lists: a new object over new slices with what the other holds. */
  twostate predicate Copied(p: KeyPair, new c: KeyPair)
    reads p, c, c.secret, c.public
  {
    && fresh(c) && c.View() == old(p.View())
    && (c.secret != null ==> fresh(c.secret)) && (c.public != null ==> fresh(c.public))
  }

  ghost function Slices(p: KeyPair): set<array<Byte>>
    reads p
  {
    (if p.secret == null then {} else {p.secret}) + (if p.public == null then {} else {p.public})
  }

  /** No pair occurs twice and no two fields share a slice. */
  ghost predicate Separate(ps: seq<KeyPair>)
    reads ps
  {
    && (forall i, j :: 0 <= i < j < |ps| ==> ps[i] != ps[j] && Slices(ps[i]) !! Slices(ps[j]))
    && (forall i :: 0 <= i < |ps| && ps[i].secret != null ==> ps[i].secret != ps[i].public)
  }

  /** Copies the pairs in order, sharing nothing with each other, the originals or any `others`. */
  method CloneAll(ps: seq<KeyPair>, ghost others: seq<KeyPair>) returns (out: seq<KeyPair>)
    requires Separate(others)
    ensures |out| == |ps|
    ensures forall i :: 0 <= i < |out| ==> Copied(ps[i], out[i])
    ensures Separate(others + out)
  {
    out := [];
    assert others + out == others;
    for n := 0 to |ps|
      invariant |out| == n
      invariant forall i :: 0 <= i < n ==> Copied(ps[i], out[i])
      invariant Separate(others + out)
    {
      var c := ps[n].Clone();
      assert others + (out + [c]) == others + out + [c];
      out := out + [c];
    }
  }

  ghost predicate NoSecrets(ps: seq<KeyPair>)
    reads ps
  {
    forall p :: p in ps ==> p.secret == null
  }

  /** Clears the secrets of the pairs, and brings none back. */
  method ScrubAll(ps: seq<KeyPair>, ghost done: seq<KeyPair>)
    requires NoSecrets(done)
    modifies ps`secret
    ensures NoSecrets(done) && NoSecrets(ps)
  {
    for n := 0 to |ps|
      invariant NoSecrets(done)
      invariant forall i :: 0 <= i < n ==> ps[i].secret == null
    {
      ps[n].secret := null;
    }
  }

  datatype KeySet = KeySet(ssh: seq<KeyPair>, tls: seq<KeyPair>, jwt: seq<KeyPair>)

  function AllPairs(ks: KeySet): seq<KeyPair> {
    ks.tls + ks.jwt + ks.ssh
  }

  twostate predicate Copies(ps: seq<KeyPair>, new out: seq<KeyPair>)
    reads *
  {
    |out| == |ps| && forall i :: 0 <= i < |out| ==> Copied(ps[i], out[i])
  }

  /** A deep copy, even of lists that share pairs or slices: the copies share nothing. */
  method Clone(ks: KeySet) returns (out: KeySet)
    ensures Copies(ks.ssh, out.ssh) && Copies(ks.tls, out.tls) && Copies(ks.jwt, out.jwt)
    ensures Separate(AllPairs(out))
  {
    var tls := CloneAll(ks.tls, []);
    assert [] + tls == tls;
    var jwt := CloneAll(ks.jwt, tls);
    var ssh := CloneAll(ks.ssh, tls + jwt);
    out := KeySet(ssh, tls, jwt);
  }

  /** The pair c is new, over a new public slice, and holds what p held but perhaps for the secret. */
  twostate predicate PublicCopy(p: KeyPair, new c: KeyPair)
    reads c`kind, c`public, c.public
  {
    && fresh(c) && (c.public != null ==> fresh(c.public))
    && c.kind == old(p.kind) && Bytes(c.public) == old(Bytes(p.public))
  }

  twostate predicate PublicCopies(ps: seq<KeyPair>, new out: seq<KeyPair>)
    reads out`kind, out`public, set c | c in out :: c.public
  {
    |out| == |ps| && forall i :: 0 <= i < |out| ==> PublicCopy(ps[i], out[i])
  }

  /** Moreover c holds no secret. */
  twostate predicate ScrubbedCopy(p: KeyPair, new c: KeyPair)
    reads c, c.secret, c.public
  {
    PublicCopy(p, c) && c.secret == null && c.View() == Scrubbed(old(p.View()))
  }

  twostate predicate ScrubbedCopies(ps: seq<KeyPair>, new out: seq<KeyPair>)
    reads *
  {
    |out| == |ps| && forall i :: 0 <= i < |out| ==> ScrubbedCopy(ps[i], out[i])
  }

  /** Separate pairs, as far as the public slices go. */
  ghost predicate PublicSeparate(ps: seq<KeyPair>)
    reads ps`public
  {
    forall i, j :: 0 <= i < j < |ps| ==>
      ps[i] != ps[j] && (ps[i].public != null ==> ps[i].public != ps[j].public)
  }

  lemma SeparateIsPublic(ps: seq<KeyPair>)
    requires Separate(ps)
    ensures PublicSeparate(ps)
  {
    forall i, j | 0 <= i < j < |ps| && ps[i].public != null
      ensures ps[i].public != ps[j].public
    {
      assert ps[i].public in Slices(ps[i]);
    }
  }

  lemma ScrubbedIsSeparate(ps: seq<KeyPair>)
    requires PublicSeparate(ps) && NoSecrets(ps)
    ensures Separate(ps)
  {
  }

  twostate lemma CopiesArePublic(ks: KeySet, new out: KeySet)
    requires Copies(ks.ssh, out.ssh) && Copies(ks.tls, out.tls) && Copies(ks.jwt, out.jwt)
    ensures PublicCopies(AllPairs(ks), AllPairs(out))
  {
    var ps, qs := AllPairs(ks), AllPairs(out);
    forall i | 0 <= i < |qs|
      ensures PublicCopy(ps[i], qs[i])
    {
      assert Copied(ps[i], qs[i]);
    }
  }

  twostate lemma PairsAreScrubbed(ps: seq<KeyPair>, new qs: seq<KeyPair>)
    requires PublicCopies(ps, qs) && NoSecrets(qs)
    ensures forall i :: 0 <= i < |qs| ==> ScrubbedCopy(ps[i], qs[i])
  {
    forall i | 0 <= i < |qs|
      ensures ScrubbedCopy(ps[i], qs[i])
    {
      assert PublicCopy(ps[i], qs[i]);
      assert qs[i] in qs;
    }
  }

  lemma PairsByList(ks: KeySet)
    ensures forall i :: 0 <= i < |ks.tls| ==> AllPairs(ks)[i] == ks.tls[i]
    ensures forall i :: 0 <= i < |ks.jwt| ==> AllPairs(ks)[|ks.tls| + i] == ks.jwt[i]
    ensures forall i :: 0 <= i < |ks.ssh| ==> AllPairs(ks)[|ks.tls| + |ks.jwt| + i] == ks.ssh[i]
  {
  }

  twostate lemma PublicIsScrubbed(ks: KeySet, new out: KeySet)
    requires |out.ssh| == |ks.ssh| && |out.tls| == |ks.tls| && |out.jwt| == |ks.jwt|
    requires PublicCopies(AllPairs(ks), AllPairs(out)) && NoSecrets(AllPairs(out))
    ensures ScrubbedCopies(ks.ssh, out.ssh) && ScrubbedCopies(ks.tls, out.tls) && ScrubbedCopies(ks.jwt, out.jwt)
  {
    var ps, qs, t, j := AllPairs(ks), AllPairs(out), |ks.tls|, |ks.jwt|;
    PairsAreScrubbed(ps, qs);
    PairsByList(ks);
    PairsByList(out);
    forall i | 0 <= i < |out.tls|
      ensures ScrubbedCopy(ks.tls[i], out.tls[i])
    {
      assert ScrubbedCopy(ps[i], qs[i]);
    }
    forall i | 0 <= i < |out.jwt|
      ensures ScrubbedCopy(ks.jwt[i], out.jwt[i])
    {
      assert ScrubbedCopy(ps[t + i], qs[t + i]);
    }
    forall i | 0 <= i < |out.ssh|
      ensures ScrubbedCopy(ks.ssh[i], out.ssh[i])
    {
      assert ScrubbedCopy(ps[t + j + i], qs[t + j + i]);
    }
  }

  /** The three loops of the source. */
  method ScrubSet(ks: KeySet, ghost pairs: set<KeyPair>)
    requires forall p :: p in pairs <==> p in AllPairs(ks)
    requires PublicSeparate(AllPairs(ks))
    modifies pairs`secret
    ensures NoSecrets(AllPairs(ks)) && Separate(AllPairs(ks))
  {
    assert forall p :: p in AllPairs(ks) <==> p in ks.ssh || p in ks.tls || p in ks.jwt;
    ScrubAll(ks.ssh, []);
    ScrubAll(ks.tls, ks.ssh);
    ScrubAll(ks.jwt, ks.ssh + ks.tls);
    assert forall p :: p in ks.ssh || p in ks.tls ==> p in ks.ssh + ks.tls;
    ScrubbedIsSeparate(AllPairs(ks));
  }

  /** A deep copy, described by what clearing its secrets leaves alone. */
  method CloneToScrub(ks: KeySet) returns (out: KeySet)
    ensures |out.ssh| == |ks.ssh| && |out.tls| == |ks.tls| && |out.jwt| == |ks.jwt|
    ensures PublicCopies(AllPairs(ks), AllPairs(out)) && PublicSeparate(AllPairs(out))
    ensures forall p :: p in AllPairs(out) ==> fresh(p)
  {
    out := Clone(ks);
    SeparateIsPublic(AllPairs(out));
    CopiesArePublic(ks, out);
  }

  /** The result holds the public parts in the same order and no secret part, all in new objects that share
      nothing; nothing that existed before is changed, even when pairs or slices are shared between the lists. */
  method WithoutSecrets(ks: KeySet) returns (out: KeySet)
    ensures ScrubbedCopies(ks.ssh, out.ssh) && ScrubbedCopies(ks.tls, out.tls) && ScrubbedCopies(ks.jwt, out.jwt)
    ensures Separate(AllPairs(out)) && NoSecrets(AllPairs(out))
  {
    out := CloneToScrub(ks);
    ScrubSet(out, set p | p in AllPairs(out));
    PublicIsScrubbed(ks, out);
  }

  ghost predicate SameContents(ps: seq<KeyPair>, qs: seq<KeyPair>)
    reads *
  {
    |ps| == |qs| && forall i :: 0 <= i < |ps| ==> ps[i].View() == qs[i].View()
  }

  /** Removing the secrets again changes nothing but the identity of the objects. */
  method WithoutSecretsTwice(ks: KeySet) returns (once: KeySet, twice: KeySet)
    ensures ScrubbedCopies(ks.ssh, once.ssh) && ScrubbedCopies(ks.tls, once.tls) && ScrubbedCopies(ks.jwt, once.jwt)
    ensures SameContents(once.ssh, twice.ssh) && SameContents(once.tls, twice.tls) && SameContents(once.jwt, twice.jwt)
    ensures Separate(AllPairs(twice)) && NoSecrets(AllPairs(twice))
  {
    once := WithoutSecrets(ks);
    twice := WithoutSecrets(once);
  }
}
