/** What the identity file codec promises: decoding undoes encoding exactly on well-formed identities,
    everything the decoder accepts is well-formed, and how the parts of a file end up in it. */
module IdentityRoundTrip {
  import opened Common
  import opened IdentityFile

  // ---------- Trimming ----------

  predicate Trimmed(space: SpaceTest, s: string) {
    LeadingSpace(space, s) == 0 && TrailingSpace(space, s) == 0
  }

  lemma {:induction false} TrimLeftFacts(space: SpaceTest, s: string)
    ensures var t := TrimLeft(space, s); LeadingSpace(space, t) == 0 && |t| <= |s| && (NL !in s ==> NL !in t)
  {
    var k := LeadingSpace(space, s);
    if k != 0 {
      TrimLeftFacts(space, s[k..]);
    }
  }

  lemma PrefixHasNoSpace(space: SpaceTest, s: string, m: nat)
    requires m <= |s| && LeadingSpace(space, s) == 0
    ensures LeadingSpace(space, s[..m]) == 0
  {
    assert forall k: nat :: k <= m ==> s[..m][..k] == s[..k];
  }

  lemma {:induction false} TrimRightFacts(space: SpaceTest, s: string)
    requires LeadingSpace(space, s) == 0
    ensures var t := TrimRight(space, s); Trimmed(space, t) && |t| <= |s| && (NL !in s ==> NL !in t)
  {
    var k := TrailingSpace(space, s);
    if k != 0 {
      PrefixHasNoSpace(space, s, |s| - k);
      TrimRightFacts(space, s[..|s| - k]);
    }
  }

  lemma TrimmedStays(space: SpaceTest, s: string)
    requires space("\r") && Trimmed(space, s)
    ensures TrimSpace(space, s) == s && DropCR(s) == s
  {
    if s != "" {
      assert s[|s| - 1..] == [s[|s| - 1]];
      assert !SpaceLast(space, s, 1);
    }
  }

  /** Stripping a line again changes nothing, and it neither breaks nor lengthens it. */
  ghost predicate Tidies(lex: Lexer, s: string) {
    && lex.strip(lex.strip(s)) == lex.strip(s)
    && |lex.strip(s)| <= |s| && (NL !in s ==> NL !in lex.strip(s))
  }

  /** Stripping leaves alone exactly the texts that neither start nor end with white space. */
  lemma GoTidies(s: string)
    ensures Tidies(Go(), s)
    ensures Strip(s) == s <==> Trimmed(IsSpace, s)
  {
    var raw := DropCR(s);
    TrimLeftFacts(IsSpace, raw);
    TrimRightFacts(IsSpace, TrimLeft(IsSpace, raw));
    TrimmedStays(IsSpace, Strip(s));
    if Trimmed(IsSpace, s) {
      TrimmedStays(IsSpace, s);
    }
  }

  // ---------- Clean lines survive a scan ----------

  /** A text the scanner can produce for a line: stripped, unbroken and short enough. */
  ghost predicate CleanText(lex: Lexer, s: string) {
    NL !in s && lex.strip(s) == s && |s| <= MAX_LINE
  }

  ghost predicate AllClean(lex: Lexer, ls: seq<Line>) {
    forall i :: 0 <= i < |ls| ==> CleanText(lex, ls[i].text) && ls[i].kind == lex.kind(ls[i].text)
  }

  lemma ReadLineClean(lex: Lexer, raw: string)
    requires Tidies(lex, raw) && NL !in raw && |raw| <= MAX_LINE
    ensures CleanText(lex, ReadLine(lex, raw).text)
  {
  }

  lemma CleanReadsBack(lex: Lexer, s: string)
    requires CleanText(lex, s)
    ensures ReadLine(lex, s) == Line(s, lex.kind(s))
  {
  }

  lemma {:induction false} LinesHaveNoBreaks(text: string)
    ensures forall i :: 0 <= i < |Lines(text)| ==> NL !in Lines(text)[i]
    decreases |text|
  {
    if text != [] && LineEnd(text) < |text| {
      LinesHaveNoBreaks(text[LineEnd(text) + 1..]);
    }
  }

  lemma {:induction false} ScanIsClean(lex: Lexer, raw: seq<string>)
    requires forall i :: 0 <= i < |raw| ==> NL !in raw[i] && Tidies(lex, raw[i])
    ensures AllClean(lex, Scan(lex, raw).lines)
  {
    if raw != [] && |raw[0]| <= MAX_LINE {
      ReadLineClean(lex, raw[0]);
      ScanIsClean(lex, raw[1..]);
    }
  }

  lemma LineEndAt(a: string, rest: string)
    requires NL !in a
    ensures LineEnd(a + [NL] + rest) == |a|
  {
    var text := a + [NL] + rest;
    var k := LineEnd(text);
    assert text[|a|] == NL;
    assert text[..|a|] == a;
  }

  lemma LinesCons(a: string, rest: string)
    requires NL !in a
    ensures Lines(a + [NL] + rest) == [a] + Lines(rest)
  {
    LineEndAt(a, rest);
    var text := a + [NL] + rest;
    assert text[..|a|] == a;
    assert text[|a| + 1..] == rest;
  }

  lemma ScanCons(lex: Lexer, s: string, rest: string)
    requires CleanText(lex, s)
    ensures var r := Scan(lex, Lines(rest));
            Scan(lex, Lines(s + [NL] + rest)) == Scanned([Line(s, lex.kind(s))] + r.lines, r.failed)
  {
    LinesCons(s, rest);
    CleanReadsBack(lex, s);
    assert ([s] + Lines(rest))[1..] == Lines(rest);
  }

  lemma JoinCons(ls: seq<Line>, rest: string)
    requires ls != []
    ensures Join(ls) + rest == ls[0].text + [NL] + (Join(ls[1..]) + rest)
  {
  }

  lemma ConsAppend(ls: seq<Line>, more: seq<Line>)
    requires ls != []
    ensures [ls[0]] + (ls[1..] + more) == ls + more
  {
  }

  lemma {:induction false} ScanJoin(lex: Lexer, ls: seq<Line>, rest: string)
    requires AllClean(lex, ls)
    ensures var r := Scan(lex, Lines(rest));
            Scan(lex, Lines(Join(ls) + rest)) == Scanned(ls + r.lines, r.failed)
  {
    var r := Scan(lex, Lines(rest));
    if ls == [] {
      assert Join(ls) + rest == rest;
      assert ls + r.lines == r.lines;
    } else {
      ScanJoin(lex, ls[1..], rest);
      JoinCons(ls, rest);
      ScanCons(lex, ls[0].text, Join(ls[1..]) + rest);
      ConsAppend(ls, r.lines);
      assert ls[0] == Line(ls[0].text, lex.kind(ls[0].text));
    }
  }

  // ---------- Well-formed identities ----------

  ghost predicate PemLines(lex: Lexer, ls: seq<Line>) {
    AllClean(lex, ls) && ls != [] && ls[0].kind == Begin && BlockEnd(ls) == |ls| - 1
  }

  /** One PEM block in normal form: clean lines from BEGIN to the first END, each ended by a break. */
  ghost predicate IsPem(lex: Lexer, f: string) {
    exists ls: seq<Line> :: PemLines(lex, ls) && f == Join(ls)
  }

  ghost predicate IsOneLine(lex: Lexer, f: string, kind: Kind) {
    f != "" && f[|f| - 1] == NL && CleanText(lex, f[..|f| - 1]) && lex.kind(f[..|f| - 1]) == kind
  }

  ghost predicate AllAuthorities(lex: Lexer, fs: seq<string>) {
    forall f :: f in fs ==> IsOneLine(lex, f, Authority)
  }

  ghost predicate AllPem(lex: Lexer, fs: seq<string>) {
    forall f :: f in fs ==> IsPem(lex, f)
  }

  /** TLS fields are one normal PEM block each, SSH fields one normal line each, and no part that
      is filled from the PEM blocks in order is missing before one that is there. */
  ghost predicate WellFormed(lex: Lexer, id: Identity) {
    && (id.privateKey == "" || IsPem(lex, id.privateKey))
    && (id.sshCert == "" || IsOneLine(lex, id.sshCert, Cert))
    && (id.tlsCert == "" || IsPem(lex, id.tlsCert))
    && AllAuthorities(lex, id.sshCAs)
    && AllPem(lex, id.tlsCAs)
    && (id.privateKey == "" ==> id.tlsCert == "")
    && (id.tlsCert == "" ==> id.tlsCAs == [])
  }

  lemma {:induction false} JoinEndsLine(ls: seq<Line>)
    requires ls != []
    ensures Join(ls) != [] && Join(ls)[|Join(ls)| - 1] == NL
  {
    if |ls| > 1 {
      JoinEndsLine(ls[1..]);
    }
  }

  lemma PemIsText(lex: Lexer, f: string)
    requires IsPem(lex, f)
    ensures f != "" && WithNewline(f) == f
  {
    var ls :| PemLines(lex, ls) && f == Join(ls);
    JoinEndsLine(ls);
  }

  // ---------- Reading one part at a time ----------

  lemma ReadOneLine(lex: Lexer, f: string, kind: Kind, rest: string, id: Identity)
    requires IsOneLine(lex, f, kind) && (kind == Cert || kind == Authority)
    ensures Read(lex, f + rest, id) ==
            Read(lex, rest, if kind == Cert then id.(sshCert := f) else id.(sshCAs := id.sshCAs + [f]))
  {
    var s := f[..|f| - 1];
    assert f == s + [NL];
    ScanCons(lex, s, rest);
    var r := Scan(lex, Lines(rest));
    assert ([Line(s, kind)] + r.lines)[1..] == r.lines;
  }

  lemma ParsePem(lex: Lexer, ls: seq<Line>, more: seq<Line>, id: Identity)
    requires PemLines(lex, ls)
    ensures Parse(ls + more, id) == Parse(more, Place(id, Join(ls)))
  {
    var k := |ls| - 1;
    BlockEndAt(ls + more, k);
    assert (ls + more)[..k + 1] == ls;
    assert (ls + more)[k + 1..] == more;
  }

  lemma ReadPem(lex: Lexer, f: string, rest: string, id: Identity)
    requires IsPem(lex, f)
    ensures Read(lex, f + rest, id) == Read(lex, rest, Place(id, f))
  {
    var ls :| PemLines(lex, ls) && f == Join(ls);
    ScanJoin(lex, ls, rest);
    ParsePem(lex, ls, Scan(lex, Lines(rest)).lines, id);
  }

  /** An empty line stays empty and is nothing. */
  ghost predicate Blank(lex: Lexer) {
    lex.strip("") == "" && lex.kind("") == Other
  }

  lemma ReadBlank(lex: Lexer, rest: string, id: Identity)
    requires Blank(lex)
    ensures Read(lex, WithNewline("") + rest, id) == Read(lex, rest, id)
  {
  }

  lemma ReadPemOrBlank(lex: Lexer, f: string, rest: string, id: Identity)
    requires Blank(lex) && (f == "" || IsPem(lex, f))
    ensures Read(lex, WithNewline(f) + rest, id) == Read(lex, rest, if f == "" then id else Place(id, f))
  {
    if f == "" {
      ReadBlank(lex, rest, id);
    } else {
      PemIsText(lex, f);
      ReadPem(lex, f, rest, id);
    }
  }

  lemma ReadCertOrBlank(lex: Lexer, f: string, rest: string, id: Identity)
    requires Blank(lex) && (f == "" || IsOneLine(lex, f, Cert)) && id.sshCert == ""
    ensures Read(lex, WithNewline(f) + rest, id) == Read(lex, rest, id.(sshCert := f))
  {
    if f == "" {
      ReadBlank(lex, rest, id);
    } else {
      ReadOneLine(lex, f, Cert, rest, id);
    }
  }

  lemma AllCons(fs: seq<string>, rest: string)
    requires fs != []
    ensures AllWithNewline(fs) + rest == WithNewline(fs[0]) + (AllWithNewline(fs[1..]) + rest)
  {
  }

  lemma AppendShift(before: seq<string>, fs: seq<string>)
    requires fs != []
    ensures before + [fs[0]] + fs[1..] == before + fs
  {
  }

  lemma ReadAuthority(lex: Lexer, fs: seq<string>, rest: string, id: Identity)
    requires fs != [] && IsOneLine(lex, fs[0], Authority)
    ensures Read(lex, AllWithNewline(fs) + rest, id) ==
            Read(lex, AllWithNewline(fs[1..]) + rest, id.(sshCAs := id.sshCAs + [fs[0]]))
  {
    AllCons(fs, rest);
    ReadOneLine(lex, fs[0], Authority, AllWithNewline(fs[1..]) + rest, id);
  }

  lemma {:induction false} ReadAuthorities(lex: Lexer, fs: seq<string>, rest: string, id: Identity)
    requires AllAuthorities(lex, fs)
    ensures Read(lex, AllWithNewline(fs) + rest, id) == Read(lex, rest, id.(sshCAs := id.sshCAs + fs))
  {
    if fs == [] {
      assert AllWithNewline(fs) + rest == rest;
      assert id.sshCAs + fs == id.sshCAs;
    } else {
      assert fs[0] in fs;
      ReadAuthority(lex, fs, rest, id);
      var id1 := id.(sshCAs := id.sshCAs + [fs[0]]);
      ReadAuthorities(lex, fs[1..], rest, id1);
      AppendShift(id.sshCAs, fs);
    }
  }

  lemma ReadBlock1(lex: Lexer, fs: seq<string>, id: Identity)
    requires fs != [] && IsPem(lex, fs[0]) && id.privateKey != "" && id.tlsCert != ""
    ensures Read(lex, AllWithNewline(fs), id) == Read(lex, AllWithNewline(fs[1..]), id.(tlsCAs := id.tlsCAs + [fs[0]]))
  {
    PemIsText(lex, fs[0]);
    ReadPem(lex, fs[0], AllWithNewline(fs[1..]), id);
  }

  lemma {:induction false} ReadBlocks(lex: Lexer, fs: seq<string>, id: Identity)
    requires AllPem(lex, fs)
    requires fs != [] ==> id.privateKey != "" && id.tlsCert != ""
    ensures Read(lex, AllWithNewline(fs), id) == Ok(id.(tlsCAs := id.tlsCAs + fs))
  {
    if fs == [] {
      assert id.tlsCAs + fs == id.tlsCAs;
    } else {
      assert fs[0] in fs;
      ReadBlock1(lex, fs, id);
      var id1 := id.(tlsCAs := id.tlsCAs + [fs[0]]);
      ReadBlocks(lex, fs[1..], id1);
      AppendShift(id.tlsCAs, fs);
    }
  }

  /** Decoding the encoding of a well-formed identity returns it exactly. */
  lemma DecodeUndoesEncode(lex: Lexer, id: Identity)
    requires Blank(lex) && WellFormed(lex, id)
    ensures Decode(lex, Encode(id)) == Ok(id)
  {
    var cas := AllWithNewline(id.sshCAs) + AllWithNewline(id.tlsCAs);
    var tls := WithNewline(id.tlsCert) + cas;
    var ssh := WithNewline(id.sshCert) + tls;
    var id1 := NOTHING.(privateKey := id.privateKey);
    var id2 := id1.(sshCert := id.sshCert);
    var id3 := id2.(tlsCert := id.tlsCert);
    var id4 := id3.(sshCAs := id.sshCAs);
    calc {
      Decode(lex, Encode(id));
      Read(lex, WithNewline(id.privateKey) + ssh, NOTHING);
      { ReadPemOrBlank(lex, id.privateKey, ssh, NOTHING); }
      Read(lex, ssh, id1);
      { ReadCertOrBlank(lex, id.sshCert, tls, id1); }
      Read(lex, tls, id2);
      { ReadPemOrBlank(lex, id.tlsCert, cas, id2); }
      Read(lex, cas, id3);
      { ReadAuthorities(lex, id.sshCAs, AllWithNewline(id.tlsCAs), id3); assert [] + id.sshCAs == id.sshCAs; }
      Read(lex, AllWithNewline(id.tlsCAs), id4);
      { ReadBlocks(lex, id.tlsCAs, id4); assert [] + id.tlsCAs == id.tlsCAs; }
      Ok(id);
    }
  }

  // ---------- Everything accepted is well-formed ----------

  lemma PlaceKeepsWellFormed(lex: Lexer, id: Identity, block: string)
    requires WellFormed(lex, id) && IsPem(lex, block)
    ensures WellFormed(lex, Place(id, block))
  {
  }

  lemma LineKeepsWellFormed(lex: Lexer, id: Identity, s: string)
    requires WellFormed(lex, id) && CleanText(lex, s)
    ensures lex.kind(s) == Cert ==> WellFormed(lex, id.(sshCert := s + [NL]))
    ensures lex.kind(s) == Authority ==> WellFormed(lex, id.(sshCAs := id.sshCAs + [s + [NL]]))
  {
  }

  lemma BlockEndOfPrefix(lines: seq<Line>)
    requires BlockEnd(lines) < |lines|
    ensures BlockEnd(lines[..BlockEnd(lines) + 1]) == BlockEnd(lines)
  {
    BlockEndAt(lines[..BlockEnd(lines) + 1], BlockEnd(lines));
  }

  lemma BlockIsPem(lex: Lexer, lines: seq<Line>, block: seq<Line>)
    requires AllClean(lex, block) && lines != [] && lines[0].kind == Begin
    requires BlockEnd(lines) < |lines| && block == lines[..BlockEnd(lines) + 1]
    ensures IsPem(lex, Join(block))
  {
    BlockEndOfPrefix(lines);
    assert PemLines(lex, block);
  }

  lemma CleanHead(lex: Lexer, lines: seq<Line>, k: nat)
    requires AllClean(lex, lines) && k <= |lines|
    ensures AllClean(lex, lines[..k])
  {
  }

  lemma CleanTail(lex: Lexer, lines: seq<Line>, k: nat)
    requires AllClean(lex, lines) && k <= |lines|
    ensures AllClean(lex, lines[k..])
  {
  }

  lemma {:induction false} ParseIsWellFormed(lex: Lexer, lines: seq<Line>, id: Identity)
    requires WellFormed(lex, id) && AllClean(lex, lines)
    ensures Parse(lines, id).Some? ==> WellFormed(lex, Parse(lines, id).value)
    decreases |lines|
  {
    if lines != [] {
      LineKeepsWellFormed(lex, id, lines[0].text);
      CleanTail(lex, lines, 1);
      match lines[0].kind
      case Cert => ParseIsWellFormed(lex, lines[1..], id.(sshCert := lines[0].text + [NL]));
      case Authority => ParseIsWellFormed(lex, lines[1..], id.(sshCAs := id.sshCAs + [lines[0].text + [NL]]));
      case Begin =>
        var k := BlockEnd(lines);
        if k < |lines| {
          CleanHead(lex, lines, k + 1);
          BlockIsPem(lex, lines, lines[..k + 1]);
          PlaceKeepsWellFormed(lex, id, Join(lines[..k + 1]));
          CleanTail(lex, lines, k + 1);
          ParseIsWellFormed(lex, lines[k + 1..], Place(id, Join(lines[..k + 1])));
        }
      case _ => ParseIsWellFormed(lex, lines[1..], id);
    }
  }

  lemma AcceptedIsWellFormed(lex: Lexer, text: string)
    requires forall s :: Tidies(lex, s)
    ensures Decode(lex, text).Ok? ==> WellFormed(lex, Decode(lex, text).ident)
  {
    LinesHaveNoBreaks(text);
    ScanIsClean(lex, Lines(text));
    ParseIsWellFormed(lex, Scan(lex, Lines(text)).lines, NOTHING);
  }

  lemma GoLexer()
    ensures Go().kind("") == Other && Go().strip("") == "" && forall s :: Tidies(Go(), s)
  {
    forall s
      ensures Tidies(Go(), s)
    {
      GoTidies(s);
    }
  }

  /** The round trip holds exactly for well-formed identities. */
  lemma RoundTripExactly(id: Identity)
    ensures Decode(Go(), Encode(id)) == Ok(id) <==> WellFormed(Go(), id)
  {
    GoLexer();
    AcceptedIsWellFormed(Go(), Encode(id));
    if WellFormed(Go(), id) {
      DecodeUndoesEncode(Go(), id);
    }
  }

  /** White space, other lines and the order of parts are normalised once: whatever text the decoder
      accepts, encoding the result and decoding again gives the same identity. */
  lemma DecodeIsStable(text: string)
    requires Decode(Go(), text).Ok?
    ensures Decode(Go(), Encode(Decode(Go(), text).ident)) == Decode(Go(), text)
  {
    GoLexer();
    AcceptedIsWellFormed(Go(), text);
    DecodeUndoesEncode(Go(), Decode(Go(), text).ident);
  }

  // ---------- How the parts of a file end up in the identity ----------

  /** Whether the lines end inside a PEM block, read one by one from the front. */
  function Inside(lines: seq<Line>): bool {
    if lines == [] then false
    else
      var last := lines[|lines| - 1].kind;
      if Inside(lines[..|lines| - 1]) then last != End else last == Begin
  }

  lemma {:induction false} InsideAfter(a: seq<Line>, b: seq<Line>)
    requires !Inside(a)
    ensures Inside(a + b) == Inside(b)
  {
    if b == [] {
      assert a + b == a;
    } else {
      InsideAfter(a, b[..|b| - 1]);
      assert (a + b)[..|a + b| - 1] == a + b[..|b| - 1];
    }
  }

  lemma {:induction false} InsideUntilEnd(lines: seq<Line>, k: nat)
    requires 0 < k <= |lines| && lines[0].kind == Begin && forall i :: 0 <= i < k ==> lines[i].kind != End
    ensures Inside(lines[..k])
  {
    assert lines[..k][..k - 1] == lines[..k - 1];
    if k > 1 {
      InsideUntilEnd(lines, k - 1);
    }
  }

  lemma BlockIsNotInside(lines: seq<Line>)
    requires lines != [] && lines[0].kind == Begin && BlockEnd(lines) < |lines|
    ensures !Inside(lines[..BlockEnd(lines) + 1])
  {
  }

  /** The decoder rejects lines exactly when they end inside a PEM block. */
  lemma {:induction false} FragmentExactly(lines: seq<Line>, id: Identity)
    ensures Parse(lines, id).None? <==> Inside(lines)
    decreases |lines|
  {
    if lines != [] {
      var k := BlockEnd(lines);
      if lines[0].kind != Begin {
        assert !Inside(lines[..1]);
        InsideAfter(lines[..1], lines[1..]);
        assert lines[..1] + lines[1..] == lines;
        var id1 := match lines[0].kind
          case Cert => id.(sshCert := lines[0].text + [NL])
          case Authority => id.(sshCAs := id.sshCAs + [lines[0].text + [NL]])
          case _ => id;
        FragmentExactly(lines[1..], id1);
      } else if k < |lines| {
        BlockIsNotInside(lines);
        InsideAfter(lines[..k + 1], lines[k + 1..]);
        assert lines[..k + 1] + lines[k + 1..] == lines;
        FragmentExactly(lines[k + 1..], Place(id, Join(lines[..k + 1])));
      } else {
        InsideUntilEnd(lines, k);
        assert lines[..k] == lines;
      }
    }
  }

  /** The parts found outside and as PEM blocks, each list in file order. */
  datatype Parts = Parts(certs: seq<string>, authorities: seq<string>, blocks: seq<string>)

  function Collect(lines: seq<Line>): Parts
    decreases |lines|
  {
    if lines == [] then Parts([], [], [])
    else
      var k := BlockEnd(lines);
      if lines[0].kind == Begin && k < |lines| then
        var p := Collect(lines[k + 1..]);
        p.(blocks := [Join(lines[..k + 1])] + p.blocks)
      else
        var p := Collect(lines[1..]);
        match lines[0].kind
        case Cert => p.(certs := [lines[0].text + [NL]] + p.certs)
        case Authority => p.(authorities := [lines[0].text + [NL]] + p.authorities)
        case _ => p
  }

  /** The parts of an identity that come from PEM blocks, in the order they are filled. */
  function Slots(id: Identity): seq<string> {
    (if id.privateKey == "" then [] else [id.privateKey]) + (if id.tlsCert == "" then [] else [id.tlsCert]) + id.tlsCAs
  }

  predicate SlotOrder(id: Identity) {
    (id.privateKey == "" ==> id.tlsCert == "") && (id.tlsCert == "" ==> id.tlsCAs == [])
  }

  lemma PlaceTakesNextSlot(id: Identity, block: string)
    requires block != "" && SlotOrder(id)
    ensures SlotOrder(Place(id, block)) && Slots(Place(id, block)) == Slots(id) + [block]
  {
  }

  /** The identity after reading one more line or block. */
  function Take(lines: seq<Line>, id: Identity): Identity
    requires lines != []
  {
    match lines[0].kind
    case Cert => id.(sshCert := lines[0].text + [NL])
    case Authority => id.(sshCAs := id.sshCAs + [lines[0].text + [NL]])
    case Begin => if BlockEnd(lines) == |lines| then id else Place(id, Join(lines[..BlockEnd(lines) + 1]))
    case _ => id
  }

  function Rest(lines: seq<Line>): seq<Line>
    requires lines != []
  {
    if lines[0].kind == Begin && BlockEnd(lines) < |lines| then lines[BlockEnd(lines) + 1..] else lines[1..]
  }

  lemma ParseTake(lines: seq<Line>, id: Identity)
    requires lines != [] && Parse(lines, id).Some?
    ensures Parse(lines, id) == Parse(Rest(lines), Take(lines, id))
  {
  }

  function LastOr(certs: seq<string>, otherwise: string): string {
    if certs == [] then otherwise else certs[|certs| - 1]
  }

  lemma {:induction false} LastCertWins(lines: seq<Line>, id: Identity)
    requires Parse(lines, id).Some?
    ensures Parse(lines, id).value.sshCert == LastOr(Collect(lines).certs, id.sshCert)
    decreases |lines|
  {
    if lines != [] {
      ParseTake(lines, id);
      LastCertWins(Rest(lines), Take(lines, id));
    }
  }

  lemma {:induction false} AuthoritiesInOrder(lines: seq<Line>, id: Identity)
    requires Parse(lines, id).Some?
    ensures Parse(lines, id).value.sshCAs == id.sshCAs + Collect(lines).authorities
    decreases |lines|
  {
    if lines == [] {
      assert id.sshCAs + [] == id.sshCAs;
    } else {
      ParseTake(lines, id);
      AuthoritiesInOrder(Rest(lines), Take(lines, id));
      if lines[0].kind == Authority {
        AppendShift(id.sshCAs, Collect(lines).authorities);
      }
    }
  }

  lemma {:induction false} BlocksFillSlots(lines: seq<Line>, id: Identity)
    requires Parse(lines, id).Some? && SlotOrder(id)
    ensures Slots(Parse(lines, id).value) == Slots(id) + Collect(lines).blocks
    decreases |lines|
  {
    if lines == [] {
      assert Slots(id) + [] == Slots(id);
    } else {
      ParseTake(lines, id);
      if lines[0].kind == Begin {
        var block := lines[..BlockEnd(lines) + 1];
        JoinEndsLine(block);
        PlaceTakesNextSlot(id, Join(block));
        AppendShift(Slots(id), Collect(lines).blocks);
      }
      BlocksFillSlots(Rest(lines), Take(lines, id));
    }
  }

  /** What a file decodes to: the last SSH certificate wins, the SSH authorities and the PEM blocks are kept
      in file order, the blocks as key, TLS certificate and then TLS CAs. A file is rejected
      exactly when a line is too long or it ends inside a PEM block. */
  lemma DecodeKeepsEveryPart(text: string)
    ensures var scanned := Scan(Go(), Lines(text));
            var parts := Collect(scanned.lines);
            match Decode(Go(), text)
            case LineTooLong => scanned.failed
            case Fragment => !scanned.failed && Inside(scanned.lines)
            case Ok(id) =>
              && !scanned.failed && !Inside(scanned.lines)
              && id.sshCert == LastOr(parts.certs, "") && id.sshCAs == parts.authorities && Slots(id) == parts.blocks
  {
    var scanned := Scan(Go(), Lines(text));
    FragmentExactly(scanned.lines, NOTHING);
    if Parse(scanned.lines, NOTHING).Some? {
      LastCertWins(scanned.lines, NOTHING);
      AuthoritiesInOrder(scanned.lines, NOTHING);
      BlocksFillSlots(scanned.lines, NOTHING);
      assert [] + Collect(scanned.lines).authorities == Collect(scanned.lines).authorities;
      assert Slots(NOTHING) + Collect(scanned.lines).blocks == Collect(scanned.lines).blocks;
    }
  }

  // ---------- No line is of two kinds ----------

  lemma CertTypeHasNoOtherStart(s: string)
    requires IsSSHCertType(s)
    ensures KeyTypeChar(s[0]) && s[5] != 'B' && s[5] != 'E'
  {
    var n := |s| - 21;
    if n <= 5 {
      var tail := s[n..n + 7];
      if 5 - n < 7 {
        assert s[5] == tail[5 - n];
      }
    }
  }

  lemma {:induction false} FirstWordIsPrefix(line: string, p: string)
    requires p <= line && forall i :: 0 <= i < |p| ==> p[i] != ' '
    ensures p <= FirstWord(line)
  {
    if p != [] {
      assert line[0] == p[0];
      FirstWordIsPrefix(line[1..], p[1..]);
    }
  }

  lemma BeginWord(line: string)
    requires IsBegin(line)
    ensures |FirstWord(line)| > 5 && FirstWord(line)[5] == 'B'
  {
    FirstWordIsPrefix(line, "-----BEGIN");
  }

  lemma EndWord(line: string)
    requires IsEnd(line)
    ensures |FirstWord(line)| > 5 && FirstWord(line)[5] == 'E'
  {
    FirstWordIsPrefix(line, "-----END");
  }

  lemma CertIsNothingElse(line: string)
    requires IsSSHCert(line)
    ensures !IsAuthority(line) && !IsBegin(line) && !IsEnd(line)
  {
    CertTypeHasNoOtherStart(FirstWord(line));
    if IsAuthority(line) {
      FirstWordIsPrefix(line, "@cert-authority");
    }
    if IsBegin(line) {
      BeginWord(line);
    }
    if IsEnd(line) {
      EndWord(line);
    }
  }

  /** The order of the decoder's tests does not matter: each test alone decides its kind. */
  lemma KindsAreExclusive(line: string)
    ensures IsSSHCert(line) <==> Classify(line) == Cert
    ensures IsAuthority(line) <==> Classify(line) == Authority
    ensures IsBegin(line) <==> Classify(line) == Begin
    ensures IsEnd(line) <==> Classify(line) == End
  {
    if IsSSHCert(line) {
      CertIsNothingElse(line);
    }
    if IsEnd(line) {
      assert line[0] == '-' && line[5] == 'E';
    }
  }
}
