/** The identity file decoder on concrete bytes: which lines count as what, what white space is, how long a line may be.
    Nothing here is stated through the decoder's own tests. */
module IdentityBytes {
  import opened Common
  import opened IdentityFile
  import opened IdentityRoundTrip

  // ---------- White space ----------

  /** The code points with the Unicode property White_Space. */
  const WHITE_SPACE: seq<int> :=
    [0x09, 0x0A, 0x0B, 0x0C, 0x0D, 0x20, 0x85, 0xA0, 0x1680,
     0x2000, 0x2001, 0x2002, 0x2003, 0x2004, 0x2005, 0x2006, 0x2007, 0x2008, 0x2009, 0x200A,
     0x2028, 0x2029, 0x202F, 0x205F, 0x3000]

  /** The UTF-8 encoding of a code point of the basic plane (section 3 of RFC 3629). */
  function Utf8(c: int): string
    requires 0 <= c < 0x10000
  {
    if c < 0x80 then [c as char]
    else if c < 0x800 then [(0xC0 + c / 64) as char, (0x80 + c % 64) as char]
    else [(0xE0 + c / 4096) as char, (0x80 + c / 64 % 64) as char, (0x80 + c % 64) as char]
  }

  ghost predicate EncodesSpace(w: string) {
    exists i :: 0 <= i < |WHITE_SPACE| && w == Utf8(WHITE_SPACE[i])
  }

  lemma ShortSpaceIsListed(w: string)
    requires IsSpace(w) && |w| < 3
    ensures EncodesSpace(w)
  {
    var c := w[|w| - 1] as int;
    var i := if c <= 0x0D then c - 0x09 else if c == 0x20 then 5 else if c == 0x85 then 6 else 7;
    assert WHITE_SPACE[i] == c;
  }

  lemma LongSpaceIsListed(w: string)
    requires IsSpace(w) && |w| == 3
    ensures EncodesSpace(w)
  {
    var c := (w[0] as int - 0xE0) * 4096 + (w[1] as int - 0x80) * 64 + (w[2] as int - 0x80);
    var i :=
      if c == 0x1680 then 8
      else if c <= 0x200A then 9 + c - 0x2000
      else if c <= 0x2029 then 20 + c - 0x2028
      else if c == 0x202F then 22
      else if c == 0x205F then 23
      else 24;
    assert WHITE_SPACE[i] == c;
  }

  lemma ListedIsSpace(i: nat)
    requires i < |WHITE_SPACE|
    ensures IsSpace(Utf8(WHITE_SPACE[i]))
  {
  }

  /** The white space test accepts exactly the encodings of the white space code points. */
  lemma SpacesAreUnicode(w: string)
    ensures IsSpace(w) <==> EncodesSpace(w)
  {
    if i :| 0 <= i < |WHITE_SPACE| && w == Utf8(WHITE_SPACE[i]) {
      ListedIsSpace(i);
    } else if IsSpace(w) {
      if |w| == 3 {
        LongSpaceIsListed(w);
      } else {
        ShortSpaceIsListed(w);
      }
    }
  }

  predicate EndsWith(s: string, w: string) {
    |w| <= |s| && s[|s| - |w|..] == w
  }

  /** Neither starts nor ends with white space. */
  ghost predicate NoSpaceAround(s: string) {
    forall w :: EncodesSpace(w) ==> !(w <= s) && !EndsWith(s, w)
  }

  lemma NoSpaceIsTrimmed(s: string)
    requires NoSpaceAround(s)
    ensures Trimmed(IsSpace, s)
  {
    forall k: nat | k <= |s|
      ensures !SpaceFirst(IsSpace, s, k) && !SpaceLast(IsSpace, s, k)
    {
      SpacesAreUnicode(s[..k]);
      SpacesAreUnicode(s[|s| - k..]);
      assert s[..k] <= s && EndsWith(s, s[|s| - k..]);
    }
  }

  // ---------- Lines of a file ----------

  /** A line as it stands in a tidy file. */
  ghost predicate TidyLine(l: string) {
    '\n' !in l && |l| <= 65535 && NoSpaceAround(l)
  }

  function Text(ls: seq<string>): string {
    if ls == [] then "" else ls[0] + "\n" + Text(ls[1..])
  }

  function Decoded(text: string): Result {
    Decode(Go(), text)
  }

  lemma TidyIsClean(l: string)
    requires TidyLine(l)
    ensures CleanText(Go(), l)
  {
    NoSpaceIsTrimmed(l);
    GoTidies(l);
  }

  lemma AllTidyAreClean(ls: seq<string>)
    requires forall i :: 0 <= i < |ls| ==> TidyLine(ls[i])
    ensures AllCleanTexts(Go(), ls)
  {
    forall i | 0 <= i < |ls|
      ensures CleanText(Go(), ls[i])
    {
      TidyIsClean(ls[i]);
    }
  }

  // ---------- Decoding clean lines, whatever the lexer ----------

  ghost predicate AllCleanTexts(lex: Lexer, ls: seq<string>) {
    forall i :: 0 <= i < |ls| ==> CleanText(lex, ls[i])
  }

  function Tagged(lex: Lexer, ls: seq<string>): (t: seq<Line>)
    ensures |t| == |ls|
  {
    seq(|ls|, i requires 0 <= i < |ls| => Line(ls[i], lex.kind(ls[i])))
  }

  lemma {:induction false} TextIsJoin(lex: Lexer, ls: seq<string>)
    ensures Text(ls) == Join(Tagged(lex, ls))
  {
    if ls != [] {
      TextIsJoin(lex, ls[1..]);
      assert Tagged(lex, ls)[1..] == Tagged(lex, ls[1..]);
    }
  }

  lemma DecodeLines(lex: Lexer, ls: seq<string>)
    requires AllCleanTexts(lex, ls)
    ensures Decode(lex, Text(ls)) == Outcome(false, Parse(Tagged(lex, ls), NOTHING))
  {
    TextIsJoin(lex, ls);
    ScanJoin(lex, Tagged(lex, ls), "");
    assert Join(Tagged(lex, ls)) + "" == Join(Tagged(lex, ls));
    assert Tagged(lex, ls) + [] == Tagged(lex, ls);
  }

  lemma DecodeOneLine(lex: Lexer, l: string)
    requires CleanText(lex, l)
    ensures Decode(lex, l + "\n") == Outcome(false, Parse([Line(l, lex.kind(l))], NOTHING))
  {
    DecodeLines(lex, [l]);
    assert [l][1..] == [];
    assert Text([l]) == l + "\n" + "" == l + "\n";
    assert Tagged(lex, [l]) == [Line(l, lex.kind(l))];
  }

  lemma {:induction false} TextAppend(ls: seq<string>, l: string)
    ensures Text(ls + [l]) == Text(ls) + (l + "\n")
  {
    if ls == [] {
      assert ls + [l] == [l];
      assert Text([l]) == l + "\n" + "";
    } else {
      TextAppend(ls[1..], l);
      assert (ls + [l])[1..] == ls[1..] + [l];
    }
  }

  lemma TextOfBlock(begin: string, body: seq<string>, end: string)
    ensures Text([begin] + body + [end]) == begin + "\n" + (Text(body) + (end + "\n"))
  {
    TextAppend(body, end);
    assert ([begin] + body + [end])[1..] == body + [end];
  }

  ghost predicate NoEnd(lex: Lexer, ls: seq<string>) {
    forall i :: 0 <= i < |ls| ==> lex.kind(ls[i]) != End
  }

  lemma ParseBlock(lines: seq<Line>)
    requires |lines| > 1 && lines[0].kind == Begin && lines[|lines| - 1].kind == End
    requires forall i :: 0 <= i < |lines| - 1 ==> lines[i].kind != End
    ensures Parse(lines, NOTHING) == Some(NOTHING.(privateKey := Join(lines)))
  {
    var k := |lines| - 1;
    BlockEndAt(lines, k);
    assert lines[..k + 1] == lines && lines[k + 1..] == [];
  }

  lemma DecodeBlock(lex: Lexer, begin: string, body: seq<string>, end: string)
    requires CleanText(lex, begin) && AllCleanTexts(lex, body) && CleanText(lex, end)
    requires lex.kind(begin) == Begin && NoEnd(lex, body) && lex.kind(end) == End
    ensures var text := begin + "\n" + (Text(body) + (end + "\n"));
            Decode(lex, text) == Ok(NOTHING.(privateKey := text))
  {
    var ls := [begin] + body + [end];
    TextOfBlock(begin, body, end);
    TextIsJoin(lex, ls);
    assert forall i :: 0 < i < |ls| - 1 ==> ls[i] == body[i - 1];
    ParseBlock(Tagged(lex, ls));
    DecodeLines(lex, ls);
  }

  lemma DecodeOpenBlock(lex: Lexer, begin: string, body: seq<string>)
    requires CleanText(lex, begin) && AllCleanTexts(lex, body) && lex.kind(begin) == Begin && NoEnd(lex, body)
    ensures Decode(lex, begin + "\n" + Text(body)) == Fragment
  {
    var ls := [begin] + body;
    assert ls[1..] == body;
    DecodeLines(lex, ls);
    assert forall i :: 0 < i < |ls| ==> ls[i] == body[i - 1];
    assert BlockEnd(Tagged(lex, ls)) == |ls|;
  }

  lemma {:induction false} ParseNothing(lex: Lexer, ls: seq<string>, id: Identity)
    requires forall i :: 0 <= i < |ls| ==> lex.kind(ls[i]) == Other || lex.kind(ls[i]) == End
    ensures Parse(Tagged(lex, ls), id) == Some(id)
  {
    if ls != [] {
      ParseNothing(lex, ls[1..], id);
      assert Tagged(lex, ls)[1..] == Tagged(lex, ls[1..]);
    }
  }

  // ---------- What a line is ----------

  predicate KeyType(t: string) {
    t != "" && forall i :: 0 <= i < |t| ==> 'a' <= t[i] <= 'z' || '0' <= t[i] <= '9' || t[i] == '-'
  }

  /** The name of an OpenSSH certificate type with a two-digit version. */
  function CertType(t: string, d: char, e: char): string {
    t + "-cert-v" + [d, e] + "@openssh.com"
  }

  /** The line starts with such a name, alone or followed by a space. */
  predicate StartsWithCertType(l: string, t: string, d: char, e: char, x: string) {
    KeyType(t) && '0' <= d <= '9' && '0' <= e <= '9' && l == CertType(t, d, e) + x && (x == "" || x[0] == ' ')
  }

  ghost predicate IsCertLine(l: string) {
    exists t: string, d: char, e: char, x: string :: StartsWithCertType(l, t, d, e, x)
  }

  lemma {:induction false} FirstWordAt(a: string, x: string)
    requires ' ' !in a && (x == "" || x[0] == ' ')
    ensures FirstWord(a + x) == a
  {
    if a == "" {
      assert a + x == x;
    } else {
      assert (a + x)[1..] == a[1..] + x;
      FirstWordAt(a[1..], x);
    }
  }

  lemma {:induction false} FirstWordSplits(l: string) returns (x: string)
    ensures l == FirstWord(l) + x && (x == "" || x[0] == ' ')
  {
    if l == "" || l[0] == ' ' {
      x := l;
    } else {
      x := FirstWordSplits(l[1..]);
    }
  }

  lemma CertTypeHasNoSpace(t: string, d: char, e: char)
    requires KeyType(t) && '0' <= d <= '9' && '0' <= e <= '9'
    ensures ' ' !in CertType(t, d, e) && IsSSHCertType(CertType(t, d, e))
  {
    var a, n := CertType(t, d, e), |t|;
    assert a[..n] == t && a[n..n + 7] == "-cert-v" && a[n + 9..] == "@openssh.com";
    assert a[n + 7] == d && a[n + 8] == e;
    assert ' ' !in t && ' ' !in "-cert-v" && ' ' !in [d, e] && ' ' !in "@openssh.com";
  }

  lemma CertTypeSplits(a: string) returns (t: string, d: char, e: char)
    requires IsSSHCertType(a)
    ensures KeyType(t) && '0' <= d <= '9' && '0' <= e <= '9' && a == CertType(t, d, e)
  {
    var n := |a| - 21;
    t, d, e := a[..n], a[n + 7], a[n + 8];
    assert a == a[..n] + a[n..n + 7] + [a[n + 7], a[n + 8]] + a[n + 9..];
  }

  /** What makes a line a certificate, an authority, or the start or end of a PEM block. */
  lemma KindsOnBytes(l: string)
    ensures Go().kind(l) == Cert <==> IsCertLine(l)
    ensures Go().kind(l) == Authority <==> "@cert-authority" <= l
    ensures Go().kind(l) == Begin <==> "-----BEGIN" <= l
    ensures Go().kind(l) == End <==> "-----END" <= l
  {
    KindsAreExclusive(l);
    if IsSSHCert(l) {
      var x := FirstWordSplits(l);
      var t, d, e := CertTypeSplits(FirstWord(l));
      assert StartsWithCertType(l, t, d, e, x);
    }
    forall t: string, d: char, e: char, x: string | StartsWithCertType(l, t, d, e, x)
      ensures IsSSHCert(l)
    {
      CertTypeHasNoSpace(t, d, e);
      FirstWordAt(CertType(t, d, e), x);
    }
  }

  lemma BodyHasNoEnd(body: seq<string>)
    requires forall i :: 0 <= i < |body| ==> !("-----END" <= body[i])
    ensures NoEnd(Go(), body)
  {
    forall i | 0 <= i < |body|
      ensures Go().kind(body[i]) != End
    {
      KindsOnBytes(body[i]);
    }
  }

  // ---------- What a file decodes to ----------

  /** A line that starts with @cert-authority is one SSH authority, and nothing else. */
  lemma AuthorityLine(x: string)
    requires TidyLine("@cert-authority" + x)
    ensures var l := "@cert-authority" + x;
            Decoded(l + "\n") == Ok(Identity("", "", "", [l + "\n"], []))
  {
    var l := "@cert-authority" + x;
    KindsOnBytes(l);
    TidyIsClean(l);
    DecodeOneLine(Go(), l);
    assert [] + [l + "\n"] == [l + "\n"];
  }

  /** A line that starts with the name of a certificate type is the SSH certificate, and nothing else. */
  lemma CertificateLine(t: string, d: char, e: char, x: string)
    requires KeyType(t) && '0' <= d <= '9' && '0' <= e <= '9' && (x == "" || x[0] == ' ')
    requires TidyLine(t + "-cert-v" + [d, e] + "@openssh.com" + x)
    ensures var l := t + "-cert-v" + [d, e] + "@openssh.com" + x;
            Decoded(l + "\n") == Ok(Identity("", l + "\n", "", [], []))
  {
    var l := t + "-cert-v" + [d, e] + "@openssh.com" + x;
    assert StartsWithCertType(l, t, d, e, x);
    KindsOnBytes(l);
    TidyIsClean(l);
    DecodeOneLine(Go(), l);
  }

  /** A block of tidy lines from -----BEGIN to the first -----END is the private key, whatever its other lines are. */
  lemma PemBlock(a: string, body: seq<string>, b: string)
    requires TidyLine("-----BEGIN" + a) && TidyLine("-----END" + b)
    requires forall i :: 0 <= i < |body| ==> TidyLine(body[i]) && !("-----END" <= body[i])
    ensures var text := "-----BEGIN" + a + "\n" + (Text(body) + ("-----END" + b + "\n"));
            Decoded(text) == Ok(Identity(text, "", "", [], []))
  {
    var begin, end := "-----BEGIN" + a, "-----END" + b;
    KindsOnBytes(begin);
    KindsOnBytes(end);
    TidyIsClean(begin);
    TidyIsClean(end);
    AllTidyAreClean(body);
    BodyHasNoEnd(body);
    DecodeBlock(Go(), begin, body, end);
  }

  /** Lines that start with none of these leave no trace. */
  lemma OtherLinesAreIgnored(ls: seq<string>)
    requires forall i :: 0 <= i < |ls| ==> TidyLine(ls[i])
    requires forall i :: 0 <= i < |ls| ==>
               !IsCertLine(ls[i]) && !("@cert-authority" <= ls[i]) && !("-----BEGIN" <= ls[i])
    ensures Decoded(Text(ls)) == Ok(Identity("", "", "", [], []))
  {
    AllTidyAreClean(ls);
    DecodeLines(Go(), ls);
    forall i | 0 <= i < |ls|
      ensures Go().kind(ls[i]) == Other || Go().kind(ls[i]) == End
    {
      KindsOnBytes(ls[i]);
    }
    ParseNothing(Go(), ls, NOTHING);
  }

  /** A block that is not ended is rejected. */
  lemma OpenBlockIsRejected(a: string, body: seq<string>)
    requires TidyLine("-----BEGIN" + a)
    requires forall i :: 0 <= i < |body| ==> TidyLine(body[i]) && !("-----END" <= body[i])
    ensures Decoded("-----BEGIN" + a + "\n" + Text(body)) == Fragment
  {
    KindsOnBytes("-----BEGIN" + a);
    TidyIsClean("-----BEGIN" + a);
    AllTidyAreClean(body);
    BodyHasNoEnd(body);
    DecodeOpenBlock(Go(), "-----BEGIN" + a, body);
  }

  // ---------- Sizes and ends of lines ----------

  /** A line of more than 65535 bytes is too long, wherever white space or a break follows. */
  lemma LongLineIsRejected(l: string, rest: string)
    requires '\n' !in l && |l| > 65535
    ensures Decoded(l + "\n" + rest) == LineTooLong && Decoded(l) == LineTooLong
  {
    LinesCons(l, rest);
    assert l[..|l|] == l;
  }

  lemma SplitAtBreak(text: string, k: nat)
    requires k < |text| && text[k] == NL
    ensures text == text[..k] + [NL] + text[k + 1..]
    ensures text + [NL] == text[..k] + [NL] + (text[k + 1..] + [NL])
  {
  }

  lemma {:induction false} LastLineIsEnded(text: string)
    requires text != "" && text[|text| - 1] != NL
    ensures Lines(text + [NL]) == Lines(text)
    decreases |text|
  {
    var k := LineEnd(text);
    if k < |text| {
      SplitAtBreak(text, k);
      LastLineIsEnded(text[k + 1..]);
      LinesCons(text[..k], text[k + 1..]);
      LinesCons(text[..k], text[k + 1..] + [NL]);
    } else {
      LinesCons(text, "");
      assert text + [NL] + "" == text + [NL];
      assert text[..k] == text;
    }
  }

  /** It does not matter whether the last line is ended. */
  lemma FinalBreakDoesNotMatter(text: string)
    requires text != "" && text[|text| - 1] != '\n'
    ensures Decoded(text + "\n") == Decoded(text)
  {
    LastLineIsEnded(text);
  }

  // ---------- White space around a line ----------

  predicate Tail(c: char) {
    '\U{80}' <= c < '\U{C0}'
  }

  /** An encoding is one ASCII byte, or a lead byte and tail bytes. */
  lemma SpaceBytes(w: string)
    requires IsSpace(w)
    ensures 1 <= |w| <= 3 && !Tail(w[0]) && (|w| > 1 ==> w[0] >= '\U{C0}') && (|w| == 1 ==> w[0] < '\U{80}')
    ensures forall i :: 1 <= i < |w| ==> Tail(w[i])
  {
  }

  lemma LeadingSpaceIs(u: string, t: string)
    requires IsSpace(u)
    ensures LeadingSpace(IsSpace, u + t) == |u|
  {
    SpaceBytes(u);
    forall k | 1 <= k < |u|
      ensures !SpaceFirst(IsSpace, u + t, k)
    {
      assert (u + t)[..k] == u[..k];
      if IsSpace(u[..k]) {
        SpaceBytes(u[..k]);
      }
    }
    assert (u + t)[..|u|] == u;
  }

  lemma TrailingSpaceIs(t: string, v: string)
    requires IsSpace(v)
    ensures TrailingSpace(IsSpace, t + v) == |v|
  {
    SpaceBytes(v);
    var s := t + v;
    forall k | 1 <= k < |v|
      ensures !SpaceLast(IsSpace, s, k)
    {
      assert s[|s| - k..] == v[|v| - k..];
      if IsSpace(v[|v| - k..]) {
        SpaceBytes(v[|v| - k..]);
      }
    }
    assert s[|s| - |v|..] == v;
  }

  lemma NotInTheMiddle(w: string, i: nat)
    requires 1 <= i < |w| && !Tail(w[i])
    ensures !IsSpace(w)
  {
    if IsSpace(w) {
      SpaceBytes(w);
    }
  }

  lemma NoSpaceBeforeSpace(l: string, v: string)
    requires l != "" && LeadingSpace(IsSpace, l) == 0 && IsSpace(v)
    ensures LeadingSpace(IsSpace, l + v) == 0
  {
    SpaceBytes(v);
    forall k: nat | 1 <= k <= 3 && k <= |l + v|
      ensures !SpaceFirst(IsSpace, l + v, k)
    {
      if k <= |l| {
        assert (l + v)[..k] == l[..k];
        assert !SpaceFirst(IsSpace, l, k);
      } else {
        assert (l + v)[..k][|l|] == v[0];
        NotInTheMiddle((l + v)[..k], |l|);
      }
    }
  }

  lemma TrimLeftOnce(space: SpaceTest, s: string, t: string)
    requires t == s[LeadingSpace(space, s)..] && LeadingSpace(space, t) == 0
    ensures TrimLeft(space, s) == t
  {
  }

  lemma TrimRightOnce(space: SpaceTest, s: string, t: string)
    requires t == s[..|s| - TrailingSpace(space, s)] && TrailingSpace(space, t) == 0
    ensures TrimRight(space, s) == t
  {
  }

  /** Stripping takes off u in front of l and v behind it. */
  ghost predicate ComesOff(space: SpaceTest, u: string, l: string, v: string) {
    && LeadingSpace(space, u + (l + v)) == |u| && LeadingSpace(space, l + v) == 0
    && TrailingSpace(space, l + v) == |v| && TrailingSpace(space, l) == 0
  }

  lemma TrimAround(space: SpaceTest, u: string, l: string, v: string)
    requires ComesOff(space, u, l, v)
    ensures TrimSpace(space, u + (l + v)) == l
  {
    assert (u + (l + v))[|u|..] == l + v && (l + v)[..|l|] == l;
    TrimLeftOnce(space, u + (l + v), l + v);
    TrimRightOnce(space, l + v, l);
  }

  lemma SpaceComesOff(u: string, l: string, v: string)
    requires IsSpace(u) && (v == "" || IsSpace(v)) && l != "" && Trimmed(IsSpace, l)
    ensures ComesOff(IsSpace, u, l, v)
  {
    LeadingSpaceIs(u, l + v);
    if v == "" {
      assert l + v == l;
    } else {
      NoSpaceBeforeSpace(l, v);
      TrailingSpaceIs(l, v);
    }
  }

  lemma DropCRAfter(t: string, v: string)
    requires IsSpace(v)
    ensures DropCR(t + v) == t + if v == "\r" then "" else v
  {
    SpaceBytes(v);
    var s := t + v;
    assert s[|s| - 1] == v[|v| - 1];
    assert v == "\r" ==> s[..|s| - 1] == t;
  }

  /** White space of any kind around a line is dropped, and nothing else. */
  lemma SpaceAroundIsDropped(u: string, l: string, v: string)
    requires EncodesSpace(u) && EncodesSpace(v) && l != "" && NoSpaceAround(l)
    ensures Go().strip(u + l + v) == l
  {
    SpacesAreUnicode(u);
    SpacesAreUnicode(v);
    NoSpaceIsTrimmed(l);
    StripAround(u, l, v);
  }

  lemma StripAround(u: string, l: string, v: string)
    requires IsSpace(u) && IsSpace(v) && l != "" && Trimmed(IsSpace, l)
    ensures Strip(u + l + v) == l
  {
    var w := if v == "\r" then "" else v;
    DropCRAfter(u + l, v);
    SpaceComesOff(u, l, w);
    JoinsRight(u, l, w);
    TrimAround(IsSpace, u, l, w);
  }

  lemma JoinsRight(u: string, l: string, w: string)
    ensures u + l + w == u + (l + w)
  {
  }

  // ---------- Printing ----------

  function Concat(parts: seq<string>): string {
    if parts == [] then "" else parts[0] + Concat(parts[1..])
  }

  predicate Ended(part: string) {
    part != "" && part[|part| - 1] == '\n'
  }

  /** A part as it stands in a file: one that does not end in a line break, such as an empty one, gets one. */
  function Part(part: string): string {
    if Ended(part) then part else part + "\n"
  }

  function Parts(parts: seq<string>): (ps: seq<string>)
    ensures |ps| == |parts|
  {
    seq(|parts|, i requires 0 <= i < |parts| => Part(parts[i]))
  }

  lemma {:induction false} ListedParts(parts: seq<string>)
    ensures AllWithNewline(parts) == Concat(Parts(parts))
  {
    if parts != [] {
      ListedParts(parts[1..]);
      assert Parts(parts)[1..] == Parts(parts[1..]);
    }
  }

  /** A file is its parts one after the other: key, SSH certificate, TLS certificate, SSH and then TLS authorities. */
  lemma FileIsItsParts(id: Identity)
    ensures Encode(id) == Part(id.privateKey) + (Part(id.sshCert) + (Part(id.tlsCert)
                            + (Concat(Parts(id.sshCAs)) + Concat(Parts(id.tlsCAs)))))
  {
    ListedParts(id.sshCAs);
    ListedParts(id.tlsCAs);
  }
}
