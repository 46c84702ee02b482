/** The identity file codec of api/identityfile/identityfile.go: a printer, and a decoder that scans
    the text line by line. Text is a sequence of bytes, each written as the character of its value, and need
    not be valid UTF-8. */
module IdentityFile {
  import opened Common

  /** Each field is the text of that part of the file; the empty text stands for a missing part. */
  datatype Identity = Identity(privateKey: string, sshCert: string, tlsCert: string,
                               sshCAs: seq<string>, tlsCAs: seq<string>)

  const NOTHING := Identity("", "", "", [], [])

  datatype Result = Ok(ident: Identity) | Fragment | LineTooLong

  // ---------- Lines, white space, sizes ----------

  const NL: char := '\n'

  /** The UTF-8 encoding of one white space character, as Go's unicode.IsSpace has them. */
  predicate IsSpace(w: string) {
    || (|w| == 1 && ('\t' <= w[0] <= '\r' || w[0] == ' '))
    || (|w| == 2 && w[0] == '\U{C2}' && (w[1] == '\U{85}' || w[1] == '\U{A0}'))
    || (|w| == 3 && w[0] == '\U{E1}' && w[1] == '\U{9A}' && w[2] == '\U{80}')
    || (|w| == 3 && w[0] == '\U{E2}' && w[1] == '\U{80}' &&
        ('\U{80}' <= w[2] <= '\U{8A}' || w[2] in ['\U{A8}', '\U{A9}', '\U{AF}']))
    || (|w| == 3 && w[0] == '\U{E2}' && w[1] == '\U{81}' && w[2] == '\U{9F}')
    || (|w| == 3 && w[0] == '\U{E3}' && w[1] == '\U{80}' && w[2] == '\U{80}')
  }

  type SpaceTest = string -> bool

  predicate SpaceFirst(space: SpaceTest, s: string, k: nat) {
    k <= |s| && space(s[..k])
  }

  predicate SpaceLast(space: SpaceTest, s: string, k: nat) {
    k <= |s| && space(s[|s| - k..])
  }

  /** The bytes of the white space character a text starts with, if any. A byte that starts no valid
      encoding is no white space. */
  function LeadingSpace(space: SpaceTest, s: string): (k: nat)
    ensures k <= |s|
  {
    if SpaceFirst(space, s, 1) then 1
    else if SpaceFirst(space, s, 2) then 2
    else if SpaceFirst(space, s, 3) then 3
    else 0
  }

  function TrailingSpace(space: SpaceTest, s: string): (k: nat)
    ensures k <= |s|
  {
    if SpaceLast(space, s, 1) then 1
    else if SpaceLast(space, s, 2) then 2
    else if SpaceLast(space, s, 3) then 3
    else 0
  }

  function TrimLeft(space: SpaceTest, s: string): string {
    var k := LeadingSpace(space, s);
    if k == 0 then s else TrimLeft(space, s[k..])
  }

  function TrimRight(space: SpaceTest, s: string): string {
    var k := TrailingSpace(space, s);
    if k == 0 then s else TrimRight(space, s[..|s| - k])
  }

  function TrimSpace(space: SpaceTest, s: string): string {
    TrimRight(space, TrimLeft(space, s))
  }

  /** bufio.Scanner needs a line to fit its 64 KiB buffer with one byte to spare. */
  const MAX_LINE: nat := 65535

  /** The position of the first line break, or the end of the text. */
  function LineEnd(text: string): (k: nat)
    ensures k <= |text| && NL !in text[..k] && (k < |text| ==> text[k] == NL)
  {
    if text == [] || text[0] == NL then 0
    else
      var k := LineEnd(text[1..]);
      assert text[..k + 1] == [text[0]] + text[1..][..k];
      k + 1
  }

  function Lines(text: string): seq<string>
    decreases |text|
  {
    if text == [] then []
    else
      var k := LineEnd(text);
      [text[..k]] + if k == |text| then [] else Lines(text[k + 1..])
  }

  function DropCR(line: string): string {
    if line != [] && line[|line| - 1] == '\r' then line[..|line| - 1] else line
  }

  // ---------- What a line is ----------

  predicate KeyTypeChar(c: char) {
    'a' <= c <= 'z' || '0' <= c <= '9' || c == '-'
  }

  predicate Digit(c: char) {
    '0' <= c <= '9'
  }

  /** The regular expression ^[a-z0-9\-]+-cert-v[0-9]{2}@openssh\.com$ */
  predicate IsSSHCertType(s: string) {
    && |s| > 21
    && var n := |s| - 21;
       && (forall i :: 0 <= i < n ==> KeyTypeChar(s[i]))
       && s[n..n + 7] == "-cert-v" && Digit(s[n + 7]) && Digit(s[n + 8]) && s[n + 9..] == "@openssh.com"
  }

  function FirstWord(s: string): string {
    if s == [] || s[0] == ' ' then "" else [s[0]] + FirstWord(s[1..])
  }

  predicate IsSSHCert(line: string) {
    IsSSHCertType(FirstWord(line))
  }

  predicate IsAuthority(line: string) {
    "@cert-authority" <= line
  }

  predicate IsBegin(line: string) {
    "-----BEGIN" <= line
  }

  predicate IsEnd(line: string) {
    "-----END" <= line
  }

  /** What the decoder's switch makes of a trimmed line; no line is two of these. */
  datatype Kind = Cert | Authority | Begin | End | Other

  function Classify(line: string): Kind {
    if IsSSHCert(line) then Cert
    else if IsAuthority(line) then Authority
    else if IsBegin(line) then Begin
    else if IsEnd(line) then End
    else Other
  }

  /** How the codec tidies a line up and tells lines apart. What it promises holds for many such ways. */
  datatype Lexer = Lexer(strip: string -> string, kind: string -> Kind)

  /** The scanner drops one carriage return, the decoder all white space around a line. */
  function Strip(raw: string): string {
    TrimSpace(IsSpace, DropCR(raw))
  }

  /** The lexer of the source. */
  function Go(): Lexer {
    Lexer(Strip, Classify)
  }

  datatype Line = Line(text: string, kind: Kind)

  // ---------- Scanning ----------

  /** The scanner's view of raw lines: trimmed, up to the first one that is too long. */
  datatype Scanned = Scanned(lines: seq<Line>, failed: bool)

  function ReadLine(lex: Lexer, raw: string): Line {
    var text := lex.strip(raw);
    Line(text, lex.kind(text))
  }

  function Scan(lex: Lexer, raw: seq<string>): Scanned {
    if raw == [] then Scanned([], false)
    else if |raw[0]| > MAX_LINE then Scanned([], true)
    else
      var rest := Scan(lex, raw[1..]);
      Scanned([ReadLine(lex, raw[0])] + rest.lines, rest.failed)
  }

  function Join(lines: seq<Line>): string {
    if lines == [] then "" else lines[0].text + [NL] + Join(lines[1..])
  }

  // ---------- Printing ----------

  function WithNewline(data: string): string {
    if data != [] && data[|data| - 1] == NL then data else data + [NL]
  }

  function AllWithNewline(parts: seq<string>): string {
    if parts == [] then "" else WithNewline(parts[0]) + AllWithNewline(parts[1..])
  }

  function Encode(id: Identity): string {
    WithNewline(id.privateKey) + (WithNewline(id.sshCert) + (WithNewline(id.tlsCert)
      + (AllWithNewline(id.sshCAs) + AllWithNewline(id.tlsCAs))))
  }

  method WriteAll(buf: string, parts: seq<string>) returns (out: string)
    ensures out == buf + AllWithNewline(parts)
  {
    out := buf;
    for i := 0 to |parts|
      invariant out + AllWithNewline(parts[i..]) == buf + AllWithNewline(parts)
    {
      assert parts[i..][1..] == parts[i + 1..];
      assert out + AllWithNewline(parts[i..]) == out + WithNewline(parts[i]) + AllWithNewline(parts[i + 1..]);
      out := out + WithNewline(parts[i]);
    }
    assert out + "" == out;
  }

  method EncodeIdentityFile(id: Identity) returns (buf: string)
    ensures buf == Encode(id)
  {
    buf := WithNewline(id.privateKey);
    buf := buf + WithNewline(id.sshCert);
    buf := buf + WithNewline(id.tlsCert);
    buf := WriteAll(buf, id.sshCAs);
    buf := WriteAll(buf, id.tlsCAs);
  }

  // ---------- Decoding ----------

  /** A PEM block becomes the key, else the TLS certificate, else one more TLS CA. */
  function Place(id: Identity, block: string): Identity {
    if id.privateKey == "" then id.(privateKey := block)
    else if id.tlsCert == "" then id.(tlsCert := block)
    else id.(tlsCAs := id.tlsCAs + [block])
  }

  /** The first line that ends a PEM block, or the number of lines. */
  function BlockEnd(lines: seq<Line>): (k: nat)
    ensures k <= |lines| && (k < |lines| ==> lines[k].kind == End) && forall i :: 0 <= i < k ==> lines[i].kind != End
  {
    if lines == [] || lines[0].kind == End then 0 else 1 + BlockEnd(lines[1..])
  }

  /** Reading trimmed lines into an identity; `None` when they end inside a PEM block. */
  function Parse(lines: seq<Line>, id: Identity): Option<Identity>
    decreases |lines|
  {
    if lines == [] then Some(id)
    else
      match lines[0].kind
      case Cert => Parse(lines[1..], id.(sshCert := lines[0].text + [NL]))
      case Authority => Parse(lines[1..], id.(sshCAs := id.sshCAs + [lines[0].text + [NL]]))
      case Begin =>
        var k := BlockEnd(lines);
        if k == |lines| then None else Parse(lines[k + 1..], Place(id, Join(lines[..k + 1])))
      case _ => Parse(lines[1..], id)
  }

  /** Decoding the rest of a file when `id` was read from what came before. */
  function Read(lex: Lexer, text: string, id: Identity): Result {
    var scanned := Scan(lex, Lines(text));
    Outcome(scanned.failed, Parse(scanned.lines, id))
  }

  function Outcome(failed: bool, parsed: Option<Identity>): Result {
    if failed then LineTooLong
    else if parsed.None? then Fragment
    else Ok(parsed.value)
  }

  function Decode(lex: Lexer, text: string): Result {
    Read(lex, text, NOTHING)
  }

  lemma JoinAppend(lines: seq<Line>, line: Line)
    ensures Join(lines + [line]) == Join(lines) + line.text + [NL]
  {
    if lines != [] {
      assert (lines + [line])[1..] == lines[1..] + [line];
    }
  }

  /** The inner loop: from the BEGIN line at position `begin`, collects lines up to the END line and
      returns its position, or the number of lines if there is none. */
  method ReadBlock(lines: seq<Line>, begin: nat) returns (pemBlock: string, end: nat)
    requires begin < |lines|
    ensures end == begin + BlockEnd(lines[begin..])
    ensures end < |lines| ==> pemBlock == Join(lines[begin..end + 1])
  {
    pemBlock, end := "", begin;
    while true
      invariant begin <= end < |lines| && forall j :: begin <= j < end ==> lines[j].kind != End
      invariant pemBlock == Join(lines[begin..end])
      decreases |lines| - end
    {
      JoinAppend(lines[begin..end], lines[end]);
      assert lines[begin..end] + [lines[end]] == lines[begin..end + 1];
      pemBlock := pemBlock + lines[end].text + [NL];
      if lines[end].kind == End {
        break;
      }
      end := end + 1;
      if end == |lines| {
        break;
      }
    }
    BlockEndAt(lines[begin..], end - begin);
  }

  lemma BlockEndAt(lines: seq<Line>, k: nat)
    requires k <= |lines| && (k < |lines| ==> lines[k].kind == End) && forall i :: 0 <= i < k ==> lines[i].kind != End
    ensures BlockEnd(lines) == k
  {
  }

  /** One turn of the outer loop at position i. */
  lemma ParseAt(lines: seq<Line>, i: nat, id: Identity)
    requires i < |lines|
    ensures Parse(lines[i..], id) ==
            match lines[i].kind
            case Cert => Parse(lines[i + 1..], id.(sshCert := lines[i].text + [NL]))
            case Authority => Parse(lines[i + 1..], id.(sshCAs := id.sshCAs + [lines[i].text + [NL]]))
            case Begin =>
              var end := i + BlockEnd(lines[i..]);
              if end == |lines| then None else Parse(lines[end + 1..], Place(id, Join(lines[i..end + 1])))
            case _ => Parse(lines[i + 1..], id)
  {
    var tail := lines[i..];
    assert tail[1..] == lines[i + 1..];
    var k := BlockEnd(tail);
    if k < |tail| {
      assert tail[k + 1..] == lines[i + k + 1..];
      assert tail[..k + 1] == lines[i..i + k + 1];
    }
  }

  method ParseLines(lines: seq<Line>) returns (r: Option<Identity>)
    ensures r == Parse(lines, NOTHING)
  {
    var ident := NOTHING;
    var i := 0;
    while i < |lines|
      invariant i <= |lines|
      invariant Parse(lines[i..], ident) == Parse(lines, NOTHING)
    {
      ParseAt(lines, i, ident);
      match lines[i].kind {
        case Cert =>
          ident := ident.(sshCert := lines[i].text + [NL]);
        case Authority =>
          ident := ident.(sshCAs := ident.sshCAs + [lines[i].text + [NL]]);
        case Begin =>
          var pemBlock, end := ReadBlock(lines, i);
          i := end;
          if i == |lines| {
            return None;
          }
          ident := Place(ident, pemBlock);
        case _ =>
      }
      i := i + 1;
    }
    return Some(ident);
  }

  method DecodeIdentityFile(text: string) returns (r: Result)
    ensures r == Decode(Go(), text)
  {
    var scanned := Scan(Go(), Lines(text));
    var ident := ParseLines(scanned.lines);
    if scanned.failed {
      return LineTooLong;
    }
    return if ident.None? then Fragment else Ok(ident.value);
  }
}
