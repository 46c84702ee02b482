/** The reading side of the WebSocket connection in api/client/alpn_websocket.go, which turns frames
    (RFC 6455) back into a byte stream and answers pings on the way. */
module WebSocket {
  import opened Common

  datatype OpCode = Continuation | Text | Binary | Close | Ping | Pong

  datatype Frame = Frame(op: OpCode, masked: bool, payload: seq<Byte>)

  datatype Status = Nil | EOF | ReadFailed | WriteFailed

  /** A connection: the leftover read buffer, the frames still to arrive before reading fails, the
      frames sent, and how many writes were tried. */
  datatype Conn = Conn(buffer: seq<Byte>, incoming: seq<Frame>, sent: seq<Frame>, writes: nat)

  /** Whether the n-th write to the network succeeds. */
  type Network = nat -> bool

  function WriteFrame(net: Network, c: Conn, f: Frame): Conn {
    c.(writes := c.writes + 1, sent := if net(c.writes) then c.sent + [f.(masked := true)] else c.sent)
  }

  datatype ReadResult = ReadResult(conn: Conn, bytes: seq<Byte>, status: Status)

  /** What reading into a buffer of the given size does. */
  function ReadSpec(net: Network, c: Conn, size: nat): ReadResult
    decreases |c.incoming|
  {
    if c.buffer != [] then
      var n := if size < |c.buffer| then size else |c.buffer|;
      ReadResult(c.(buffer := c.buffer[n..]), c.buffer[..n], Nil)
    else if c.incoming == [] then ReadResult(c, [], ReadFailed)
    else
      var frame, rest := c.incoming[0], c.(incoming := c.incoming[1..]);
      match frame.op
      case Close => ReadResult(rest, [], EOF)
      case Ping =>
        var answered := WriteFrame(net, rest, Frame(Pong, false, frame.payload));
        if net(rest.writes) then ReadSpec(net, answered, size) else ReadResult(answered, [], WriteFailed)
      case Binary => ReadSpec(net, rest.(buffer := frame.payload), size)
      case _ => ReadSpec(net, rest, size)
  }

  class WebSocketConn {
    const net: Network
    var readBuffer: seq<Byte>
    var incoming: seq<Frame>
    var sent: seq<Frame>
    var writes: nat

    ghost function View(): Conn
      reads this
    {
      Conn(readBuffer, incoming, sent, writes)
    }

    constructor (net: Network, incoming: seq<Frame>)
      ensures this.net == net && View() == Conn([], incoming, [], 0)
    {
      this.net, this.incoming := net, incoming;
      readBuffer, sent, writes := [], [], 0;
    }

    /** Reports the full length whether or not the write succeeds. */
    method Write(b: seq<Byte>) returns (n: nat, ok: bool)
      modifies this
      ensures View() == WriteFrame(net, old(View()), Frame(Binary, false, b))
      ensures n == |b| && ok == net(old(writes))
    {
      n := |b|;
      ok := WriteOut(Frame(Binary, false, b));
    }

    method WriteOut(f: Frame) returns (ok: bool)
      modifies this
      ensures View() == WriteFrame(net, old(View()), f)
      ensures ok == net(old(writes))
    {
      ok := net(writes);
      writes := writes + 1;
      if ok {
        sent := sent + [f.(masked := true)];
      }
    }

    /** Fills the front of b and leaves the rest of it alone. */
    method Read(b: array<Byte>) returns (n: nat, status: Status)
      modifies this, b
      ensures n <= b.Length
      ensures ReadResult(View(), b[..n], status) == ReadSpec(net, old(View()), b.Length)
      ensures b[n..] == old(b[..])[n..]
      decreases |incoming|
    {
      if |readBuffer| > 0 {
        n := if b.Length < |readBuffer| then b.Length else |readBuffer|;
        forall i | 0 <= i < n {
          b[i] := readBuffer[i];
        }
        assert b[..n] == readBuffer[..n];
        readBuffer := readBuffer[n..];
        return n, Nil;
      }
      ghost var start := View();
      while true
        invariant unchanged(b) && readBuffer == [] && |incoming| <= |start.incoming|
        invariant ReadSpec(net, View(), b.Length) == ReadSpec(net, start, b.Length)
        decreases |incoming|
      {
        if |incoming| == 0 {
          return 0, ReadFailed;
        }
        var frame := incoming[0];
        incoming := incoming[1..];
        match frame.op {
          case Close =>
            return 0, EOF;
          case Ping =>
            var ok := WriteOut(Frame(Pong, false, frame.payload));
            if !ok {
              return 0, WriteFailed;
            }
          case Binary =>
            readBuffer := frame.payload;
            n, status := Read(b);
            return;
          case _ =>
        }
      }
    }
  }

  // ---------- Readers and writers interleaved ----------

  /** A connection between two steps, the payload of a ping that was taken and not answered yet, and every frame
      whose write was tried. */
  datatype Live = Live(conn: Conn, pong: Option<seq<Byte>>, tried: seq<Frame>)

  /** Reads hold one mutex and each write another, so a read is interrupted by writes between any two of its
      steps: it takes frames one by one, answers the pings, and hands out buffered bytes. */
  datatype Step = TakeFrame | SendPong | HandOut(size: nat) | WriteBytes(payload: seq<Byte>)

  function TryWrite(net: Network, l: Live, f: Frame): Live {
    l.(conn := WriteFrame(net, l.conn, f), tried := l.tried + [f.(masked := true)])
  }

  /** The connection after a step and the bytes the step handed out; a step that is not due does nothing. */
  function Do(net: Network, l: Live, step: Step): (Live, seq<Byte>) {
    var c := l.conn;
    match step
    case TakeFrame =>
      if l.pong.Some? || c.buffer != [] || c.incoming == [] then (l, [])
      else
        var frame, rest := c.incoming[0], c.(incoming := c.incoming[1..]);
        (match frame.op
         case Ping => l.(conn := rest, pong := Some(frame.payload))
         case Binary => l.(conn := rest.(buffer := frame.payload))
         case _ => l.(conn := rest), [])
    case SendPong =>
      (if l.pong.None? then l else TryWrite(net, l, Frame(Pong, false, l.pong.value)).(pong := None), [])
    case HandOut(size) =>
      var n := if size < |c.buffer| then size else |c.buffer|;
      (l.(conn := c.(buffer := c.buffer[n..])), c.buffer[..n])
    case WriteBytes(payload) => (TryWrite(net, l, Frame(Binary, false, payload)), [])
  }

  function Run(net: Network, l: Live, steps: seq<Step>): (Live, seq<Byte>) {
    if steps == [] then (l, [])
    else
      var (mid, bytes) := Run(net, l, steps[..|steps| - 1]);
      var (end, more) := Do(net, mid, steps[|steps| - 1]);
      (end, bytes + more)
  }

  function Opened(all: seq<Frame>): Live {
    Live(Conn([], all, [], 0), None, [])
  }

  lemma {:induction false} RunConcat(net: Network, l: Live, a: seq<Step>, b: seq<Step>)
    ensures var (mid, bytes) := Run(net, l, a);
            var (end, more) := Run(net, mid, b);
            Run(net, l, a + b) == (end, bytes + more)
  {
    var (mid, bytes) := Run(net, l, a);
    if b == [] {
      assert a + b == a;
      assert bytes + [] == bytes;
    } else {
      var n := |b| - 1;
      RunConcat(net, l, a, b[..n]);
      assert (a + b)[..|a + b| - 1] == a + b[..n];
      var (end, more) := Run(net, mid, b[..n]);
      var (last, rest) := Do(net, end, b[n]);
      assert bytes + more + rest == bytes + (more + rest);
    }
  }

  /** The steps of a read that nobody interrupts. */
  function ReadSteps(net: Network, c: Conn, size: nat): seq<Step>
    decreases |c.incoming|
  {
    if c.buffer != [] then [HandOut(size)]
    else if c.incoming == [] then []
    else
      var frame, rest := c.incoming[0], c.(incoming := c.incoming[1..]);
      match frame.op
      case Close => [TakeFrame]
      case Ping =>
        var answered := WriteFrame(net, rest, Frame(Pong, false, frame.payload));
        [TakeFrame, SendPong] + if net(rest.writes) then ReadSteps(net, answered, size) else []
      case Binary => [TakeFrame] + ReadSteps(net, rest.(buffer := frame.payload), size)
      case _ => [TakeFrame] + ReadSteps(net, rest, size)
  }

  lemma RunOne(net: Network, l: Live, step: Step)
    ensures Run(net, l, [step]) == Do(net, l, step)
  {
    assert [step][..0] == [];
    var (end, more) := Do(net, l, step);
    assert [] + more == more;
  }

  lemma RunPing(net: Network, l: Live)
    requires l.pong.None? && l.conn.buffer == [] && l.conn.incoming != [] && l.conn.incoming[0].op == Ping
    ensures var pong := Frame(Pong, false, l.conn.incoming[0].payload);
            Run(net, l, [TakeFrame, SendPong]) ==
            (TryWrite(net, l.(conn := l.conn.(incoming := l.conn.incoming[1..])), pong), [])
  {
    RunOne(net, l, TakeFrame);
    assert [TakeFrame, SendPong][..1] == [TakeFrame];
  }

  /** After its first frame a read has stopped, or goes on as a read of the connection that is left. */
  lemma FirstFrame(net: Network, l: Live, size: nat) returns (first: seq<Step>, mid: Live, stops: bool)
    requires l.pong.None? && l.conn.buffer == [] && l.conn.incoming != []
    ensures Run(net, l, first) == (mid, []) && mid.pong.None? && |mid.conn.incoming| < |l.conn.incoming|
    ensures var r := ReadSpec(net, l.conn, size);
            if stops then ReadSteps(net, l.conn, size) == first && r.conn == mid.conn && r.bytes == []
            else
              && ReadSteps(net, l.conn, size) == first + ReadSteps(net, mid.conn, size)
              && r == ReadSpec(net, mid.conn, size)
  {
    if l.conn.incoming[0].op == Ping {
      first, stops := [TakeFrame, SendPong], !net(l.conn.writes);
      RunPing(net, l);
    } else {
      first, stops := [TakeFrame], l.conn.incoming[0].op == Close;
      RunOne(net, l, TakeFrame);
    }
    mid := Run(net, l, first).0;
  }

  /** A read that nobody interrupts is made of these steps: it leaves the same connection and the same bytes. */
  lemma {:induction false} ReadIsSteps(net: Network, l: Live, size: nat)
    requires l.pong.None?
    ensures var r, (end, bytes) := ReadSpec(net, l.conn, size), Run(net, l, ReadSteps(net, l.conn, size));
            end.conn == r.conn && end.pong.None? && bytes == r.bytes
    decreases |l.conn.incoming|
  {
    if l.conn.buffer != [] {
      RunOne(net, l, HandOut(size));
    } else if l.conn.incoming != [] {
      var first, mid, stops := FirstFrame(net, l, size);
      if !stops {
        ReadIsSteps(net, mid, size);
        RunConcat(net, l, first, ReadSteps(net, mid.conn, size));
        assert forall bytes: seq<Byte> :: [] + bytes == bytes;
      }
    }
  }

  /** The bytes the binary frames carry, in order. */
  function Payloads(frames: seq<Frame>): seq<Byte> {
    if frames == [] then []
    else
      var last := frames[|frames| - 1];
      Payloads(frames[..|frames| - 1]) + if last.op == Binary then last.payload else []
  }

  /** The payloads of the frames of one kind, in order. */
  function Of(op: OpCode, frames: seq<Frame>): seq<seq<Byte>> {
    if frames == [] then []
    else Of(op, frames[..|frames| - 1]) + if frames[|frames| - 1].op == op then [frames[|frames| - 1].payload] else []
  }

  lemma PayloadsAppend(frames: seq<Frame>, f: Frame)
    ensures Payloads(frames + [f]) == Payloads(frames) + if f.op == Binary then f.payload else []
  {
  }

  lemma OfAppend(op: OpCode, frames: seq<Frame>, f: Frame)
    ensures Of(op, frames + [f]) == Of(op, frames) + if f.op == op then [f.payload] else []
  {
  }

  /** The frames of `all` that a connection has consumed. */
  function Consumed(all: seq<Frame>, c: Conn): seq<Frame>
    requires |c.incoming| <= |all|
  {
    all[..|all| - |c.incoming|]
  }

  ghost predicate Follows(all: seq<Frame>, c: Conn) {
    |c.incoming| <= |all| && c.incoming == all[|all| - |c.incoming|..]
  }

  /** The bytes handed out so far and the leftover buffer are what the consumed binary frames carry. */
  ghost predicate Accounts(all: seq<Frame>, c: Conn, bytes: seq<Byte>) {
    Follows(all, c) && bytes + c.buffer == Payloads(Consumed(all, c))
  }

  lemma ConsumeOne(all: seq<Frame>, c: Conn, c': Conn)
    requires Follows(all, c) && c.incoming != [] && c'.incoming == c.incoming[1..]
    ensures Follows(all, c') && Consumed(all, c') == Consumed(all, c) + [c.incoming[0]]
  {
  }

  lemma AccountsOne(all: seq<Frame>, c: Conn, c': Conn, bytes: seq<Byte>)
    requires Accounts(all, c, bytes) && c.buffer == [] && c.incoming != [] && c'.incoming == c.incoming[1..]
    requires c'.buffer == if c.incoming[0].op == Binary then c.incoming[0].payload else []
    ensures Accounts(all, c', bytes)
  {
    ConsumeOne(all, c, c');
    PayloadsAppend(Consumed(all, c), c.incoming[0]);
    assert bytes + [] == bytes;
  }

  lemma StepAccounts(net: Network, all: seq<Frame>, l: Live, step: Step, bytes: seq<Byte>)
    requires Accounts(all, l.conn, bytes)
    ensures var (n, more) := Do(net, l, step); Accounts(all, n.conn, bytes + more)
  {
    var (n, more) := Do(net, l, step);
    if step.HandOut? {
      assert bytes + more + n.conn.buffer == bytes + l.conn.buffer;
    } else {
      assert bytes + more == bytes;
      if n.conn.incoming != l.conn.incoming {
        AccountsOne(all, l.conn, n.conn, bytes);
      }
    }
  }

  /** For every sequence of frames and every interleaving of reads of any sizes with writes: what was read so far
      followed by the leftover is the concatenation of the binary payloads consumed. So the bytes are
      a prefix of the stream the frames carry, whatever the sizes, and all of it at the end. */
  lemma {:induction false} StreamIsConserved(net: Network, all: seq<Frame>, steps: seq<Step>)
    ensures var (l, bytes) := Run(net, Opened(all), steps); Accounts(all, l.conn, bytes)
  {
    if steps != [] {
      var before := steps[..|steps| - 1];
      StreamIsConserved(net, all, before);
      var (mid, bytes) := Run(net, Opened(all), before);
      StepAccounts(net, all, mid, steps[|steps| - 1], bytes);
    }
  }

  lemma {:induction false} PayloadsPrefix(frames: seq<Frame>, k: nat)
    requires k <= |frames|
    ensures Payloads(frames[..k]) <= Payloads(frames)
  {
    if k == |frames| {
      assert frames[..k] == frames;
    } else {
      PayloadsPrefix(frames[..|frames| - 1], k);
      assert frames[..|frames| - 1][..k] == frames[..k];
    }
  }

  /** How the stream is cut into reads does not matter: two readers that drained the same frames
      got the same bytes, and any reader got a prefix of them. */
  lemma ReadSizesDoNotMatter(net: Network, all: seq<Frame>, steps: seq<Step>, net': Network, steps': seq<Step>)
    ensures var (l, bytes) := Run(net, Opened(all), steps);
            var (l', bytes') := Run(net', Opened(all), steps');
            && bytes <= Payloads(all)
            && (l.conn.incoming == l'.conn.incoming == [] && l.conn.buffer == l'.conn.buffer == [] ==>
                  bytes == bytes' == Payloads(all))
  {
    StreamIsConserved(net, all, steps);
    StreamIsConserved(net', all, steps');
    var (l, bytes) := Run(net, Opened(all), steps);
    PayloadsPrefix(all, |all| - |l.conn.incoming|);
    assert all[..|all|] == all;
  }

  // ---------- How a read ends ----------

  /** The pings among the frames. */
  function Pings(frames: seq<Frame>): nat {
    if frames == [] then 0 else (if frames[0].op == Ping then 1 else 0) + Pings(frames[1..])
  }

  /** The write that answers a ping succeeds, counting from `writes` the pongs for the pings before it. */
  predicate PongGoesOut(net: Network, writes: nat, frames: seq<Frame>, j: nat)
    requires j < |frames|
  {
    net(writes + Pings(frames[..j]))
  }

  /** A frame that a read passes over: no close, no data, and a ping only when its pong goes out. */
  predicate PassedOver(net: Network, writes: nat, frames: seq<Frame>, j: nat)
    requires j < |frames|
  {
    match frames[j].op
    case Close => false
    case Binary => frames[j].payload == []
    case Ping => PongGoesOut(net, writes, frames, j)
    case _ => true
  }

  /** A read hands out as much as there is and as fits. */
  predicate Fills(r: ReadResult, size: nat) {
    |r.bytes| <= size && (|r.bytes| == size || r.conn.buffer == [])
  }

  /** A read that consumed k frames passed over all of them but the last, and the last one decides how it ends. */
  ghost predicate EndsBecause(net: Network, c: Conn, size: nat, r: ReadResult, k: nat) {
    && k <= |c.incoming| && r.conn.incoming == c.incoming[k..]
    && r.conn.writes == c.writes + Pings(c.incoming[..k])
    && (forall j :: 0 <= j < k - 1 ==> PassedOver(net, c.writes, c.incoming, j))
    && (r.status == EOF <==> k > 0 && c.incoming[k - 1].op == Close)
    && (r.status == WriteFailed <==>
        k > 0 && c.incoming[k - 1].op == Ping && !PongGoesOut(net, c.writes, c.incoming, k - 1))
    && (r.status == Nil <==> k > 0 && c.incoming[k - 1].op == Binary && c.incoming[k - 1].payload != [])
    && (r.status == ReadFailed <==>
        k == |c.incoming| && (k > 0 ==> PassedOver(net, c.writes, c.incoming, k - 1)))
    && (r.status == Nil ==> r.bytes + r.conn.buffer == c.incoming[k - 1].payload && Fills(r, size))
    && (r.status != Nil ==> r.bytes == [] && r.conn.buffer == [])
  }

  lemma PingsCons(frames: seq<Frame>, k: nat)
    requires 0 < k <= |frames|
    ensures Pings(frames[..k]) == (if frames[0].op == Ping then 1 else 0) + Pings(frames[1..][..k - 1])
  {
    assert frames[..k][1..] == frames[1..][..k - 1];
  }

  lemma PassedOverLater(net: Network, writes: nat, frames: seq<Frame>, j: nat)
    requires j + 1 < |frames|
    ensures var w := writes + if frames[0].op == Ping then 1 else 0;
            && PongGoesOut(net, writes, frames, j + 1) == PongGoesOut(net, w, frames[1..], j)
            && PassedOver(net, writes, frames, j + 1) == PassedOver(net, w, frames[1..], j)
  {
    PingsCons(frames, j + 1);
  }

  /** If a read goes on after its first frame, what holds of the rest of it holds of all of it. */
  lemma EndsLater(net: Network, c: Conn, c': Conn, size: nat, r: ReadResult, k: nat)
    requires c.incoming != [] && c'.incoming == c.incoming[1..] && PassedOver(net, c.writes, c.incoming, 0)
    requires c'.writes == c.writes + if c.incoming[0].op == Ping then 1 else 0
    requires EndsBecause(net, c', size, r, k)
    ensures EndsBecause(net, c, size, r, k + 1)
  {
    PingsCons(c.incoming, k + 1);
    forall j | 0 <= j < k
      ensures PongGoesOut(net, c.writes, c.incoming, j + 1) == PongGoesOut(net, c'.writes, c'.incoming, j)
      ensures PassedOver(net, c.writes, c.incoming, j + 1) == PassedOver(net, c'.writes, c'.incoming, j)
    {
      PassedOverLater(net, c.writes, c.incoming, j);
    }
    forall j | 0 <= j < k
      ensures PassedOver(net, c.writes, c.incoming, j)
    {
      if j > 0 {
        assert PassedOver(net, c'.writes, c'.incoming, j - 1);
      }
    }
  }

  lemma EndsAtOnce(net: Network, c: Conn, size: nat)
    requires c.buffer == [] && c.incoming != [] && !PassedOver(net, c.writes, c.incoming, 0)
    ensures EndsBecause(net, c, size, ReadSpec(net, c, size), 1)
  {
    assert c.incoming[..0] == [] && c.incoming[..1] == [c.incoming[0]];
    if c.incoming[0].op == Binary {
      HandsOut(net, c.(incoming := c.incoming[1..], buffer := c.incoming[0].payload), size);
    }
  }

  lemma HandsOut(net: Network, c: Conn, size: nat)
    requires c.buffer != []
    ensures var r := ReadSpec(net, c, size);
            && r.status == Nil && r.bytes + r.conn.buffer == c.buffer && Fills(r, size)
            && r.conn == c.(buffer := r.conn.buffer)
  {
  }

  lemma GoesOn(net: Network, c: Conn, size: nat) returns (c': Conn)
    requires c.buffer == [] && c.incoming != [] && PassedOver(net, c.writes, c.incoming, 0)
    ensures c'.incoming == c.incoming[1..] && c'.buffer == []
    ensures c'.writes == c.writes + if c.incoming[0].op == Ping then 1 else 0
    ensures ReadSpec(net, c, size) == ReadSpec(net, c', size)
  {
    var frame, rest := c.incoming[0], c.(incoming := c.incoming[1..]);
    assert c.incoming[..0] == [];
    c' := if frame.op == Ping then WriteFrame(net, rest, Frame(Pong, false, frame.payload)) else rest;
  }

  /** Every read ends for a reason one can see on the wire. With bytes left over it hands them out and reads nothing.
      Otherwise it passes over frames until a close, which is the end of the stream, a ping whose pong cannot
      be written, or data; and it fails to read only when all frames are consumed and none of these came. */
  lemma {:induction false} ReadEndsForAReason(net: Network, c: Conn, size: nat) returns (k: nat)
    ensures var r := ReadSpec(net, c, size);
            if c.buffer != [] then
              && r.status == Nil && r.bytes + r.conn.buffer == c.buffer && Fills(r, size)
              && r.conn == c.(buffer := r.conn.buffer)
            else EndsBecause(net, c, size, r, k)
    decreases |c.incoming|
  {
    k := 0;
    if c.buffer != [] {
      HandsOut(net, c, size);
    } else if c.incoming != [] {
      if PassedOver(net, c.writes, c.incoming, 0) {
        var c' := GoesOn(net, c, size);
        k := ReadEndsForAReason(net, c', size);
        EndsLater(net, c, c', size, ReadSpec(net, c, size), k);
      } else {
        EndsAtOnce(net, c, size);
      }
      k := k + 1;
    }
  }

  /** A read into a buffer with room makes progress: without an error it delivers at least one byte. */
  lemma {:induction false} ReadMakesProgress(net: Network, c: Conn, size: nat)
    requires size > 0
    ensures var r := ReadSpec(net, c, size);
            && |r.bytes| <= size
            && (r.status == Nil <==> r.bytes != [])
            && (r.bytes == [] ==> |r.conn.incoming| < |c.incoming| || r.status == ReadFailed)
    decreases |c.incoming|
  {
    if c.buffer == [] && c.incoming != [] {
      var frame, rest := c.incoming[0], c.(incoming := c.incoming[1..]);
      match frame.op
      case Close =>
      case Ping => ReadMakesProgress(net, WriteFrame(net, rest, Frame(Pong, false, frame.payload)), size);
      case Binary => ReadMakesProgress(net, rest.(buffer := frame.payload), size);
      case _ => ReadMakesProgress(net, rest, size);
    }
  }

  // ---------- Pongs ----------

  function Written(steps: seq<Step>): seq<seq<Byte>> {
    if steps == [] then []
    else
      var last := steps[|steps| - 1];
      Written(steps[..|steps| - 1]) + if last.WriteBytes? then [last.payload] else []
  }

  /** The frames that got out of those tried, one by one. */
  function Delivered(net: Network, tried: seq<Frame>): seq<Frame> {
    if tried == [] then []
    else
      var n := |tried| - 1;
      Delivered(net, tried[..n]) + if net(n) then [tried[n]] else []
  }

  /** One pong was tried per consumed ping, in order and with its payload, but for a ping just taken; the binary
      frames tried are the ones written, in order; and what was sent is what the network let through. */
  ghost predicate Answers(net: Network, all: seq<Frame>, l: Live, written: seq<seq<Byte>>) {
    && Follows(all, l.conn)
    && Of(Pong, l.tried) + (if l.pong.Some? then [l.pong.value] else []) == Of(Ping, Consumed(all, l.conn))
    && Of(Binary, l.tried) == written
    && (forall i :: 0 <= i < |l.tried| ==> l.tried[i].masked)
    && |l.tried| == l.conn.writes && l.conn.sent == Delivered(net, l.tried)
  }

  lemma TryAnswers(net: Network, all: seq<Frame>, l: Live, written: seq<seq<Byte>>, f: Frame)
    requires Answers(net, all, l, written) && (f.op == Binary || f.op == Pong)
    requires f.op == Pong ==> l.pong == Some(f.payload)
    ensures var n := TryWrite(net, l, f);
            if f.op == Binary then Answers(net, all, n, written + [f.payload])
            else Answers(net, all, n.(pong := None), written)
  {
    var g := f.(masked := true);
    OfAppend(Pong, l.tried, g);
    OfAppend(Binary, l.tried, g);
    assert (l.tried + [g])[..|l.tried|] == l.tried;
    assert written + [] == written && Of(Pong, l.tried) + [] == Of(Pong, l.tried);
  }

  lemma TakeAnswers(net: Network, all: seq<Frame>, l: Live, written: seq<seq<Byte>>)
    requires Answers(net, all, l, written)
    ensures Answers(net, all, Do(net, l, TakeFrame).0, written)
  {
    var n := Do(net, l, TakeFrame).0;
    if n != l {
      ConsumeOne(all, l.conn, n.conn);
      OfAppend(Ping, Consumed(all, l.conn), l.conn.incoming[0]);
      assert Of(Pong, l.tried) + [] == Of(Pong, l.tried);
    }
  }

  /** In every interleaving and whatever the network does, every ping consumed was answered by one try, in order,
      with its own payload (sections 5.5.2 and 5.5.3 of RFC 6455), the last one perhaps still to come; the
      writes were tried in order; and the frames sent are exactly the tries that succeeded. */
  lemma {:induction false} EveryPingIsAnswered(net: Network, all: seq<Frame>, steps: seq<Step>)
    ensures Answers(net, all, Run(net, Opened(all), steps).0, Written(steps))
  {
    if steps != [] {
      var before := steps[..|steps| - 1];
      EveryPingIsAnswered(net, all, before);
      var mid, written := Run(net, Opened(all), before).0, Written(before);
      assert written + [] == written;
      match steps[|steps| - 1]
      case TakeFrame => TakeAnswers(net, all, mid, written);
      case SendPong =>
        if mid.pong.Some? {
          TryAnswers(net, all, mid, written, Frame(Pong, false, mid.pong.value));
        }
      case HandOut(_) =>
      case WriteBytes(payload) => TryAnswers(net, all, mid, written, Frame(Binary, false, payload));
    }
  }

  lemma {:induction false} AllDelivered(net: Network, tried: seq<Frame>)
    requires forall n :: net(n)
    ensures Delivered(net, tried) == tried
  {
    if tried != [] {
      AllDelivered(net, tried[..|tried| - 1]);
      assert net(|tried| - 1);
    }
  }

  /** When writes succeed, each ping but one just taken has its pong on the wire, and each write its frame. */
  lemma AnswersAreSent(net: Network, all: seq<Frame>, steps: seq<Step>)
    requires forall n :: net(n)
    ensures var l := Run(net, Opened(all), steps).0;
            && Follows(all, l.conn) && Of(Binary, l.conn.sent) == Written(steps)
            && Of(Pong, l.conn.sent) <= Of(Ping, Consumed(all, l.conn))
            && (l.pong.None? ==> Of(Pong, l.conn.sent) == Of(Ping, Consumed(all, l.conn)))
  {
    EveryPingIsAnswered(net, all, steps);
    AllDelivered(net, Run(net, Opened(all), steps).0.tried);
  }
}
