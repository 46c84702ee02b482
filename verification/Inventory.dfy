/** The send and close protocol of the inventory control stream adapters in api/client/inventory.go
    (`downstreamICS` and `upstreamICS` differ only in their message types). Any number of `Send`
    calls, each with its own context, meet the one send loop over the unbuffered `sendC`; the
    loop answers each over that call's result channel of capacity one. Closing takes two
    steps under the mutex: set the error, then close `doneC`. */
module Inventory {
  import opened Common

  datatype Err = EOF | StreamFailed(code: int) | Wrapped(code: int)

  /** The loop keeps EOF and wraps any other stream error before closing with it. */
  function CloseReason(e: Err): Err {
    match e
    case EOF => EOF
    case StreamFailed(code) => Wrapped(code)
    case Wrapped(code) => Wrapped(code)
  }

  /** What the loop answers: the message was sent, the stream failed, or the type is unknown. */
  datatype Reply = Sent | Failed(err: Err) | UnknownType

  datatype Outcome =
    | Nil
    | StreamError(err: Err)
    | BadParameter
    | ResultSkipped
    | NotSentCancelled
    | NotSentClosed(err: Err)
    | ExternallyClosed
    | ContextError

  datatype Phase = Fresh | Offering | Waiting | Returned(outcome: Outcome)

  /** One `Send` call: whether its message has a known type, its context, its result channel. `reply`
      remembers what the loop put into that channel. */
  datatype Call = Call(known: bool, cancelled: bool, phase: Phase, errC: Option<Reply>, reply: Option<Reply>)

  datatype Loop = Idle | Sending(call: nat) | Reporting(call: nat, reply: Reply) | Closing(reason: Err) | Stopped

  /** One `stream.Send`. */
  datatype Attempt = Attempt(call: nat, ok: bool)

  /** `accepted` and `stream` log the known messages the loop took and the sends it made, in order;
      `closes` counts how often `doneC` was closed. `closing`: the mutex is held between the two steps. */
  datatype State = State(
    calls: seq<Call>, loop: Loop, err: Option<Err>, closing: bool, done: bool,
    accepted: seq<nat>, stream: seq<Attempt>, closes: nat)

  const INIT := State([], Idle, None, false, false, [], [], 0)

  datatype Step =
    | NewCall(known: bool)
    | Cancel(c: nat)
    | CheckContext(c: nat)
    | Accept(c: nat)
    | StreamSend(result: Option<Err>)
    | Report
    | TakeResult(c: nat)
    | SkipResult(c: nat)
    | GiveUp(c: nat)
    | SeeDone(c: nat)
    | LoopCloses
    | LoopSeesDone
    | OtherCloses(reason: Option<Err>)
    | FinishClose

  predicate In(s: State, c: nat, p: Phase) {
    c < |s.calls| && s.calls[c].phase == p
  }

  predicate Enabled(s: State, step: Step) {
    match step
    case NewCall(_) => true
    case Cancel(c) => c < |s.calls|
    case CheckContext(c) => In(s, c, Fresh)
    case Accept(c) => In(s, c, Offering) && s.loop.Idle?
    case StreamSend(_) => s.loop.Sending? && s.loop.call < |s.calls|
    case Report => s.loop.Reporting? && s.loop.call < |s.calls| && s.calls[s.loop.call].errC.None?
    case TakeResult(c) => In(s, c, Waiting) && s.calls[c].errC.Some?
    case SkipResult(c) => In(s, c, Waiting) && s.calls[c].cancelled
    case GiveUp(c) => In(s, c, Offering) && s.calls[c].cancelled
    case SeeDone(c) => In(s, c, Offering) && s.done && !s.closing
    case LoopCloses => s.loop.Closing? && !s.closing
    case LoopSeesDone => s.loop.Idle? && s.done
    case OtherCloses(_) => !s.closing
    case FinishClose => s.closing
  }

  function SetCall(s: State, c: nat, call: Call): State
    requires c < |s.calls|
  {
    s.(calls := s.calls[c := call])
  }

  /** CloseWithError up to the moment the error is set; an already closed stream stays as it is. */
  function BeginClose(s: State, reason: Option<Err>): State {
    if s.err.Some? then s
    else s.(err := Some(if reason.None? then EOF else reason.value), closing := true)
  }

  function OutcomeOf(r: Reply): Outcome {
    match r
    case Sent => Nil
    case Failed(e) => StreamError(e)
    case UnknownType => BadParameter
  }

  function Next(s: State, step: Step): State
    requires Enabled(s, step)
  {
    match step
    case NewCall(known) => s.(calls := s.calls + [Call(known, false, Fresh, None, None)])
    case Cancel(c) => SetCall(s, c, s.calls[c].(cancelled := true))
    case CheckContext(c) =>
      SetCall(s, c, s.calls[c].(phase := if s.calls[c].cancelled then Returned(ContextError) else Offering))
    case Accept(c) =>
      var taken := SetCall(s, c, s.calls[c].(phase := Waiting));
      if s.calls[c].known then taken.(loop := Sending(c), accepted := s.accepted + [c])
      else taken.(loop := Reporting(c, UnknownType))
    case StreamSend(result) =>
      var c := s.loop.call;
      s.(loop := Reporting(c, if result.None? then Sent else Failed(result.value)),
         stream := s.stream + [Attempt(c, result.None?)])
    case Report =>
      var c, r := s.loop.call, s.loop.reply;
      SetCall(s, c, s.calls[c].(errC := Some(r), reply := Some(r)))
        .(loop := if r.Failed? then Closing(CloseReason(r.err)) else Idle)
    case TakeResult(c) =>
      SetCall(s, c, s.calls[c].(phase := Returned(OutcomeOf(s.calls[c].errC.value)), errC := None))
    case SkipResult(c) => SetCall(s, c, s.calls[c].(phase := Returned(ResultSkipped)))
    case GiveUp(c) => SetCall(s, c, s.calls[c].(phase := Returned(NotSentCancelled)))
    case SeeDone(c) =>
      var outcome := if s.err.None? then ExternallyClosed else NotSentClosed(s.err.value);
      SetCall(s, c, s.calls[c].(phase := Returned(outcome)))
    case LoopCloses => BeginClose(s, Some(s.loop.reason)).(loop := Stopped)
    case LoopSeesDone => s.(loop := Stopped)
    case OtherCloses(reason) => BeginClose(s, reason)
    case FinishClose => s.(closing := false, done := true, closes := s.closes + 1)
  }

  ghost predicate StepAt(ss: seq<State>, steps: seq<Step>, k: nat)
    requires |ss| == |steps| + 1 && k < |steps|
  {
    Enabled(ss[k], steps[k]) && ss[k + 1] == Next(ss[k], steps[k])
  }

  ghost predicate IsRun(ss: seq<State>, steps: seq<Step>) {
    && |ss| == |steps| + 1
    && ss[0] == INIT
    && forall k :: 0 <= k < |steps| ==> StepAt(ss, steps, k)
  }

  // ---------- What every step keeps ----------

  predicate Holds(s: State, c: nat) {
    (s.loop.Sending? || s.loop.Reporting?) && s.loop.call == c
  }

  /** What the loop has decided about a call, put into its channel yet or not. */
  function Decision(s: State, c: nat): Option<Reply>
    requires c < |s.calls|
  {
    if s.loop.Reporting? && s.loop.call == c then Some(s.loop.reply) else s.calls[c].reply
  }

  /** The state of one call fits its phase and the loop. A result channel holds at most the one reply,
      unread, and while a call waits without one the loop is at work on it. */
  ghost predicate CallMatches(s: State, c: nat)
    requires c < |s.calls|
  {
    var call := s.calls[c];
    && (Holds(s, c) ==>
          call.reply.None? && call.errC.None? && (call.phase.Waiting? || call.phase == Returned(ResultSkipped)))
    && (s.loop == Sending(c) ==> call.known)
    && (call.errC.Some? ==> call.reply == call.errC)
    && match call.phase
       case Fresh => call.reply.None? && !Holds(s, c)
       case Offering => call.reply.None? && !Holds(s, c)
       case Waiting => if call.reply.None? then Holds(s, c) else call.errC == call.reply
       case Returned(outcome) =>
         match outcome
         case Nil => call.reply == Some(Sent)
         case StreamError(e) => call.reply == Some(Failed(e))
         case BadParameter => call.reply == Some(UnknownType)
         case ResultSkipped => call.reply.None? ==> Holds(s, c)
         case ExternallyClosed => false
         case _ => call.reply.None? && !Holds(s, c)
  }

  /** The stream saw a call once if the loop decided so, with the result it decided, and else never. */
  ghost predicate StreamMatches(s: State, c: nat)
    requires c < |s.calls|
  {
    && multiset(s.stream)[Attempt(c, true)] == (if Decision(s, c) == Some(Sent) then 1 else 0)
    && multiset(s.stream)[Attempt(c, false)] == (if Decision(s, c).Some? && Decision(s, c).value.Failed? then 1 else 0)
  }

  function Ids(stream: seq<Attempt>): seq<nat> {
    if stream == [] then [] else Ids(stream[..|stream| - 1]) + [stream[|stream| - 1].call]
  }

  /** Messages go to the stream in the order they were accepted, and none follows a failed one. */
  ghost predicate OrderMatches(s: State) {
    && s.accepted == Ids(s.stream) + (if s.loop.Sending? then [s.loop.call] else [])
    && (forall i :: 0 <= i < |s.stream| - 1 ==> s.stream[i].ok)
    && (s.stream != [] && !s.stream[|s.stream| - 1].ok ==>
          (s.loop.Reporting? && s.loop.reply.Failed?) || s.loop.Closing? || s.loop.Stopped?)
  }

  ghost predicate CloseMatches(s: State) {
    && (s.err.Some? <==> s.closing || s.done)
    && !(s.closing && s.done)
    && s.closes == (if s.done then 1 else 0)
    && (s.loop.Stopped? ==> s.err.Some?)
  }

  ghost predicate Inv(s: State) {
    && (s.loop.Sending? || s.loop.Reporting? ==> s.loop.call < |s.calls|)
    && (forall c :: 0 <= c < |s.calls| ==> CallMatches(s, c))
    && (forall c :: 0 <= c < |s.calls| ==> StreamMatches(s, c))
    && (forall i :: 0 <= i < |s.stream| ==> s.stream[i].call < |s.calls|)
    && OrderMatches(s)
    && CloseMatches(s)
  }

  lemma NextKeepsCall(s: State, step: Step, c: nat)
    requires Enabled(s, step) && CloseMatches(s) && c < |s.calls| && CallMatches(s, c)
    ensures CallMatches(Next(s, step), c)
  {
  }

  lemma StreamSendKeepsStream(s: State, step: Step, c: nat)
    requires Enabled(s, step) && step.StreamSend? && c < |s.calls| && CallMatches(s, c) && StreamMatches(s, c)
    ensures StreamMatches(Next(s, step), c)
  {
  }

  lemma NextKeepsStream(s: State, step: Step, c: nat)
    requires Enabled(s, step) && c < |s.calls| && CallMatches(s, c) && StreamMatches(s, c)
    ensures StreamMatches(Next(s, step), c)
  {
    if step.StreamSend? {
      StreamSendKeepsStream(s, step, c);
    } else {
      assert Decision(Next(s, step), c) == Decision(s, c) || Decision(Next(s, step), c) == Some(UnknownType);
    }
  }

  lemma NewCallMatches(s: State, step: Step)
    requires Enabled(s, step) && step.NewCall?
    requires s.loop.Sending? || s.loop.Reporting? ==> s.loop.call < |s.calls|
    requires forall i :: 0 <= i < |s.stream| ==> s.stream[i].call < |s.calls|
    ensures CallMatches(Next(s, step), |s.calls|) && StreamMatches(Next(s, step), |s.calls|)
  {
  }

  lemma NextKeepsOrder(s: State, step: Step)
    requires OrderMatches(s) && Enabled(s, step)
    ensures OrderMatches(Next(s, step))
  {
    var n := Next(s, step);
    if step.StreamSend? {
      assert n.stream[..|s.stream|] == s.stream;
      assert Ids(s.stream) + [s.loop.call] + [] == Ids(n.stream);
    }
  }

  lemma NextKeepsInv(s: State, step: Step)
    requires Inv(s) && Enabled(s, step)
    ensures Inv(Next(s, step))
  {
    var n := Next(s, step);
    forall c | 0 <= c < |n.calls|
      ensures CallMatches(n, c) && StreamMatches(n, c)
    {
      if c < |s.calls| {
        assert CallMatches(s, c) && StreamMatches(s, c);
        NextKeepsCall(s, step, c);
        NextKeepsStream(s, step, c);
      } else {
        NewCallMatches(s, step);
      }
    }
    NextKeepsOrder(s, step);
  }

  lemma {:induction false} RunKeepsInv(ss: seq<State>, steps: seq<Step>, k: nat)
    requires IsRun(ss, steps) && k < |ss|
    ensures Inv(ss[k])
  {
    if k > 0 {
      RunKeepsInv(ss, steps, k - 1);
      assert StepAt(ss, steps, k - 1);
      NextKeepsInv(ss[k - 1], steps[k - 1]);
    }
  }

  // ---------- Theorems ----------

  /** How often a call's message went to the stream with the given result. */
  function Attempts(s: State, c: nat, ok: bool): nat {
    multiset(s.stream)[Attempt(c, ok)]
  }

  /** The result of `Send` is truthful in every interleaving: nil means the message went to the stream exactly
      once and succeeded; a stream error that it went once, failed, and was the last; and
      every other result but "result skipped" that it never did, now or later. */
  lemma SendIsTruthful(ss: seq<State>, steps: seq<Step>, k: nat, c: nat)
    requires IsRun(ss, steps) && k < |ss| && c < |ss[k].calls| && ss[k].calls[c].phase.Returned?
    ensures var s := ss[k];
            match s.calls[c].phase.outcome
            case Nil => Attempts(s, c, true) == 1 && Attempts(s, c, false) == 0
            case StreamError(_) =>
              Attempts(s, c, true) == 0 && Attempts(s, c, false) == 1 && s.stream[|s.stream|-1..] == [Attempt(c, false)]
            case ResultSkipped => Attempts(s, c, true) + Attempts(s, c, false) <= 1
            case ExternallyClosed => false
            case _ => Attempts(s, c, true) == 0 && Attempts(s, c, false) == 0
  {
    RunKeepsInv(ss, steps, k);
    assert CallMatches(ss[k], c) && StreamMatches(ss[k], c);
    if Attempts(ss[k], c, false) == 1 {
      FailedIsLast(ss[k], c);
    }
  }

  /** A returned call stays as it is, so what its result says about the stream stays true. */
  lemma {:induction false} OutcomeIsFinal(ss: seq<State>, steps: seq<Step>, i: nat, j: nat, c: nat)
    requires IsRun(ss, steps) && i <= j < |ss| && c < |ss[i].calls| && ss[i].calls[c].phase.Returned?
    ensures c < |ss[j].calls| && ss[j].calls[c].phase == ss[i].calls[c].phase
    decreases j - i
  {
    if i < j {
      OutcomeIsFinal(ss, steps, i, j - 1, c);
      assert StepAt(ss, steps, j - 1);
    }
  }

  lemma FailedIsLast(s: State, c: nat)
    requires OrderMatches(s) && Attempts(s, c, false) > 0
    ensures s.stream != [] && s.stream[|s.stream| - 1] == Attempt(c, false)
  {
  }

  // ---------- Why a call got its result ----------

  /** Step j sends the message of call c, with the given result. */
  ghost predicate SentAt(ss: seq<State>, steps: seq<Step>, j: nat, c: nat, result: Option<Err>) {
    j < |steps| < |ss| && ss[j].loop == Sending(c) && steps[j] == StreamSend(result)
  }

  ghost predicate WasSent(ss: seq<State>, steps: seq<Step>, k: nat, c: nat, result: Option<Err>) {
    exists j: nat :: j < k && SentAt(ss, steps, j, c, result)
  }

  lemma WasSentBefore(ss: seq<State>, steps: seq<Step>, k: nat, c: nat, result: Option<Err>)
    requires WasSent(ss, steps, k, c, result)
    ensures WasSent(ss, steps, k + 1, c, result)
  {
    var j: nat :| j < k && SentAt(ss, steps, j, c, result);
  }

  /** What the loop decides depends on whether it knows the type of the message. */
  ghost predicate DecisionMatches(s: State, c: nat) {
    c < |s.calls| && Decision(s, c).Some? ==> (Decision(s, c).value == UnknownType <==> !s.calls[c].known)
  }

  /** A result without a reply is about the caller's context or the close. */
  ghost predicate ReasonMatches(s: State, c: nat) {
    c < |s.calls| && s.calls[c].phase.Returned? ==>
      match s.calls[c].phase.outcome
      case ContextError => s.calls[c].cancelled
      case NotSentCancelled => s.calls[c].cancelled
      case ResultSkipped => s.calls[c].cancelled
      case NotSentClosed(e) => s.err == Some(e)
      case _ => true
  }

  lemma NextKeepsDecision(s: State, step: Step, c: nat)
    requires Enabled(s, step) && DecisionMatches(s, c)
    requires Holds(s, c) ==> c < |s.calls| && (s.loop.Sending? ==> s.calls[c].known)
    ensures DecisionMatches(Next(s, step), c)
  {
  }

  lemma NextKeepsReason(s: State, step: Step, c: nat)
    requires Enabled(s, step) && ReasonMatches(s, c)
    ensures ReasonMatches(Next(s, step), c)
  {
  }

  /** The steps of one call, as its phase remembers them. */
  ghost predicate Remembers(s: State, past: seq<Step>, c: nat) {
    if c < |s.calls| then
      var call := s.calls[c];
      && (Cancel(c) in past <==> call.cancelled)
      && (CheckContext(c) in past <==> !call.phase.Fresh?)
      && (TakeResult(c) in past <==>
          && call.phase.Returned?
          && (call.phase.outcome.Nil? || call.phase.outcome.StreamError? || call.phase.outcome.BadParameter?))
      && (SkipResult(c) in past <==> call.phase == Returned(ResultSkipped))
      && (GiveUp(c) in past <==> call.phase == Returned(NotSentCancelled))
    else
      && Cancel(c) !in past && CheckContext(c) !in past
      && TakeResult(c) !in past && SkipResult(c) !in past && GiveUp(c) !in past
  }

  lemma NextRemembers(s: State, step: Step, past: seq<Step>, c: nat)
    requires Enabled(s, step) && Remembers(s, past, c)
    ensures Remembers(Next(s, step), past + [step], c)
  {
  }

  lemma {:induction false} RunRemembers(ss: seq<State>, steps: seq<Step>, k: nat, c: nat)
    requires IsRun(ss, steps) && k < |ss|
    ensures Remembers(ss[k], steps[..k], c) && DecisionMatches(ss[k], c) && ReasonMatches(ss[k], c)
  {
    if k > 0 {
      RunRemembers(ss, steps, k - 1, c);
      RunKeepsInv(ss, steps, k - 1);
      assert c < |ss[k - 1].calls| ==> CallMatches(ss[k - 1], c);
      assert StepAt(ss, steps, k - 1);
      NextRemembers(ss[k - 1], steps[k - 1], steps[..k - 1], c);
      NextKeepsDecision(ss[k - 1], steps[k - 1], c);
      NextKeepsReason(ss[k - 1], steps[k - 1], c);
      assert steps[..k] == steps[..k - 1] + [steps[k - 1]];
    }
  }

  /** A call is about the message it was made with. */
  lemma {:induction false} KnownFromTheStart(ss: seq<State>, steps: seq<Step>, k: nat, c: nat)
    requires IsRun(ss, steps) && k < |ss| && c < |ss[k].calls|
    ensures exists j: nat :: j < k && |ss[j].calls| == c && steps[j] == NewCall(ss[k].calls[c].known)
  {
    assert StepAt(ss, steps, k - 1);
    if c < |ss[k - 1].calls| {
      KnownFromTheStart(ss, steps, k - 1, c);
    } else {
      assert steps[k - 1] == NewCall(ss[k].calls[c].known);
    }
  }

  /** The result the loop has decided on is the result of the send. */
  ghost predicate Explains(ss: seq<State>, steps: seq<Step>, k: nat, c: nat, reply: Reply) {
    match reply
    case Sent => WasSent(ss, steps, k, c, None)
    case Failed(e) => WasSent(ss, steps, k, c, Some(e))
    case UnknownType => true
  }

  lemma DecisionStep(s: State, step: Step, c: nat)
    requires Enabled(s, step) && c < |Next(s, step).calls| && (Holds(s, c) ==> c < |s.calls|)
    requires Decision(Next(s, step), c).Some? && Decision(Next(s, step), c).value != UnknownType
    ensures var reply := Decision(Next(s, step), c).value;
            || (s.loop == Sending(c) && step == StreamSend(if reply.Sent? then None else Some(reply.err)))
            || (c < |s.calls| && Decision(s, c) == Some(reply))
  {
  }

  lemma {:induction false} DecisionHasItsSend(ss: seq<State>, steps: seq<Step>, k: nat, c: nat)
    requires IsRun(ss, steps) && k < |ss| && c < |ss[k].calls| && Decision(ss[k], c).Some?
    ensures Explains(ss, steps, k, c, Decision(ss[k], c).value)
  {
    var reply := Decision(ss[k], c).value;
    if reply != UnknownType {
      assert StepAt(ss, steps, k - 1);
      RunKeepsInv(ss, steps, k - 1);
      DecisionStep(ss[k - 1], steps[k - 1], c);
      if ss[k - 1].loop == Sending(c) && steps[k - 1].StreamSend? {
        assert SentAt(ss, steps, k - 1, c, steps[k - 1].result);
      } else {
        DecisionHasItsSend(ss, steps, k - 1, c);
        WasSentBefore(ss, steps, k - 1, c, if reply.Sent? then None else Some(reply.err));
      }
    }
  }

  /** Every result has its reason, in every interleaving: a sent message its send, a stream error the send that failed
      with it, "unexpected type" a message of an unknown type whose reply was read, and the other results a
      cancelled context or the error the stream was closed with. */
  lemma OutcomeHasItsReason(ss: seq<State>, steps: seq<Step>, k: nat, c: nat)
    requires IsRun(ss, steps) && k < |ss| && c < |ss[k].calls| && ss[k].calls[c].phase.Returned?
    ensures var call := ss[k].calls[c];
            && (call.phase.outcome == BadParameter <==> !call.known && TakeResult(c) in steps[..k])
            && match call.phase.outcome
               case Nil => call.known && WasSent(ss, steps, k, c, None)
               case StreamError(e) => call.known && WasSent(ss, steps, k, c, Some(e))
               case BadParameter => !call.known
               case NotSentClosed(e) => ss[k].err == Some(e)
               case ExternallyClosed => false
               case ResultSkipped => Cancel(c) in steps[..k] && SkipResult(c) in steps[..k]
               case NotSentCancelled => Cancel(c) in steps[..k] && GiveUp(c) in steps[..k]
               case ContextError => Cancel(c) in steps[..k] && GiveUp(c) !in steps[..k] && SkipResult(c) !in steps[..k]
  {
    RunRemembers(ss, steps, k, c);
    RunKeepsInv(ss, steps, k);
    assert CallMatches(ss[k], c);
    if Decision(ss[k], c).Some? {
      DecisionHasItsSend(ss, steps, k, c);
    }
  }

  /** A call with a message of a known type that nobody cancels, on a stream that neither failed nor was closed, can
      return only nil. */
  lemma UndisturbedSendReturnsNil(ss: seq<State>, steps: seq<Step>, k: nat, c: nat)
    requires IsRun(ss, steps) && k < |ss| && c < |ss[k].calls| && ss[k].calls[c].phase.Returned?
    requires ss[k].calls[c].known && Cancel(c) !in steps[..k] && ss[k].err.None?
    requires forall j :: 0 <= j < k && steps[j].StreamSend? ==> steps[j].result.None?
    ensures ss[k].calls[c].phase.outcome == Nil
  {
    OutcomeHasItsReason(ss, steps, k, c);
  }

  /** A cancelled call never waits for anybody: it can return by a step of its own, and before its message was offered
      to the loop that step says so. */
  lemma CancelledCallCanReturn(ss: seq<State>, steps: seq<Step>, k: nat, c: nat) returns (step: Step)
    requires IsRun(ss, steps) && k < |ss| && c < |ss[k].calls| && !ss[k].calls[c].phase.Returned?
    requires Cancel(c) in steps[..k]
    ensures Enabled(ss[k], step) && Next(ss[k], step).calls[c].phase.Returned?
    ensures CheckContext(c) !in steps[..k] ==> Next(ss[k], step).calls[c].phase == Returned(ContextError)
  {
    RunRemembers(ss, steps, k, c);
    match ss[k].calls[c].phase {
      case Fresh => return CheckContext(c);
      case Offering => return GiveUp(c);
      case Waiting => return SkipResult(c);
    }
  }

  lemma Extend(ss: seq<State>, steps: seq<Step>, step: Step) returns (ss': seq<State>, steps': seq<Step>)
    requires IsRun(ss, steps) && Enabled(ss[|steps|], step)
    ensures IsRun(ss', steps') && ss'[|steps'|] == Next(ss[|steps|], step)
  {
    ss', steps' := ss + [Next(ss[|steps|], step)], steps + [step];
    forall k | 0 <= k < |steps'|
      ensures StepAt(ss', steps', k)
    {
      assert k < |steps| ==> StepAt(ss, steps, k);
    }
  }

  /** A call on an open stream whose loop is idle: its message was offered. */
  lemma OfferedRun(known: bool) returns (ss: seq<State>, steps: seq<Step>)
    ensures IsRun(ss, steps) && ss[|steps|] == INIT.(calls := [Call(known, false, Offering, None, None)])
  {
    ss, steps := [INIT], [];
    ss, steps := Extend(ss, steps, NewCall(known));
    ss, steps := Extend(ss, steps, CheckContext(0));
  }

  lemma RepliedRun(known: bool, result: Option<Err>) returns (ss: seq<State>, steps: seq<Step>)
    ensures IsRun(ss, steps) && |ss[|steps|].calls| == 1
    ensures var reply := if !known then UnknownType else if result.None? then Sent else Failed(result.value);
            ss[|steps|].calls[0].phase == Returned(OutcomeOf(reply))
  {
    ss, steps := OfferedRun(known);
    ss, steps := Extend(ss, steps, Accept(0));
    if known {
      ss, steps := Extend(ss, steps, StreamSend(result));
    }
    ss, steps := Extend(ss, steps, Report);
    ss, steps := Extend(ss, steps, TakeResult(0));
  }

  lemma CancelledRun(outcome: Outcome) returns (ss: seq<State>, steps: seq<Step>)
    requires outcome.ResultSkipped? || outcome.NotSentCancelled? || outcome.ContextError?
    ensures IsRun(ss, steps) && |ss[|steps|].calls| == 1 && ss[|steps|].calls[0].phase == Returned(outcome)
  {
    if outcome.ContextError? {
      ss, steps := Extend([INIT], [], NewCall(true));
      ss, steps := Extend(ss, steps, Cancel(0));
      ss, steps := Extend(ss, steps, CheckContext(0));
    } else {
      ss, steps := OfferedRun(true);
      if outcome.ResultSkipped? {
        ss, steps := Extend(ss, steps, Accept(0));
      }
      ss, steps := Extend(ss, steps, Cancel(0));
      ss, steps := Extend(ss, steps, if outcome.ResultSkipped? then SkipResult(0) else GiveUp(0));
    }
  }

  lemma ClosedRun(e: Err) returns (ss: seq<State>, steps: seq<Step>)
    ensures IsRun(ss, steps) && |ss[|steps|].calls| == 1 && ss[|steps|].calls[0].phase == Returned(NotSentClosed(e))
  {
    ss, steps := OfferedRun(true);
    ss, steps := Extend(ss, steps, OtherCloses(Some(e)));
    ss, steps := Extend(ss, steps, FinishClose);
    ss, steps := Extend(ss, steps, SeeDone(0));
  }

  ghost predicate Returns(ss: seq<State>, steps: seq<Step>, outcome: Outcome) {
    IsRun(ss, steps) && |ss[|steps|].calls| == 1 && ss[|steps|].calls[0].phase == Returned(outcome)
  }

  /** `Send` can return each of its results, except the one for a stream that is done without an error: that one it
      never returns. */
  lemma ReachableOutcomes(outcome: Outcome)
    ensures (exists ss: seq<State>, steps: seq<Step> :: Returns(ss, steps, outcome)) <==> outcome != ExternallyClosed
  {
    var ss: seq<State>, steps: seq<Step>;
    match outcome {
      case Nil => ss, steps := RepliedRun(true, None);
      case StreamError(e) => ss, steps := RepliedRun(true, Some(e));
      case BadParameter => ss, steps := RepliedRun(false, None);
      case NotSentClosed(e) => ss, steps := ClosedRun(e);
      case ExternallyClosed => ss, steps := [INIT], [];
      case _ => ss, steps := CancelledRun(outcome);
    }
    assert outcome != ExternallyClosed ==> Returns(ss, steps, outcome);
    forall ts: seq<State>, more: seq<Step> | Returns(ts, more, outcome)
      ensures outcome != ExternallyClosed
    {
      RunKeepsInv(ts, more, |more|);
      assert CallMatches(ts[|more|], 0);
    }
  }

  /** Step j closes the stream with error e: from elsewhere with that error, or with EOF for none; or by the loop,
      after a send that failed with EOF, kept, or with another error, wrapped. */
  ghost predicate ClosedAt(ss: seq<State>, steps: seq<Step>, j: nat, e: Err) {
    && j < |steps| < |ss| && ss[j].err.None?
    && match steps[j]
       case OtherCloses(reason) => reason == Some(e) || (reason == None && e == EOF)
       case LoopCloses => LoopFailed(ss, steps, j, e)
       case _ => false
  }

  ghost predicate LoopFailed(ss: seq<State>, steps: seq<Step>, k: nat, e: Err) {
    || (e == EOF && exists c: nat :: WasSent(ss, steps, k, c, Some(EOF)))
    || (e.Wrapped? && exists c: nat, f: Err :: WasSent(ss, steps, k, c, Some(f)) && f != EOF && f.code == e.code)
  }

  lemma LoopFailedBefore(ss: seq<State>, steps: seq<Step>, k: nat, e: Err)
    requires LoopFailed(ss, steps, k, e)
    ensures LoopFailed(ss, steps, k + 1, e)
  {
    if c: nat :| e == EOF && WasSent(ss, steps, k, c, Some(EOF)) {
      WasSentBefore(ss, steps, k, c, Some(EOF));
    } else {
      var c: nat, f: Err :| WasSent(ss, steps, k, c, Some(f)) && f != EOF && f.code == e.code;
      WasSentBefore(ss, steps, k, c, Some(f));
    }
  }

  lemma {:induction false} ClosingHasItsSend(ss: seq<State>, steps: seq<Step>, k: nat)
    requires IsRun(ss, steps) && k < |ss| && ss[k].loop.Closing?
    ensures LoopFailed(ss, steps, k, ss[k].loop.reason)
  {
    assert StepAt(ss, steps, k - 1);
    var s := ss[k - 1];
    if s.loop.Closing? {
      ClosingHasItsSend(ss, steps, k - 1);
      LoopFailedBefore(ss, steps, k - 1, s.loop.reason);
    } else {
      DecisionHasItsSend(ss, steps, k - 1, s.loop.call);
      WasSentBefore(ss, steps, k - 1, s.loop.call, Some(s.loop.reply.err));
    }
  }

  /** The error of a closed stream is the reason of the first close. */
  lemma {:induction false} CloseErrorHasItsReason(ss: seq<State>, steps: seq<Step>, k: nat)
    requires IsRun(ss, steps) && k < |ss| && ss[k].err.Some?
    ensures exists j: nat :: j < k && ClosedAt(ss, steps, j, ss[k].err.value)
  {
    assert StepAt(ss, steps, k - 1);
    if ss[k - 1].err.Some? {
      CloseErrorHasItsReason(ss, steps, k - 1);
    } else {
      if steps[k - 1].LoopCloses? {
        ClosingHasItsSend(ss, steps, k - 1);
      }
      assert ClosedAt(ss, steps, k - 1, ss[k].err.value);
    }
  }

  // ---------- The stream and the close ----------

  /** Messages go to the stream in the order the loop accepted them, one at a time, and nothing is sent
      after a failed send. */
  lemma StreamFollowsAcceptance(ss: seq<State>, steps: seq<Step>, k: nat)
    requires IsRun(ss, steps) && k < |ss|
    ensures Ids(ss[k].stream) <= ss[k].accepted && |ss[k].accepted| <= |ss[k].stream| + 1
    ensures forall i :: 0 <= i < |ss[k].stream| - 1 ==> ss[k].stream[i].ok
    ensures k < |steps| && steps[k].StreamSend? ==> forall i :: 0 <= i < |ss[k].stream| ==> ss[k].stream[i].ok
  {
    RunKeepsInv(ss, steps, k);
    assert k < |steps| ==> StepAt(ss, steps, k);
    IdsLength(ss[k].stream);
  }

  lemma {:induction false} IdsLength(stream: seq<Attempt>)
    ensures |Ids(stream)| == |stream|
  {
    if stream != [] {
      IdsLength(stream[..|stream| - 1]);
    }
  }

  /** The loop never blocks on a result channel: whenever it has a reply, there is room for it. */
  lemma ReportNeverBlocks(ss: seq<State>, steps: seq<Step>, k: nat)
    requires IsRun(ss, steps) && k < |ss| && ss[k].loop.Reporting?
    ensures Enabled(ss[k], Report)
  {
    RunKeepsInv(ss, steps, k);
    assert CallMatches(ss[k], ss[k].loop.call);
  }

  /** The done channel is closed at most once, never before the error is set, and the first close
      error is kept forever; once done, `Error` is never nil. */
  lemma {:induction false} FirstCloseErrorIsKept(ss: seq<State>, steps: seq<Step>, i: nat, j: nat)
    requires IsRun(ss, steps) && i <= j < |ss|
    ensures ss[j].closes <= 1
    ensures ss[j].done ==> ss[j].err.Some? && ss[j].closes == 1
    ensures ss[i].err.Some? ==> ss[j].err == ss[i].err
    ensures ss[i].done ==> ss[j].done
    decreases j - i
  {
    RunKeepsInv(ss, steps, j);
    if i < j {
      FirstCloseErrorIsKept(ss, steps, i, j - 1);
      assert StepAt(ss, steps, j - 1);
      CloseStep(ss[j - 1], steps[j - 1]);
    }
  }

  lemma CloseStep(s: State, step: Step)
    requires Enabled(s, step)
    ensures s.err.Some? ==> Next(s, step).err == s.err
    ensures s.done ==> Next(s, step).done
  {
  }

  predicate FromOutside(step: Step) {
    step.NewCall? || step.Cancel? || step.OtherCloses?
  }

  /** While any call is pending, the loop, the closer or a caller can step without help from outside
      (a stream send being assumed to end). */
  lemma NeverStuck(s: State, c: nat) returns (step: Step)
    requires Inv(s) && c < |s.calls| && !s.calls[c].phase.Returned?
    ensures Enabled(s, step) && !FromOutside(step)
  {
    assert CallMatches(s, c);
    if s.loop.Reporting? {
      assert CallMatches(s, s.loop.call);
      return Report;
    } else if s.loop.Sending? {
      return StreamSend(None);
    } else if s.closing {
      return FinishClose;
    } else if s.loop.Closing? {
      return LoopCloses;
    }
    match s.calls[c].phase {
      case Fresh => return CheckContext(c);
      case Offering => return if s.loop.Idle? then Accept(c) else SeeDone(c);
      case Waiting => return TakeResult(c);
    }
  }

  // ---------- Every call ends ----------

  function PhaseWeight(p: Phase): nat {
    match p
    case Fresh => 5
    case Offering => 4
    case Waiting => 1
    case Returned(_) => 0
  }

  function CallsWeight(calls: seq<Call>): nat {
    if calls == [] then 0 else CallsWeight(calls[..|calls| - 1]) + PhaseWeight(calls[|calls| - 1].phase)
  }

  lemma {:induction false} WeightUpdate(calls: seq<Call>, c: nat, call: Call)
    requires c < |calls|
    ensures CallsWeight(calls[c := call]) + PhaseWeight(calls[c].phase) == CallsWeight(calls) + PhaseWeight(call.phase)
  {
    var n := |calls| - 1;
    if c == n {
      assert calls[c := call][..n] == calls[..n];
    } else {
      assert calls[c := call][..n] == calls[..n][c := call];
      WeightUpdate(calls[..n], c, call);
    }
  }

  lemma WeightAppend(calls: seq<Call>, call: Call)
    ensures CallsWeight(calls + [call]) == CallsWeight(calls) + PhaseWeight(call.phase)
  {
    assert (calls + [call])[..|calls|] == calls;
  }

  function LoopWeight(l: Loop): nat {
    match l
    case Idle => 3
    case Sending(_) => 5
    case Reporting(_, _) => 4
    case Closing(_) => 2
    case Stopped => 0
  }

  /** The steps the loop, the closer and the callers can still make by themselves. */
  function Measure(s: State): nat {
    CallsWeight(s.calls) + LoopWeight(s.loop) + if s.closing then 1 else 0
  }

  /** What a step from outside adds to it. */
  function Budget(step: Step): nat {
    if step.NewCall? then 5 else if step.OtherCloses? then 1 else 0
  }

  function Cost(step: Step): nat {
    if FromOutside(step) then 0 else 1
  }

  /** The call a step changes, if any. */
  function Touched(s: State, step: Step): nat {
    match step
    case Cancel(c) => c
    case CheckContext(c) => c
    case Accept(c) => c
    case Report => if s.loop.Reporting? then s.loop.call else 0
    case TakeResult(c) => c
    case SkipResult(c) => c
    case GiveUp(c) => c
    case SeeDone(c) => c
    case _ => 0
  }

  lemma StepWeight(s: State, step: Step)
    requires Enabled(s, step)
    ensures var n, c := Next(s, step), Touched(s, step);
            if step.NewCall? then CallsWeight(n.calls) == CallsWeight(s.calls) + 5
            else if n.calls == s.calls then true
            else && c < |s.calls| == |n.calls|
                 && CallsWeight(n.calls) + PhaseWeight(s.calls[c].phase) ==
                    CallsWeight(s.calls) + PhaseWeight(n.calls[c].phase)
  {
    var n, c := Next(s, step), Touched(s, step);
    if step.NewCall? {
      WeightAppend(s.calls, n.calls[|s.calls|]);
    } else if n.calls != s.calls {
      assert n.calls == s.calls[c := n.calls[c]];
      WeightUpdate(s.calls, c, n.calls[c]);
    }
  }

  /** Every step that is not from outside uses up the measure. */
  lemma StepSpends(s: State, step: Step)
    requires Enabled(s, step)
    ensures Cost(step) + Measure(Next(s, step)) <= Measure(s) + Budget(step)
  {
    StepWeight(s, step);
  }

  function Tally(steps: seq<Step>, f: Step -> nat): nat {
    if steps == [] then 0 else Tally(steps[..|steps| - 1], f) + f(steps[|steps| - 1])
  }

  lemma {:induction false} RunSpends(ss: seq<State>, steps: seq<Step>, k: nat)
    requires IsRun(ss, steps) && k < |ss|
    ensures Tally(steps[..k], Cost) + Measure(ss[k]) <= 3 + Tally(steps[..k], Budget)
  {
    if k > 0 {
      RunSpends(ss, steps, k - 1);
      assert StepAt(ss, steps, k - 1);
      StepSpends(ss[k - 1], steps[k - 1]);
      assert steps[..k][..k - 1] == steps[..k - 1];
    }
  }

  /** Every call ends, if stream sends do: in any run the steps of the loop, the closer and the callers number at
      most three, five for each call made and one for each close from elsewhere; and when none of
      them can go on, every call has returned. */
  lemma EveryCallEnds(ss: seq<State>, steps: seq<Step>)
    requires IsRun(ss, steps)
    ensures Tally(steps, Cost) <= 3 + Tally(steps, Budget)
    ensures (forall c :: 0 <= c < |ss[|steps|].calls| ==> ss[|steps|].calls[c].phase.Returned?) ||
            exists step: Step :: Enabled(ss[|steps|], step) && !FromOutside(step)
  {
    RunSpends(ss, steps, |steps|);
    assert steps[..|steps|] == steps;
    RunKeepsInv(ss, steps, |steps|);
    if c :| 0 <= c < |ss[|steps|].calls| && !ss[|steps|].calls[c].phase.Returned? {
      var step := NeverStuck(ss[|steps|], c);
    }
  }
}
