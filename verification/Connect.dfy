/** The parallel dial of `connect` in api/client/client.go as a step system: one producer,
    the dialing workers it starts, the goroutine that waits for the WaitGroup and closes
    the error channel, the selecting main loop, and the drainer left behind when a client wins.
    Both channels are unbuffered, so a send is one step shared with its receiver. Dial
    outcomes and the caller's cancellation may come at any point. */
module Connect {

  // ---------- What the producer does with the configuration ----------

  datatype AddrSource = Addrs(n: nat) | AddrsFail

  /** One credential: whether its TLS or SSH configuration cannot be built, whether it has
      an SSH configuration, and the addresses it falls back to when none are configured. */
  datatype Credential = Credential(broken: bool, hasSSH: bool, fallback: AddrSource)

  datatype Config = Config(credentials: seq<Credential>, hasDialer: bool, addrs: nat)

  /** A step of the producer: start a worker, or report an error itself. */
  datatype Action = Spawn | Report

  function Repeat(a: Action, n: nat): seq<Action> {
    seq(n, i => a)
  }

  /** Per address one direct attempt, and four more through the proxy given an SSH configuration. */
  function PlanOne(cfg: Config, c: Credential): seq<Action> {
    if c.broken then [Report]
    else
      var dialer := if cfg.hasDialer then [Spawn] else [];
      if cfg.addrs == 0 && c.fallback.AddrsFail? then dialer + [Report]
      else
        var n := if cfg.addrs != 0 then cfg.addrs else c.fallback.n;
        dialer + Repeat(Spawn, n * (if c.hasSSH then 5 else 1))
  }

  function Plan(cfg: Config, k: nat): (p: seq<Action>)
    requires k <= |cfg.credentials|
    decreases |cfg.credentials| - k
  {
    if k == |cfg.credentials| then [] else PlanOne(cfg, cfg.credentials[k]) + Plan(cfg, k + 1)
  }

  // ---------- State ----------

  datatype Fate = Failed | Delivered | Closed

  /** Leaving: the deferred wg.Done is still to run. */
  datatype Worker = Dialing | SendingErr | Offering | Leaving(fate: Fate) | Gone(fate: Fate)

  datatype Waiter = Blocked | Woken | Finished

  datatype Outcome = Client(worker: nat) | Errors

  /** Returning: the result is chosen and the deferred cancel is still to run. */
  datatype Main = Selecting | Returning(outcome: Outcome) | Returned(outcome: Outcome)

  datatype Drainer = Absent | Draining | Stopped

  /** Who sent an error: the producer at a plan position, or a worker. */
  datatype Source = FromProducer(at: nat) | FromWorker(id: nat)

  /** `dialed` and `closes` log the clients that were opened and, in order, closed. */
  datatype State = State(
    plan: seq<Action>, pc: nat, producerDone: bool, workers: seq<Worker>, wg: int,
    waiter: Waiter, errClosed: bool, main: Main, errs: seq<Source>, drainer: Drainer,
    callerCancelled: bool, cancelled: bool, dialed: set<nat>, closes: seq<nat>)

  function Init(plan: seq<Action>): State {
    State(plan, 0, false, [], 1, Blocked, false, Selecting, [], Absent, false, false, {}, [])
  }

  // ---------- Steps ----------

  datatype Step =
    | ProducerSpawn
    | ProducerReport
    | ProducerExit
    | DialSucceeds(i: nat)
    | DialFails(i: nat)
    | WorkerReports(i: nat)
    | WorkerDelivers(i: nat)
    | WorkerCloses(i: nat)
    | WorkerExits(i: nat)
    | WaiterWakes
    | WaiterClosesErrors
    | MainSeesClosed
    | MainCancels
    | DrainerStops
    | CallerCancels

  /** Somebody is ready to receive from the open error channel. */
  predicate ErrReceiver(s: State) {
    !s.errClosed && (s.main.Selecting? || s.drainer.Draining?)
  }

  predicate At(s: State, i: nat, w: Worker) {
    i < |s.workers| && s.workers[i] == w
  }

  predicate Enabled(s: State, step: Step) {
    match step
    case ProducerSpawn => !s.producerDone && s.pc < |s.plan| && s.plan[s.pc].Spawn?
    case ProducerReport => !s.producerDone && s.pc < |s.plan| && s.plan[s.pc].Report? && ErrReceiver(s)
    case ProducerExit => !s.producerDone && s.pc == |s.plan|
    case DialSucceeds(i) => At(s, i, Dialing)
    case DialFails(i) => At(s, i, Dialing)
    case WorkerReports(i) => At(s, i, SendingErr) && ErrReceiver(s)
    case WorkerDelivers(i) => At(s, i, Offering) && s.main.Selecting?
    case WorkerCloses(i) => At(s, i, Offering) && s.cancelled
    case WorkerExits(i) => i < |s.workers| && s.workers[i].Leaving?
    case WaiterWakes => s.waiter.Blocked? && s.wg == 0
    case WaiterClosesErrors => s.waiter.Woken?
    case MainSeesClosed => s.main.Selecting? && s.errClosed
    case MainCancels => s.main.Returning?
    case DrainerStops => s.drainer.Draining? && s.errClosed
    case CallerCancels => !s.callerCancelled
  }

  /** An error is kept by the main loop and discarded by the drainer. */
  function Receive(s: State, from: Source): State {
    if s.main.Selecting? then s.(errs := s.errs + [from]) else s
  }

  function SetWorker(s: State, i: nat, w: Worker): State
    requires i < |s.workers|
  {
    s.(workers := s.workers[i := w])
  }

  function Next(s: State, step: Step): State
    requires Enabled(s, step)
  {
    match step
    case ProducerSpawn => s.(pc := s.pc + 1, workers := s.workers + [Dialing], wg := s.wg + 1)
    case ProducerReport => Receive(s, FromProducer(s.pc)).(pc := s.pc + 1)
    case ProducerExit => s.(producerDone := true, wg := s.wg - 1)
    case DialSucceeds(i) => SetWorker(s, i, Offering).(dialed := s.dialed + {i})
    case DialFails(i) => SetWorker(s, i, SendingErr)
    case WorkerReports(i) => SetWorker(Receive(s, FromWorker(i)), i, Leaving(Failed))
    case WorkerDelivers(i) => SetWorker(s, i, Leaving(Delivered)).(main := Returning(Client(i)), drainer := Draining)
    case WorkerCloses(i) => SetWorker(s, i, Leaving(Closed)).(closes := s.closes + [i])
    case WorkerExits(i) => SetWorker(s, i, Gone(s.workers[i].fate)).(wg := s.wg - 1)
    case WaiterWakes => s.(waiter := Woken)
    case WaiterClosesErrors => s.(waiter := Finished, errClosed := true)
    case MainSeesClosed => s.(main := Returning(Errors))
    case MainCancels => s.(main := Returned(s.main.outcome), cancelled := true)
    case DrainerStops => s.(drainer := Stopped)
    case CallerCancels => s.(callerCancelled := true, cancelled := true)
  }

  ghost predicate StepAt(ss: seq<State>, steps: seq<Step>, k: nat)
    requires |ss| == |steps| + 1 && k < |steps|
  {
    Enabled(ss[k], steps[k]) && ss[k + 1] == Next(ss[k], steps[k])
  }

  /** ss is the sequence of states `connect` goes through from the start by these steps. */
  ghost predicate IsRun(plan: seq<Action>, ss: seq<State>, steps: seq<Step>) {
    && |ss| == |steps| + 1
    && ss[0] == Init(plan)
    && forall k :: 0 <= k < |steps| ==> StepAt(ss, steps, k)
  }

  /** Every goroutine has ended. */
  predicate Terminal(s: State) {
    && s.producerDone
    && (forall i :: 0 <= i < |s.workers| ==> s.workers[i].Gone?)
    && s.waiter.Finished?
    && s.main.Returned?
    && !s.drainer.Draining?
  }

  // ---------- Sums over the workers ----------

  function Sum(ws: seq<Worker>, f: Worker -> nat): nat {
    if ws == [] then 0 else Sum(ws[..|ws| - 1], f) + f(ws[|ws| - 1])
  }

  lemma {:induction false} SumUpdate(ws: seq<Worker>, f: Worker -> nat, i: nat, w: Worker)
    requires i < |ws|
    ensures Sum(ws[i := w], f) + f(ws[i]) == Sum(ws, f) + f(w)
  {
    var n := |ws| - 1;
    if i == n {
      assert ws[i := w][..n] == ws[..n];
    } else {
      assert ws[i := w][..n] == ws[..n][i := w];
      SumUpdate(ws[..n], f, i, w);
    }
  }

  lemma SumAppend(ws: seq<Worker>, f: Worker -> nat, w: Worker)
    ensures Sum(ws + [w], f) == Sum(ws, f) + f(w)
  {
  }

  function LiveOne(w: Worker): nat {
    if w.Gone? then 0 else 1
  }

  lemma {:induction false} LiveZero(ws: seq<Worker>)
    ensures Sum(ws, LiveOne) == 0 <==> forall i :: 0 <= i < |ws| ==> ws[i].Gone?
  {
    if ws != [] {
      LiveZero(ws[..|ws| - 1]);
      assert forall i :: 0 <= i < |ws| - 1 ==> ws[i] == ws[..|ws| - 1][i];
    }
  }

  predicate MovesWorker(step: Step) {
    step.DialSucceeds? || step.DialFails? || step.WorkerReports? || step.WorkerDelivers? ||
    step.WorkerCloses? || step.WorkerExits?
  }

  lemma SumStep(s: State, step: Step, f: Worker -> nat)
    requires Enabled(s, step)
    ensures var n := Next(s, step);
            if step.ProducerSpawn? then Sum(n.workers, f) == Sum(s.workers, f) + f(Dialing)
            else if MovesWorker(step) then
              && step.i < |s.workers| == |n.workers|
              && Sum(n.workers, f) + f(s.workers[step.i]) == Sum(s.workers, f) + f(n.workers[step.i])
            else n.workers == s.workers
  {
    if step.ProducerSpawn? {
      SumAppend(s.workers, f, Dialing);
    } else if MovesWorker(step) {
      SumUpdate(s.workers, f, step.i, Next(s, step).workers[step.i]);
    }
  }

  // ---------- What every step keeps ----------

  /** The WaitGroup counts the producer and every worker that has not run its deferred Done. */
  ghost predicate WaitGroupMatches(s: State) {
    && s.pc <= |s.plan|
    && (s.producerDone ==> s.pc == |s.plan|)
    && s.wg == Sum(s.workers, LiveOne) + (if s.producerDone then 0 else 1)
    && (!s.waiter.Blocked? ==> s.wg == 0)
    && (s.errClosed <==> s.waiter.Finished?)
  }

  /** How many of the first k planned actions start a worker. */
  function Spawns(plan: seq<Action>, k: nat): nat
    requires k <= |plan|
  {
    if k == 0 then 0 else Spawns(plan, k - 1) + if plan[k - 1].Spawn? then 1 else 0
  }

  function FailedOne(w: Worker): nat {
    if w == Leaving(Failed) || w == Gone(Failed) then 1 else 0
  }

  /** The workers are the planned ones so far and, unless a client won, there are as many errors as
      reports of the producer and failed workers. */
  ghost predicate TotalsMatch(s: State) {
    && s.pc <= |s.plan| && |s.workers| == Spawns(s.plan, s.pc)
    && (s.drainer.Absent? ==> |s.errs| == s.pc - |s.workers| + Sum(s.workers, FailedOne))
  }

  /** The main loop, its drainer and the context. */
  ghost predicate MainMatches(s: State) {
    && (s.drainer.Absent? <==> s.main.Selecting? || s.main.outcome.Errors?)
    && (!s.main.Selecting? && s.main.outcome.Errors? ==> s.errClosed)
    && (s.drainer.Stopped? ==> s.errClosed)
    && (s.cancelled <==> s.callerCancelled || s.main.Returned?)
  }

  predicate HasFate(s: State, i: nat, f: Fate) {
    i < |s.workers| && (s.workers[i] == Leaving(f) || s.workers[i] == Gone(f))
  }

  predicate ReturnsClient(s: State, i: nat) {
    !s.main.Selecting? && s.main.outcome == Client(i)
  }

  ghost predicate ClientMatches(s: State, i: nat) {
    && (HasFate(s, i, Delivered) <==> ReturnsClient(s, i))
    && (HasFate(s, i, Closed) ==> s.callerCancelled || !s.drainer.Absent?)
    && (i in s.dialed <==> At(s, i, Offering) || HasFate(s, i, Delivered) || HasFate(s, i, Closed))
    && multiset(s.closes)[i] == if HasFate(s, i, Closed) then 1 else 0
  }

  /** Every opened client is held by its worker, delivered to the main loop or closed once. */
  ghost predicate ClientsMatch(s: State) {
    forall i: nat :: ClientMatches(s, i)
  }

  predicate Reported(s: State, from: Source) {
    match from
    case FromProducer(k) => k < s.pc && k < |s.plan| && s.plan[k].Report?
    case FromWorker(i) => HasFate(s, i, Failed)
  }

  /** Unless a client won, the main loop has exactly one error per reported failure. */
  ghost predicate ErrsMatch(s: State) {
    s.drainer.Absent? ==>
      forall from: Source :: multiset(s.errs)[from] == if Reported(s, from) then 1 else 0
  }

  ghost predicate Inv(s: State) {
    WaitGroupMatches(s) && TotalsMatch(s) && MainMatches(s) && ClientsMatch(s) && ErrsMatch(s)
  }

  lemma NextKeepsWaitGroup(s: State, step: Step)
    requires WaitGroupMatches(s) && Enabled(s, step)
    ensures WaitGroupMatches(Next(s, step))
  {
    LiveZero(s.workers);
    SumStep(s, step, LiveOne);
  }

  lemma NextKeepsTotals(s: State, step: Step)
    requires TotalsMatch(s) && MainMatches(s) && Enabled(s, step)
    ensures TotalsMatch(Next(s, step))
  {
    SumStep(s, step, FailedOne);
  }

  lemma ClosedMeansDone(s: State)
    requires WaitGroupMatches(s) && s.wg == 0
    ensures s.producerDone && AllGone(s)
  {
    LiveZero(s.workers);
  }

  lemma NextKeepsMain(s: State, step: Step)
    requires MainMatches(s) && WaitGroupMatches(s) && Enabled(s, step)
    ensures MainMatches(Next(s, step))
  {
  }

  ghost predicate AllGone(s: State) {
    forall i :: 0 <= i < |s.workers| ==> s.workers[i].Gone?
  }

  lemma CloseStep(s: State, step: Step, i: nat)
    requires Enabled(s, step)
    ensures multiset(Next(s, step).closes)[i] == multiset(s.closes)[i] + if step == WorkerCloses(i) then 1 else 0
  {
  }

  lemma OwnStepKeepsClient(s: State, step: Step)
    requires Enabled(s, step) && MovesWorker(step)
    requires (s.errClosed ==> AllGone(s)) && MainMatches(s) && ClientMatches(s, step.i)
    ensures ClientMatches(Next(s, step), step.i)
  {
    CloseStep(s, step, step.i);
  }

  lemma OtherWorkerKeepsClient(s: State, step: Step, i: nat)
    requires Enabled(s, step) && MovesWorker(step) && step.i != i
    requires MainMatches(s) && ClientMatches(s, i)
    ensures ClientMatches(Next(s, step), i)
  {
  }

  lemma OtherStepKeepsClient(s: State, step: Step, i: nat)
    requires (s.errClosed ==> AllGone(s)) && MainMatches(s) && ClientMatches(s, i)
    requires Enabled(s, step) && !MovesWorker(step)
    ensures ClientMatches(Next(s, step), i)
  {
  }

  lemma NextKeepsClients(s: State, step: Step)
    requires Inv(s) && Enabled(s, step)
    ensures ClientsMatch(Next(s, step))
  {
    if s.errClosed {
      ClosedMeansDone(s);
    }
    forall i: nat
      ensures ClientMatches(Next(s, step), i)
    {
      assert ClientMatches(s, i);
      if MovesWorker(step) {
        if step.i == i {
          OwnStepKeepsClient(s, step);
        } else {
          OtherWorkerKeepsClient(s, step, i);
        }
      } else {
        OtherStepKeepsClient(s, step, i);
      }
    }
  }

  predicate Reports(s: State, step: Step, from: Source) {
    (step.ProducerReport? && from == FromProducer(s.pc)) || (step.WorkerReports? && from == FromWorker(step.i))
  }

  lemma WorkerReportedStep(s: State, step: Step, i: nat)
    requires Enabled(s, step)
    ensures Reports(s, step, FromWorker(i)) ==> !Reported(s, FromWorker(i))
    ensures Reported(Next(s, step), FromWorker(i)) <==> Reported(s, FromWorker(i)) || Reports(s, step, FromWorker(i))
  {
  }

  lemma ProducerReportedStep(s: State, step: Step, k: nat)
    requires Enabled(s, step)
    ensures Reports(s, step, FromProducer(k)) ==> !Reported(s, FromProducer(k))
    ensures Reported(Next(s, step), FromProducer(k)) <==>
            Reported(s, FromProducer(k)) || Reports(s, step, FromProducer(k))
  {
  }

  lemma ErrsStep(s: State, step: Step, from: Source)
    requires Enabled(s, step) && MainMatches(s) && Next(s, step).drainer.Absent?
    ensures multiset(Next(s, step).errs)[from] == multiset(s.errs)[from] + if Reports(s, step, from) then 1 else 0
  {
  }

  lemma NextKeepsErrs(s: State, step: Step)
    requires MainMatches(s) && ErrsMatch(s) && Enabled(s, step)
    ensures ErrsMatch(Next(s, step))
  {
    var n := Next(s, step);
    if n.drainer.Absent? {
      forall from: Source
        ensures multiset(n.errs)[from] == if Reported(n, from) then 1 else 0
      {
        match from {
          case FromWorker(i) => WorkerReportedStep(s, step, i);
          case FromProducer(k) => ProducerReportedStep(s, step, k);
        }
        ErrsStep(s, step, from);
      }
    }
  }

  lemma NextKeepsInv(s: State, step: Step)
    requires Inv(s) && Enabled(s, step)
    ensures Inv(Next(s, step)) && Next(s, step).plan == s.plan
  {
    NextKeepsWaitGroup(s, step);
    NextKeepsTotals(s, step);
    NextKeepsMain(s, step);
    NextKeepsClients(s, step);
    NextKeepsErrs(s, step);
  }

  lemma {:induction false} RunKeepsInv(plan: seq<Action>, ss: seq<State>, steps: seq<Step>, k: nat)
    requires IsRun(plan, ss, steps) && k < |ss|
    ensures Inv(ss[k]) && ss[k].plan == plan
  {
    if k > 0 {
      RunKeepsInv(plan, ss, steps, k - 1);
      assert StepAt(ss, steps, k - 1);
      NextKeepsInv(ss[k - 1], steps[k - 1]);
    }
  }

  // ---------- Channel safety, progress and termination ----------

  /** The error channel is closed at most once, only after the producer and every worker are done, so
      nobody ever sends or waits to send on it afterwards; the WaitGroup counter is never negative
      and every Add happens while it is positive and nobody was woken. */
  lemma ErrorChannelIsSafe(plan: seq<Action>, ss: seq<State>, steps: seq<Step>, k: nat)
    requires IsRun(plan, ss, steps) && k < |ss|
    ensures ss[k].wg >= 0
    ensures ss[k].wg == 0 <==> ss[k].producerDone && forall i :: 0 <= i < |ss[k].workers| ==> ss[k].workers[i].Gone?
    ensures ss[k].errClosed ==> ss[k].wg == 0
    ensures k < |steps| && steps[k].ProducerSpawn? ==> ss[k].wg > 0 && ss[k].waiter.Blocked?
    ensures k < |steps| && steps[k].WaiterClosesErrors? ==> !ss[k].errClosed
  {
    RunKeepsInv(plan, ss, steps, k);
    LiveZero(ss[k].workers);
    assert k < |steps| ==> StepAt(ss, steps, k);
  }

  /** Until every goroutine has ended some goroutine can step, without any help from the caller. */
  lemma NeverStuck(s: State) returns (step: Step)
    requires Inv(s) && !Terminal(s)
    ensures Enabled(s, step) && !step.CallerCancels?
  {
    LiveZero(s.workers);
    if s.main.Returning? {
      return MainCancels;
    }
    if i: nat :| i < |s.workers| && !s.workers[i].Gone? {
      match s.workers[i] {
        case Dialing => return DialFails(i);
        case SendingErr => return WorkerReports(i);
        case Offering => return if s.main.Selecting? then WorkerDelivers(i) else WorkerCloses(i);
        case Leaving(_) => return WorkerExits(i);
      }
    }
    if !s.producerDone {
      return if s.pc == |s.plan| then ProducerExit else if s.plan[s.pc].Spawn? then ProducerSpawn else ProducerReport;
    }
    match s.waiter {
      case Blocked => return WaiterWakes;
      case Woken => return WaiterClosesErrors;
      case Finished => return if s.main.Selecting? then MainSeesClosed else DrainerStops;
    }
  }

  function WeightOne(w: Worker): nat {
    match w
    case Dialing => 3
    case SendingErr => 2
    case Offering => 2
    case Leaving(_) => 1
    case Gone(_) => 0
  }

  ghost function Measure(s: State): int {
    4 * (|s.plan| - s.pc)
    + (if s.producerDone then 0 else 1)
    + Sum(s.workers, WeightOne)
    + (match s.waiter case Blocked => 2 case Woken => 1 case Finished => 0)
    + (match s.main case Selecting => 3 case Returning(_) => 1 case Returned(_) => 0)
    + (if s.drainer.Draining? then 1 else 0)
    + (if s.callerCancelled then 0 else 1)
  }

  lemma WorkerStepLowersMeasure(s: State, step: Step)
    requires Enabled(s, step) && MovesWorker(step)
    ensures Measure(Next(s, step)) < Measure(s)
  {
    SumStep(s, step, WeightOne);
  }

  lemma OtherStepLowersMeasure(s: State, step: Step)
    requires Enabled(s, step) && !MovesWorker(step)
    ensures Measure(Next(s, step)) < Measure(s)
  {
    SumStep(s, step, WeightOne);
  }

  lemma EveryStepDecreases(s: State, step: Step)
    requires WaitGroupMatches(s) && Enabled(s, step)
    ensures 0 <= Measure(Next(s, step)) < Measure(s)
  {
    if MovesWorker(step) {
      WorkerStepLowersMeasure(s, step);
    } else {
      OtherStepLowersMeasure(s, step);
    }
    NextKeepsWaitGroup(s, step);
  }

  lemma {:induction false} MeasureBoundsRun(plan: seq<Action>, ss: seq<State>, steps: seq<Step>, k: nat)
    requires IsRun(plan, ss, steps) && k < |ss|
    ensures 0 <= Measure(ss[k]) <= 4 * |plan| + 7 - k
  {
    if k > 0 {
      MeasureBoundsRun(plan, ss, steps, k - 1);
      RunKeepsInv(plan, ss, steps, k - 1);
      assert StepAt(ss, steps, k - 1);
      EveryStepDecreases(ss[k - 1], steps[k - 1]);
    }
  }

  /** If every dial ends, all goroutines end: no run is longer than four steps per planned action
      plus seven, and a run that cannot be extended by a goroutine has ended all of them. */
  lemma EveryRunEnds(plan: seq<Action>, ss: seq<State>, steps: seq<Step>)
    requires IsRun(plan, ss, steps)
    ensures |steps| <= 4 * |plan| + 7
    ensures Terminal(ss[|steps|]) || exists step: Step :: Enabled(ss[|steps|], step) && !step.CallerCancels?
  {
    MeasureBoundsRun(plan, ss, steps, |steps|);
    RunKeepsInv(plan, ss, steps, |steps|);
    if !Terminal(ss[|steps|]) {
      var step := NeverStuck(ss[|steps|]);
    }
  }

  // ---------- Who owns the clients, what an error means ----------

  /** When all goroutines have ended, each opened client is the one returned or was closed exactly once,
      never both and never neither, and nothing else was returned or closed. */
  lemma EveryClientIsReturnedOrClosed(plan: seq<Action>, ss: seq<State>, steps: seq<Step>, k: nat, i: nat)
    requires IsRun(plan, ss, steps) && k < |ss| && Terminal(ss[k])
    ensures i in ss[k].dialed ==> multiset(ss[k].closes)[i] == if ReturnsClient(ss[k], i) then 0 else 1
    ensures i !in ss[k].dialed ==> !ReturnsClient(ss[k], i) && multiset(ss[k].closes)[i] == 0
  {
    RunKeepsInv(plan, ss, steps, k);
    var s := ss[k];
    assert ClientMatches(s, i);
  }

  /** Every error of the main loop's aggregate: one for each planned report and each worker. */
  ghost predicate OneErrorEach(s: State) {
    && (forall k: nat :: multiset(s.errs)[FromProducer(k)] == if k < |s.plan| && s.plan[k].Report? then 1 else 0)
    && (forall i: nat :: multiset(s.errs)[FromWorker(i)] == if i < |s.workers| then 1 else 0)
  }

  lemma {:induction false} AllFailedSum(ws: seq<Worker>)
    requires forall i :: 0 <= i < |ws| ==> ws[i] == Gone(Failed)
    ensures Sum(ws, FailedOne) == |ws|
  {
    if ws != [] {
      AllFailedSum(ws[..|ws| - 1]);
    }
  }

  /** Unless the caller cancels, `connect` fails exactly when no dial succeeded, and then it collected exactly
      one error for each planned action: the producer's reports and the attempts, all of them started. */
  lemma ErrorMeansNothingConnected(plan: seq<Action>, ss: seq<State>, steps: seq<Step>, k: nat)
    requires IsRun(plan, ss, steps) && k < |ss| && Terminal(ss[k]) && !ss[k].callerCancelled
    ensures ss[k].main.outcome.Errors? <==> ss[k].dialed == {}
    ensures ss[k].main.outcome.Errors? ==>
              OneErrorEach(ss[k]) && |ss[k].errs| == |plan| && |ss[k].workers| == Spawns(plan, |plan|)
  {
    RunKeepsInv(plan, ss, steps, k);
    var s := ss[k];
    if s.main.outcome.Errors? {
      forall j: nat
        ensures j !in s.dialed && (j < |s.workers| ==> s.workers[j] == Gone(Failed))
        ensures multiset(s.errs)[FromWorker(j)] == if j < |s.workers| then 1 else 0
      {
        NotCancelledMeansFailed(s, j);
        assert multiset(s.errs)[FromWorker(j)] == if Reported(s, FromWorker(j)) then 1 else 0;
      }
      forall j: nat
        ensures multiset(s.errs)[FromProducer(j)] == if j < |s.plan| && s.plan[j].Report? then 1 else 0
      {
        assert multiset(s.errs)[FromProducer(j)] == if Reported(s, FromProducer(j)) then 1 else 0;
      }
      AllFailedSum(s.workers);
    } else {
      assert ClientMatches(s, s.main.outcome.worker);
      assert s.main.outcome.worker in s.dialed;
    }
  }

  /** When `connect` returns errors, only a caller who cancelled can have made a worker close its client. */
  lemma NotCancelledMeansFailed(s: State, i: nat)
    requires Inv(s) && Terminal(s) && s.main.outcome.Errors? && !s.callerCancelled
    ensures i < |s.workers| ==> HasFate(s, i, Failed)
    ensures i !in s.dialed
  {
    assert ClientMatches(s, i);
    if i < |s.workers| {
      match s.workers[i].fate {
        case Failed =>
        case Delivered =>
        case Closed =>
      }
    }
  }

  // ---------- What the plan holds ----------

  /** The producer itself reports an error about this credential. */
  predicate FailsBeforeDialing(cfg: Config, c: Credential) {
    c.broken || (cfg.addrs == 0 && c.fallback.AddrsFail?)
  }

  /** How often the producer dials with this credential. */
  function AttemptsOne(cfg: Config, c: Credential): nat {
    if c.broken then 0
    else
      var dialer := if cfg.hasDialer then 1 else 0;
      if FailsBeforeDialing(cfg, c) then dialer
      else dialer + (if cfg.addrs != 0 then cfg.addrs else c.fallback.n) * (if c.hasSSH then 5 else 1)
  }

  lemma {:induction false} RepeatCounts(n: nat)
    ensures multiset(Repeat(Spawn, n))[Spawn] == n && multiset(Repeat(Spawn, n))[Report] == 0
  {
    if n > 0 {
      RepeatCounts(n - 1);
      assert Repeat(Spawn, n) == Repeat(Spawn, n - 1) + [Spawn];
    }
  }

  /** A credential that fails before dialing is reported exactly once, another one never. */
  lemma PlanOneCounts(cfg: Config, c: Credential)
    ensures multiset(PlanOne(cfg, c))[Report] == if FailsBeforeDialing(cfg, c) then 1 else 0
    ensures multiset(PlanOne(cfg, c))[Spawn] == AttemptsOne(cfg, c)
  {
    if !FailsBeforeDialing(cfg, c) {
      RepeatCounts((if cfg.addrs != 0 then cfg.addrs else c.fallback.n) * (if c.hasSSH then 5 else 1));
    }
  }

  /** The credentials from position k on that fail before dialing. */
  function FailingFrom(cfg: Config, k: nat): nat
    requires k <= |cfg.credentials|
    decreases |cfg.credentials| - k
  {
    if k == |cfg.credentials| then 0
    else (if FailsBeforeDialing(cfg, cfg.credentials[k]) then 1 else 0) + FailingFrom(cfg, k + 1)
  }

  function AttemptsFrom(cfg: Config, k: nat): nat
    requires k <= |cfg.credentials|
    decreases |cfg.credentials| - k
  {
    if k == |cfg.credentials| then 0 else AttemptsOne(cfg, cfg.credentials[k]) + AttemptsFrom(cfg, k + 1)
  }

  lemma {:induction false} PlanCounts(cfg: Config, k: nat)
    requires k <= |cfg.credentials|
    ensures multiset(Plan(cfg, k))[Report] == FailingFrom(cfg, k)
    ensures multiset(Plan(cfg, k))[Spawn] == AttemptsFrom(cfg, k)
    decreases |cfg.credentials| - k
  {
    if k < |cfg.credentials| {
      PlanOneCounts(cfg, cfg.credentials[k]);
      PlanCounts(cfg, k + 1);
    }
  }

  lemma {:induction false} SpawnsAndReports(plan: seq<Action>, k: nat)
    requires k <= |plan|
    ensures multiset(plan[..k])[Spawn] == Spawns(plan, k)
    ensures multiset(plan[..k])[Spawn] + multiset(plan[..k])[Report] == k
  {
    if k > 0 {
      SpawnsAndReports(plan, k - 1);
      assert plan[..k] == plan[..k - 1] + [plan[k - 1]];
    }
  }

  /** When `connect` fails and the caller did not cancel, it shows one error for each credential that fails before
      dialing and one for each attempt the configuration calls for. */
  lemma ErrorsAreComplete(cfg: Config, ss: seq<State>, steps: seq<Step>)
    requires IsRun(Plan(cfg, 0), ss, steps) && Terminal(ss[|steps|]) && !ss[|steps|].callerCancelled
    requires ss[|steps|].main.outcome.Errors?
    ensures |ss[|steps|].errs| == FailingFrom(cfg, 0) + AttemptsFrom(cfg, 0)
    ensures |ss[|steps|].workers| == AttemptsFrom(cfg, 0)
  {
    var plan := Plan(cfg, 0);
    ErrorMeansNothingConnected(plan, ss, steps, |steps|);
    PlanCounts(cfg, 0);
    SpawnsAndReports(plan, |plan|);
    assert plan[..|plan|] == plan;
  }

  /** Every credential gets as far as dialing. */
  ghost predicate AllDialable(cfg: Config) {
    forall j :: 0 <= j < |cfg.credentials| ==> !FailsBeforeDialing(cfg, cfg.credentials[j])
  }

  lemma {:induction false} NoneFails(cfg: Config, k: nat)
    requires k <= |cfg.credentials|
    ensures FailingFrom(cfg, k) == 0 <==>
            forall j :: k <= j < |cfg.credentials| ==> !FailsBeforeDialing(cfg, cfg.credentials[j])
    decreases |cfg.credentials| - k
  {
    if k < |cfg.credentials| {
      NoneFails(cfg, k + 1);
    }
  }

  /** The producer reports an error exactly when some credential fails before dialing. */
  lemma PlanReports(cfg: Config)
    ensures Report !in Plan(cfg, 0) <==> AllDialable(cfg)
  {
    PlanCounts(cfg, 0);
    NoneFails(cfg, 0);
    assert Report in Plan(cfg, 0) <==> Report in multiset(Plan(cfg, 0));
  }

  predicate NothingOne(cfg: Config, c: Credential) {
    !c.broken && !cfg.hasDialer && cfg.addrs == 0 && c.fallback == Addrs(0)
  }

  lemma PlanOneEmpty(cfg: Config, c: Credential)
    ensures PlanOne(cfg, c) == [] <==> NothingOne(cfg, c)
  {
  }

  lemma {:induction false} PlanEmptyFrom(cfg: Config, k: nat)
    requires k <= |cfg.credentials|
    ensures Plan(cfg, k) == [] <==>
            forall j :: k <= j < |cfg.credentials| ==> NothingOne(cfg, cfg.credentials[j])
    decreases |cfg.credentials| - k
  {
    if k < |cfg.credentials| {
      PlanOneEmpty(cfg, cfg.credentials[k]);
      PlanEmptyFrom(cfg, k + 1);
    }
  }

  // ---------- The "no connection methods" answers ----------

  /** What `connect` returns: a client, the two answers without any error to show (lines 375 and 378), or
      the collected errors. */
  datatype Answer = Connected(worker: nat) | TryDialerOrAddrs | NoMethodsFound | AllFailed(errs: seq<Source>)

  predicate Located(cfg: Config) {
    cfg.addrs > 0 || cfg.hasDialer
  }

  function AnswerOf(cfg: Config, s: State): Answer
    requires Terminal(s)
  {
    if s.main.outcome.Client? then Connected(s.main.outcome.worker)
    else if s.errs != [] then AllFailed(s.errs)
    else if Located(cfg) then NoMethodsFound
    else TryDialerOrAddrs
  }

  // ---------- The answer and the run behind it ----------

  /** What the steps so far did, as the state remembers it. */
  ghost predicate Remembers(s: State, past: seq<Step>, i: nat) {
    && (DialSucceeds(i) in past <==> i in s.dialed)
    && (DialFails(i) in past <==> At(s, i, SendingErr) || HasFate(s, i, Failed))
    && (WorkerDelivers(i) in past <==> ReturnsClient(s, i))
    && (CallerCancels in past <==> s.callerCancelled)
  }

  lemma OwnStepRemembers(s: State, step: Step, past: seq<Step>)
    requires Enabled(s, step) && MovesWorker(step) && (s.errClosed ==> AllGone(s))
    requires ClientMatches(s, step.i) && Remembers(s, past, step.i)
    ensures Remembers(Next(s, step), past + [step], step.i)
  {
  }

  lemma OtherWorkerRemembers(s: State, step: Step, past: seq<Step>, i: nat)
    requires Enabled(s, step) && MovesWorker(step) && step.i != i && Remembers(s, past, i)
    ensures Remembers(Next(s, step), past + [step], i)
  {
  }

  lemma OtherStepRemembers(s: State, step: Step, past: seq<Step>, i: nat)
    requires Enabled(s, step) && !MovesWorker(step) && ClientMatches(s, i) && Remembers(s, past, i)
    ensures Remembers(Next(s, step), past + [step], i)
  {
  }

  lemma {:induction false} RunRemembers(plan: seq<Action>, ss: seq<State>, steps: seq<Step>, k: nat, i: nat)
    requires IsRun(plan, ss, steps) && k < |ss|
    ensures Remembers(ss[k], steps[..k], i)
  {
    if k > 0 {
      RunRemembers(plan, ss, steps, k - 1, i);
      RunKeepsInv(plan, ss, steps, k - 1);
      var s := ss[k - 1];
      if s.errClosed {
        ClosedMeansDone(s);
      }
      assert ClientMatches(s, i);
      assert StepAt(ss, steps, k - 1);
      if MovesWorker(steps[k - 1]) && steps[k - 1].i == i {
        OwnStepRemembers(s, steps[k - 1], steps[..k - 1]);
      } else if MovesWorker(steps[k - 1]) {
        OtherWorkerRemembers(s, steps[k - 1], steps[..k - 1], i);
      } else {
        OtherStepRemembers(s, steps[k - 1], steps[..k - 1], i);
      }
      assert steps[..k] == steps[..k - 1] + [steps[k - 1]];
    }
  }

  /** The answer is client i exactly when worker i delivered its client to the main loop, and that client is open:
      its dial succeeded and nobody closed it. Every other client that was opened is closed once. */
  lemma AnswerIsTheDeliveredClient(cfg: Config, ss: seq<State>, steps: seq<Step>, i: nat)
    requires IsRun(Plan(cfg, 0), ss, steps) && Terminal(ss[|steps|])
    ensures AnswerOf(cfg, ss[|steps|]) == Connected(i) <==> WorkerDelivers(i) in steps
    ensures AnswerOf(cfg, ss[|steps|]) == Connected(i) ==>
              DialSucceeds(i) in steps && multiset(ss[|steps|].closes)[i] == 0
    ensures DialSucceeds(i) in steps ==>
              multiset(ss[|steps|].closes)[i] == if AnswerOf(cfg, ss[|steps|]) == Connected(i) then 0 else 1
  {
    RunRemembers(Plan(cfg, 0), ss, steps, |steps|, i);
    RunKeepsInv(Plan(cfg, 0), ss, steps, |steps|);
    assert steps[..|steps|] == steps;
    assert ClientMatches(ss[|steps|], i);
  }

  /** An answer with errors shows, whether or not the caller cancelled, exactly one for each credential that fails
      before dialing and one for each attempt that failed. */
  lemma AnswerShowsEveryFailure(cfg: Config, ss: seq<State>, steps: seq<Step>, i: nat)
    requires IsRun(Plan(cfg, 0), ss, steps) && Terminal(ss[|steps|]) && AnswerOf(cfg, ss[|steps|]).AllFailed?
    ensures var errs, plan := AnswerOf(cfg, ss[|steps|]).errs, Plan(cfg, 0);
            && errs != []
            && multiset(errs)[FromWorker(i)] == (if DialFails(i) in steps then 1 else 0)
            && multiset(errs)[FromProducer(i)] == (if i < |plan| && plan[i].Report? then 1 else 0)
  {
    var s := ss[|steps|];
    RunRemembers(Plan(cfg, 0), ss, steps, |steps|, i);
    RunKeepsInv(Plan(cfg, 0), ss, steps, |steps|);
    assert steps[..|steps|] == steps;
    assert multiset(s.errs)[FromWorker(i)] == if Reported(s, FromWorker(i)) then 1 else 0;
    assert multiset(s.errs)[FromProducer(i)] == if Reported(s, FromProducer(i)) then 1 else 0;
  }

  /** Unless the caller cancels, the answer is a client exactly when a dial succeeded; and an answer with errors
      shows one for each failing credential and each attempt the configuration calls for. */
  lemma AnswerWithoutCancellation(cfg: Config, ss: seq<State>, steps: seq<Step>)
    requires IsRun(Plan(cfg, 0), ss, steps) && Terminal(ss[|steps|]) && CallerCancels !in steps
    ensures AnswerOf(cfg, ss[|steps|]).Connected? <==> exists i: nat :: DialSucceeds(i) in steps
    ensures AnswerOf(cfg, ss[|steps|]).AllFailed? ==>
              var errs := AnswerOf(cfg, ss[|steps|]).errs;
              && |errs| == FailingFrom(cfg, 0) + AttemptsFrom(cfg, 0)
              && forall i: nat :: multiset(errs)[FromWorker(i)] == if i < AttemptsFrom(cfg, 0) then 1 else 0
  {
    var s, plan := ss[|steps|], Plan(cfg, 0);
    assert steps[..|steps|] == steps;
    forall i: nat
      ensures DialSucceeds(i) in steps <==> i in s.dialed
      ensures !s.callerCancelled
    {
      RunRemembers(plan, ss, steps, |steps|, i);
    }
    RunRemembers(plan, ss, steps, |steps|, 0);
    ErrorMeansNothingConnected(plan, ss, steps, |steps|);
    if s.main.outcome.Errors? {
      ErrorsAreComplete(cfg, ss, steps);
    } else {
      AnswerIsTheDeliveredClient(cfg, ss, steps, s.main.outcome.worker);
    }
  }

  // ---------- When there is no error to show ----------

  /** No dial succeeds on a context that is already cancelled: dialing blocks on it. */
  ghost predicate DialsHeedContext(ss: seq<State>, steps: seq<Step>)
    requires |ss| == |steps| + 1
  {
    forall k :: 0 <= k < |steps| && steps[k].DialSucceeds? ==> !ss[k].cancelled
  }

  ghost predicate Answers(cfg: Config, a: Answer, ss: seq<State>, steps: seq<Step>) {
    && IsRun(Plan(cfg, 0), ss, steps) && DialsHeedContext(ss, steps)
    && Terminal(ss[|steps|]) && AnswerOf(cfg, ss[|steps|]) == a
  }

  ghost predicate CanAnswer(cfg: Config, a: Answer) {
    exists ss: seq<State>, steps: seq<Step> :: Answers(cfg, a, ss, steps)
  }

  ghost predicate CanAnswerUncancelled(cfg: Config, a: Answer) {
    exists ss: seq<State>, steps: seq<Step> :: Answers(cfg, a, ss, steps) && !ss[|steps|].callerCancelled
  }

  /** `connect` gives up without a single error to show. */
  predicate GivesUpSilently(s: State) {
    Terminal(s) && s.main.outcome.Errors? && s.errs == []
  }

  ghost predicate Reaches(plan: seq<Action>, ss: seq<State>, steps: seq<Step>) {
    IsRun(plan, ss, steps) && DialsHeedContext(ss, steps)
  }

  lemma Extend(plan: seq<Action>, ss: seq<State>, steps: seq<Step>, step: Step)
      returns (ss': seq<State>, steps': seq<Step>)
    requires Reaches(plan, ss, steps) && Enabled(ss[|steps|], step)
    requires step.DialSucceeds? ==> !ss[|steps|].cancelled
    ensures Reaches(plan, ss', steps') && ss'[|steps'|] == Next(ss[|steps|], step)
  {
    ss', steps' := ss + [Next(ss[|steps|], step)], steps + [step];
    forall k | 0 <= k < |steps'|
      ensures StepAt(ss', steps', k)
    {
      assert k < |steps| ==> StepAt(ss, steps, k);
    }
  }

  /** The first a actions started a worker each; the first b workers have opened a client, and the first c
      have closed it again and are gone. */
  ghost predicate Stage(s: State, plan: seq<Action>, a: nat, b: nat, c: nat) {
    && s.plan == plan && s.pc == a == |s.workers| && !s.producerDone && s.wg == 1 + a - c
    && (forall i :: 0 <= i < a ==>
          s.workers[i] == if i < c then Gone(Closed) else if i < b then Offering else Dialing)
    && s.waiter.Blocked? && !s.errClosed && s.main.Selecting? && s.errs == [] && s.drainer.Absent?
    && s.cancelled == s.callerCancelled
  }

  lemma {:induction false} SpawnAll(plan: seq<Action>, a: nat) returns (ss: seq<State>, steps: seq<Step>)
    requires a <= |plan| && Report !in plan
    ensures Reaches(plan, ss, steps) && Stage(ss[|steps|], plan, a, 0, 0) && !ss[|steps|].callerCancelled
  {
    if a == 0 {
      ss, steps := [Init(plan)], [];
    } else {
      ss, steps := SpawnAll(plan, a - 1);
      assert plan[a - 1] in plan;
      ss, steps := Extend(plan, ss, steps, ProducerSpawn);
    }
  }

  lemma {:induction false} DialAll(plan: seq<Action>, b: nat) returns (ss: seq<State>, steps: seq<Step>)
    requires b <= |plan| && Report !in plan
    ensures Reaches(plan, ss, steps) && Stage(ss[|steps|], plan, |plan|, b, 0) && !ss[|steps|].callerCancelled
  {
    if b == 0 {
      ss, steps := SpawnAll(plan, |plan|);
    } else {
      ss, steps := DialAll(plan, b - 1);
      ss, steps := Extend(plan, ss, steps, DialSucceeds(b - 1));
    }
  }

  /** The caller cancels when every client is open and none was taken, and all are closed. */
  lemma {:induction false} CloseAll(plan: seq<Action>, c: nat) returns (ss: seq<State>, steps: seq<Step>)
    requires c <= |plan| && Report !in plan
    ensures Reaches(plan, ss, steps) && Stage(ss[|steps|], plan, |plan|, |plan|, c) && ss[|steps|].cancelled
  {
    if c == 0 {
      ss, steps := DialAll(plan, |plan|);
      ss, steps := Extend(plan, ss, steps, CallerCancels);
    } else {
      ss, steps := CloseAll(plan, c - 1);
      ss, steps := Extend(plan, ss, steps, WorkerCloses(c - 1));
      ss, steps := Extend(plan, ss, steps, WorkerExits(c - 1));
    }
  }

  /** With all workers gone and no error collected, `connect` ends without one. */
  lemma EndSilently(plan: seq<Action>, ss: seq<State>, steps: seq<Step>)
      returns (ss': seq<State>, steps': seq<Step>)
    requires Reaches(plan, ss, steps) && Stage(ss[|steps|], plan, |plan|, |plan|, |plan|)
    ensures Reaches(plan, ss', steps') && GivesUpSilently(ss'[|steps'|])
    ensures ss'[|steps'|].callerCancelled == ss[|steps|].callerCancelled
  {
    ss', steps' := Extend(plan, ss, steps, ProducerExit);
    ss', steps' := Extend(plan, ss', steps', WaiterWakes);
    ss', steps' := Extend(plan, ss', steps', WaiterClosesErrors);
    ss', steps' := Extend(plan, ss', steps', MainSeesClosed);
    ss', steps' := Extend(plan, ss', steps', MainCancels);
  }

  lemma SilentMeansNoReport(plan: seq<Action>, ss: seq<State>, steps: seq<Step>)
    requires IsRun(plan, ss, steps) && GivesUpSilently(ss[|steps|])
    ensures Report !in plan
    ensures !ss[|steps|].callerCancelled ==> plan == []
  {
    var s := ss[|steps|];
    RunKeepsInv(plan, ss, steps, |steps|);
    if k: nat :| k < |plan| && plan[k] == Report {
      assert multiset(s.errs)[FromProducer(k)] == if Reported(s, FromProducer(k)) then 1 else 0;
    }
    if !s.callerCancelled {
      ErrorMeansNothingConnected(plan, ss, steps, |steps|);
    }
  }

  lemma SilentAnswer(cfg: Config, a: Answer, ss: seq<State>, steps: seq<Step>)
    requires Answers(cfg, a, ss, steps) && (a.NoMethodsFound? || a.TryDialerOrAddrs?)
    ensures AllDialable(cfg) && (a.NoMethodsFound? <==> Located(cfg))
    ensures !ss[|steps|].callerCancelled ==> Plan(cfg, 0) == []
  {
    SilentMeansNoReport(Plan(cfg, 0), ss, steps);
    PlanReports(cfg);
  }

  /** Validation demands a credential. */
  predicate Dialable(cfg: Config) {
    cfg.credentials != [] && Located(cfg)
  }

  lemma DialablePlansSomething(cfg: Config)
    requires Dialable(cfg)
    ensures Plan(cfg, 0) != []
  {
    PlanEmptyFrom(cfg, 0);
  }

  /** A caller who configures an address or a dialer and does not cancel always gets a client or an error to see. */
  lemma SilentFailureNeedsCancellation(cfg: Config, ss: seq<State>, steps: seq<Step>)
    requires Dialable(cfg) && IsRun(Plan(cfg, 0), ss, steps) && !ss[|steps|].callerCancelled
    ensures !GivesUpSilently(ss[|steps|])
  {
    DialablePlansSomething(cfg);
    if GivesUpSilently(ss[|steps|]) {
      SilentMeansNoReport(Plan(cfg, 0), ss, steps);
    }
  }

  /** The source says the bare "no connection methods found" of line 378 should never be reached. It can be, exactly
      when there is an address or a dialer and every credential gets as far as dialing: a caller who
      cancels once every dial has succeeded may find every client closed and no error to show. Without
      an address and a dialer the answer is the one of line 375 instead. */
  lemma SilentFailureExactly(cfg: Config)
    ensures CanAnswer(cfg, NoMethodsFound) <==> (cfg.addrs > 0 || cfg.hasDialer) && AllDialable(cfg)
    ensures CanAnswer(cfg, TryDialerOrAddrs) <==> cfg.addrs == 0 && !cfg.hasDialer && AllDialable(cfg)
  {
    var plan := Plan(cfg, 0);
    PlanReports(cfg);
    if AllDialable(cfg) {
      var ss, steps := CloseAll(plan, |plan|);
      ss, steps := EndSilently(plan, ss, steps);
      assert Answers(cfg, if Located(cfg) then NoMethodsFound else TryDialerOrAddrs, ss, steps);
    }
    forall a: Answer, ss: seq<State>, steps: seq<Step> |
      Answers(cfg, a, ss, steps) && (a.NoMethodsFound? || a.TryDialerOrAddrs?)
      ensures AllDialable(cfg) && (a.NoMethodsFound? <==> Located(cfg))
    {
      SilentAnswer(cfg, a, ss, steps);
    }
  }

  /** Unless the caller cancels, `connect` ends without an error to show exactly when there was nothing to try. Line 378
      then takes a configuration without credentials, which validation rejects; line 375 is the answer when
      there is no address, no dialer and no credential brings or fails to bring addresses of its own. */
  lemma SilenceWithoutCancellation(cfg: Config)
    ensures CanAnswerUncancelled(cfg, NoMethodsFound) <==> (cfg.addrs > 0 || cfg.hasDialer) && cfg.credentials == []
    ensures CanAnswerUncancelled(cfg, TryDialerOrAddrs) <==>
            && cfg.addrs == 0 && !cfg.hasDialer
            && forall j :: 0 <= j < |cfg.credentials| ==> NothingOne(cfg, cfg.credentials[j])
  {
    var plan := Plan(cfg, 0);
    PlanEmptyFrom(cfg, 0);
    if plan == [] {
      var ss, steps := DialAll(plan, 0);
      ss, steps := EndSilently(plan, ss, steps);
      assert Answers(cfg, if Located(cfg) then NoMethodsFound else TryDialerOrAddrs, ss, steps);
    }
    forall a: Answer, ss: seq<State>, steps: seq<Step> |
      Answers(cfg, a, ss, steps) && !ss[|steps|].callerCancelled && (a.NoMethodsFound? || a.TryDialerOrAddrs?)
      ensures plan == [] && (a.NoMethodsFound? <==> Located(cfg))
    {
      SilentAnswer(cfg, a, ss, steps);
    }
  }
}
