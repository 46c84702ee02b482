/** Every interleaving of `Execute` calls on one breaker. A call takes two locked steps:
    it arrives (and, if admitted, holds the current generation as a ticket) and later
    finishes. A run is any sequence of such steps over any clock readings; the clock is
    assumed not to go backwards only where a theorem says `Monotone`. */
module BreakerRuns {
  import opened Breaker
  import opened Common

  datatype Event = Arrive(now: Time) | Finish(ticket: nat, ok: bool, now: Time)

  /** `inflight` holds the ticket of every running call, `log` the outcomes recorded in the
      current generation, oldest first; `since` is the clock reading that generation started at;
      `dropped` counts results nobody recorded. */
  datatype Sys = Sys(b: Snapshot, inflight: multiset<nat>, log: seq<bool>, since: Time, arrivals: nat, dropped: nat)

  predicate Enabled(s: Sys, e: Event) {
    e.Finish? ==> e.ticket in s.inflight
  }

  /** A result is recorded when its ticket is the generation the clock reading leaves current. */
  predicate Recorded(cfg: Config, s: Sys, e: Event) {
    e.Finish? && e.ticket == Roll(cfg, s.b, e.now).generation
  }

  predicate Admitted(cfg: Config, s: Sys, e: Event) {
    e.Arrive? && Admits(cfg, s.b, e.now)
  }

  function Next(cfg: Config, s: Sys, e: Event): Sys {
    match e
    case Arrive(now) =>
      var b := Before(cfg, s.b, now);
      Sys(b,
          if Admits(cfg, s.b, now) then s.inflight + multiset{b.generation} else s.inflight,
          if b.generation == s.b.generation then s.log else [],
          if b.generation == s.b.generation then s.since else now,
          s.arrivals + 1, s.dropped)
    case Finish(ticket, ok, now) =>
      var b := After(cfg, s.b, ticket, ok, now);
      Sys(b,
          s.inflight - multiset{ticket},
          if b.generation != s.b.generation then [] else if ticket == b.generation then s.log + [ok] else s.log,
          if b.generation == s.b.generation then s.since else now,
          s.arrivals,
          if Recorded(cfg, s, e) then s.dropped else s.dropped + 1)
  }

  function Start(cfg: Config, t: Time): Sys {
    Sys(Fresh(cfg, t), multiset{}, [], t, 0, 0)
  }

  ghost predicate StepAt(cfg: Config, ss: seq<Sys>, es: seq<Event>, i: nat)
    requires |ss| == |es| + 1 && i < |es|
  {
    Enabled(ss[i], es[i]) && ss[i + 1] == Next(cfg, ss[i], es[i])
  }

  /** ss is the sequence of states a breaker built at time t goes through on the events es. */
  ghost predicate IsRun(cfg: Config, t: Time, ss: seq<Sys>, es: seq<Event>) {
    && cfg.Valid()
    && |ss| == |es| + 1
    && ss[0] == Start(cfg, t)
    && forall i :: 0 <= i < |es| ==> StepAt(cfg, ss, es, i)
  }

  ghost predicate Monotone(es: seq<Event>) {
    forall i, j :: 0 <= i <= j < |es| ==> es[i].now <= es[j].now
  }

  // ---------- The reference: totals and trailing runs of the log ----------

  function Count(log: seq<bool>, v: bool): nat {
    if log == [] then 0 else Count(log[..|log| - 1], v) + if log[|log| - 1] == v then 1 else 0
  }

  function Trailing(log: seq<bool>, v: bool): nat {
    if log == [] || log[|log| - 1] != v then 0 else 1 + Trailing(log[..|log| - 1], v)
  }

  /** Calls admitted in the current generation, running ones included. */
  function Admissions(s: Sys): nat {
    |s.log| + s.inflight[s.b.generation]
  }

  lemma LogAppend(log: seq<bool>, v: bool)
    ensures Count(log + [v], v) == Count(log, v) + 1
    ensures Count(log + [v], !v) == Count(log, !v)
    ensures Trailing(log + [v], v) == Trailing(log, v) + 1
    ensures Trailing(log + [v], !v) == 0
  {
  }

  lemma {:induction false} CountsPartition(log: seq<bool>)
    ensures Count(log, true) + Count(log, false) == |log|
  {
    if log != [] {
      CountsPartition(log[..|log| - 1]);
    }
  }

  lemma {:induction false} TrailingBounded(log: seq<bool>, v: bool)
    ensures Trailing(log, v) <= Count(log, v)
  {
    if log != [] {
      TrailingBounded(log[..|log| - 1], v);
    }
  }

  function CountNotices(ns: seq<Notice>, p: Notice -> bool): nat {
    if ns == [] then 0 else CountNotices(ns[..|ns| - 1], p) + if p(ns[|ns| - 1]) then 1 else 0
  }

  lemma NoticeAppend(ns: seq<Notice>, n: Notice, p: Notice -> bool)
    ensures CountNotices(ns + [n], p) == CountNotices(ns, p) + if p(n) then 1 else 0
  {
  }

  lemma NoticesConcat(ns: seq<Notice>, a: seq<Notice>, b: seq<Notice>, p: Notice -> bool)
    requires |a| <= 1 && |b| <= 1
    ensures CountNotices(ns + a + b, p) ==
            CountNotices(ns, p) + (if a != [] && p(a[0]) then 1 else 0) + (if b != [] && p(b[0]) then 1 else 0)
  {
    if a == [] {
      assert ns + a == ns;
    } else {
      assert a == [a[0]];
      NoticeAppend(ns, a[0], p);
    }
    if b == [] {
      assert ns + a + b == ns + a;
    } else {
      assert b == [b[0]];
      NoticeAppend(ns + a, b[0], p);
    }
  }

  function TrippedLaunches(s: Sys): nat {
    CountNotices(s.b.notices, (n: Notice) => n.OnTripped?)
  }

  function StandByLaunches(s: Sys): nat {
    CountNotices(s.b.notices, (n: Notice) => n.OnStandBy?)
  }

  function Reports(s: Sys): nat {
    CountNotices(s.b.notices, (n: Notice) => n.OnExecute?)
  }

  // ---------- What every step keeps ----------

  /** All five counters are what the log and the tickets say, modulo the width of a uint32. */
  ghost predicate CountersMatch(s: Sys) {
    && s.b.metrics.executions == Wrap(Admissions(s))
    && s.b.metrics.successes == Wrap(Count(s.log, true))
    && s.b.metrics.failures == Wrap(Count(s.log, false))
    && s.b.metrics.consecutiveSuccesses == Wrap(Trailing(s.log, true))
    && s.b.metrics.consecutiveFailures == Wrap(Trailing(s.log, false))
  }

  ghost predicate TicketsMatch(s: Sys) {
    && (forall g :: g in s.inflight ==> g <= s.b.generation)
    && (s.b.state == Tripped ==> s.log == [] && s.inflight[s.b.generation] == 0)
  }

  ghost predicate CallbacksMatch(s: Sys) {
    && TrippedLaunches(s) == StandByLaunches(s) + (if s.b.state == Standby then 0 else 1)
    && s.arrivals == Reports(s) + s.dropped + |s.inflight|
  }

  ghost predicate Inv(cfg: Config, s: Sys) {
    && CountersMatch(s)
    && TicketsMatch(s)
    && CallbacksMatch(s)
    && (s.b.state == Recovering ==> Trailing(s.log, true) < cfg.recoveryLimit)
    && s.b.expiry == Expiry(cfg, s.b.state, s.since)
  }

  lemma WrapInc(n: nat)
    ensures Inc(Wrap(n)) == Wrap(n + 1)
  {
  }

  predicate Moves(s: Sys, n: Sys, from: State, to: State) {
    s.b.state == from && n.b.state == to
  }

  /** The callback that belongs to an edge of the state graph, if any. */
  function OnEdge(s: Sys, n: Sys): seq<Notice> {
    if Moves(s, n, Standby, Tripped) then [OnTripped]
    else if Moves(s, n, Recovering, Standby) then [OnStandBy]
    else []
  }

  /** The report of a step: a recorded result, or a call rejected while tripped. */
  function OnCall(cfg: Config, s: Sys, e: Event): seq<Notice> {
    if Recorded(cfg, s, e) then [OnExecute(e.ok, s.b.state)]
    else if e.Arrive? && !Admitted(cfg, s, e) then [OnExecute(false, Tripped)]
    else []
  }

  lemma StepNotices(cfg: Config, s: Sys, e: Event)
    requires TicketsMatch(s) && Enabled(s, e)
    ensures var n := Next(cfg, s, e); n.b.notices == s.b.notices + OnCall(cfg, s, e) + OnEdge(s, n)
  {
    if Recorded(cfg, s, e) {
      RecordedIsCurrent(cfg, s, e);
    }
  }

  lemma StepLaunches(cfg: Config, s: Sys, e: Event)
    requires TicketsMatch(s) && Enabled(s, e)
    ensures var n := Next(cfg, s, e);
            && TrippedLaunches(n) == TrippedLaunches(s) + (if Moves(s, n, Standby, Tripped) then 1 else 0)
            && StandByLaunches(n) == StandByLaunches(s) + (if Moves(s, n, Recovering, Standby) then 1 else 0)
            && Reports(n) == Reports(s) + |OnCall(cfg, s, e)|
  {
    StepNotices(cfg, s, e);
    var call, edge := OnCall(cfg, s, e), OnEdge(s, Next(cfg, s, e));
    NoticesConcat(s.b.notices, call, edge, (n: Notice) => n.OnTripped?);
    NoticesConcat(s.b.notices, call, edge, (n: Notice) => n.OnStandBy?);
    NoticesConcat(s.b.notices, call, edge, (n: Notice) => n.OnExecute?);
  }

  lemma ArriveCounters(cfg: Config, s: Sys, e: Event)
    requires CountersMatch(s) && TicketsMatch(s) && e.Arrive?
    ensures CountersMatch(Next(cfg, s, e)) && TicketsMatch(Next(cfg, s, e))
  {
    var r := Roll(cfg, s.b, e.now);
    if r.state != Tripped {
      WrapInc(if r.generation == s.b.generation then Admissions(s) else 0);
    }
  }

  lemma ArriveKeepsInv(cfg: Config, s: Sys, e: Event)
    requires cfg.Valid() && Inv(cfg, s) && e.Arrive?
    ensures Inv(cfg, Next(cfg, s, e))
  {
    StepLaunches(cfg, s, e);
    ArriveCounters(cfg, s, e);
  }

  /** A result whose ticket is no longer current does what the clock reading alone does. */
  lemma StaleKeepsInv(cfg: Config, s: Sys, e: Event)
    requires cfg.Valid() && Inv(cfg, s) && Enabled(s, e) && e.Finish? && !Recorded(cfg, s, e)
    ensures Inv(cfg, Next(cfg, s, e))
  {
  }

  /** A recorded result belongs to the generation that was already current, and not to a tripped one. */
  lemma RecordedIsCurrent(cfg: Config, s: Sys, e: Event)
    requires TicketsMatch(s) && Enabled(s, e) && Recorded(cfg, s, e)
    ensures Roll(cfg, s.b, e.now) == s.b && e.ticket == s.b.generation && s.b.state != Tripped
  {
  }

  /** A recorded result either extends the log of its generation or starts a new generation. */
  lemma RecordedShape(cfg: Config, s: Sys, e: Event)
    requires TicketsMatch(s) && Enabled(s, e) && Recorded(cfg, s, e)
    ensures var n := Next(cfg, s, e);
            if n.b.generation == s.b.generation
            then n.b.state == s.b.state && n.log == s.log + [e.ok] &&
                 n.b.metrics == (if e.ok then s.b.metrics.Success() else s.b.metrics.Failure())
            else n.b.generation == s.b.generation + 1 && n.b.state != Recovering && n.log == [] &&
                 n.b.metrics == ZERO_METRICS
  {
  }

  lemma RecordedCounters(cfg: Config, s: Sys, e: Event)
    requires CountersMatch(s) && TicketsMatch(s) && Enabled(s, e) && Recorded(cfg, s, e)
    ensures CountersMatch(Next(cfg, s, e)) && TicketsMatch(Next(cfg, s, e))
  {
    var n := Next(cfg, s, e);
    RecordedIsCurrent(cfg, s, e);
    RecordedShape(cfg, s, e);
    if n.b.generation == s.b.generation {
      LogAppend(s.log, e.ok);
      WrapInc(Count(s.log, e.ok));
      WrapInc(Trailing(s.log, e.ok));
      assert Admissions(n) == Admissions(s);
    } else {
      assert n.inflight[n.b.generation] == 0;
    }
  }

  lemma RecordedRecovery(cfg: Config, s: Sys, e: Event)
    requires Inv(cfg, s) && Enabled(s, e) && Recorded(cfg, s, e)
    ensures Next(cfg, s, e).b.state == Recovering ==> Trailing(Next(cfg, s, e).log, true) < cfg.recoveryLimit
    ensures Next(cfg, s, e).b.expiry == Expiry(cfg, Next(cfg, s, e).b.state, Next(cfg, s, e).since)
  {
    RecordedShape(cfg, s, e);
    RecordedIsCurrent(cfg, s, e);
    LogAppend(s.log, e.ok);
  }

  lemma RecordedCallbacks(cfg: Config, s: Sys, e: Event)
    requires cfg.Valid() && Inv(cfg, s) && Enabled(s, e) && Recorded(cfg, s, e)
    ensures CallbacksMatch(Next(cfg, s, e))
  {
    StepLaunches(cfg, s, e);
    RecordedIsCurrent(cfg, s, e);
    RecordedShape(cfg, s, e);
  }

  lemma NextKeepsInv(cfg: Config, s: Sys, e: Event)
    requires cfg.Valid() && Inv(cfg, s) && Enabled(s, e)
    ensures Inv(cfg, Next(cfg, s, e))
  {
    if e.Arrive? {
      ArriveKeepsInv(cfg, s, e);
    } else if Recorded(cfg, s, e) {
      RecordedCounters(cfg, s, e);
      RecordedRecovery(cfg, s, e);
      RecordedCallbacks(cfg, s, e);
    } else {
      StaleKeepsInv(cfg, s, e);
    }
  }

  /** The invariant holds in every state of every run. */
  lemma {:induction false} RunKeepsInv(cfg: Config, t: Time, ss: seq<Sys>, es: seq<Event>, i: nat)
    requires IsRun(cfg, t, ss, es) && i < |ss|
    ensures Inv(cfg, ss[i])
  {
    if i > 0 {
      RunKeepsInv(cfg, t, ss, es, i - 1);
      assert StepAt(cfg, ss, es, i - 1);
      NextKeepsInv(cfg, ss[i - 1], es[i - 1]);
    }
  }

  lemma RunStep(cfg: Config, t: Time, ss: seq<Sys>, es: seq<Event>, i: nat)
    requires IsRun(cfg, t, ss, es) && i < |es|
    ensures Inv(cfg, ss[i]) && Enabled(ss[i], es[i]) && ss[i + 1] == Next(cfg, ss[i], es[i])
  {
    RunKeepsInv(cfg, t, ss, es, i);
    assert StepAt(cfg, ss, es, i);
  }

  // ---------- Theorems over whole runs ----------

  lemma WrapSum(a: nat, b: nat, c: nat)
    ensures Wrap(Wrap(a) + Wrap(b) + c) == Wrap(a + b + c)
  {
  }

  lemma WrappedCountersConserve(s: Sys)
    requires CountersMatch(s)
    ensures s.b.metrics.executions == Wrap(s.b.metrics.successes + s.b.metrics.failures + s.inflight[s.b.generation])
  {
    CountsPartition(s.log);
    WrapSum(Count(s.log, true), Count(s.log, false), s.inflight[s.b.generation]);
  }

  lemma WrapSmall(n: nat)
    requires n < WORD32
    ensures Wrap(n) == n
  {
  }

  lemma SmallCountersAreExact(s: Sys)
    requires CountersMatch(s) && Admissions(s) < WORD32
    ensures var m := s.b.metrics;
            && m.executions == m.successes + m.failures + s.inflight[s.b.generation]
            && m.successes == Count(s.log, true) && m.failures == Count(s.log, false)
            && m.consecutiveSuccesses == Trailing(s.log, true)
            && m.consecutiveFailures == Trailing(s.log, false)
  {
    CountsPartition(s.log);
    TrailingBounded(s.log, true);
    TrailingBounded(s.log, false);
    WrapSmall(Admissions(s));
    WrapSmall(Count(s.log, true));
    WrapSmall(Count(s.log, false));
    WrapSmall(Trailing(s.log, true));
    WrapSmall(Trailing(s.log, false));
  }

  /** In every interleaving each admitted call of the current generation is a recorded success, a
      recorded failure or still running, and the counters are the totals and trailing runs of the log. */
  lemma CountersAccountForEveryCall(cfg: Config, t: Time, ss: seq<Sys>, es: seq<Event>, i: nat)
    requires IsRun(cfg, t, ss, es) && i < |ss|
    ensures CountersMatch(ss[i])
    ensures var m := ss[i].b.metrics;
            && m.executions == Wrap(m.successes + m.failures + ss[i].inflight[ss[i].b.generation])
            && (m.consecutiveSuccesses == 0 || m.consecutiveFailures == 0)
    ensures Admissions(ss[i]) < WORD32 ==>
              var m := ss[i].b.metrics;
              && m.executions == m.successes + m.failures + ss[i].inflight[ss[i].b.generation]
              && m.consecutiveSuccesses == Trailing(ss[i].log, true)
              && m.consecutiveFailures == Trailing(ss[i].log, false)
  {
    RunKeepsInv(cfg, t, ss, es, i);
    WrappedCountersConserve(ss[i]);
    if Admissions(ss[i]) < WORD32 {
      SmallCountersAreExact(ss[i]);
    }
  }

  lemma StepGeneration(cfg: Config, s: Sys, e: Event)
    requires TicketsMatch(s) && Enabled(s, e)
    ensures var n := Next(cfg, s, e);
            if n.b.generation == s.b.generation
            then n.b.state == s.b.state && n.b.expiry == s.b.expiry && s.log <= n.log
            else n.b.generation == s.b.generation + 1 && n.log == []
  {
    if Recorded(cfg, s, e) {
      RecordedIsCurrent(cfg, s, e);
    }
  }

  /** A later state is in a later generation, or in the same one with the same state and expiry and
      a log that only grew. */
  ghost predicate Evolves(s: Sys, n: Sys) {
    && s.b.generation <= n.b.generation
    && (s.b.generation == n.b.generation ==> s.b.state == n.b.state && s.b.expiry == n.b.expiry && s.log <= n.log)
  }

  lemma EvolvesOn(a: Sys, b: Sys, c: Sys)
    requires Evolves(a, b) && Evolves(b, c)
    ensures Evolves(a, c)
  {
  }

  lemma StepEvolves(cfg: Config, t: Time, ss: seq<Sys>, es: seq<Event>, i: nat)
    requires IsRun(cfg, t, ss, es) && i < |es|
    ensures Evolves(ss[i], ss[i + 1])
  {
    RunStep(cfg, t, ss, es, i);
    StepGeneration(cfg, ss[i], es[i]);
  }

  /** Generations never go back, and while one lasts its state and expiry are fixed and its log only grows. */
  lemma {:induction false} GenerationHasOneState(cfg: Config, t: Time, ss: seq<Sys>, es: seq<Event>, i: nat, j: nat)
    requires IsRun(cfg, t, ss, es) && i <= j < |ss|
    ensures Evolves(ss[i], ss[j])
    decreases j - i
  {
    if i < j {
      GenerationHasOneState(cfg, t, ss, es, i, j - 1);
      StepEvolves(cfg, t, ss, es, j - 1);
      EvolvesOn(ss[i], ss[j - 1], ss[j]);
    }
  }

  /** A result is recorded exactly when its ticket is the current generation and the clock has not
      rolled it over, never while tripped; any other result does what a clock reading does. */
  lemma LateResultChangesNothing(cfg: Config, t: Time, ss: seq<Sys>, es: seq<Event>, i: nat)
    requires IsRun(cfg, t, ss, es) && i < |es| && es[i].Finish?
    ensures Recorded(cfg, ss[i], es[i]) <==>
            es[i].ticket == ss[i].b.generation && Roll(cfg, ss[i].b, es[i].now) == ss[i].b
    ensures Recorded(cfg, ss[i], es[i]) ==> ss[i].b.state != Tripped
    ensures !Recorded(cfg, ss[i], es[i]) ==> ss[i + 1].b == Roll(cfg, ss[i].b, es[i].now)
    ensures es[i].ticket < ss[i].b.generation ==> !Recorded(cfg, ss[i], es[i])
  {
    RunStep(cfg, t, ss, es, i);
    if Recorded(cfg, ss[i], es[i]) {
      RecordedIsCurrent(cfg, ss[i], es[i]);
    }
  }

  /** The four edges of the state graph, and the generation number that marks each of them. */
  lemma StateChangesFollowTheGraph(cfg: Config, t: Time, ss: seq<Sys>, es: seq<Event>, i: nat)
    requires IsRun(cfg, t, ss, es) && i < |es|
    ensures ss[i].b.state != ss[i + 1].b.state ==>
              && ss[i + 1].b.generation == ss[i].b.generation + 1
              && (ss[i].b.state, ss[i + 1].b.state) in
                   {(Standby, Tripped), (Tripped, Recovering), (Recovering, Standby), (Recovering, Tripped)}
  {
    RunStep(cfg, t, ss, es, i);
    StepGeneration(cfg, ss[i], es[i]);
    if Recorded(cfg, ss[i], es[i]) {
      RecordedIsCurrent(cfg, ss[i], es[i]);
    }
  }

  /** Outside Standby one more OnTripped than OnStandBy was launched, in Standby as many. And of all
      calls that arrived, each was reported through OnExecute once, dropped as late, or still runs. */
  lemma CallbacksBalance(cfg: Config, t: Time, ss: seq<Sys>, es: seq<Event>, i: nat)
    requires IsRun(cfg, t, ss, es) && i < |ss|
    ensures TrippedLaunches(ss[i]) - StandByLaunches(ss[i]) == if ss[i].b.state == Standby then 0 else 1
    ensures ss[i].arrivals == Reports(ss[i]) + ss[i].dropped + |ss[i].inflight|
  {
    RunKeepsInv(cfg, t, ss, es, i);
  }

  /** Each callback is launched on exactly one edge of the state graph: OnTripped once on every step from
      Standby to Tripped and on no other, OnStandBy once on every step from Recovering to Standby and on
      no other. No step launches both, so with `CallbacksBalance` they alternate. */
  lemma LaunchesExactly(cfg: Config, t: Time, ss: seq<Sys>, es: seq<Event>, i: nat)
    requires IsRun(cfg, t, ss, es) && i < |es|
    ensures ss[i + 1].b.notices == ss[i].b.notices + OnCall(cfg, ss[i], es[i]) + OnEdge(ss[i], ss[i + 1])
    ensures TrippedLaunches(ss[i + 1]) ==
              TrippedLaunches(ss[i]) + if Moves(ss[i], ss[i + 1], Standby, Tripped) then 1 else 0
    ensures StandByLaunches(ss[i + 1]) ==
              StandByLaunches(ss[i]) + if Moves(ss[i], ss[i + 1], Recovering, Standby) then 1 else 0
  {
    RunStep(cfg, t, ss, es, i);
    StepNotices(cfg, ss[i], es[i]);
    StepLaunches(cfg, ss[i], es[i]);
  }

  const ONE_FAILURE := ZERO_METRICS.Execute().Failure()

  const FIRST_TRIP := [OnExecute(false, Standby), OnTripped]

  /** The first call fails and trips the breaker. */
  lemma TripAtOnce(cfg: Config)
    requires cfg.Valid() && cfg.trip(ONE_FAILURE)
    ensures var s := Next(cfg, Start(cfg, 1), Arrive(1));
            && Enabled(s, Finish(1, false, 1))
            && Next(cfg, s, Finish(1, false, 1)) ==
               Sys(Snapshot(Tripped, 2, ZERO_METRICS, 1 + cfg.trippedPeriod, FIRST_TRIP), multiset{}, [], 1, 1, 0)
  {
    var s := Next(cfg, Start(cfg, 1), Arrive(1));
    assert s.b == Snapshot(Standby, 1, ZERO_METRICS.Execute(), 1 + cfg.interval, []);
    assert s.inflight - multiset{1} == multiset{};
  }

  /** The first call in Recovering fails and trips the breaker again. */
  lemma TripAgain(cfg: Config, s: Sys, now: Time)
    requires cfg.Valid() && cfg.recover(ONE_FAILURE) && now > s.b.expiry
    requires s.b.state == Tripped && s.inflight == multiset{}
    ensures var r := Next(cfg, s, Arrive(now));
            var e := Finish(r.b.generation, false, now);
            && r.b.state == Recovering && r.b.generation == s.b.generation + 1 && Enabled(r, e)
            && Next(cfg, r, e).b.state == Tripped
  {
  }

  lemma RetripRun(cfg: Config) returns (ss: seq<Sys>, es: seq<Event>)
    requires cfg.Valid() && cfg.trip(ONE_FAILURE) && cfg.recover(ONE_FAILURE)
    ensures IsRun(cfg, 1, ss, es) && |es| == 4 && Moves(ss[3], ss[4], Recovering, Tripped)
  {
    var late := cfg.trippedPeriod + 2;
    var s1 := Next(cfg, Start(cfg, 1), Arrive(1));
    var s2 := Next(cfg, s1, Finish(1, false, 1));
    TripAtOnce(cfg);
    TripAgain(cfg, s2, late);
    var s3 := Next(cfg, s2, Arrive(late));
    var s4 := Next(cfg, s3, Finish(3, false, late));
    ss := [Start(cfg, 1), s1, s2, s3, s4];
    es := [Arrive(1), Finish(1, false, 1), Arrive(late), Finish(3, false, late)];
    forall k | 0 <= k < 4
      ensures StepAt(cfg, ss, es, k)
    {
    }
  }

  /** The comment on OnTripped promises it on entering Tripped. When one failure trips and one failure in
      Recovering trips again, the second time is not announced. */
  lemma RetripIsNotAnnounced(cfg: Config)
    requires cfg.Valid() && cfg.trip(ONE_FAILURE) && cfg.recover(ONE_FAILURE)
    ensures exists ss: seq<Sys>, es: seq<Event> ::
              IsRun(cfg, 1, ss, es) && |es| == 4 && Moves(ss[3], ss[4], Recovering, Tripped) &&
              TrippedLaunches(ss[3]) == TrippedLaunches(ss[4])
  {
    var ss, es := RetripRun(cfg);
    LaunchesExactly(cfg, 1, ss, es, 3);
  }

  /** A call is admitted exactly when the breaker is not tripped or its expiry has passed. In Recovering every
      call is, where the comment on Execute promises that some are not. */
  lemma AdmittedExactly(cfg: Config, t: Time, ss: seq<Sys>, es: seq<Event>, i: nat)
    requires IsRun(cfg, t, ss, es) && i < |es| && es[i].Arrive?
    ensures Admitted(cfg, ss[i], es[i]) <==> ss[i].b.state != Tripped || es[i].now > ss[i].b.expiry
    ensures Admitted(cfg, ss[i], es[i]) <==> ss[i + 1].inflight == ss[i].inflight + multiset{ss[i + 1].b.generation}
    ensures ss[i].b.state == Recovering ==>
              Admitted(cfg, ss[i], es[i]) && Moves(ss[i], ss[i + 1], Recovering, Recovering)
  {
    RunStep(cfg, t, ss, es, i);
    var g := ss[i + 1].b.generation;
    assert (ss[i].inflight + multiset{g})[g] == ss[i].inflight[g] + 1;
  }

  /** The documentation promises one OnExecute per execution. A call that outlives its
      generation is executed and never reported. */
  lemma LateCallIsNeverReported(cfg: Config)
    requires cfg.Valid()
    ensures exists ss: seq<Sys>, es: seq<Event> ::
              IsRun(cfg, 1, ss, es) && |es| == 2 && Admitted(cfg, ss[0], es[0]) && es[1].Finish? &&
              Reports(ss[2]) == 0 && ss[2].inflight == multiset{}
  {
    var es := [Arrive(1), Finish(1, true, cfg.interval + 2)];
    var s0 := Start(cfg, 1);
    var s1 := Next(cfg, s0, es[0]);
    var s2 := Next(cfg, s1, es[1]);
    var ss := [s0, s1, s2];
    assert s1.b.generation == 1 && s1.inflight == multiset{1};
    assert s2.b.notices == [];
    assert StepAt(cfg, ss, es, 0) && StepAt(cfg, ss, es, 1);
    assert IsRun(cfg, 1, ss, es);
  }

  // ---------- Thresholds ----------

  predicate TripTest(cfg: Config, state: State, m: Metrics) {
    if state == Standby then cfg.trip(m) else cfg.recover(m)
  }

  /** A breaker leaves Standby or Recovering for Tripped exactly on a recorded failure whose
      configured test accepts the counters as they stand with that failure. */
  lemma TripsExactlyOnFailure(cfg: Config, s: Sys, e: Event)
    requires TicketsMatch(s) && Enabled(s, e) && s.b.state != Tripped
    ensures Next(cfg, s, e).b.state == Tripped <==>
            Recorded(cfg, s, e) && !e.ok && TripTest(cfg, s.b.state, s.b.metrics.Failure())
  {
  }

  lemma RatioOverReals(f: nat, n: nat, ratio: real)
    requires n > 0
    ensures f as real / n as real >= ratio <==> f as real >= ratio * n as real
  {
  }

  /** Counting one more failure, at least minExecutions calls were admitted in this generation and
      the failed ones among all of them, running calls included, reach the ratio. */
  ghost predicate RatioReached(s: Sys, ratio: real, minExecutions: Uint32) {
    && Admissions(s) >= minExecutions
    && (Count(s.log, false) + 1) as real >= ratio * Admissions(s) as real
  }

  /** The comment on RatioTripper promises a ratio greater than the given one. With at least one execution the
      code agrees exactly unless the ratio is equal and enough calls were executed, when it trips. */
  lemma TripsAtEquality(ratio: real, minExecutions: Uint32, m: Metrics)
    requires m.executions > 0
    ensures RatioTripper(ratio, minExecutions)(m)
            <==> m.executions >= minExecutions && m.failures as real >= ratio * m.executions as real
    ensures RatioTripper(0.5, 2)(Metrics(2, 1, 1, 0, 1)) && 1 as real / 2 as real == 0.5
    ensures (RatioTripper(ratio, minExecutions)(m)
             <==> m.executions >= minExecutions && m.failures as real > ratio * m.executions as real)
            <==> !(m.executions >= minExecutions && m.failures as real == ratio * m.executions as real)
  {
    RatioOverReals(m.failures, m.executions, ratio);
  }

  /** What a ratio test makes of two counters; x/0 is +Inf. */
  predicate RatioSeen(executions: nat, failures: nat, ratio: real, minExecutions: Uint32) {
    && executions >= minExecutions
    && if executions == 0 then failures != 0 else failures as real >= ratio * executions as real
  }

  /** A ratio test sees the totals as far as a uint32 holds them. */
  lemma RatioTestSeesTotals(s: Sys, ratio: real, minExecutions: Uint32)
    requires CountersMatch(s)
    ensures RatioTripper(ratio, minExecutions)(s.b.metrics.Failure()) <==>
            RatioSeen(Wrap(Admissions(s)), Wrap(Count(s.log, false) + 1), ratio, minExecutions)
  {
    WrapInc(Count(s.log, false));
    var m := s.b.metrics.Failure();
    if m.executions > 0 {
      RatioOverReals(m.failures, m.executions, ratio);
    }
  }

  /** With fewer than 2^32 admissions these are the true totals. */
  lemma SmallTotalsAreSeen(s: Sys, ratio: real, minExecutions: Uint32)
    requires s.inflight[s.b.generation] > 0 && Admissions(s) < WORD32
    ensures Wrap(Admissions(s)) == Admissions(s) > 0
    ensures RatioSeen(Wrap(Admissions(s)), Wrap(Count(s.log, false) + 1), ratio, minExecutions) <==>
            RatioReached(s, ratio, minExecutions)
  {
    CountsPartition(s.log);
    WrapSmall(Admissions(s));
    WrapSmall(Count(s.log, false) + 1);
  }

  /** With ratio trippers, a breaker in Standby or Recovering trips exactly on a recorded failure for which the
      wrapped totals reach the ratio; with fewer than 2^32 admissions in the generation the true totals
      do, and the divisor is not zero. */
  lemma RatioTripMeansRatioReached(cfg: Config, t: Time, ss: seq<Sys>, es: seq<Event>, i: nat,
                                   ratio: real, minExecutions: Uint32)
    requires IsRun(cfg, t, ss, es) && i < |es| && ss[i].b.state != Tripped
    requires (if ss[i].b.state == Standby then cfg.trip else cfg.recover) == RatioTripper(ratio, minExecutions)
    ensures ss[i + 1].b.state == Tripped <==>
            && Recorded(cfg, ss[i], es[i]) && !es[i].ok
            && RatioSeen(Wrap(Admissions(ss[i])), Wrap(Count(ss[i].log, false) + 1), ratio, minExecutions)
    ensures Admissions(ss[i]) < WORD32 && Recorded(cfg, ss[i], es[i]) ==>
              && ss[i].b.metrics.executions != 0
              && (ss[i + 1].b.state == Tripped <==> !es[i].ok && RatioReached(ss[i], ratio, minExecutions))
  {
    RunStep(cfg, t, ss, es, i);
    TripsExactlyOnFailure(cfg, ss[i], es[i]);
    RatioTestSeesTotals(ss[i], ratio, minExecutions);
    if Recorded(cfg, ss[i], es[i]) && Admissions(ss[i]) < WORD32 {
      RecordedIsCurrent(cfg, ss[i], es[i]);
      SmallTotalsAreSeen(ss[i], ratio, minExecutions);
    }
  }

  /** The state after n calls arrived at time 1 and none finished. */
  function Crowd(cfg: Config, n: nat): Sys {
    Sys(Snapshot(Standby, 1, ZERO_METRICS.(executions := Wrap(n)), 1 + cfg.interval, []),
        multiset{}[1 := n], [], 1, n, 0)
  }

  lemma CrowdGrows(cfg: Config, n: nat)
    requires cfg.Valid()
    ensures Next(cfg, Crowd(cfg, n), Arrive(1)) == Crowd(cfg, n + 1)
  {
    WrapInc(n);
    assert multiset{}[1 := n] + multiset{1} == multiset{}[1 := n + 1];
  }

  lemma CrowdRun(cfg: Config, n: nat) returns (ss: seq<Sys>, es: seq<Event>)
    requires cfg.Valid()
    ensures IsRun(cfg, 1, ss, es) && |es| == n && ss[n] == Crowd(cfg, n)
  {
    ss, es := seq(n + 1, k requires 0 <= k => Crowd(cfg, k)), seq(n, _ => Arrive(1));
    assert multiset{}[1 := 0] == multiset{};
    forall k | 0 <= k < n
      ensures StepAt(cfg, ss, es, k)
    {
      CrowdGrows(cfg, k);
    }
  }

  /** After 2^32 calls in one generation the count of executions is zero again: the first of them to fail trips the
      breaker though the ratio is far from reached. */
  lemma WrappedTotalsMislead(cfg: Config, ratio: real)
    requires cfg.Valid() && cfg.trip == RatioTripper(ratio, 0) && ratio * WORD32 as real > 1.0
    ensures exists ss: seq<Sys>, es: seq<Event> ::
              && IsRun(cfg, 1, ss, es) && |es| == WORD32 + 1 && Moves(ss[WORD32], ss[WORD32 + 1], Standby, Tripped)
              && Admissions(ss[WORD32]) == WORD32 && !RatioReached(ss[WORD32], ratio, 0)
  {
    var ss, es := CrowdRun(cfg, WORD32);
    var s, e := Crowd(cfg, WORD32), Finish(1, false, 1);
    var ss', es' := ss + [Next(cfg, s, e)], es + [e];
    forall k | 0 <= k <= WORD32
      ensures StepAt(cfg, ss', es', k)
    {
      assert k < WORD32 ==> StepAt(cfg, ss, es, k);
    }
    RunKeepsInv(cfg, 1, ss', es', WORD32);
    RatioTestSeesTotals(s, ratio, 0);
    TripsExactlyOnFailure(cfg, s, e);
  }

  lemma FailureCount(s: Sys)
    requires CountersMatch(s) && Trailing(s.log, false) + 1 < WORD32
    ensures s.b.metrics.Failure().consecutiveFailures == Trailing(s.log, false) + 1
  {
  }

  /** Without a recorded result the log stays or a new generation starts with none. */
  lemma UnrecordedLog(cfg: Config, s: Sys, e: Event)
    requires TicketsMatch(s) && Enabled(s, e) && !Recorded(cfg, s, e)
    ensures var n := Next(cfg, s, e); n.log == [] || (n.log == s.log && n.b.state == s.b.state)
  {
  }

  lemma FailureRunStep(cfg: Config, s: Sys, e: Event, max: Uint32)
    requires CountersMatch(s) && TicketsMatch(s) && Enabled(s, e)
    requires cfg.trip == ConsecutiveFailureTripper(max) && max < WORD32 - 1
    requires s.b.state == Standby ==> Trailing(s.log, false) <= max
    ensures Next(cfg, s, e).b.state == Standby ==> Trailing(Next(cfg, s, e).log, false) <= max
  {
    if Recorded(cfg, s, e) {
      RecordedIsCurrent(cfg, s, e);
      RecordedShape(cfg, s, e);
      LogAppend(s.log, e.ok);
      if s.b.state == Standby && !e.ok {
        FailureCount(s);
        TripsExactlyOnFailure(cfg, s, e);
      }
    } else {
      UnrecordedLog(cfg, s, e);
    }
  }

  lemma {:induction false} FailureRunBounded(cfg: Config, t: Time, ss: seq<Sys>, es: seq<Event>, i: nat, max: Uint32)
    requires IsRun(cfg, t, ss, es) && i < |ss|
    requires cfg.trip == ConsecutiveFailureTripper(max) && max < WORD32 - 1
    ensures ss[i].b.state == Standby ==> Trailing(ss[i].log, false) <= max
  {
    if i > 0 {
      FailureRunBounded(cfg, t, ss, es, i - 1, max);
      RunStep(cfg, t, ss, es, i - 1);
      FailureRunStep(cfg, ss[i - 1], es[i - 1], max);
    }
  }

  /** With a consecutive-failure tripper, no Standby state has more than max failures in a row. Only the
      counter stays within the largest max there is: it wraps before it can exceed that. */
  lemma StandbyFailureRunBounded(cfg: Config, t: Time, ss: seq<Sys>, es: seq<Event>, i: nat, max: Uint32)
    requires IsRun(cfg, t, ss, es) && i < |ss|
    requires cfg.trip == ConsecutiveFailureTripper(max)
    ensures ss[i].b.state == Standby ==> ss[i].b.metrics.consecutiveFailures <= max
    ensures ss[i].b.state == Standby && max < WORD32 - 1 ==> Trailing(ss[i].log, false) <= max
  {
    if max < WORD32 - 1 {
      FailureRunBounded(cfg, t, ss, es, i, max);
      RunKeepsInv(cfg, t, ss, es, i);
    }
  }

  /** With a consecutive-failure tripper, Standby trips exactly on the failure after max failures in a row, unless max
      is the largest uint32, when it never does. */
  lemma ConsecutiveTripExactly(cfg: Config, t: Time, ss: seq<Sys>, es: seq<Event>, i: nat, max: Uint32)
    requires IsRun(cfg, t, ss, es) && i < |es| && ss[i].b.state == Standby
    requires cfg.trip == ConsecutiveFailureTripper(max)
    ensures ss[i + 1].b.state == Tripped <==>
            && max < 0xFFFF_FFFF && Recorded(cfg, ss[i], es[i]) && !es[i].ok
            && Trailing(ss[i].log, false) == max
  {
    RunStep(cfg, t, ss, es, i);
    TripsExactlyOnFailure(cfg, ss[i], es[i]);
    StandbyFailureRunBounded(cfg, t, ss, es, i, max);
    if max < 0xFFFF_FFFF {
      FailureCount(ss[i]);
    }
  }

  /** Recovering ends in Standby exactly when a recorded success completes RecoveryLimit successes in a
      row, and until then the run of successes is shorter than the limit. */
  lemma StandbyOnlyThroughTheLimit(cfg: Config, t: Time, ss: seq<Sys>, es: seq<Event>, i: nat)
    requires IsRun(cfg, t, ss, es) && i < |es| && ss[i].b.state == Recovering
    ensures Trailing(ss[i].log, true) < cfg.recoveryLimit
    ensures ss[i + 1].b.state == Standby <==>
            Recorded(cfg, ss[i], es[i]) && es[i].ok && Trailing(ss[i].log, true) + 1 == cfg.recoveryLimit
  {
    RunStep(cfg, t, ss, es, i);
    if Recorded(cfg, ss[i], es[i]) {
      RecordedIsCurrent(cfg, ss[i], es[i]);
    }
  }

  /** A breaker built from the caller's configuration trips in Standby by the caller's Trip and in Recovering by the
      caller's Recover, on the counters with the failure that is recorded, and returns to Standby on the
      success that completes as many in a row as the caller's limit says, or three. */
  lemma BuiltBreakerObeysItsCaller(c: RawConfig, rand: nat, cfg: Config, t: Time, ss: seq<Sys>, es: seq<Event>, i: nat)
    requires rand < (if c.trippedPeriod <= 0 then 60_000_000_000 else c.trippedPeriod) / 7 || 1 <= c.trippedPeriod < 7
    requires CheckAndSetDefaults(c, rand) == Ok(cfg) && IsRun(cfg, t, ss, es) && i < |es|
    ensures ss[0].b.state == Standby && ss[0].b.generation == 1 && ss[0].b.expiry == t + c.interval
    ensures var s, n, e := ss[i], ss[i + 1], es[i];
            && (s.b.state == Standby ==>
                  (n.b.state == Tripped <==> Recorded(cfg, s, e) && !e.ok && c.trip.value(s.b.metrics.Failure())))
            && (s.b.state == Recovering ==>
                  (n.b.state == Tripped <==> Recorded(cfg, s, e) && !e.ok && c.recover.value(s.b.metrics.Failure())))
            && (s.b.state == Recovering ==>
                  (n.b.state == Standby <==>
                   && Recorded(cfg, s, e) && e.ok
                   && Trailing(s.log, true) + 1 == if c.recoveryLimit == 0 then 3 else c.recoveryLimit))
  {
    RunStep(cfg, t, ss, es, i);
    if ss[i].b.state != Tripped {
      TripsExactlyOnFailure(cfg, ss[i], es[i]);
    }
    if ss[i].b.state == Recovering {
      StandbyOnlyThroughTheLimit(cfg, t, ss, es, i);
    }
  }

  // ---------- The Standby interval ----------

  predicate IntervalOver(cfg: Config, s: Sys, now: Time) {
    s.since + cfg.interval != ZERO_TIME && now > s.since + cfg.interval
  }

  /** Standby counts over one interval: a clock reading more than an interval after the one that started the
      generation starts a new one with nothing counted, so a result is counted only within the interval of
      the generation its call was admitted in; any earlier reading keeps the generation unless it trips. */
  lemma StandbyCountsWithinInterval(cfg: Config, t: Time, ss: seq<Sys>, es: seq<Event>, i: nat)
    requires IsRun(cfg, t, ss, es) && i < |es| && ss[i].b.state == Standby
    ensures Recorded(cfg, ss[i], es[i]) ==> !IntervalOver(cfg, ss[i], es[i].now)
    ensures var s, n := ss[i], ss[i + 1];
            if IntervalOver(cfg, s, es[i].now)
            then n.b.state == Standby && n.b.generation == s.b.generation + 1 && n.since == es[i].now && n.log == []
            else n.b.state == Standby ==> n.b.generation == s.b.generation && n.since == s.since && s.log <= n.log
  {
    RunStep(cfg, t, ss, es, i);
    if Recorded(cfg, ss[i], es[i]) {
      RecordedIsCurrent(cfg, ss[i], es[i]);
    }
  }

  /** A finished call is reported through OnExecute, once, exactly when its generation is still current and,
      in Standby, its interval is not over. */
  lemma ReportedExactly(cfg: Config, t: Time, ss: seq<Sys>, es: seq<Event>, i: nat)
    requires IsRun(cfg, t, ss, es) && i < |es| && es[i].Finish?
    ensures Reports(ss[i + 1]) == Reports(ss[i]) +
              if es[i].ticket != ss[i].b.generation || (ss[i].b.state == Standby && IntervalOver(cfg, ss[i], es[i].now))
              then 0 else 1
  {
    RunStep(cfg, t, ss, es, i);
    CallbacksBalance(cfg, t, ss, es, i);
    CallbacksBalance(cfg, t, ss, es, i + 1);
    if Recorded(cfg, ss[i], es[i]) {
      RecordedIsCurrent(cfg, ss[i], es[i]);
    }
  }

  // ---------- The tripped period ----------

  ghost predicate TripsAt(ss: seq<Sys>, i: nat)
    requires i + 1 < |ss|
  {
    ss[i].b.state != Tripped && ss[i + 1].b.state == Tripped
  }

  /** While tripped, a clock reading up to the expiry changes neither the state nor the generation,
      and a later one starts Recovering with no call holding the new generation but an arriving one. */
  lemma TrippedStep(cfg: Config, s: Sys, e: Event)
    requires TicketsMatch(s) && Enabled(s, e) && s.b.state == Tripped
    ensures Admitted(cfg, s, e) ==> e.now > s.b.expiry
    ensures var n := Next(cfg, s, e);
            if e.now <= s.b.expiry
            then n.b.state == Tripped && n.b.generation == s.b.generation && n.b.expiry == s.b.expiry
            else n.b.state == Recovering && n.b.generation == s.b.generation + 1 &&
                 n.inflight[n.b.generation] == (if e.Arrive? then 1 else 0)
  {
  }

  lemma TripSetsExpiry(cfg: Config, t: Time, ss: seq<Sys>, es: seq<Event>, i: nat)
    requires IsRun(cfg, t, ss, es) && i < |es| && TripsAt(ss, i)
    ensures ss[i + 1].b.expiry == es[i].now + cfg.trippedPeriod
  {
    RunStep(cfg, t, ss, es, i);
    TripsExactlyOnFailure(cfg, ss[i], es[i]);
    RecordedIsCurrent(cfg, ss[i], es[i]);
  }

  /** Until a clock reading passes the tripped period, the tripped generation lasts. */
  lemma {:induction false} TrippedUntilExpiry(cfg: Config, t: Time, ss: seq<Sys>, es: seq<Event>, i: nat, k: nat)
    requires IsRun(cfg, t, ss, es) && Monotone(es) && i < k < |ss| && TripsAt(ss, i)
    ensures || es[k - 1].now > es[i].now + cfg.trippedPeriod
            || (ss[k].b.state == Tripped && ss[k].b.expiry == es[i].now + cfg.trippedPeriod)
    decreases k
  {
    if k == i + 1 {
      TripSetsExpiry(cfg, t, ss, es, i);
    } else {
      TrippedUntilExpiry(cfg, t, ss, es, i, k - 1);
      assert es[k - 2].now <= es[k - 1].now;
      if ss[k - 1].b.state == Tripped {
        RunStep(cfg, t, ss, es, k - 1);
        TrippedStep(cfg, ss[k - 1], es[k - 1]);
      }
    }
  }

  /** After a trip at time T no call is admitted, so no function is executed, before a clock reading
      strictly greater than T + TrippedPeriod. */
  lemma NothingRunsWhileTripped(cfg: Config, t: Time, ss: seq<Sys>, es: seq<Event>, i: nat, j: nat)
    requires IsRun(cfg, t, ss, es) && Monotone(es) && i < j < |es| && TripsAt(ss, i)
    ensures Admitted(cfg, ss[j], es[j]) ==> es[j].now > es[i].now + cfg.trippedPeriod
  {
    TrippedUntilExpiry(cfg, t, ss, es, i, j);
    assert es[j - 1].now <= es[j].now;
  }

  /** The breaker between a trip in generation g and the next admission: still tripped, or
      recovering with no call to judge. */
  ghost predicate Waiting(s: Sys, g: nat, expiry: Time) {
    || (s.b.state == Tripped && s.b.generation == g && s.b.expiry == expiry)
    || (s.b.state == Recovering && s.b.generation == g + 1 && s.inflight[g + 1] == 0)
  }

  lemma WaitingStep(cfg: Config, s: Sys, e: Event, g: nat, expiry: Time)
    requires TicketsMatch(s) && Enabled(s, e) && Waiting(s, g, expiry)
    requires e.Arrive? ==> s.b.state == Tripped && e.now <= expiry
    ensures Waiting(Next(cfg, s, e), g, expiry)
  {
  }

  lemma ArrivalWhileWaiting(cfg: Config, t: Time, ss: seq<Sys>, es: seq<Event>, i: nat, k: nat)
    requires IsRun(cfg, t, ss, es) && Monotone(es) && i < k < |es| && TripsAt(ss, i)
    requires es[k].Arrive? && es[k].now <= es[i].now + cfg.trippedPeriod
    ensures ss[k].b.state == Tripped
  {
    TrippedUntilExpiry(cfg, t, ss, es, i, k);
    assert es[k - 1].now <= es[k].now;
  }

  lemma WaitingOneStep(cfg: Config, t: Time, ss: seq<Sys>, es: seq<Event>, i: nat, k: nat)
    requires IsRun(cfg, t, ss, es) && Monotone(es) && i < k < |es| && TripsAt(ss, i)
    requires Waiting(ss[k], ss[i + 1].b.generation, es[i].now + cfg.trippedPeriod)
    requires es[k].Arrive? ==> es[k].now <= es[i].now + cfg.trippedPeriod
    ensures Waiting(ss[k + 1], ss[i + 1].b.generation, es[i].now + cfg.trippedPeriod)
  {
    RunStep(cfg, t, ss, es, k);
    if es[k].Arrive? {
      ArrivalWhileWaiting(cfg, t, ss, es, i, k);
    }
    WaitingStep(cfg, ss[k], es[k], ss[i + 1].b.generation, es[i].now + cfg.trippedPeriod);
  }

  lemma {:induction false} WaitingLasts(cfg: Config, t: Time, ss: seq<Sys>, es: seq<Event>, i: nat, k: nat)
    requires IsRun(cfg, t, ss, es) && Monotone(es) && i < k < |ss| && TripsAt(ss, i)
    requires forall m :: i < m < k && es[m].Arrive? ==> es[m].now <= es[i].now + cfg.trippedPeriod
    ensures Waiting(ss[k], ss[i + 1].b.generation, es[i].now + cfg.trippedPeriod)
    decreases k
  {
    if k == i + 1 {
      TripSetsExpiry(cfg, t, ss, es, i);
    } else {
      WaitingLasts(cfg, t, ss, es, i, k - 1);
      WaitingOneStep(cfg, t, ss, es, i, k - 1);
    }
  }

  /** The first call to arrive after the tripped period is admitted, in Recovering, as the
      first call of the generation after the tripped one. */
  lemma FirstCallAfterPeriodRecovers(cfg: Config, t: Time, ss: seq<Sys>, es: seq<Event>, i: nat, j: nat)
    requires IsRun(cfg, t, ss, es) && Monotone(es) && i < j < |es| && TripsAt(ss, i)
    requires es[j].Arrive? && es[j].now > es[i].now + cfg.trippedPeriod
    requires forall m :: i < m < j && es[m].Arrive? ==> es[m].now <= es[i].now + cfg.trippedPeriod
    ensures Admitted(cfg, ss[j], es[j])
    ensures ss[j + 1].b.state == Recovering && ss[j + 1].b.generation == ss[i + 1].b.generation + 1
    ensures ss[j + 1].inflight[ss[j + 1].b.generation] == 1
  {
    WaitingLasts(cfg, t, ss, es, i, j);
    RunStep(cfg, t, ss, es, j);
    if ss[j].b.state == Tripped {
      TrippedStep(cfg, ss[j], es[j]);
    }
  }
}
