/** The circuit breaker of api/breaker/breaker.go: configuration, trip functions, and
    the mutable `CircuitBreaker`, each of whose methods is proved against a function on
    snapshots of the object. What every interleaving of calls keeps is in `BreakerRuns`. */
module Breaker {
  import opened Common

  // Nanoseconds. Go's zero `time.Time` is the reading 0.
  type Time = int
  const ZERO_TIME: Time := 0

  const WORD32: nat := 0x1_0000_0000
  type Uint32 = n: int | 0 <= n < 0x1_0000_0000

  /** The value a uint32 holds after being incremented n times from zero. */
  function Wrap(n: nat): Uint32 {
    n % WORD32
  }

  function Inc(n: Uint32): (r: Uint32)
    ensures n < 0xFFFF_FFFF ==> r == n + 1
    ensures n == 0xFFFF_FFFF ==> r == 0
  {
    Wrap(n + 1)
  }

  datatype Result<+T> = Ok(value: T) | BadParameter

  datatype State = Standby | Tripped | Recovering

  datatype Metrics = Metrics(executions: Uint32, successes: Uint32, failures: Uint32,
                             consecutiveSuccesses: Uint32, consecutiveFailures: Uint32)
  {
    function Execute(): Metrics {
      this.(executions := Inc(executions))
    }

    function Success(): Metrics {
      this.(successes := Inc(successes), consecutiveSuccesses := Inc(consecutiveSuccesses), consecutiveFailures := 0)
    }

    function Failure(): Metrics {
      this.(failures := Inc(failures), consecutiveFailures := Inc(consecutiveFailures), consecutiveSuccesses := 0)
    }
  }

  const ZERO_METRICS := Metrics(0, 0, 0, 0, 0)

  type TripFn = Metrics -> bool

  /** Go divides floats: 0/0 is not a number, which is below every ratio, and x/0 is +Inf. */
  function RatioTripper(ratio: real, minExecutions: Uint32): TripFn {
    (m: Metrics) =>
      if m.executions < minExecutions then false
      else if m.executions == 0 then m.failures != 0
      else m.failures as real / m.executions as real >= ratio
  }

  function ConsecutiveFailureTripper(max: Uint32): TripFn {
    (m: Metrics) => m.consecutiveFailures > max
  }

  /** Configuration as the caller supplies it; `None` is a nil function. */
  datatype RawConfig = RawConfig(interval: int, trippedPeriod: int, recoveryLimit: Uint32,
                                 trip: Option<TripFn>, recover: Option<TripFn>)

  datatype Config = Config(interval: int, trippedPeriod: int, recoveryLimit: Uint32, trip: TripFn, recover: TripFn)
  {
    predicate Valid() {
      interval > 0 && trippedPeriod > 0 && recoveryLimit > 0
    }
  }

  const DEFAULT_TRIPPED_PERIOD: int := 60_000_000_000
  const DEFAULT_RECOVERY_LIMIT: Uint32 := 3

  /** retryutils.SeventhJitter; `rand` is the random draw below d / 7. */
  function SeventhJitter(d: int, rand: nat): (r: int)
    requires 7 <= d ==> rand < d / 7
    ensures 0 < d ==> 0 < r <= d && 6 * d <= 7 * r
    ensures 7 <= d ==> r < d
    ensures d < 1 ==> r == 0
  {
    if d < 1 then 0
    else if d / 7 < 1 then d
    else d - d / 7 + rand
  }

  /** Every duration in the promised range comes out for exactly one draw. */
  lemma JitterCoversItsRange(d: int, t: int, rand: nat)
    requires 7 <= d && 6 * d <= 7 * t && t < d && rand < d / 7
    ensures 0 <= t - (d - d / 7) < d / 7
    ensures SeventhJitter(d, rand) == t <==> rand == t - (d - d / 7)
  {
  }

  /** The rejected configurations are exactly those without a positive interval or without a trip function. Every
      other one becomes valid and keeps the caller's interval and trip functions; a missing recovery limit
      becomes 3, a missing tripped period a minute, and the period loses up to a seventh. */
  function CheckAndSetDefaults(c: RawConfig, rand: nat): (r: Result<Config>)
    requires rand < (if c.trippedPeriod <= 0 then 60_000_000_000 else c.trippedPeriod) / 7 || 1 <= c.trippedPeriod < 7
    ensures r.BadParameter? <==> c.interval <= 0 || c.trip.None? || c.recover.None?
    ensures r.Ok? ==> r.value.Valid() && r.value.interval == c.interval
    ensures r.Ok? ==> r.value.trip == c.trip.value && r.value.recover == c.recover.value
    ensures r.Ok? ==> r.value.recoveryLimit == if c.recoveryLimit == 0 then 3 else c.recoveryLimit
    ensures r.Ok? ==>
              var d := if c.trippedPeriod <= 0 then 60_000_000_000 else c.trippedPeriod;
              r.value.trippedPeriod <= d && 6 * d <= 7 * r.value.trippedPeriod
  {
    if c.interval <= 0 || c.trip.None? || c.recover.None? then BadParameter
    else
      var period := if c.trippedPeriod <= 0 then DEFAULT_TRIPPED_PERIOD else c.trippedPeriod;
      var limit := if c.recoveryLimit <= 0 then DEFAULT_RECOVERY_LIMIT else c.recoveryLimit;
      Ok(Config(c.interval, SeventhJitter(period, rand), limit, c.trip.value, c.recover.value))
  }

  /** A callback the breaker launched. */
  datatype Notice = OnTripped | OnStandBy | OnExecute(success: bool, state: State)

  /** The fields of a `CircuitBreaker` and the callbacks launched so far. */
  datatype Snapshot = Snapshot(state: State, generation: nat, metrics: Metrics, expiry: Time, notices: seq<Notice>)

  function Expiry(cfg: Config, state: State, t: Time): Time {
    match state
    case Recovering => ZERO_TIME
    case Tripped => t + cfg.trippedPeriod
    case Standby => t + cfg.interval
  }

  /** A fresh generation in the given state. */
  function Enter(cfg: Config, s: Snapshot, state: State, t: Time): Snapshot {
    Snapshot(state, s.generation + 1, ZERO_METRICS, Expiry(cfg, state, t), s.notices)
  }

  /** What reading the clock alone does to the breaker. */
  function Roll(cfg: Config, s: Snapshot, t: Time): Snapshot {
    match s.state
    case Tripped => if s.expiry < t then Enter(cfg, s, Recovering, t) else s
    case Standby => if s.expiry != ZERO_TIME && s.expiry < t then Enter(cfg, s, Standby, t) else s
    case Recovering => s
  }

  function Notify(s: Snapshot, n: Notice): Snapshot {
    s.(notices := s.notices + [n])
  }

  predicate Admits(cfg: Config, s: Snapshot, now: Time) {
    Roll(cfg, s, now).state != Tripped
  }

  function Before(cfg: Config, s: Snapshot, now: Time): Snapshot {
    var r := Roll(cfg, s, now);
    if r.state == Tripped then Notify(r, OnExecute(false, Tripped)) else r.(metrics := r.metrics.Execute())
  }

  function Succeed(cfg: Config, s: Snapshot, t: Time): Snapshot {
    if s.state == Tripped then s
    else
      var u := Notify(s, OnExecute(true, s.state)).(metrics := s.metrics.Success());
      if s.state == Recovering && u.metrics.consecutiveSuccesses >= cfg.recoveryLimit
      then Notify(Enter(cfg, u, Standby, t), OnStandBy)
      else u
  }

  function Fail(cfg: Config, s: Snapshot, t: Time): Snapshot {
    var m := s.metrics.Failure();
    if s.state == Tripped then s.(metrics := m)
    else
      var u := Notify(s, OnExecute(false, s.state)).(metrics := m);
      if s.state == Recovering then (if cfg.recover(m) then Enter(cfg, u, Tripped, t) else u)
      else if cfg.trip(m) then Notify(Enter(cfg, u, Tripped, t), OnTripped)
      else u
  }

  function After(cfg: Config, s: Snapshot, prior: nat, ok: bool, now: Time): Snapshot {
    var r := Roll(cfg, s, now);
    if r.generation != prior then r
    else if ok then Succeed(cfg, r, now)
    else Fail(cfg, r, now)
  }

  function Fresh(cfg: Config, t: Time): Snapshot {
    Enter(cfg, Snapshot(Standby, 0, ZERO_METRICS, ZERO_TIME, []), Standby, t)
  }

  /** The object itself. `notices` records the callbacks it launches; the mutex makes each
      of `BeforeExecution` and `AfterExecution` one step. */
  class CircuitBreaker {
    const cfg: Config
    var state: State
    var generation: nat
    var metrics: Metrics
    var expiry: Time
    var notices: seq<Notice>

    ghost function View(): Snapshot
      reads this
    {
      Snapshot(state, generation, metrics, expiry, notices)
    }

    constructor (cfg: Config, now: Time)
      ensures this.cfg == cfg && View() == Fresh(cfg, now)
      ensures state == Standby && generation == 1 && expiry == now + cfg.interval
      ensures metrics == Metrics(0, 0, 0, 0, 0) && notices == []
    {
      this.cfg := cfg;
      state, generation, metrics, expiry, notices := Standby, 0, ZERO_METRICS, ZERO_TIME, [];
      new;
      NextGeneration(now);
    }

    method NextGeneration(t: Time)
      modifies this
      ensures View() == Enter(cfg, old(View()), old(state), t)
    {
      metrics := ZERO_METRICS;
      generation := generation + 1;
      match state {
        case Recovering => expiry := ZERO_TIME;
        case Tripped => expiry := t + cfg.trippedPeriod;
        case Standby => expiry := t + cfg.interval;
      }
    }

    method SetState(s: State, t: Time)
      modifies this
      ensures View() == if old(state) == s then old(View()) else Enter(cfg, old(View()), s, t)
    {
      if state == s {
        return;
      }
      state := s;
      NextGeneration(t);
    }

    method CurrentState(t: Time) returns (g: nat, s: State)
      modifies this
      ensures View() == Roll(cfg, old(View()), t)
      ensures g == generation && s == state
    {
      if state == Tripped && expiry < t {
        SetState(Recovering, t);
      } else if state == Standby && expiry != ZERO_TIME && expiry < t {
        NextGeneration(t);
      }
      g, s := generation, state;
    }

    /** The ticket of an admitted call, or `None` for a call rejected while tripped. */
    method BeforeExecution(now: Time) returns (ticket: Option<nat>)
      modifies this
      ensures View() == Before(cfg, old(View()), now)
      ensures ticket == if Admits(cfg, old(View()), now) then Some(generation) else None
    {
      var g, s := CurrentState(now);
      if s == Tripped {
        notices := notices + [OnExecute(false, Tripped)];
        return None;
      }
      metrics := metrics.Execute();
      return Some(g);
    }

    method AfterExecution(prior: nat, ok: bool, now: Time)
      modifies this
      ensures View() == After(cfg, old(View()), prior, ok, now)
    {
      var g, s := CurrentState(now);
      if g != prior {
        return;
      }
      if ok {
        SuccessLocked(s, now);
      } else {
        FailureLocked(s, now);
      }
    }

    method SuccessLocked(s: State, t: Time)
      requires s == state
      modifies this
      ensures View() == Succeed(cfg, old(View()), t)
    {
      match s {
        case Standby =>
          notices := notices + [OnExecute(true, Standby)];
          metrics := metrics.Success();
        case Recovering =>
          notices := notices + [OnExecute(true, Recovering)];
          metrics := metrics.Success();
          if metrics.consecutiveSuccesses >= cfg.recoveryLimit {
            SetState(Standby, t);
            notices := notices + [OnStandBy];
          }
        case Tripped =>
      }
    }

    method FailureLocked(s: State, t: Time)
      requires s == state
      modifies this
      ensures View() == Fail(cfg, old(View()), t)
    {
      metrics := metrics.Failure();
      match s {
        case Recovering =>
          notices := notices + [OnExecute(false, Recovering)];
          if cfg.recover(metrics) {
            SetState(Tripped, t);
          }
        case Standby =>
          notices := notices + [OnExecute(false, Standby)];
          if cfg.trip(metrics) {
            SetState(Tripped, t);
            notices := notices + [OnTripped];
          }
        case Tripped =>
      }
    }
  }
}
