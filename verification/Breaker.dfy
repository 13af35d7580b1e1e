/** CircuitBreaker (ttsbot/health.py): how long a failing provider is avoided. Times are clock seconds. */
module Breaker {
  import opened Bytes
  import opened Reals

  datatype Kind = Request | Transient | RateLimit | Quota | Auth
  datatype Circuit = Closed | Open | HalfOpen

  const MIN_RECHECK_SECONDS: real := 30.0

  datatype Config = Config(
    failureThreshold: int, cooldownSeconds: real, backoffFactor: real, maxCooldown: real,
    quotaRecheck: real, authRecheck: real, maxRecheck: real, probeTimeout: real, checkGrace: real)

  datatype State = State(
    circuit: Circuit, failures: nat, openedAt: Option<real>, cooldown: real, kind: Option<Kind>,
    escalation: nat, escalationKind: Option<Kind>, closedByCheck: bool, checkTrusted: bool,
    probeStarted: Option<real>, awaitCheck: bool, downSince: Option<real>)

  const FRESH := State(Closed, 0, None, 0.0, None, 0, None, false, true, None, false, None)

  predicate Long(kind: Kind) { kind == Quota || kind == Auth }

  function Power(x: real, n: nat): real { if n == 0 then 1.0 else x * Power(x, n - 1) }

  // ---- Looking

  /** What reading retry_at does: a pause dated in the future restarts now. */
  function Looked(s: State, now: real): State {
    if s.circuit == Open && s.openedAt.Some? && s.openedAt.value > now then s.(openedAt := Some(now)) else s
  }

  function RetryAt(s: State, now: real): Option<real> {
    if s.circuit != Open || s.openedAt.None? then None else Some(Looked(s, now).openedAt.value + s.cooldown)
  }

  function Remaining(s: State, now: real): real {
    if RetryAt(s, now).None? then 0.0 else Max(0.0, RetryAt(s, now).value - now)
  }

  // ---- Transitions

  /** retry_at or now: a retry time of zero counts as none. */
  function RetryOrNow(s: State, now: real): real {
    var r := RetryAt(s, now);
    if r.None? || r.value == 0.0 then now else r.value
  }

  function AllowRequest(s: State, c: Config, now: real): (State, bool) {
    match s.circuit
    case Closed => (s, true)
    case HalfOpen =>
      if s.probeStarted.Some? && now - s.probeStarted.value > c.probeTimeout then (s.(probeStarted := Some(now)), true)
      else (s, false)
    case Open =>
      var l := Looked(s, now);
      if Remaining(l, now) > 0.0 then (l, false)
      else if l.awaitCheck && now - RetryOrNow(l, now) < c.checkGrace then (l, false)
      else (l.(circuit := HalfOpen, probeStarted := Some(now)), true)
  }

  function RecordSuccess(s: State, confirmed: bool): State {
    State(Closed, 0, None, 0.0, None,
          if confirmed then 0 else s.escalation, if confirmed then None else s.escalationKind,
          !confirmed, confirmed || s.checkTrusted, None, false,
          if s.circuit != Closed then None else s.downSince)
  }

  function Family(kind: Kind): Kind { if kind == RateLimit then Transient else kind }

  /** Backoff pauses of this family since the last confirmed success. */
  function Depth(s: State, family: Kind): nat {
    if s.escalationKind == Some(family) then s.escalation else 0
  }

  function Pause(c: Config, base: real, n: nat, cap: real): real { Min(Max(base * Power(c.backoffFactor, n), 0.0), cap) }

  function Backoff(s: State, c: Config, kind: Kind, base: real, cap: real): (State, real) {
    var family := Family(kind);
    var n := Depth(s, family);
    (s.(escalation := n + 1, escalationKind := Some(family)), Pause(c, base, n, cap))
  }

  function OpenFor(s: State, kind: Kind, cooldown: real, now: real): State {
    s.(circuit := Open, openedAt := Some(now), cooldown := cooldown, kind := Some(kind), probeStarted := None,
       awaitCheck := false, downSince := if s.downSince.None? then Some(now) else s.downSince)
  }

  function Recheck(c: Config, kind: Kind): real { if kind == Auth then c.authRecheck else c.quotaRecheck }

  /** Quota spent or key refused: until the service says so, or by backoff. */
  function LongFailure(f: State, c: Config, kind: Kind, until: Option<real>, base: Option<real>, now: real): State {
    var g := if f.closedByCheck then f.(checkTrusted := false, closedByCheck := false) else f;
    if until.Some? && until.value - now >= MIN_RECHECK_SECONDS then
      OpenFor(g, kind, Min(Max(until.value - now, 0.0), c.maxRecheck), now)
    else
      var (h, pause) := Backoff(g, c, kind, if base.None? then Recheck(c, kind) else base.value, c.maxRecheck);
      OpenFor(h, kind, Min(Max(pause, 0.0), c.maxRecheck), now)
  }

  function RecordFailure(s: State, c: Config, kind: Kind, retryAfter: Option<real>, until: Option<real>, base: Option<real>,
                         now: real): State
  {
    if kind == Request then s
    else
      var f := s.(failures := s.failures + 1);
      if kind == RateLimit && retryAfter.Some? && retryAfter.value != 0.0 then
        var pause := Min(retryAfter.value, c.maxRecheck);
        if f.circuit == Open && Remaining(f, now) >= pause then Looked(f, now) else OpenFor(Looked(f, now), kind, pause, now)
      else if Long(kind) then LongFailure(f, c, kind, until, base, now)
      else if f.circuit == Open then f
      else if f.circuit == HalfOpen || f.failures >= c.failureThreshold then
        var (h, pause) := Backoff(f, c, Transient, c.cooldownSeconds, c.maxCooldown);
        OpenFor(h, Transient, pause, now)
      else f
  }

  function Reopen(s: State, c: Config, now: real): State {
    var kind := if s.kind.Some? then s.kind.value else Transient;
    var (h, pause) := if Long(kind) then Backoff(s, c, kind, Recheck(c, kind), c.maxRecheck)
                      else Backoff(s, c, kind, c.cooldownSeconds, c.maxCooldown);
    OpenFor(h, kind, pause, now)
  }

  // ---- Persistence

  datatype Snapshot = Snapshot(circuit: Circuit, kind: Option<Kind>, openedAt: Option<real>, cooldown: real, escalation: nat,
                               escalationKind: Option<Kind>, failures: nat, awaitCheck: bool, downSince: Option<real>)

  function ToDict(s: State): Snapshot {
    Snapshot(s.circuit, s.kind, s.openedAt, s.cooldown, s.escalation, s.escalationKind, s.failures, s.awaitCheck, s.downSince)
  }

  function Restore(s: State, d: Snapshot): State {
    if d.circuit == Closed || d.openedAt.None? then s
    else
      s.(circuit := Open, openedAt := d.openedAt, cooldown := if d.circuit == Open then d.cooldown else 0.0,
         kind := Some(if d.kind.Some? then d.kind.value else Transient), escalation := d.escalation,
         escalationKind := if d.escalationKind.Some? then d.escalationKind else d.kind, failures := d.failures,
         awaitCheck := d.awaitCheck,
         downSince := if d.downSince.Some? && d.downSince.value != 0.0 then d.downSince else d.openedAt)
  }

  // ---- The class

  class CircuitBreaker {
    const config: Config
    var circuit: Circuit
    var consecutiveFailures: nat
    var openedAt: Option<real>
    var cooldown: real
    var kind: Option<Kind>
    var escalation: nat
    var escalationKind: Option<Kind>
    var closedByCheck: bool
    var checkTrusted: bool
    var probeStarted: Option<real>
    var awaitCheck: bool
    var downSince: Option<real>

    function Now(): State
      reads this
    {
      State(circuit, consecutiveFailures, openedAt, cooldown, kind, escalation, escalationKind, closedByCheck, checkTrusted,
            probeStarted, awaitCheck, downSince)
    }

    constructor (c: Config)
      ensures config == c && Now() == FRESH
    {
      config := c;
      circuit, consecutiveFailures, openedAt, cooldown, kind := Closed, 0, None, 0.0, None;
      escalation, escalationKind, closedByCheck, checkTrusted := 0, None, false, true;
      probeStarted, awaitCheck, downSince := None, false, None;
    }

    /** The retry_at property: reading it may restart the pause. */
    method ReadRetryAt(now: real) returns (r: Option<real>)
      modifies `openedAt
      ensures r == RetryAt(old(Now()), now) && Now() == Looked(old(Now()), now)
    {
      if circuit != Open || openedAt.None? { return None; }
      if openedAt.value > now { openedAt := Some(now); }
      return Some(openedAt.value + cooldown);
    }

    method CooldownRemaining(now: real) returns (r: real)
      modifies `openedAt
      ensures r == Remaining(old(Now()), now) && Now() == Looked(old(Now()), now)
    {
      var at := ReadRetryAt(now);
      r := if at.None? then 0.0 else Max(0.0, at.value - now);
    }

    method Allow(now: real) returns (allowed: bool)
      modifies this
      ensures (Now(), allowed) == AllowRequest(old(Now()), config, now)
    {
      if circuit == Closed { return true; }
      if circuit == HalfOpen {
        if probeStarted.Some? && now - probeStarted.value > config.probeTimeout {
          probeStarted := Some(now);
          return true;
        }
        return false;
      }
      var left := CooldownRemaining(now);
      if left > 0.0 { return false; }
      if awaitCheck {
        var at := ReadRetryAt(now);
        if now - (if at.None? || at.value == 0.0 then now else at.value) < config.checkGrace { return false; }
      }
      circuit, probeStarted := HalfOpen, Some(now);
      return true;
    }

    method Succeed(confirmed: bool)
      modifies this
      ensures Now() == RecordSuccess(old(Now()), confirmed)
    {
      if circuit != Closed { downSince := None; }
      ClosePause();
      consecutiveFailures, closedByCheck := 0, !confirmed;
      if confirmed {
        escalation, escalationKind, checkTrusted := 0, None, true;
      }
    }

    method ClosePause()
      modifies `circuit, `openedAt, `cooldown, `kind, `probeStarted, `awaitCheck
      ensures Now() == old(Now()).(circuit := Closed, openedAt := None, cooldown := 0.0, kind := None, probeStarted := None,
                                   awaitCheck := false)
    {
      circuit, openedAt, cooldown, kind, probeStarted, awaitCheck := Closed, None, 0.0, None, None, false;
    }

    method NextPause(why: Kind, base: real, cap: real) returns (pause: real)
      modifies `escalation, `escalationKind
      ensures (Now(), pause) == Backoff(old(Now()), config, why, base, cap)
    {
      var family := if why == RateLimit then Transient else why;
      if escalationKind != Some(family) {
        escalation, escalationKind := 0, Some(family);
      }
      assert escalation == Depth(old(Now()), family);
      pause := Pause(config, base, escalation, cap);
      escalation := escalation + 1;
    }

    method OpenUp(why: Kind, length: real, now: real)
      modifies this
      ensures Now() == OpenFor(old(Now()), why, length, now)
    {
      circuit, openedAt, cooldown, kind, probeStarted, awaitCheck := Open, Some(now), length, Some(why), None, false;
      if downSince.None? { downSince := Some(now); }
    }

    method Fail(why: Kind, retryAfter: Option<real>, until: Option<real>, base: Option<real>, now: real)
      modifies this
      ensures Now() == RecordFailure(old(Now()), config, why, retryAfter, until, base, now)
    {
      hide LongFailure, Backoff, Remaining, RetryAt, OpenFor;
      if why == Request { return; }
      consecutiveFailures := consecutiveFailures + 1;
      if why == RateLimit && retryAfter.Some? && retryAfter.value != 0.0 {
        var pause := Min(retryAfter.value, config.maxRecheck);
        if circuit == Open {
          var left := CooldownRemaining(now);
          if left >= pause { return; }
        }
        OpenUp(why, pause, now);
        return;
      }
      if Long(why) {
        FailLong(why, until, base, now);
        return;
      }
      if circuit == Open { return; }
      if circuit == HalfOpen || consecutiveFailures >= config.failureThreshold {
        var length := NextPause(Transient, config.cooldownSeconds, config.maxCooldown);
        OpenUp(Transient, length, now);
      }
    }

    method FailLong(why: Kind, until: Option<real>, base: Option<real>, now: real)
      modifies this
      ensures Now() == LongFailure(old(Now()), config, why, until, base, now)
    {
      hide OpenFor, Backoff;
      if closedByCheck { checkTrusted, closedByCheck := false, false; }
      var length;
      if until.Some? && until.value - now >= MIN_RECHECK_SECONDS {
        length := until.value - now;
      } else {
        length := NextPause(why, if base.None? then Recheck(config, why) else base.value, config.maxRecheck);
      }
      OpenUp(why, Min(Max(length, 0.0), config.maxRecheck), now);
    }

    method ReopenNow(now: real)
      modifies this
      ensures Now() == Reopen(old(Now()), config, now)
    {
      var why := if kind.Some? then kind.value else Transient;
      var length;
      if Long(why) {
        length := NextPause(why, Recheck(config, why), config.maxRecheck);
      } else {
        length := NextPause(why, config.cooldownSeconds, config.maxCooldown);
      }
      OpenUp(why, length, now);
    }

    method RestoreCounts(d: Snapshot)
      modifies `escalation, `escalationKind, `consecutiveFailures, `awaitCheck, `downSince
      ensures Now() == old(Now()).(
        escalation := d.escalation, failures := d.failures, awaitCheck := d.awaitCheck,
        escalationKind := if d.escalationKind.Some? then d.escalationKind else d.kind,
        downSince := if d.downSince.Some? && d.downSince.value != 0.0 then d.downSince else d.openedAt)
    {
      downSince := if d.downSince.Some? && d.downSince.value != 0.0 then d.downSince else d.openedAt;
      escalation, escalationKind := d.escalation, if d.escalationKind.Some? then d.escalationKind else d.kind;
      consecutiveFailures, awaitCheck := d.failures, d.awaitCheck;
    }

    method RestoreFrom(d: Snapshot)
      modifies `circuit, `openedAt, `cooldown, `kind, `escalation, `escalationKind, `consecutiveFailures, `awaitCheck, `downSince
      ensures Now() == Restore(old(Now()), d)
    {
      if d.circuit == Closed || d.openedAt.None? { return; }
      circuit, openedAt, cooldown := Open, d.openedAt, if d.circuit == Open then d.cooldown else 0.0;
      kind := Some(if d.kind.Some? then d.kind.value else Transient);
      RestoreCounts(d);
    }
  }

  // ---- Runs

  datatype Event =
    | Ask | Look | AwaitCheck(value: bool) | Success(confirmed: bool) | CheckFailed
    | Failure(kind: Kind, retryAfter: Option<real>, until: Option<real>, base: Option<real>)
    | Restart // saved, and restored into a new breaker

  function Next(s: State, c: Config, e: Event, now: real): State {
    match e
    case Ask => AllowRequest(s, c, now).0
    case Look => Looked(s, now)
    case AwaitCheck(value) => s.(awaitCheck := value)
    case Success(confirmed) => RecordSuccess(s, confirmed)
    case CheckFailed => Reopen(s, c, now)
    case Failure(kind, retryAfter, until, base) => RecordFailure(s, c, kind, retryAfter, until, base, now)
    case Restart => Restore(FRESH, ToDict(s))
  }

  /** Any events at any clock readings, forwards or back. */
  function Run(s: State, c: Config, events: seq<(Event, real)>): State
    decreases |events|
  {
    if events == [] then s else Run(Next(s, c, events[0].0, events[0].1), c, events[1..])
  }

  function MaxPause(c: Config): real { Max(c.maxCooldown, c.maxRecheck) }

  predicate Sound(s: State, c: Config) {
    && (s.circuit == Open ==> s.openedAt.Some?)
    && (s.circuit == HalfOpen ==> s.probeStarted.Some? && s.openedAt.Some?)
    && (s.circuit != Closed ==> s.cooldown <= Max(0.0, MaxPause(c)) && s.kind.Some?)
    && (s.escalationKind.None? || s.escalationKind == Some(RateLimit) || s.escalationKind == Some(Request) ==> s.escalation == 0)
    && s.kind != Some(Request)
  }

  lemma FailureSound(s: State, c: Config, kind: Kind, retryAfter: Option<real>, until: Option<real>, base: Option<real>, now: real)
    requires Sound(s, c)
    ensures Sound(RecordFailure(s, c, kind, retryAfter, until, base, now), c)
  {
    hide Power, Remaining, LongFailure;
    if Long(kind) { LongFailureSound(s.(failures := s.failures + 1), c, kind, until, base, now); }
  }

  lemma LongFailureSound(f: State, c: Config, kind: Kind, until: Option<real>, base: Option<real>, now: real)
    requires Sound(f, c) && Long(kind)
    ensures Sound(LongFailure(f, c, kind, until, base, now), c)
  {
    hide Power;
  }

  lemma ReopenSound(s: State, c: Config, now: real)
    requires Sound(s, c)
    ensures Sound(Reopen(s, c, now), c)
  {
    hide Power;
  }

  lemma AllowSound(s: State, c: Config, now: real)
    requires Sound(s, c)
    ensures Sound(AllowRequest(s, c, now).0, c)
  {
    hide Remaining, RetryOrNow;
  }

  lemma NextSound(s: State, c: Config, e: Event, now: real)
    requires Sound(s, c)
    ensures Sound(Next(s, c, e, now), c)
  {
    hide RecordFailure, Reopen, AllowRequest;
    match e {
      case Ask => AllowSound(s, c, now);
      case CheckFailed => ReopenSound(s, c, now);
      case Failure(kind, retryAfter, until, base) => FailureSound(s, c, kind, retryAfter, until, base, now);
      case _ =>
    }
  }

  /** In every reachable state, whatever the clock does, a pause and what remains of it are within the maximum. */
  lemma {:induction false} PauseBounded(s: State, c: Config, events: seq<(Event, real)>, now: real)
    requires Sound(s, c)
    ensures var r := Run(s, c, events);
            && Sound(r, c) && (r.circuit == Open ==> r.cooldown <= Max(0.0, MaxPause(c)))
            && 0.0 <= Remaining(r, now) <= Max(0.0, r.cooldown)
    decreases |events|
  {
    if events == [] {
    } else {
      NextSound(s, c, events[0].0, events[0].1);
      hide Next, Sound;
      PauseBounded(Next(s, c, events[0].0, events[0].1), c, events[1..], now);
    }
  }

  // ---- Probes

  /** Events that do not report how a probe went. */
  predicate Silent(e: Event) {
    e.Ask? || e.Look? || e.AwaitCheck? || (e.Failure? && e.kind == Request)
  }

  /** Silent, and no request is let through. */
  ghost predicate Quiet(s: State, c: Config, events: seq<(Event, real)>)
    decreases |events|
  {
    events != [] ==>
      var (e, now) := events[0];
      Silent(e) && (e.Ask? ==> !AllowRequest(s, c, now).1) && Quiet(Next(s, c, e, now), c, events[1..])
  }

  lemma {:induction false} ProbeStands(s: State, c: Config, events: seq<(Event, real)>, started: real)
    requires s.circuit == HalfOpen && s.probeStarted == Some(started) && Quiet(s, c, events)
    ensures Run(s, c, events).circuit == HalfOpen && Run(s, c, events).probeStarted == Some(started)
    decreases |events|
  {
    if events != [] {
      var (e, now) := events[0];
      ProbeStands(Next(s, c, e, now), c, events[1..], started);
    }
  }

  /** Two probes with no report between them are more than the probe timeout apart. */
  lemma ProbesApart(s: State, c: Config, first: real, between: seq<(Event, real)>, second: real)
    requires s.circuit != Closed && AllowRequest(s, c, first).1
    requires Quiet(AllowRequest(s, c, first).0, c, between)
    requires AllowRequest(Run(AllowRequest(s, c, first).0, c, between), c, second).1
    ensures second - first > c.probeTimeout
  {
    var probing := AllowRequest(s, c, first).0;
    assert probing.circuit == HalfOpen && probing.probeStarted == Some(first);
    ProbeStands(probing, c, between, first);
  }

  // ---- Requests get through again

  /** Exactly when an open breaker lets a request probe. */
  lemma OpenAdmitsIff(s: State, c: Config, now: real)
    requires s.circuit == Open && s.openedAt.Some?
    ensures var retryAt := (if s.openedAt.value > now then now else s.openedAt.value) + s.cooldown;
            AllowRequest(s, c, now).1 <==>
              retryAt <= now && (!s.awaitCheck || c.checkGrace <= 0.0 || (retryAt != 0.0 && now - retryAt >= c.checkGrace))
  {}

  /** On a positive, advancing clock: within the pause and the check grace, or past the probe timeout. */
  lemma AdmittedInTime(s: State, c: Config, now: real)
    requires Sound(s, c) && c.checkGrace >= 0.0
    requires s.circuit == Open ==> 0.0 < s.openedAt.value && now >= s.openedAt.value + Max(s.cooldown, 0.0) + c.checkGrace
    requires s.circuit == Open ==> s.openedAt.value + s.cooldown > 0.0
    requires s.circuit == HalfOpen ==> now - s.probeStarted.value > c.probeTimeout
    ensures AllowRequest(s, c, now).1
  {
    if s.circuit == Open { OpenAdmitsIff(s, c, now); }
  }

  /** While nothing is reported and the clock advances, the end of the pause stands, so the wait above is bounded. */
  lemma {:induction false} PauseStands(s: State, c: Config, events: seq<(Event, real)>)
    requires s.circuit == Open && s.openedAt.Some? && Quiet(s, c, events)
    requires forall i :: 0 <= i < |events| ==> events[i].1 >= s.openedAt.value
    ensures var r := Run(s, c, events);
            r.circuit == Open && r.openedAt == s.openedAt && r.cooldown == s.cooldown
    decreases |events|
  {
    if events != [] {
      var (e, now) := events[0];
      assert events[0].1 >= s.openedAt.value;
      PauseStands(Next(s, c, e, now), c, events[1..]);
    }
  }

  /** However often it is asked in vain on an advancing clock, an open breaker admits at its time. */
  lemma AdmittedAfterQuiet(s: State, c: Config, events: seq<(Event, real)>, now: real)
    requires Sound(s, c) && c.checkGrace >= 0.0 && s.circuit == Open && 0.0 < s.openedAt.value && s.cooldown >= 0.0
    requires Quiet(s, c, events) && forall e <- events :: e.1 >= s.openedAt.value
    requires now >= s.openedAt.value + s.cooldown + c.checkGrace
    ensures AllowRequest(Run(s, c, events), c, now).1
  {
    hide Quiet, AllowRequest;
    PauseStands(s, c, events);
    PauseBounded(s, c, events, now);
    hide Run;
    AdmittedInTime(Run(s, c, events), c, now);
  }

  /**
   A retry time of exactly zero is taken for none: such a breaker waits for its check for ever. Only a snapshot or
   an injected clock dated near zero gives one; OpenAdmitsIff says what holds at any date.
   */
  lemma ZeroRetryNeverAdmits(s: State, c: Config, now: real)
    requires s.circuit == Open && s.openedAt.Some? && s.awaitCheck && c.checkGrace > 0.0
    requires s.openedAt.value + s.cooldown == 0.0 && now >= s.openedAt.value
    ensures !AllowRequest(s, c, now).1
  {
    OpenAdmitsIff(s, c, now);
  }

  // ---- Backoff

  /** The family whose backoff this event uses, if it uses one. */
  function BacksOff(s: State, c: Config, e: Event, now: real): Option<Kind> {
    match e
    case CheckFailed => Some(if s.kind.Some? then Family(s.kind.value) else Transient)
    case Failure(kind, retryAfter, until, _) =>
      if kind == Request || (kind == RateLimit && retryAfter.Some? && retryAfter.value != 0.0) then None
      else if Long(kind) then (if until.Some? && until.value - now >= MIN_RECHECK_SECONDS then None else Some(kind))
      else if s.circuit != Open && (s.circuit == HalfOpen || s.failures + 1 >= c.failureThreshold) then Some(Transient)
      else None
    case _ => None
  }

  /** The base and cap it uses. */
  function BackoffBase(s: State, c: Config, e: Event): (real, real) {
    var kind := if e.Failure? then e.kind else if s.kind.Some? then s.kind.value else Transient;
    if Long(kind) then
      (if e.Failure? && e.base.Some? then e.base.value else Recheck(c, kind), c.maxRecheck)
    else (c.cooldownSeconds, c.maxCooldown)
  }

  /** Not a confirmed success, nor a restart while closed: that one is saved and restored as a new breaker. */
  predicate KeepsDepth(s: State, e: Event) { !(e.Success? && e.confirmed) && (e.Restart? ==> s.circuit != Closed) }

  /** What a step does to a family's depth: own is the family that backed off in it, if one did. */
  predicate Backed(s: State, r: State, own: Option<Kind>, pause: real, now: real, family: Kind) {
    if own == None then Depth(r, family) == Depth(s, family)
    else if own != Some(family) then Depth(r, family) == 0
    else r.circuit == Open && r.openedAt == Some(now) && r.cooldown == pause && Depth(r, family) == Depth(s, family) + 1
  }

  lemma BackoffStep(s: State, c: Config, e: Event, now: real, family: Kind)
    requires Sound(s, c) && KeepsDepth(s, e) && 0.0 <= c.maxRecheck && 0.0 <= c.maxCooldown
    ensures var (base, cap) := BackoffBase(s, c, e);
            Backed(s, Next(s, c, e, now), BacksOff(s, c, e, now), Pause(c, base, Depth(s, family), cap), now, family)
  {
    hide Power, RetryOrNow, Pause, Remaining, RecordFailure, Backed;
    if e.Failure? {
      BackoffFailure(s, c, e, now, family);
    } else {
      BackoffOther(s, c, e, now, family);
    }
  }

  lemma BackoffOther(s: State, c: Config, e: Event, now: real, family: Kind)
    requires Sound(s, c) && KeepsDepth(s, e) && !e.Failure?
    ensures var (base, cap) := BackoffBase(s, c, e);
            Backed(s, Next(s, c, e, now), BacksOff(s, c, e, now), Pause(c, base, Depth(s, family), cap), now, family)
  {
    hide Power, RetryOrNow, Pause, Remaining, AllowRequest, Recheck;
    if e.Ask? { AskKeepsDepth(s, c, now); }
  }

  lemma AskKeepsDepth(s: State, c: Config, now: real)
    ensures var r := AllowRequest(s, c, now).0; r.escalation == s.escalation && r.escalationKind == s.escalationKind
  {
    hide Remaining, RetryOrNow;
  }

  lemma BackoffFailure(s: State, c: Config, e: Event, now: real, family: Kind)
    requires e.Failure? && 0.0 <= c.maxRecheck
    ensures var (base, cap) := BackoffBase(s, c, e);
            Backed(s, Next(s, c, e, now), BacksOff(s, c, e, now), Pause(c, base, Depth(s, family), cap), now, family)
  {
    hide Power, RetryOrNow, Pause, Remaining, LongFailure, Backed;
    if Long(e.kind) {
      BackoffLong(s.(failures := s.failures + 1), c, e.kind, e.until, e.base, now, family);
      hide OpenFor, Backoff;
      BackedSame(s, s.(failures := s.failures + 1), RecordFailure(s, c, e.kind, e.retryAfter, e.until, e.base, now),
                 BacksOff(s, c, e, now), Pause(c, BackoffBase(s, c, e).0, Depth(s, family), c.maxRecheck), now, family);
    } else {
      BackoffShort(s, c, e, now, family);
    }
  }

  /** Only the escalation of the state before matters. */
  lemma BackedSame(s: State, f: State, r: State, own: Option<Kind>, pause: real, now: real, family: Kind)
    requires s.escalation == f.escalation && s.escalationKind == f.escalationKind
    ensures Backed(f, r, own, pause, now, family) == Backed(s, r, own, pause, now, family)
  {}

  lemma BackoffShort(s: State, c: Config, e: Event, now: real, family: Kind)
    requires e.Failure? && !Long(e.kind)
    ensures var (base, cap) := BackoffBase(s, c, e);
            Backed(s, Next(s, c, e, now), BacksOff(s, c, e, now), Pause(c, base, Depth(s, family), cap), now, family)
  {
    hide Power, RetryOrNow, Pause, Remaining, LongFailure, Recheck;
  }

  lemma BackoffLong(f: State, c: Config, kind: Kind, until: Option<real>, base: Option<real>, now: real, family: Kind)
    requires Long(kind) && 0.0 <= c.maxRecheck
    ensures var own := if until.Some? && until.value - now >= MIN_RECHECK_SECONDS then None else Some(kind);
            var pause := Pause(c, if base.None? then Recheck(c, kind) else base.value, Depth(f, family), c.maxRecheck);
            Backed(f, LongFailure(f, c, kind, until, base, now), own, pause, now, family)
  {
    hide Power;
  }

  /** How many of the events back off, when those that do are all of one family. */
  ghost function Backoffs(s: State, c: Config, events: seq<(Event, real)>): nat
    decreases |events|
  {
    if events == [] then 0
    else
      (if BacksOff(s, c, events[0].0, events[0].1).Some? then 1 else 0)
      + Backoffs(Next(s, c, events[0].0, events[0].1), c, events[1..])
  }

  ghost predicate OneFamily(s: State, c: Config, events: seq<(Event, real)>, family: Kind)
    decreases |events|
  {
    events != [] ==>
      var (e, now) := events[0];
      && KeepsDepth(s, e) && (BacksOff(s, c, e, now).Some? ==> BacksOff(s, c, e, now) == Some(family))
      && OneFamily(Next(s, c, e, now), c, events[1..], family)
  }

  lemma {:induction false} DepthCounts(s: State, c: Config, events: seq<(Event, real)>, family: Kind)
    requires Sound(s, c) && OneFamily(s, c, events, family) && 0.0 <= c.maxRecheck && 0.0 <= c.maxCooldown
    ensures Depth(Run(s, c, events), family) == Depth(s, family) + Backoffs(s, c, events)
    decreases |events|
  {
    if events != [] {
      var (e, now) := events[0];
      BackoffStep(s, c, e, now, family);
      NextSound(s, c, e, now);
      DepthCounts(Next(s, c, e, now), c, events[1..], family);
    }
  }

  /**
   After a confirmed success, whatever else of KeepsDepth happens in between, the pause of the n-th backoff of a family is
   min(base * factor^n, cap), counting from 0.
   */
  lemma NthPause(s: State, c: Config, events: seq<(Event, real)>, e: Event, now: real, family: Kind)
    requires 0.0 <= c.maxRecheck && 0.0 <= c.maxCooldown
    requires OneFamily(RecordSuccess(s, true), c, events, family) && KeepsDepth(Run(RecordSuccess(s, true), c, events), e)
    requires BacksOff(Run(RecordSuccess(s, true), c, events), c, e, now) == Some(family)
    ensures var before := Run(RecordSuccess(s, true), c, events);
            var n := Backoffs(RecordSuccess(s, true), c, events);
            Next(before, c, e, now).cooldown == Pause(c, BackoffBase(before, c, e).0, n, BackoffBase(before, c, e).1)
  {
    hide Next, BackoffBase, Pause;
    var clean := RecordSuccess(s, true);
    DepthCounts(clean, c, events, family);
    assert Depth(clean, family) == 0;
    PauseBounded(clean, c, events, now);
    BackoffStep(Run(clean, c, events), c, e, now, family);
  }

  /** A late network failure or Retry-After, while the breaker is open, never ends the pause earlier. */
  lemma LateReplyNeverEarlier(s: State, c: Config, kind: Kind, retryAfter: Option<real>, base: Option<real>, now: real)
    requires s.circuit == Open && s.openedAt.Some? && (kind == Transient || kind == RateLimit)
    ensures var r := RecordFailure(s, c, kind, retryAfter, None, base, now);
            r.circuit == Open && RetryAt(r, now).value >= RetryAt(s, now).value
  {
    hide Power;
  }

  /** What a restart keeps of an open breaker: the end of its pause and how far the backoff has come. */
  lemma RestoreKeepsPause(s: State, c: Config, now: real, family: Kind)
    requires Sound(s, c) && s.circuit == Open && family != Request && family != RateLimit
    ensures var r := Restore(FRESH, ToDict(s));
            && r.circuit == Open && RetryAt(r, now) == RetryAt(s, now) && r.kind == s.kind && r.awaitCheck == s.awaitCheck
            && Depth(r, family) == Depth(s, family) && r.failures == s.failures
  {}

  /** A probe in flight at the restart never reports: its pause is over. */
  lemma RestoreEndsProbe(s: State, c: Config, now: real)
    requires Sound(s, c) && s.circuit == HalfOpen
    ensures var r := Restore(FRESH, ToDict(s));
            r.circuit == Open && Remaining(r, now) == 0.0 && r.kind == s.kind
  {}
}
