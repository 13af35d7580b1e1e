/** When a CircuitBreaker opens, for how long, and since when (ttsbot/health.py), in terms of the events of a run. */
module BreakerRuns {
  import opened Bytes
  import opened Breaker

  // ---- Failures counted one by one

  /** A network failure, or a rate limit that names no time (or zero). */
  predicate Minor(e: Event) {
    e.Failure? && (e.kind == Transient || (e.kind == RateLimit && (e.retryAfter.None? || e.retryAfter.value == 0.0)))
  }

  /** Only minor failures, failures of single requests, and events that report nothing. */
  predicate MinorOnly(events: seq<(Event, real)>) { forall e <- events :: Minor(e.0) || Silent(e.0) }

  function Minors(events: seq<(Event, real)>): nat {
    if events == [] then 0 else Minors(events[..|events| - 1]) + if Minor(events[|events| - 1].0) then 1 else 0
  }

  lemma {:induction false} RunLast(s: State, c: Config, events: seq<(Event, real)>, e: Event, now: real)
    ensures Run(s, c, events + [(e, now)]) == Next(Run(s, c, events), c, e, now)
    decreases |events|
  {
    hide Next;
    var all := events + [(e, now)];
    if events == [] {
      assert all == [(e, now)] && all[1..] == [];
    } else {
      FirstOfSum(events, [(e, now)]);
      RunLast(Next(s, c, events[0].0, events[0].1), c, events[1..], e, now);
    }
  }

  /** The pause the next minor failure would open with: backed off by what is left from before. */
  function FirstPause(s: State, c: Config): real {
    var pause := c.cooldownSeconds * Power(c.backoffFactor, if s.escalationKind == Some(Transient) then s.escalation else 0);
    if pause < 0.0 then (if 0.0 < c.maxCooldown then 0.0 else c.maxCooldown)
    else if pause < c.maxCooldown then pause else c.maxCooldown
  }

  lemma MinorStep(s: State, c: Config, e: Event, now: real)
    requires Minor(e)
    ensures var r := Next(s, c, e, now);
      && r.failures == s.failures + 1
      && if s.circuit == Open then r == s.(failures := s.failures + 1)
         else if s.circuit == HalfOpen || s.failures + 1 >= c.failureThreshold
         then r.circuit == Open && r.openedAt == Some(now) && r.cooldown == FirstPause(s, c) && r.kind == Some(Transient)
         else r == s.(failures := s.failures + 1)
  {
    hide Power;
  }

  lemma SilentStep(s: State, c: Config, e: Event, now: real)
    requires Silent(e)
    ensures var r := Next(s, c, e, now);
      && r.failures == s.failures && r.escalation == s.escalation && r.escalationKind == s.escalationKind
      && (r.circuit == Closed <==> s.circuit == Closed) && (s.circuit == Open && !e.Ask? ==> r.circuit == Open)
  {
    hide Remaining, RetryOrNow;
  }

  /**
   From a closed breaker, with no success in between: it stays closed, counting and letting every request through, until
   the failures counted reach the threshold, and is not closed again after that; nothing but an admitted request takes it
   out of the pause.
   */
  lemma {:induction false} OpensAtThreshold(s: State, c: Config, events: seq<(Event, real)>)
    requires s.circuit == Closed && MinorOnly(events)
    ensures var n, r := Minors(events), Run(s, c, events);
      && r.failures == s.failures + n
      && (r.circuit == Closed <==> n == 0 || s.failures + n < c.failureThreshold)
      && (r.circuit == Closed ==> FirstPause(r, c) == FirstPause(s, c) && forall now :: AllowRequest(r, c, now).1)
      && ((forall e <- events :: !e.0.Ask?) ==> r.circuit != HalfOpen)
    decreases |events|
  {
    hide Next, Minor, Silent, AllowRequest;
    if events == [] {
      ClosedAdmits(s, c);
    } else {
      var front := events[..|events| - 1];
      var (e, now) := events[|events| - 1];
      assert events == front + [(e, now)] && (e, now) in events;
      OpensAtThreshold(s, c, front);
      RunLast(s, c, front, e, now);
      hide Run, FirstPause;
      var before := Run(s, c, front);
      CountStep(before, c, e, now);
      ClosedAdmits(Run(s, c, events), c);
    }
  }

  /** One more minor or silent event. */
  lemma CountStep(s: State, c: Config, e: Event, now: real)
    requires Minor(e) || Silent(e)
    ensures var r, n := Next(s, c, e, now), if Minor(e) then 1 else 0;
      && r.failures == s.failures + n
      && (r.circuit == Closed <==> s.circuit == Closed && (n == 0 || s.failures + 1 < c.failureThreshold))
      && (r.circuit == Closed ==> FirstPause(r, c) == FirstPause(s, c))
      && (!e.Ask? && s.circuit != HalfOpen ==> r.circuit != HalfOpen)
  {
    hide Next, Minor, Silent;
    if Minor(e) {
      MinorStep(s, c, e, now);
    } else {
      SilentStep(s, c, e, now);
    }
  }

  lemma ClosedAdmits(s: State, c: Config)
    ensures s.circuit == Closed ==> forall now :: AllowRequest(s, c, now).1
  {}

  /** The failure that reaches the threshold pauses from then on, for the first pause. */
  lemma ThresholdPause(s: State, c: Config, events: seq<(Event, real)>, e: Event, now: real)
    requires s.circuit == Closed && MinorOnly(events) && Minor(e) && Run(s, c, events).circuit == Closed
    requires s.failures + Minors(events) + 1 >= c.failureThreshold
    ensures var r := Run(s, c, events + [(e, now)]);
            r.circuit == Open && r.openedAt == Some(now) && r.cooldown == FirstPause(s, c) && r.kind == Some(Transient)
  {
    hide Run, Next, FirstPause, Minor;
    OpensAtThreshold(s, c, events);
    RunLast(s, c, events, e, now);
    MinorStep(Run(s, c, events), c, e, now);
  }

  lemma {:induction false} RunJoin(s: State, c: Config, a: seq<(Event, real)>, b: seq<(Event, real)>)
    ensures Run(s, c, a + b) == Run(Run(s, c, a), c, b)
    decreases |a|
  {
    hide Next;
    if a == [] {
      assert a + b == b;
    } else {
      FirstOfSum(a, b);
      RunJoin(Next(s, c, a[0].0, a[0].1), c, a[1..], b);
    }
  }

  /**
   Whatever came before, a success starts the count again: the breaker is closed after it until as many minor failures as
   the threshold, at least one.
   */
  lemma CountsFromSuccess(s: State, c: Config, before: seq<(Event, real)>, confirmed: bool, at: real, after: seq<(Event, real)>)
    requires MinorOnly(after)
    ensures var n, r := Minors(after), Run(s, c, before + [(Success(confirmed), at)] + after);
      && r.failures == n
      && (r.circuit == Closed <==> n < (if c.failureThreshold < 1 then 1 else c.failureThreshold))
      && (r.circuit == Closed ==> forall now :: AllowRequest(r, c, now).1)
  {
    hide Next, Minors, MinorOnly, AllowRequest, Run;
    RunJoin(s, c, before + [(Success(confirmed), at)], after);
    RunLast(s, c, before, Success(confirmed), at);
    SuccessIsFresh(Run(s, c, before), c, confirmed, at);
    OpensAtThreshold(Run(s, c, before + [(Success(confirmed), at)]), c, after);
  }

  lemma SuccessIsFresh(s: State, c: Config, confirmed: bool, at: real)
    ensures var r := Next(s, c, Success(confirmed), at); r.circuit == Closed && r.failures == 0
  {}

  // ---- Failures that pause at once

  /** Quota spent or key refused, with a reset time 30 s off or more: paused until then, or for the longest recheck. */
  lemma ResetTimePauses(s: State, c: Config, e: Event, now: real)
    requires e.Failure? && e.kind in {Quota, Auth} && e.until.Some? && e.until.value - now >= 30.0
    ensures var r, left := Next(s, c, e, now), e.until.value - now;
            r.circuit == Open && r.openedAt == Some(now) && r.kind == Some(e.kind)
            && r.cooldown == if left < c.maxRecheck then left else c.maxRecheck
  {}

  /** Without one: paused at once for the backed off recheck time, or the base given. */
  lemma RecheckPauses(s: State, c: Config, e: Event, now: real)
    requires e.Failure? && e.kind in {Quota, Auth} && (e.until.None? || e.until.value - now < 30.0)
    ensures var base := if e.base.Some? then e.base.value else if e.kind == Auth then c.authRecheck else c.quotaRecheck;
            var n := if s.escalationKind == Some(e.kind) then s.escalation else 0;
            var r, pause := Next(s, c, e, now), base * Power(c.backoffFactor, n);
            && r.circuit == Open && r.openedAt == Some(now) && r.kind == Some(e.kind) && r.escalation == n + 1
            && (0.0 <= pause <= c.maxRecheck ==> r.cooldown == pause)
            && (pause > c.maxRecheck ==> r.cooldown == c.maxRecheck) && (pause < 0.0 <= c.maxRecheck ==> r.cooldown == 0.0)
  {
    hide Power;
  }

  /**
   A rate limit that names a time: a breaker that is not open pauses from now for that time, or the longest recheck; one
   that is open pauses until the later of the two ends.
   */
  lemma RetryAfterPauses(s: State, c: Config, e: Event, now: real)
    requires e.Failure? && e.kind == RateLimit && e.retryAfter.Some? && e.retryAfter.value > 0.0 && c.maxRecheck > 0.0
    requires s.circuit == Open ==> s.openedAt.Some?
    ensures var r, pause := Next(s, c, e, now), if e.retryAfter.value < c.maxRecheck then e.retryAfter.value else c.maxRecheck;
      && r.circuit == Open
      && (s.circuit != Open ==> r.openedAt == Some(now) && r.cooldown == pause && r.kind == Some(RateLimit))
      && (s.circuit == Open ==>
            var was := RetryAt(s, now).value;
            RetryAt(r, now) == Some(if was > now + pause then was else now + pause))
  {}

  // ---- Whether the health check can be trusted

  /** No success and no restart. */
  predicate NoSuccess(events: seq<(Event, real)>) { forall e <- events :: !e.0.Success? && !e.0.Restart? }

  predicate Refused(e: Event) { e.Failure? && e.kind in {Quota, Auth} }

  lemma TrustStep(s: State, c: Config, e: Event, now: real)
    requires !e.Success? && !e.Restart?
    ensures var r := Next(s, c, e, now);
            if Refused(e) && s.closedByCheck then !r.checkTrusted && !r.closedByCheck
            else r.checkTrusted == s.checkTrusted && r.closedByCheck == s.closedByCheck
  {
    hide Power, Remaining, RetryOrNow;
  }

  /** Since a check closed the breaker, the check is doubted exactly when the service refused a request. */
  lemma {:induction false} DoubtedIff(s: State, c: Config, events: seq<(Event, real)>)
    requires s.checkTrusted && NoSuccess(events)
    ensures var r := Run(RecordSuccess(s, false), c, events);
            && (r.checkTrusted <==> forall e <- events :: !Refused(e.0)) && (r.closedByCheck <==> r.checkTrusted)
    decreases |events|
  {
    hide Next, Refused;
    if events != [] {
      var front := events[..|events| - 1];
      var (e, now) := events[|events| - 1];
      assert events == front + [(e, now)] && (e, now) in events;
      DoubtedIff(s, c, front);
      RunLast(RecordSuccess(s, false), c, front, e, now);
      hide Run, RecordSuccess;
      TrustStep(Run(RecordSuccess(s, false), c, front), c, e, now);
    }
  }

  /** Since a request succeeded, no failure casts doubt on the check. */
  lemma {:induction false} NeverDoubted(s: State, c: Config, events: seq<(Event, real)>)
    requires NoSuccess(events)
    ensures var r := Run(RecordSuccess(s, true), c, events); r.checkTrusted && !r.closedByCheck
    decreases |events|
  {
    hide Next, Refused;
    if events != [] {
      var front := events[..|events| - 1];
      var (e, now) := events[|events| - 1];
      assert events == front + [(e, now)] && (e, now) in events;
      NeverDoubted(s, c, front);
      RunLast(RecordSuccess(s, true), c, front, e, now);
      hide Run, RecordSuccess;
      TrustStep(Run(RecordSuccess(s, true), c, front), c, e, now);
    }
  }

  // ---- Since when a provider is down

  /** A step keeps since when it is down, sets it on opening, and forgets it on closing. */
  predicate Dated(s: State, r: State, now: real) {
    && (r.circuit == Closed <==> r.downSince.None?)
    && (s.circuit == Closed && r.circuit != Closed ==> r.downSince == Some(now))
    && (s.circuit != Closed && r.circuit != Closed && s.downSince != Some(0.0) ==> r.downSince == s.downSince)
  }

  lemma DownLong(s: State, c: Config, e: Event, now: real)
    requires e.Failure? && (s.circuit == Closed <==> s.downSince.None?)
    ensures Dated(s, LongFailure(s, c, e.kind, e.until, e.base, now), now)
  {
    hide Pause, Recheck;
  }

  lemma DownFailure(s: State, c: Config, e: Event, now: real)
    requires e.Failure? && (s.circuit == Closed <==> s.downSince.None?)
    ensures Dated(s, Next(s, c, e, now), now)
  {
    hide Power, Remaining, Pause, LongFailure;
    if Long(e.kind) { DownLong(s.(failures := s.failures + 1), c, e, now); }
  }

  lemma DownStep(s: State, c: Config, e: Event, now: real)
    requires Sound(s, c) && (s.circuit == Closed <==> s.downSince.None?)
    ensures Dated(s, Next(s, c, e, now), now)
  {
    hide Power, Remaining, RetryOrNow, RecordFailure, Pause;
    if e.Failure? { DownFailure(s, c, e, now); }
  }

  /** In every run of a new breaker: down since some time exactly while it is not closed. */
  lemma {:induction false} DownIff(c: Config, events: seq<(Event, real)>)
    ensures var r := Run(FRESH, c, events); Sound(r, c) && (r.downSince.Some? <==> r.circuit != Closed)
    decreases |events|
  {
    hide Next;
    if events != [] {
      var front := events[..|events| - 1];
      var (e, now) := events[|events| - 1];
      assert events == front + [(e, now)];
      DownIff(c, front);
      RunLast(FRESH, c, front, e, now);
      hide Run, Sound;
      NextSound(Run(FRESH, c, front), c, e, now);
      DownStep(Run(FRESH, c, front), c, e, now);
    }
  }

  /** It was closed at the time given, opened then, and has not been closed since. */
  lemma {:induction false} DownSinceOpening(c: Config, before: seq<(Event, real)>, e: Event, at: real, after: seq<(Event, real)>)
    requires at != 0.0
    requires Run(FRESH, c, before).circuit == Closed
    requires forall n :: 0 <= n <= |after| ==> Run(FRESH, c, before + [(e, at)] + after[..n]).circuit != Closed
    ensures Run(FRESH, c, before + [(e, at)] + after).downSince == Some(at)
    decreases |after|
  {
    hide Next, Sound;
    var first := before + [(e, at)];
    assert after[..|after|] == after;
    if after == [] {
      assert first + after == first && after[..0] == [];
      DownIff(c, before);
      RunLast(FRESH, c, before, e, at);
      DownStep(Run(FRESH, c, before), c, e, at);
    } else {
      var front := after[..|after| - 1];
      var (x, now) := after[|after| - 1];
      assert forall n :: 0 <= n <= |front| ==> front[..n] == after[..n];
      DownSinceOpening(c, before, e, at, front);
      assert first + after == first + front + [(x, now)];
      assert front == after[..|front|];
      DownIff(c, first + front);
      RunLast(FRESH, c, first + front, x, now);
      DownStep(Run(FRESH, c, first + front), c, x, now);
    }
  }

  // ---- Waiting for a check

  /** The event pauses the breaker anew. */
  predicate Pauses(s: State, c: Config, e: Event, now: real) {
    match e
    case CheckFailed => true
    case Failure(kind, retryAfter, _, _) =>
      || kind in {Quota, Auth}
      || (Minor(e) && s.circuit != Open && (s.circuit == HalfOpen || s.failures + 1 >= c.failureThreshold))
      || (kind == RateLimit && !Minor(e) &&
          (s.circuit != Open || Remaining(s, now) < if retryAfter.value < c.maxRecheck then retryAfter.value else c.maxRecheck))
    case _ => false
  }

  /** A pause starts without a wait for a check and without a probe; only the dispatcher, a success or a restart change it. */
  lemma WaitsForCheckIff(s: State, c: Config, e: Event, now: real)
    requires Sound(s, c)
    ensures var r := Next(s, c, e, now);
      && (Pauses(s, c, e, now) ==> r.circuit == Open && r.openedAt == Some(now) && r.probeStarted.None?)
      && (r.awaitCheck <==>
            if e.AwaitCheck? then e.value
            else s.awaitCheck && !Pauses(s, c, e, now) && !e.Success? && (e.Restart? ==> s.circuit != Closed))
  {
    hide Power, Remaining, RetryOrNow, Pause, LongFailure;
    if e.Failure? && Long(e.kind) { LongFailureWaits(s.(failures := s.failures + 1), c, e, now); }
    SameRemaining(s, now);
  }

  lemma SameRemaining(s: State, now: real)
    ensures Remaining(s.(failures := s.failures + 1), now) == Remaining(s, now)
  {}

  lemma LongFailureWaits(s: State, c: Config, e: Event, now: real)
    requires e.Failure?
    ensures var r := LongFailure(s, c, e.kind, e.until, e.base, now);
            r.circuit == Open && r.openedAt == Some(now) && r.probeStarted.None? && !r.awaitCheck
  {
    hide Pause;
  }
}
