/** What AudioBudget (ttsbot/recording/groq.py) waits for besides the audio limits, and what its books hold. */
module BudgetPace {
  import opened Bytes
  import opened Reals
  import opened Budget

  // ---- Pauses and spacing

  /** After a block the wait lasts at least for the block, and one spacing; otherwise it is what it was. */
  lemma BlockWaits(l: Limits, b: Books, pause: real, now: real, seconds: real, t: real)
    requires l.Sane()
    ensures var before, after := WaitFor(l, b, seconds, t), WaitFor(l, Block(b, pause, now), seconds, t);
            var spacing := 60.0 / (if l.perMinute < 1 then 1 else l.perMinute) as real;
            && after >= now + pause - t && after >= now + spacing - t && after >= before
            && (after == before || after == now + pause - t || after == now + spacing - t)
  {
    hide BucketWait, WindowWait;
  }

  /** No event restarts the program, so the books are only added to. */
  predicate NoRestart(events: seq<Event>) { forall e <- events :: !e.Restarted? }

  /** Sends wait for these two moments. */
  predicate Paced(l: Limits, r: Run, until: real, last: real) { r.books.blockedUntil >= until && r.books.lastRequest >= last }

  lemma StepPaced(l: Limits, r: Run, e: Event, until: real, last: real)
    requires l.Sane() && Proper(l, r, e) && !e.Restarted? && Paced(l, r, until, last) && last <= r.clock
    ensures var t := Next(l, r, e);
      && Paced(l, t, until, last) && last <= t.clock
      && (e.Sent? ==> e.at >= until && e.at >= last + l.Spacing() && Paced(l, t, until, e.at))
      && (e.Blocked? ==> Paced(l, t, e.at + e.seconds, e.at))
      && t.clock == e.at
  {
    hide BucketWait, WindowWait;
  }

  lemma {:induction false} RunPaced(l: Limits, r: Run, events: seq<Event>, until: real, last: real)
    requires l.Sane() && AllProper(l, r, events) && NoRestart(events) && Paced(l, r, until, last) && last <= r.clock
    ensures Paced(l, RunAll(l, r, events), until, last) && last <= RunAll(l, r, events).clock
    decreases |events|
  {
    hide Next, Proper, Paced;
    if events != [] {
      assert events[0] in events;
      StepPaced(l, r, events[0], until, last);
      RunPaced(l, Next(l, r, events[0]), events[1..], until, last);
    }
  }

  /**
   Without a restart in between, a file is sent no sooner than one spacing after the last one sent or blocked, and not
   before the end of any pause. (A restart forgets both.)
   */
  lemma SendsApart(l: Limits, r: Run, first: Event, between: seq<Event>, second: Event)
    requires l.Sane() && !first.Restarted? && NoRestart(between) && second.Sent?
    requires Proper(l, r, first) && AllProper(l, Next(l, r, first), between)
    requires Proper(l, RunAll(l, Next(l, r, first), between), second)
    ensures second.at - first.at >= 60.0 / (if l.perMinute < 1 then 1 else l.perMinute) as real
    ensures first.Blocked? ==> second.at >= first.at + first.seconds
  {
    hide Next, Proper, RunAll, AllProper;
    var until := if first.Blocked? then first.at + first.seconds else r.books.blockedUntil;
    var low := if r.books.lastRequest < r.clock then r.books.lastRequest else r.clock;
    assert Paced(l, r, r.books.blockedUntil, low);
    StepPaced(l, r, first, r.books.blockedUntil, low);
    RunPaced(l, Next(l, r, first), between, until, first.at);
    StepPaced(l, RunAll(l, Next(l, r, first), between), second, until, first.at);
    assert l.Spacing() == 60.0 / (if l.perMinute < 1 then 1 else l.perMinute) as real;
  }

  // ---- What may be sent at all

  /** wait_for raises exactly for a file whose length, or the least billed length, is above a limit. */
  lemma NeverFitsIff(l: Limits, seconds: real)
    ensures NeverFits(l, seconds) <==>
            seconds > l.perHour || seconds > l.perDay || l.minBilled > l.perHour || l.minBilled > l.perDay
    ensures l.Billed(seconds) == seconds || l.Billed(seconds) == l.minBilled
  {}

  // ---- The level of the bucket

  /** After a response that names it, the level is that and refills by the second, up to the limit. */
  lemma LevelFromResponse(l: Limits, b: Books, seconds: real, level: real, now: real, t: real)
    requires t >= now
    ensures var server := Record(l, b, seconds, Some(level), now).server;
            var refilled := level + (t - now) * l.perHour / 3600.0;
            server.Some? && Available(l, server.value, t) == if refilled < l.perHour then refilled else l.perHour
  {
    Refill(l.perHour, t - now);
  }

  /** After one that does not, it is what it had refilled to, less what was booked; a budget without a level gets none. */
  lemma LevelBooked(l: Limits, b: Books, seconds: real, now: real, t: real)
    requires t >= now
    ensures var server := Record(l, b, seconds, None, now).server;
            && (server.Some? <==> b.server.Some?)
            && (b.server.Some? ==>
                  var refilled := Available(l, b.server.value, now) - Round3(l.Billed(seconds)) + (t - now) * l.perHour / 3600.0;
                  Available(l, server.value, t) == if refilled < l.perHour then refilled else l.perHour)
  {
    hide Round3;
    Refill(l.perHour, t - now);
  }

  lemma Refill(perHour: real, d: real)
    ensures (perHour / 3600.0) * d == d * perHour / 3600.0
  {}

  // ---- The ledger

  /** Loading keeps, in order, the readable lines of the last 24 hours, and nothing else. */
  lemma {:induction false} KeptAppend(a: seq<Option<Entry>>, b: seq<Option<Entry>>, now: real)
    ensures Reload(a + b, now).entries == Reload(a, now).entries + Reload(b, now).entries
    ensures Reload([], now) == Books([], None, 0.0, 0.0)
    ensures forall line: Option<Entry> ::
      Reload([line], now).entries == if line.Some? && line.value.at >= now - 86400.0 then [line.value] else []
  {
    KeptJoin(a, b, now - DAY);
    forall line: Option<Entry>
      ensures Reload([line], now).entries == if line.Some? && line.value.at >= now - 86400.0 then [line.value] else []
    {
      var one := [line];
      assert one[1..] == [] && Kept([], now - DAY) == [];
      if line.Some? { assert [line.value] + [] == [line.value]; }
    }
  }

  lemma {:induction false} KeptJoin(a: seq<Option<Entry>>, b: seq<Option<Entry>>, cutoff: real)
    ensures Kept(a + b, cutoff) == Kept(a, cutoff) + Kept(b, cutoff)
  {
    if a == [] {
      assert a + b == b;
    } else {
      FirstOfSum(a, b);
      KeptJoin(a[1..], b, cutoff);
      JoinThree(if a[0].Some? && a[0].value.at >= cutoff then [a[0].value] else [], Kept(a[1..], cutoff), Kept(b, cutoff));
    }
  }
}
