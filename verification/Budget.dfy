/** AudioBudget (ttsbot/recording/groq.py): when the next file may be sent. Amounts and times are seconds. */
module Budget {
  import opened Bytes
  import opened Reals

  const HOUR: real := 3600.0
  const DAY: real := 86400.0

  datatype Entry = Entry(at: real, seconds: real)

  /** Groq's bucket: its level when last known, and when that was. */
  datatype Bucket = Bucket(level: real, at: real)

  datatype Limits = Limits(perHour: real, perDay: real, minBilled: real, perMinute: int) {
    predicate Sane() { perHour > 0.0 && perDay >= 0.0 && minBilled >= 0.0 }
    function Rate(): real { perHour / HOUR }
    function Spacing(): real { 60.0 / (if perMinute > 1 then perMinute else 1) as real }
    function Billed(seconds: real): (r: real)
      ensures r >= seconds && r >= minBilled
    {
      if seconds >= minBilled then seconds else minBilled
    }
  }

  datatype Books = Books(entries: seq<Entry>, server: Option<Bucket>, blockedUntil: real, lastRequest: real)

  /** round(x, 3) */
  function Round3(x: real): real { (x * 1000.0 + 0.5).Floor as real / 1000.0 }

  /** Seconds billed after a moment. */
  function After(entries: seq<Entry>, cut: real): real {
    if entries == [] then 0.0
    else (if entries[0].at > cut then entries[0].seconds else 0.0) + After(entries[1..], cut)
  }

  function Used(entries: seq<Entry>, window: real, now: real): real { After(entries, now - window) }

  function Available(l: Limits, b: Bucket, now: real): real {
    var extrapolated := b.level + l.Rate() * (now - b.at);
    if l.perHour <= extrapolated then l.perHour else extrapolated
  }

  // ---- Waiting

  function Inside(entries: seq<Entry>, cut: real): seq<Entry> {
    if entries == [] then []
    else (if entries[0].at > cut then [entries[0]] else []) + Inside(entries[1..], cut)
  }

  function InsertEntry(e: Entry, s: seq<Entry>): seq<Entry> {
    if s == [] || e.at < s[0].at || (e.at == s[0].at && e.seconds <= s[0].seconds) then [e] + s
    else [s[0]] + InsertEntry(e, s[1..])
  }

  function Sorted(entries: seq<Entry>): seq<Entry> {
    if entries == [] then [] else InsertEntry(entries[0], Sorted(entries[1..]))
  }

  /** How long until enough of the window has expired, oldest entry first. */
  function Leave(sorted: seq<Entry>, excess: real, window: real, now: real): real {
    if sorted == [] then window
    else
      var left := excess - sorted[0].seconds;
      if left <= 0.0 then sorted[0].at + window - now else Leave(sorted[1..], left, window, now)
  }

  function WindowWait(entries: seq<Entry>, window: real, limit: real, need: real, now: real): real {
    var excess := Used(entries, window, now) + need - limit;
    if excess <= 0.0 then 0.0 else Leave(Sorted(Inside(entries, now - window)), excess, window, now)
  }

  function BucketWait(l: Limits, b: Bucket, need: real, now: real): real
    requires l.Sane()
  {
    if need > Available(l, b, now) then (need - Available(l, b, now)) / l.Rate() else 0.0
  }

  predicate NeverFits(l: Limits, seconds: real) { l.Billed(seconds) > l.perHour || l.Billed(seconds) > l.perDay }

  /** wait_for, for a file that can be sent at all. */
  function WaitFor(l: Limits, b: Books, seconds: real, now: real): real
    requires l.Sane()
  {
    var need := l.Billed(seconds);
    var wait := Max(0.0, Max(b.blockedUntil - now, b.lastRequest + l.Spacing() - now));
    var hourly :=
      if b.server.Some? then BucketWait(l, b.server.value, need, now)
      else WindowWait(b.entries, HOUR, l.perHour, need, now);
    Max(Max(wait, hourly), WindowWait(b.entries, DAY, l.perDay, need, now))
  }

  function Record(l: Limits, b: Books, seconds: real, remaining: Option<real>, now: real): Books {
    var entry := Entry(now, Round3(l.Billed(seconds)));
    Books(b.entries + [entry],
          if remaining.Some? then Some(Bucket(remaining.value, now))
          else if b.server.Some? then Some(Bucket(Available(l, b.server.value, now) - entry.seconds, now))
          else None,
          b.blockedUntil, now)
  }

  function Block(b: Books, seconds: real, now: real): Books {
    b.(blockedUntil := Max(b.blockedUntil, now + seconds), lastRequest := Max(b.lastRequest, now))
  }

  /** The readable ledger lines of the last day. */
  function Kept(lines: seq<Option<Entry>>, cutoff: real): seq<Entry> {
    if lines == [] then []
    else
      (if lines[0].Some? && lines[0].value.at >= cutoff then [lines[0].value] else []) + Kept(lines[1..], cutoff)
  }

  function Reload(lines: seq<Option<Entry>>, now: real): Books {
    Books(Kept(lines, now - DAY), None, 0.0, 0.0)
  }

  // ---- The class

  class AudioBudget {
    const limits: Limits
    var entries: seq<Entry>
    var server: Option<Bucket>
    var blockedUntil: real
    var lastRequest: real
    var ledger: seq<Option<Entry>> // the lines of the file; None is an unreadable one

    function Now(): Books
      reads this
    {
      Books(entries, server, blockedUntil, lastRequest)
    }

    constructor (l: Limits, lines: seq<Option<Entry>>, now: real)
      ensures limits == l && Now() == Reload(lines, now)
      ensures ledger == seq(|entries|, i requires 0 <= i < |entries| reads this => Some(entries[i]))
    {
      limits, server, blockedUntil, lastRequest := l, None, 0.0, 0.0;
      var kept: seq<Entry>, written: seq<Option<Entry>> := [], [];
      for i := 0 to |lines|
        invariant kept + Kept(lines[i..], now - DAY) == Kept(lines, now - DAY)
        invariant |written| == |kept| && forall k :: 0 <= k < |kept| ==> written[k] == Some(kept[k])
      {
        assert lines[i..][1..] == lines[i + 1..];
        if lines[i].Some? && lines[i].value.at >= now - DAY {
          JoinThree(kept, [lines[i].value], Kept(lines[i + 1..], now - DAY));
          kept := kept + [lines[i].value];
          written := written + [lines[i]];
        } else {
          assert [] + Kept(lines[i + 1..], now - DAY) == Kept(lines[i + 1..], now - DAY);
        }
      }
      assert kept + [] == kept;
      entries, ledger := kept, written;
    }

    method WindowWaitFor(window: real, limit: real, need: real, now: real) returns (wait: real)
      ensures wait == WindowWait(entries, window, limit, need, now)
    {
      var excess := Used(entries, window, now) + need - limit;
      if excess <= 0.0 { return 0.0; }
      var oldest := Sorted(Inside(entries, now - window));
      ghost var all := Leave(oldest, excess, window, now);
      for i := 0 to |oldest|
        invariant Leave(oldest[i..], excess, window, now) == all
      {
        assert oldest[i..][1..] == oldest[i + 1..];
        excess := excess - oldest[i].seconds;
        if excess <= 0.0 { return oldest[i].at + window - now; }
      }
      return window;
    }

    /** None is the ValueError for a file that never fits. */
    method Wait(seconds: real, now: real) returns (wait: Option<real>)
      requires limits.Sane()
      ensures wait == if NeverFits(limits, seconds) then None else Some(WaitFor(limits, Now(), seconds, now))
    {
      var need := limits.Billed(seconds);
      if need > limits.perHour || need > limits.perDay { return None; }
      var w := Max(0.0, Max(blockedUntil - now, lastRequest + limits.Spacing() - now));
      var hourly;
      if server.Some? {
        var available := Available(limits, server.value, now);
        hourly := if need > available then (need - available) / limits.Rate() else 0.0;
      } else {
        hourly := WindowWaitFor(HOUR, limits.perHour, need, now);
      }
      var daily := WindowWaitFor(DAY, limits.perDay, need, now);
      return Some(Max(Max(w, hourly), daily));
    }

    method RecordSent(seconds: real, remaining: Option<real>, now: real)
      modifies this
      ensures Now() == Record(limits, old(Now()), seconds, remaining, now)
      ensures ledger == old(ledger) + [Some(entries[|entries| - 1])]
    {
      var entry := Entry(now, Round3(limits.Billed(seconds)));
      entries := entries + [entry];
      lastRequest := now;
      if remaining.Some? {
        server := Some(Bucket(remaining.value, now));
      } else if server.Some? {
        server := Some(Bucket(Available(limits, server.value, now) - entry.seconds, now));
      }
      ledger := ledger + [Some(entry)];
    }

    method BlockFor(seconds: real, now: real)
      modifies `blockedUntil, `lastRequest
      ensures Now() == Block(old(Now()), seconds, now)
    {
      blockedUntil := Max(blockedUntil, now + seconds);
      lastRequest := Max(lastRequest, now);
    }
  }

  // ---- The wait is exact

  predicate NonNegative(entries: seq<Entry>) { forall e <- entries :: e.seconds >= 0.0 }

  ghost predicate Oldest(s: seq<Entry>) { forall i, j :: 0 <= i <= j < |s| ==> s[i].at <= s[j].at }

  lemma {:induction false} InsertIs(e: Entry, s: seq<Entry>, cut: real)
    requires Oldest(s)
    ensures Oldest(InsertEntry(e, s)) && After(InsertEntry(e, s), cut) == After([e], cut) + After(s, cut)
    ensures forall x :: x in InsertEntry(e, s) <==> x == e || x in s
  {
    var r := InsertEntry(e, s);
    var one := [e];
    assert one[1..] == [];
    if s == [] || e.at < s[0].at || (e.at == s[0].at && e.seconds <= s[0].seconds) {
      assert r[1..] == s;
    } else {
      InsertIs(e, s[1..], cut);
      assert r[1..] == InsertEntry(e, s[1..]);
      assert s == [s[0]] + s[1..];
      forall x <- r[1..] ensures s[0].at <= x.at {
        if x != e { assert x in s[1..]; }
      }
    }
  }

  lemma {:induction false} SortedIs(entries: seq<Entry>, cut: real)
    ensures Oldest(Sorted(entries)) && After(Sorted(entries), cut) == After(entries, cut)
    ensures forall x :: x in Sorted(entries) <==> x in entries
  {
    if entries != [] {
      SortedIs(entries[1..], cut);
      InsertIs(entries[0], Sorted(entries[1..]), cut);
      var one := [entries[0]];
      assert one[1..] == [] && entries == one + entries[1..];
    }
  }

  lemma {:induction false} InsideIs(entries: seq<Entry>, low: real, cut: real)
    requires low <= cut
    ensures After(Inside(entries, low), cut) == After(entries, cut)
    ensures forall x <- Inside(entries, low) :: x in entries && x.at > low
  {
    if entries != [] {
      InsideIs(entries[1..], low, cut);
      var rest := Inside(entries[1..], low);
      if entries[0].at > low {
        assert Inside(entries, low) == [entries[0]] + rest && ([entries[0]] + rest)[1..] == rest;
      } else {
        assert Inside(entries, low) == rest;
      }
    }
  }

  lemma {:induction false} AfterZero(s: seq<Entry>, cut: real)
    requires forall e <- s :: e.at <= cut
    ensures After(s, cut) == 0.0
  {
    if s != [] { AfterZero(s[1..], cut); }
  }

  lemma {:induction false} AfterBounds(s: seq<Entry>, low: real, cut: real)
    requires NonNegative(s) && low <= cut
    ensures 0.0 <= After(s, cut) <= After(s, low)
  {
    if s != [] { AfterBounds(s[1..], low, cut); }
  }

  /** The loop returns the first moment at which what is left in the window fits. */
  lemma {:induction false} LeaveExact(s: seq<Entry>, slack: real, window: real, now: real, t: real)
    requires Oldest(s) && NonNegative(s) && slack >= 0.0 && t >= now
    requires (forall e <- s :: e.at > now - window) && After(s, now - window) > slack
    ensures var wait := Leave(s, After(s, now - window) - slack, window, now);
            now + wait <= t <==> After(s, t - window) <= slack
  {
    var rest := s[1..];
    AfterFirst(s, now - window);
    assert s[0] in s && forall e <- rest :: e in s;
    if After(rest, now - window) > slack {
      LeaveExact(rest, slack, window, now, t);
      var w := Leave(rest, After(rest, now - window) - slack, window, now);
      hide Leave, After;
      LeaveLater(s, slack, window, now, t, w);
    } else {
      hide After;
      LeaveHere(s, slack, window, now, t);
    }
  }

  /** The first entry is the one whose expiry makes room. */
  lemma LeaveHere(s: seq<Entry>, slack: real, window: real, now: real, t: real)
    requires Oldest(s) && NonNegative(s) && s != [] && t >= now && (forall e <- s :: e.at > now - window)
    requires After(s[1..], now - window) <= slack < After(s, now - window)
    ensures s[0].at + window <= t <==> After(s, t - window) <= slack
  {
    AfterFirst(s, t - window);
    if s[0].at > t - window { OldestAfter(s, t - window); }
    hide After, Oldest;
    if s[0].at > t - window {
      AllInside(s, t - window, now - window);
    } else {
      AfterBounds(s[1..], now - window, t - window);
    }
  }

  /** A later one is; until then the first entry only adds to what the rest holds. */
  lemma LeaveLater(s: seq<Entry>, slack: real, window: real, now: real, t: real, wait: real)
    requires Oldest(s) && NonNegative(s) && s != [] && t >= now && (forall e <- s :: e.at > now - window)
    requires After(s[1..], now - window) > slack && (now + wait <= t <==> After(s[1..], t - window) <= slack)
    ensures now + wait <= t <==> After(s, t - window) <= slack
  {
    AfterFirst(s, t - window);
    if s[0].at > t - window { OldestAfter(s, t - window); }
    hide After, Oldest;
    if s[0].at > t - window {
      assert s[0] in s && forall e <- s[1..] :: e in s;
      AllInside(s[1..], t - window, now - window);
    }
  }

  lemma AfterFirst(s: seq<Entry>, cut: real)
    requires s != []
    ensures After(s, cut) == (if s[0].at > cut then s[0].seconds else 0.0) + After(s[1..], cut)
  {}

  lemma OldestAfter(s: seq<Entry>, cut: real)
    requires Oldest(s) && s != [] && s[0].at > cut
    ensures forall e <- s :: e.at > cut
  {
    assert forall i :: 0 <= i < |s| ==> s[0].at <= s[i].at;
  }

  lemma {:induction false} LeaveIsExpiry(s: seq<Entry>, slack: real, window: real, now: real)
    requires (forall e <- s :: e.at > now - window) && After(s, now - window) > slack >= 0.0
    ensures var wait := Leave(s, After(s, now - window) - slack, window, now);
            wait > 0.0 && exists e <- s :: wait == e.at + window - now
  {
    if After(s[1..], now - window) > slack { LeaveIsExpiry(s[1..], slack, window, now); }
    assert s[0] in s;
  }

  lemma {:induction false} AllInside(s: seq<Entry>, a: real, b: real)
    requires forall e <- s :: e.at > a && e.at > b
    ensures After(s, a) == After(s, b)
  {
    if s != [] { AllInside(s[1..], a, b); }
  }

  predicate FitsWindow(entries: seq<Entry>, window: real, limit: real, need: real, t: real) {
    Used(entries, window, t) + need <= limit
  }

  /** For a file within the limit: sufficient, no shorter wait is, and the fall-through is never reached. */
  lemma WindowWaitExact(entries: seq<Entry>, window: real, limit: real, need: real, now: real, t: real)
    requires NonNegative(entries) && need <= limit && t >= now
    ensures var wait := WindowWait(entries, window, limit, need, now);
            && wait >= 0.0 && (now + wait <= t <==> FitsWindow(entries, window, limit, need, t))
            && (wait == 0.0 || exists e <- entries :: wait == e.at + window - now)
  {
    hide After, Leave, Sorted, Inside;
    var low, slack := now - window, limit - need;
    if After(entries, low) <= slack {
      AfterBounds(entries, low, t - window);
    } else {
      var inside := Inside(entries, low);
      var s := Sorted(inside);
      InsideIs(entries, low, low);
      InsideIs(entries, low, t - window);
      SortedIs(inside, low);
      SortedIs(inside, t - window);
      LeaveExact(s, slack, window, now, t);
      LeaveIsExpiry(s, slack, window, now);
    }
  }

  lemma QuotientBound(x: real, rate: real, y: real)
    requires rate > 0.0
    ensures x / rate <= y <==> x <= rate * y
  {
    var q := x / rate;
    assert q * rate == x;
    if q <= y { assert (y - q) * rate >= 0.0; } else { assert (q - y) * rate > 0.0; }
  }

  lemma BucketWaitExact(l: Limits, b: Bucket, need: real, now: real, t: real)
    requires l.Sane() && need <= l.perHour && t >= now
    ensures var wait := BucketWait(l, b, need, now);
            wait >= 0.0 && (now + wait <= t <==> need <= Available(l, b, t))
  {
    var rate := l.Rate();
    var low, later := b.level + rate * (now - b.at), b.level + rate * (t - b.at);
    LaterLevel(b.level, rate, now - b.at, t - b.at);
    if need > Available(l, b, now) {
      QuotientBound(need - low, rate, t - now);
      QuotientBound(need - low, rate, 0.0);
      hide Limits.Rate;
      assert BucketWait(l, b, need, now) == (need - low) / rate;
    }
  }

  lemma LaterLevel(level: real, rate: real, d: real, e: real)
    requires rate > 0.0 && d <= e
    ensures level + rate * e == level + rate * d + rate * (e - d) && rate * (e - d) >= 0.0
  {}

  /** Everything wait_for looks at lets the file through at this moment. */
  ghost predicate Admissible(l: Limits, b: Books, seconds: real, t: real) {
    var need := l.Billed(seconds);
    && b.blockedUntil <= t && b.lastRequest + l.Spacing() <= t
    && (if b.server.Some? then need <= Available(l, b.server.value, t)
        else FitsWindow(b.entries, HOUR, l.perHour, need, t))
    && FitsWindow(b.entries, DAY, l.perDay, need, t)
  }

  /** wait_for is the least wait: a later moment is admissible exactly when it is at least that much later. */
  lemma WaitIsLeast(l: Limits, b: Books, seconds: real, now: real, t: real)
    requires l.Sane() && NonNegative(b.entries) && !NeverFits(l, seconds) && t >= now
    ensures WaitFor(l, b, seconds, now) >= 0.0
    ensures now + WaitFor(l, b, seconds, now) <= t <==> Admissible(l, b, seconds, t)
  {
    var need := l.Billed(seconds);
    hide WindowWait, FitsWindow, BucketWait, Available;
    WindowWaitExact(b.entries, DAY, l.perDay, need, now, t);
    if b.server.Some? {
      BucketWaitExact(l, b.server.value, need, now, t);
    } else {
      WindowWaitExact(b.entries, HOUR, l.perHour, need, now, t);
    }
  }

  /** With nothing sent in between, time spent waiting is time taken off the wait. */
  lemma WaitingShortens(l: Limits, b: Books, seconds: real, now: real, d: real)
    requires l.Sane() && NonNegative(b.entries) && !NeverFits(l, seconds) && d >= 0.0
    ensures WaitFor(l, b, seconds, now + d) == Max(0.0, WaitFor(l, b, seconds, now) - d)
  {
    hide WaitFor, Admissible;
    var w1, w2 := WaitFor(l, b, seconds, now), WaitFor(l, b, seconds, now + d);
    var t := Max(now + d, now + w1);
    WaitIsLeast(l, b, seconds, now, t);
    WaitIsLeast(l, b, seconds, now + d, t);
    WaitIsLeast(l, b, seconds, now + d, now + d + w2);
    WaitIsLeast(l, b, seconds, now, now + d + w2);
  }

  // ---- Safety over whole runs

  datatype Event = Sent(seconds: real, remaining: Option<real>, at: real) | Blocked(seconds: real, at: real) | Restarted(at: real)

  /** The budget, its ledger file, every amount ever billed (before rounding), and when the last event was. */
  datatype Run = Run(books: Books, ledger: seq<Entry>, log: seq<Entry>, clock: real)

  function Lines(ledger: seq<Entry>): seq<Option<Entry>> {
    seq(|ledger|, i requires 0 <= i < |ledger| => Some(ledger[i]))
  }

  /** The log as the ledger has it: amounts rounded to milliseconds. */
  function Booked(log: seq<Entry>): (r: seq<Entry>)
    ensures |r| == |log|
  {
    seq(|log|, i requires 0 <= i < |log| => Entry(log[i].at, Round3(log[i].seconds)))
  }

  function Next(l: Limits, r: Run, e: Event): Run {
    match e
    case Sent(seconds, remaining, at) =>
      var books := Record(l, r.books, seconds, remaining, at);
      Run(books, r.ledger + books.entries[|books.entries| - 1..], r.log + [Entry(at, l.Billed(seconds))], at)
    case Blocked(seconds, at) => r.(books := Block(r.books, seconds, at), clock := at)
    case Restarted(at) =>
      var books := Reload(Lines(r.ledger), at);
      Run(books, books.entries, r.log, at)
  }

  /** Files are sent only after a zero wait; the clock never goes back; headers are sane. */
  ghost predicate Proper(l: Limits, r: Run, e: Event)
    requires l.Sane()
  {
    && e.at >= r.clock
    && (e.Sent? ==>
          && e.seconds >= 0.0 && !NeverFits(l, e.seconds) && WaitFor(l, r.books, e.seconds, e.at) == 0.0
          && (e.remaining.Some? ==> 0.0 <= e.remaining.value <= l.perHour))
  }

  /** The booked amount is above the billed one by no more than this. */
  predicate RoundsWithin(l: Limits, e: Event, over: real) {
    e.Sent? ==> Round3(l.Billed(e.seconds)) <= l.Billed(e.seconds) + over
  }

  /** At each send the day's bookings so far and the new amount were within the limit. */
  ghost predicate SendsFit(l: Limits, log: seq<Entry>) {
    forall k :: 0 <= k < |log| ==> SendFits(l, log[..k], log[k])
  }

  predicate SendFits(l: Limits, before: seq<Entry>, e: Entry) {
    After(Booked(before), e.at - DAY) + e.seconds <= l.perDay
  }

  predicate LevelWithin(l: Limits, server: Option<Bucket>, clock: real, over: real) {
    server.Some? ==> -over <= server.value.level <= l.perHour && server.value.at <= clock
  }

  ghost predicate Logged(log: seq<Entry>, clock: real) {
    Oldest(log) && NonNegative(log) && forall e <- log :: e.at <= clock
  }

  /** The ledger is the log, rounded, without entries too old to count again. */
  ghost predicate Forgotten(r: Run, cut: nat) {
    cut <= |r.log| && r.ledger == Booked(r.log[cut..]) && forall i :: 0 <= i < cut ==> r.log[i].at < r.clock - DAY
  }

  ghost predicate Safe(l: Limits, r: Run, over: real) {
    && r.books.entries == r.ledger && Logged(r.log, r.clock) && (exists cut: nat :: Forgotten(r, cut))
    && SendsFit(l, r.log) && LevelWithin(l, r.books.server, r.clock, over)
  }

  lemma {:induction false} AfterAppend(a: seq<Entry>, b: seq<Entry>, cut: real)
    ensures After(a + b, cut) == After(a, cut) + After(b, cut)
  {
    if a == [] {
      assert a + b == b;
    } else {
      AfterAppend(a[1..], b, cut);
      assert (a + b)[1..] == a[1..] + b;
    }
  }

  lemma BookedAppend(a: seq<Entry>, b: seq<Entry>)
    ensures Booked(a + b) == Booked(a) + Booked(b)
  {}

  lemma ForgottenCounts(r: Run, cut: nat, now: real)
    requires Forgotten(r, cut) && now >= r.clock
    ensures After(Booked(r.log), now - DAY) == After(r.ledger, now - DAY)
  {
    hide After;
    var old', recent := r.log[..cut], r.log[cut..];
    assert r.log == old' + recent;
    BookedAppend(old', recent);
    AfterAppend(Booked(old'), Booked(recent), now - DAY);
    AfterZero(Booked(old'), now - DAY);
  }

  lemma LedgerNonNegative(log: seq<Entry>)
    requires NonNegative(log)
    ensures NonNegative(Booked(log))
  {
    forall e <- Booked(log) ensures e.seconds >= 0.0 {
      var i :| 0 <= i < |log| && Booked(log)[i] == e;
      assert log[i] in log;
      RoundedNonNegative(log[i].seconds);
    }
  }

  lemma RoundedNonNegative(x: real)
    requires x >= 0.0
    ensures Round3(x) >= 0.0
  {
    assert x * 1000.0 + 0.5 >= 0.0;
  }

  lemma AvailableWithin(l: Limits, b: Bucket, now: real)
    requires l.Sane() && b.level <= l.perHour && b.at <= now
    ensures b.level <= Available(l, b, now) <= l.perHour
  {
    assert l.Rate() * (now - b.at) >= 0.0;
  }

  /** The level after a proper send, short by no more than one rounding. */
  lemma SendKeepsBucket(l: Limits, b: Books, seconds: real, remaining: Option<real>, at: real, over: real)
    requires l.Sane() && NonNegative(b.entries) && !NeverFits(l, seconds) && WaitFor(l, b, seconds, at) == 0.0
    requires over >= 0.0 && Round3(l.Billed(seconds)) <= l.Billed(seconds) + over && (remaining.Some? ==> 0.0 <= remaining.value <= l.perHour)
    requires b.server.Some? ==> -over <= b.server.value.level <= l.perHour && b.server.value.at <= at
    ensures var s := Record(l, b, seconds, remaining, at).server;
            s.Some? ==> -over <= s.value.level <= l.perHour && s.value.at == at
  {
    RoundedNonNegative(l.Billed(seconds));
    hide WaitFor, Round3;
    WaitIsLeast(l, b, seconds, at, at);
    if b.server.Some? { AvailableWithin(l, b.server.value, at); }
  }

  lemma {:induction false} KeptSuffix(ledger: seq<Entry>, cutoff: real) returns (k: nat)
    requires Oldest(ledger)
    ensures k <= |ledger| && Kept(Lines(ledger), cutoff) == ledger[k..]
    ensures forall i :: 0 <= i < k ==> ledger[i].at < cutoff
    decreases |ledger|
  {
    if ledger == [] {
      k := 0;
    } else {
      KeptFirst(ledger, cutoff);
      assert |ledger| > 1 ==> ledger[1..][0].at >= ledger[0].at;
      hide Kept, Lines;
      var m := KeptSuffix(ledger[1..], cutoff);
      hide Oldest;
      if ledger[0].at >= cutoff {
        k := 0;
        assert m == 0;
        assert ledger == [ledger[0]] + ledger[1..];
      } else {
        k := m + 1;
        assert [] + ledger[k..] == ledger[k..] == ledger[1..][m..];
        forall i | 0 <= i < k ensures ledger[i].at < cutoff {
          if i > 0 { assert ledger[1..][i - 1].at < cutoff; }
        }
      }
    }
  }

  lemma KeptFirst(ledger: seq<Entry>, cutoff: real)
    requires ledger != []
    ensures Kept(Lines(ledger), cutoff)
         == (if ledger[0].at >= cutoff then [ledger[0]] else []) + Kept(Lines(ledger[1..]), cutoff)
  {
    assert Lines(ledger)[1..] == Lines(ledger[1..]);
  }

  lemma LogGrows(log: seq<Entry>, clock: real, e: Entry)
    requires Logged(log, clock) && e.at >= clock && e.seconds >= 0.0
    ensures Logged(log + [e], e.at)
  {
    forall i, j | 0 <= i <= j < |log + [e]| ensures (log + [e])[i].at <= (log + [e])[j].at {
      if j == |log| && i < j { assert log[i] in log; }
    }
  }

  lemma SendsFitGrow(l: Limits, log: seq<Entry>, e: Entry)
    requires SendsFit(l, log) && SendFits(l, log, e)
    ensures SendsFit(l, log + [e])
  {
    hide SendFits;
    forall k | 0 <= k < |log + [e]| ensures SendFits(l, (log + [e])[..k], (log + [e])[k]) {
      assert (log + [e])[..k] == log[..k];
      if k == |log| { assert log[..k] == log; }
    }
  }

  lemma SentFits(l: Limits, r: Run, cut: nat, e: Event)
    requires l.Sane() && r.books.entries == r.ledger && Logged(r.log, r.clock) && Forgotten(r, cut)
    requires Proper(l, r, e) && e.Sent?
    ensures NonNegative(r.ledger) && SendFits(l, r.log, Entry(e.at, l.Billed(e.seconds)))
  {
    hide WaitFor, After, Round3, Booked;
    LedgerNonNegative(r.log[cut..]);
    WaitIsLeast(l, r.books, e.seconds, e.at, e.at);
    assert FitsWindow(r.books.entries, DAY, l.perDay, l.Billed(e.seconds), e.at);
    ForgottenCounts(r, cut, e.at);
  }

  lemma SentKeepsSafe(l: Limits, r: Run, e: Event, over: real)
    requires l.Sane() && Safe(l, r, over) && Proper(l, r, e) && RoundsWithin(l, e, over) && over >= 0.0 && e.Sent?
    ensures Safe(l, Next(l, r, e), over)
  {
    hide WaitFor, Round3, SendsFit, SendFits, NeverFits, Available;
    var cut: nat :| Forgotten(r, cut);
    var entry := Entry(e.at, l.Billed(e.seconds));
    SentFits(l, r, cut, e);
    SendsFitGrow(l, r.log, entry);
    LogGrows(r.log, r.clock, entry);
    SendKeepsBucket(l, r.books, e.seconds, e.remaining, e.at, over);
    var next := Next(l, r, e);
    hide Logged, NonNegative, LevelWithin;
    assert next.log[cut..] == r.log[cut..] + [entry];
    assert next.ledger == r.ledger + [Entry(e.at, Round3(l.Billed(e.seconds)))];
    assert next.ledger == Booked(next.log[cut..]);
    forall i | 0 <= i < cut ensures next.log[i].at < next.clock - DAY { assert next.log[i] == r.log[i]; }
    assert Forgotten(next, cut);
  }

  lemma BookedOldest(log: seq<Entry>, cut: nat)
    requires Oldest(log) && cut <= |log|
    ensures Oldest(Booked(log[cut..]))
  {}

  lemma BookedFrom(log: seq<Entry>, cut: nat, k: nat)
    requires cut + k <= |log|
    ensures Booked(log[cut..])[k..] == Booked(log[cut + k..])
    ensures forall i :: 0 <= i < |log| - cut ==> Booked(log[cut..])[i].at == log[cut + i].at
  {
    assert log[cut..][k..] == log[cut + k..];
  }

  lemma RestartKeepsSafe(l: Limits, r: Run, e: Event, over: real)
    requires l.Sane() && Safe(l, r, over) && Proper(l, r, e) && over >= 0.0 && e.Restarted?
    ensures Safe(l, Next(l, r, e), over)
  {
    hide WaitFor, SendsFit, Round3, NonNegative, NeverFits, Booked;
    var cut: nat :| Forgotten(r, cut);
    BookedOldest(r.log, cut);
    var k := KeptSuffix(r.ledger, e.at - DAY);
    var next := Next(l, r, e);
    BookedFrom(r.log, cut, k);
    forall i | 0 <= i < cut + k ensures r.log[i].at < e.at - DAY {
      if i >= cut { assert r.ledger[i - cut].at == r.log[i].at; }
    }
    assert Forgotten(next, cut + k);
  }

  lemma EventKeepsSafe(l: Limits, r: Run, e: Event, over: real)
    requires l.Sane() && Safe(l, r, over) && Proper(l, r, e) && RoundsWithin(l, e, over) && over >= 0.0
    ensures Safe(l, Next(l, r, e), over)
  {
    match e {
      case Sent(_, _, _) => SentKeepsSafe(l, r, e, over);
      case Restarted(_) => RestartKeepsSafe(l, r, e, over);
      case Blocked(_, at) =>
        hide SendsFit;
        var cut: nat :| Forgotten(r, cut);
        assert Forgotten(Next(l, r, e), cut);
    }
  }

  function RunAll(l: Limits, r: Run, events: seq<Event>): Run
    decreases |events|
  {
    if events == [] then r else RunAll(l, Next(l, r, events[0]), events[1..])
  }

  ghost predicate AllProper(l: Limits, r: Run, events: seq<Event>)
    requires l.Sane()
    decreases |events|
  {
    events != [] ==> Proper(l, r, events[0]) && AllProper(l, Next(l, r, events[0]), events[1..])
  }

  /** Over a whole run with restarts every send fits, and the bucket's level is off by one rounding at most. */
  lemma {:induction false} RunStaysSafe(l: Limits, r: Run, events: seq<Event>, over: real)
    requires l.Sane() && over >= 0.0 && Safe(l, r, over) && AllProper(l, r, events)
    requires forall e <- events :: RoundsWithin(l, e, over)
    ensures Safe(l, RunAll(l, r, events), over)
    decreases |events|
  {
    if events != [] {
      hide Proper, Safe, RoundsWithin;
      assert events[0] in events && forall e <- events[1..] :: e in events;
      EventKeepsSafe(l, r, events[0], over);
      RunStaysSafe(l, Next(l, r, events[0]), events[1..], over);
    }
  }

  function Fresh(now: real): Run { Run(Reload([], now), [], [], now) }

  lemma FreshRunSafe(l: Limits, now: real, over: real)
    requires l.Sane() && over >= 0.0
    ensures Safe(l, Fresh(now), over)
  {
    assert Forgotten(Fresh(now), 0);
  }

  // ---- What a day bills

  /** The amounts billed in the 24 hours up to t, in order. */
  function Day(log: seq<Entry>, t: real): seq<Entry> {
    if log == [] then []
    else
      var last := log[|log| - 1];
      Day(log[..|log| - 1], t) + if t - DAY < last.at <= t then [last] else []
  }

  function Amount(s: seq<Entry>): real {
    if s == [] then 0.0 else Amount(s[..|s| - 1]) + s[|s| - 1].seconds
  }

  predicate RoundsDown(x: real) { Round3(x) < x }

  lemma RoundsByHalf(x: real)
    ensures x - 0.0005 <= Round3(x) <= x + 0.0005
  {
    var y := x * 1000.0 + 0.5;
    assert y - 1.0 <= y.Floor as real <= y;
  }

  /** What is booked is a whole number of milliseconds, the one nearest to what was billed. */
  lemma BooksWholeMs(x: real) returns (ms: int)
    ensures Round3(x) == ms as real / 1000.0 && ms as real - 0.5 <= 1000.0 * x < ms as real + 0.5
  {
    ms := (x * 1000.0 + 0.5).Floor;
  }

  /** Lengths in whole milliseconds, as the manifest has them, are booked as they are. */
  lemma WholeMsExact(ms: nat)
    ensures Round3(ms as real / 1000.0) == ms as real / 1000.0
  {
    var m := ms as real;
    assert m / 1000.0 * 1000.0 == m;
    FloorHalf(ms);
  }

  lemma FloorHalf(k: int)
    ensures (k as real + 0.5).Floor == k
  {}

  lemma {:induction false} DayEmpty(log: seq<Entry>, t: real)
    requires forall e <- log :: e.at <= t - DAY
    ensures Day(log, t) == []
  {
    if log != [] { DayEmpty(log[..|log| - 1], t); }
  }

  lemma {:induction false} DayBooked(log: seq<Entry>, t: real, cut: real)
    requires NonNegative(log) && cut <= t - DAY
    ensures Amount(Booked(Day(log, t))) <= After(Booked(log), cut)
    decreases |log|
  {
    if log != [] {
      var front, last := log[..|log| - 1], log[|log| - 1];
      hide Round3;
      DayBooked(front, t, cut);
      RoundedNonNegative(last.seconds);
      assert log == front + [last];
      BookedAppend(front, [last]);
      AfterAppend(Booked(front), Booked([last]), cut);
      assert Booked([last])[1..] == [];
      var inDay := t - DAY < last.at <= t;
      if inDay {
        var day := Day(front, t);
        BookedAppend(day, [last]);
        assert Booked(day + [last])[..|day|] == Booked(day);
      } else {
        assert Day(front, t) + [] == Day(front, t);
      }
    }
  }

  /** Only amounts that round down leave less in the books than was billed. */
  lemma {:induction false} BookedLoss(s: seq<Entry>)
    ensures Amount(s) <= Amount(Booked(s)) + 0.0005 * |s| as real
    ensures (forall e <- s :: !RoundsDown(e.seconds)) ==> Amount(s) <= Amount(Booked(s))
  {
    if s != [] {
      var n := |s| - 1;
      hide Round3;
      RoundsByHalf(s[n].seconds);
      BookedLoss(s[..n]);
      assert Booked(s)[..n] == Booked(s[..n]);
    }
  }

  /** A day is within the limit but for what the amounts before its last one lost by rounding down. */
  ghost predicate DayWithin(l: Limits, day: seq<Entry>) {
    day != [] ==>
      var earlier := day[..|day| - 1];
      && Amount(day) <= l.perDay + 0.0005 * |earlier| as real
      && ((forall e <- earlier :: !RoundsDown(e.seconds)) ==> Amount(day) <= l.perDay)
  }

  lemma {:induction false} DaysWithin(l: Limits, log: seq<Entry>, t: real)
    requires Oldest(log) && NonNegative(log) && SendsFit(l, log)
    ensures DayWithin(l, Day(log, t))
    decreases |log|
  {
    if log != [] {
      var n := |log| - 1;
      var front, last := log[..n], log[n];
      hide DayWithin, SendFits;
      if last.at > t {
        SendsFitFront(l, log);
        DaysWithin(l, front, t);
        assert Day(front, t) + [] == Day(front, t);
      } else if last.at <= t - DAY {
        forall e <- log ensures e.at <= t - DAY {
          var i :| 0 <= i < |log| && log[i] == e;
          assert log[i].at <= log[n].at;
        }
        DayEmpty(log, t);
      } else {
        assert SendFits(l, log[..n], log[n]);
        LastDayWithin(l, front, last, t);
      }
    }
  }

  lemma SendsFitFront(l: Limits, log: seq<Entry>)
    requires log != [] && SendsFit(l, log)
    ensures SendsFit(l, log[..|log| - 1])
  {
    hide SendFits;
    var front := log[..|log| - 1];
    forall k | 0 <= k < |front| ensures SendFits(l, front[..k], front[k]) {
      assert front[..k] == log[..k] && SendFits(l, log[..k], log[k]);
    }
  }

  lemma LastDayWithin(l: Limits, front: seq<Entry>, last: Entry, t: real)
    requires NonNegative(front) && SendFits(l, front, last) && t - DAY < last.at <= t
    ensures DayWithin(l, Day(front, t) + [last])
  {
    hide After, Booked, RoundsDown, Day;
    var day := Day(front, t);
    DayBooked(front, t, last.at - DAY);
    BookedLoss(day);
    assert (day + [last])[..|day|] == day;
  }

  /**
   From the first start, over any number of sends, refusals and restarts, every 24 hours bill within per_day if
   none of the day's amounts before its last rounds down, and in any case within half a millisecond for each of
   those; the bucket's level is within its limits if no amount rounds up, and in any case by half a millisecond.
   */
  lemma LimitsKept(l: Limits, now: real, events: seq<Event>, t: real)
    requires l.Sane() && AllProper(l, Fresh(now), events)
    ensures var over := if forall e <- events :: RoundsWithin(l, e, 0.0) then 0.0 else 0.0005;
            var r := RunAll(l, Fresh(now), events);
            && DayWithin(l, Day(r.log, t))
            && (r.books.server.Some? && t >= r.clock ==> -over <= Available(l, r.books.server.value, t) <= l.perHour)
  {
    hide RoundsWithin, Available, AllProper, DayWithin, SendsFit, NonNegative, Oldest;
    var over := if forall e <- events :: RoundsWithin(l, e, 0.0) then 0.0 else 0.0005;
    forall e <- events ensures RoundsWithin(l, e, over) { EventRounds(l, e); }
    FreshRunSafe(l, now, over);
    RunStaysSafe(l, Fresh(now), events, over);
    var r := RunAll(l, Fresh(now), events);
    DaysWithin(l, r.log, t);
    if r.books.server.Some? && t >= r.clock { AvailableWithin(l, r.books.server.value, t); }
  }

  lemma EventRounds(l: Limits, e: Event)
    ensures RoundsWithin(l, e, 0.0005)
  {
    if e.Sent? { RoundsByHalf(l.Billed(e.seconds)); }
  }

  // ---- Exactly which amounts keep the limits

  /** A proper run whose billed amounts are all among these. */
  ghost predicate Draws(l: Limits, now: real, events: seq<Event>, amounts: iset<real>) {
    l.Sane() && AllProper(l, Fresh(now), events) && forall e <- events :: e.Sent? ==> l.Billed(e.seconds) in amounts
  }

  ghost predicate DaysKept(l: Limits, now: real, events: seq<Event>) {
    forall t: real :: Amount(Day(RunAll(l, Fresh(now), events).log, t)) <= l.perDay
  }

  ghost predicate LevelKept(l: Limits, now: real, events: seq<Event>) {
    var server := RunAll(l, Fresh(now), events).books.server;
    server.Some? ==> 0.0 <= server.value.level <= l.perHour
  }

  /** The daily limit holds in every run, under any limits, if and only if no amount that is sent rounds down. */
  lemma DaysKeptIff(amounts: iset<real>)
    ensures (forall l, now, events :: Draws(l, now, events, amounts) ==> DaysKept(l, now, events))
       <==> (forall x <- amounts :: x >= 0.0 ==> !RoundsDown(x))
  {
    hide RoundsDown, Draws, DaysKept;
    if forall x <- amounts :: x >= 0.0 ==> !RoundsDown(x) {
      forall l, now, events | Draws(l, now, events, amounts) ensures DaysKept(l, now, events) {
        DrawsKeepDays(l, now, events, amounts);
      }
    } else {
      var x :| x in amounts && x >= 0.0 && RoundsDown(x);
      var l, now, events := DownOverruns(x, amounts);
    }
  }

  /** The bucket's level keeps its limits in every run if and only if no amount that is sent rounds up. */
  lemma LevelKeptIff(amounts: iset<real>)
    ensures (forall l, now, events :: Draws(l, now, events, amounts) ==> LevelKept(l, now, events))
       <==> (forall x <- amounts :: x >= 0.0 ==> Round3(x) <= x)
  {
    hide Round3, Draws, LevelKept;
    if forall x <- amounts :: x >= 0.0 ==> Round3(x) <= x {
      forall l, now, events | Draws(l, now, events, amounts) ensures LevelKept(l, now, events) {
        DrawsKeepLevel(l, now, events, amounts);
      }
    } else {
      var x :| x in amounts && x >= 0.0 && Round3(x) > x;
      var l, now, events := UpUnderruns(x, amounts);
    }
  }

  lemma {:induction false} ProperBills(l: Limits, r: Run, events: seq<Event>)
    requires l.Sane() && AllProper(l, r, events)
    ensures forall e <- events :: e.Sent? ==> l.Billed(e.seconds) >= 0.0
    decreases |events|
  {
    if events != [] {
      ProperBills(l, Next(l, r, events[0]), events[1..]);
      hide AllProper, NeverFits, WaitFor;
      assert events == [events[0]] + events[1..];
    }
  }

  lemma {:induction false} LogDraws(l: Limits, r: Run, events: seq<Event>, amounts: iset<real>)
    requires (forall e <- events :: e.Sent? ==> l.Billed(e.seconds) in amounts) && forall e <- r.log :: e.seconds in amounts
    ensures forall e <- RunAll(l, r, events).log :: e.seconds in amounts
    decreases |events|
  {
    if events != [] {
      hide Record, Reload, Block;
      assert events[0] in events && forall e <- events[1..] :: e in events;
      LogDraws(l, Next(l, r, events[0]), events[1..], amounts);
    }
  }

  lemma {:induction false} DayInLog(log: seq<Entry>, t: real)
    ensures forall e <- Day(log, t) :: e in log
  {
    if log != [] {
      DayInLog(log[..|log| - 1], t);
      assert log == log[..|log| - 1] + [log[|log| - 1]];
    }
  }

  lemma DrawsKeepDays(l: Limits, now: real, events: seq<Event>, amounts: iset<real>)
    requires Draws(l, now, events, amounts) && forall x <- amounts :: x >= 0.0 ==> !RoundsDown(x)
    ensures DaysKept(l, now, events)
  {
    hide RoundsDown, AllProper, Day, SendsFit, Oldest;
    forall e <- events ensures RoundsWithin(l, e, 0.0005) { EventRounds(l, e); }
    FreshRunSafe(l, now, 0.0005);
    RunStaysSafe(l, Fresh(now), events, 0.0005);
    LogDraws(l, Fresh(now), events, amounts);
    var log := RunAll(l, Fresh(now), events).log;
    hide RunAll;
    forall t: real ensures Amount(Day(log, t)) <= l.perDay {
      DaysWithin(l, log, t);
      DayInLog(log, t);
      var day := Day(log, t);
      if day != [] {
        forall e <- day[..|day| - 1] ensures !RoundsDown(e.seconds) { assert e in day; }
      }
    }
  }

  lemma DrawsKeepLevel(l: Limits, now: real, events: seq<Event>, amounts: iset<real>)
    requires Draws(l, now, events, amounts) && forall x <- amounts :: x >= 0.0 ==> Round3(x) <= x
    ensures LevelKept(l, now, events)
  {
    hide AllProper, SendsFit, Oldest, Round3;
    ProperBills(l, Fresh(now), events);
    FreshRunSafe(l, now, 0.0);
    RunStaysSafe(l, Fresh(now), events, 0.0);
  }

  lemma TwoEvents(l: Limits, now: real, a: Event, b: Event)
    requires l.Sane() && Proper(l, Fresh(now), a) && Proper(l, Next(l, Fresh(now), a), b)
    ensures AllProper(l, Fresh(now), [a, b])
    ensures RunAll(l, Fresh(now), [a, b]) == Next(l, Next(l, Fresh(now), a), b)
  {
    hide Proper, Next;
    var one, none := [b], ([b])[1..];
    assert [a, b][1..] == one && none == [];
    var r := Next(l, Fresh(now), a);
    assert RunAll(l, r, one) == RunAll(l, Next(l, r, b), none);
    assert AllProper(l, Next(l, r, b), none) && AllProper(l, r, one);
  }

  /** Two sends of an amount that rounds down, with room for one and what is booked for the other. */
  lemma DownOverruns(x: real, amounts: iset<real>) returns (l: Limits, now: real, events: seq<Event>)
    requires x in amounts && x >= 0.0 && RoundsDown(x)
    ensures Draws(l, now, events, amounts) && !DaysKept(l, now, events)
  {
    DownIsPositive(x);
    hide Round3;
    l, now := Limits(x + x, x + Round3(x), 0.0, 20), 100000.0;
    events := [Sent(x, None, now), Sent(x, None, now + 10.0)];
    SendTwice(l, x, now);
    TwoBilled(RunAll(l, Fresh(now), events).log, x, now);
    hide AllProper, RunAll, Day;
  }

  lemma DownIsPositive(x: real)
    requires x >= 0.0 && RoundsDown(x)
    ensures x > 0.0 && 0.0 <= Round3(x) < x
  {
    RoundedNonNegative(x);
    assert Round3(0.0) == 0.0;
  }

  /** The same amount twice, ten seconds apart, when the books have room for it. */
  lemma SendTwice(l: Limits, x: real, now: real)
    requires l.Sane() && l.minBilled == 0.0 && l.perMinute == 20 && now >= 3.0 && x >= 0.0 && Round3(x) >= 0.0
    requires x <= l.perHour && x + Round3(x) <= l.perDay && x + Round3(x) <= l.perHour
    ensures var events := [Sent(x, None, now), Sent(x, None, now + 10.0)];
            AllProper(l, Fresh(now), events) && RunAll(l, Fresh(now), events).log == [Entry(now, x), Entry(now + 10.0, x)]
  {
    hide Round3, AllProper, RunAll;
    var a, b := Sent(x, None, now), Sent(x, None, now + 10.0);
    FirstSend(l, x, None, now);
    var r := Next(l, Fresh(now), a);
    var one := [Entry(now, Round3(x))];
    assert [] + one == one && one[1..] == [];
    assert r.books == Books(one, None, 0.0, now) && r.log == [Entry(now, x)] && r.clock == now;
    OneFits(Entry(now, Round3(x)), DAY, l.perDay, x, now + 10.0);
    OneFits(Entry(now, Round3(x)), HOUR, l.perHour, x, now + 10.0);
    hide WindowWait, Reload, Record;
    assert Proper(l, r, b);
    hide Proper;
    TwoEvents(l, now, a, b);
  }

  lemma OneFits(e: Entry, window: real, limit: real, need: real, now: real)
    requires e.seconds + need <= limit && e.seconds >= 0.0
    ensures WindowWait([e], window, limit, need, now) == 0.0 || e.at <= now - window
  {
    var one := [e];
    assert one[1..] == [] && After(one, now - window) <= e.seconds;
  }

  lemma FirstSend(l: Limits, x: real, remaining: Option<real>, now: real)
    requires l.Sane() && l.minBilled == 0.0 && l.perMinute == 20 && now >= 3.0
    requires 0.0 <= x <= l.perHour && x <= l.perDay && (remaining.Some? ==> 0.0 <= remaining.value <= l.perHour)
    ensures Proper(l, Fresh(now), Sent(x, remaining, now))
  {
    var none: seq<Entry> := [];
    assert WindowWait(none, DAY, l.perDay, x, now) == 0.0 && WindowWait(none, HOUR, l.perHour, x, now) == 0.0;
  }

  lemma TwoBilled(log: seq<Entry>, x: real, now: real)
    requires log == [Entry(now, x), Entry(now + 10.0, x)]
    ensures Amount(Day(log, now + 10.0)) == 2.0 * x
  {
    var first, none := [Entry(now, x)], ([Entry(now, x)])[..0];
    assert log[..1] == first && none == [] && Day(none, now + 10.0) == [];
    assert Day(first, now + 10.0) == [] + first == first;
    assert Day(log, now + 10.0) == first + [Entry(now + 10.0, x)] == log;
    assert Amount(none) == 0.0 && Amount(first) == x;
  }

  /** An amount that rounds up, sent when the bucket holds exactly that much. */
  lemma UpUnderruns(x: real, amounts: iset<real>) returns (l: Limits, now: real, events: seq<Event>)
    requires x in amounts && x >= 0.0 && Round3(x) > x
    ensures Draws(l, now, events, amounts) && !LevelKept(l, now, events)
  {
    assert Round3(0.0) == 0.0;
    l, now := Limits(x, x + Round3(x), 0.0, 20), 100000.0;
    var left := x - l.Rate() * 10.0;
    var a, b := Sent(x, Some(left), now), Sent(x, None, now + 10.0);
    events := [a, b];
    hide Round3;
    var one := [Entry(now, Round3(x))];
    assert one[1..] == [];
    assert [] + one == one;
    FirstSend(l, x, Some(left), now);
    var r := Next(l, Fresh(now), a);
    assert r.books == Books(one, Some(Bucket(left, now)), 0.0, now);
    assert Available(l, r.books.server.value, now + 10.0) == x;
    OneFits(Entry(now, Round3(x)), DAY, l.perDay, x, now + 10.0);
    hide WindowWait;
    assert Proper(l, r, b);
    TwoEvents(l, now, a, b);
  }
}
