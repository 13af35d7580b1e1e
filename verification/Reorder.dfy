/** The reorder window of ChannelRecorder (ttsbot/recording/recorder.py): _handle, _hold, _release, _close_idle. */
module Reorder {
  import opened Bytes
  import opened Reals
  import Bisect

  const REORDER_PACKETS := 8
  const REORDER_FLUSH_SECONDS: real := 0.3
  const SENDER_PAUSE_SECONDS: real := 0.2
  const CLOCK := 0x1_0000_0000

  datatype Packet = Packet(timestamp: nat, opus: bytes, wall: real)

  /** One stream's window; passed is what has gone on to _process, late the late_packets counter. */
  datatype Window = Window(held: seq<Packet>, released: Option<nat>, heldWall: real, passed: seq<Packet>, late: nat)

  const EMPTY := Window([], None, 0.0, [], 0)

  /** _signed: a difference of timestamps mod 2^32 as a signed number. */
  function Signed(delta: int): int {
    var d := delta % CLOCK;
    if d >= 0x8000_0000 then d - CLOCK else d
  }

  function Reference(w: Window, timestamp: nat): nat {
    if w.released.Some? then w.released.value
    else if w.held != [] then w.held[0].timestamp
    else timestamp
  }

  function Offsets(w: Window, ref: nat): (r: seq<int>)
    ensures |r| == |w.held|
  {
    seq(|w.held|, i requires 0 <= i < |w.held| => Signed(w.held[i].timestamp - ref))
  }

  function Hold(w: Window, p: Packet): Window {
    var ref := Reference(w, p.timestamp);
    var offset, offsets := Signed(p.timestamp - ref), Offsets(w, ref);
    if (w.released.Some? && offset <= 0) || offset in offsets then w.(late := w.late + 1)
    else
      var at := Bisect.BisectRight(offsets, offset, 0, |offsets|);
      w.(held := w.held[..at] + [p] + w.held[at..], heldWall := Max(w.heldWall, p.wall))
  }

  function Release(w: Window, count: nat): Window
    requires count <= |w.held|
    decreases count
  {
    if count == 0 then w
    else
      Release(w.(held := w.held[1..], released := Some(w.held[0].timestamp), passed := w.passed + [w.held[0]]), count - 1)
  }

  /** A packet that is not after a pause: into the window, and what no longer fits goes on. */
  function Arrive(w: Window, p: Packet): Window {
    var held := Hold(w, p);
    if |held.held| > REORDER_PACKETS then Release(held, |held.held| - REORDER_PACKETS) else held
  }

  /** Everything held goes on: before a packet after a pause, when the stream is idle, at the end. */
  function Flush(w: Window): Window { Release(w, |w.held|) }

  /** Arrival n with what came before it: idle holds the arrivals before which the idle check emptied the window. */
  function Settle(w: Window, n: nat, idle: set<nat>): Window { if n in idle then Flush(w) else w }

  function Handle(w: Window, p: Packet): Window {
    Arrive(if p.wall - w.heldWall > SENDER_PAUSE_SECONDS then Flush(w).(released := None) else w, p)
  }

  // ---- The class

  class Track {
    var held: seq<Packet>
    var released: Option<nat>
    var heldWall: real
    var late: nat
    var lastArrival: real // monotonic
    ghost var passed: seq<Packet>

    constructor ()
      ensures Now() == EMPTY
    {
      held, released, heldWall, late, passed, lastArrival := [], None, 0.0, 0, [], 0.0;
    }

    ghost function Now(): Window
      reads this
    {
      Window(held, released, heldWall, passed, late)
    }

    method HoldPacket(p: Packet)
      modifies `held, `heldWall, `late
      ensures Now() == Hold(old(Now()), p)
    {
      var ref := p.timestamp;
      if released.Some? {
        ref := released.value;
      } else if held != [] {
        ref := held[0].timestamp;
      }
      var offset := Signed(p.timestamp - ref);
      var offsets: seq<int> := [];
      for i := 0 to |held|
        invariant |offsets| == i && forall k :: 0 <= k < i ==> offsets[k] == Signed(held[k].timestamp - ref)
      {
        offsets := offsets + [Signed(held[i].timestamp - ref)];
      }
      assert offsets == Offsets(Now(), ref);
      if (released.Some? && offset <= 0) || offset in offsets {
        late := late + 1;
        return;
      }
      var at := Bisect.BisectRight(offsets, offset, 0, |offsets|);
      held := held[..at] + [p] + held[at..];
      heldWall := Max(heldWall, p.wall);
    }

    method ReleasePackets(count: nat)
      requires count <= |held|
      modifies `held, `released, `passed
      ensures Now() == Release(old(Now()), count)
    {
      for i := 0 to count
        invariant |held| >= count - i && Release(old(Now()), count) == Release(Now(), count - i)
      {
        var p := held[0];
        held := held[1..];
        released := Some(p.timestamp);
        passed := passed + [p];
      }
    }

    method HandlePacket(p: Packet, now: real)
      modifies this
      ensures Now() == Handle(old(Now()), p) && lastArrival == now
    {
      hide Hold, Release;
      lastArrival := now;
      if p.wall - heldWall > SENDER_PAUSE_SECONDS {
        ReleasePackets(|held|);
        released := None;
      }
      HoldPacket(p);
      if |held| > REORDER_PACKETS {
        ReleasePackets(|held| - REORDER_PACKETS);
      }
    }

    /** The idle check, whenever the writer comes round to it: the clock context stays. */
    method CloseIdle(now: real)
      modifies this
      ensures Now() == (if now - lastArrival > REORDER_FLUSH_SECONDS then Flush(old(Now())) else old(Now()))
      ensures lastArrival == old(lastArrival)
    {
      if held != [] && now - lastArrival > REORDER_FLUSH_SECONDS { ReleasePackets(|held|); }
    }
  }

  // ---- Nothing is lost or invented, whatever arrives

  lemma {:induction false} ReleaseParts(w: Window, count: nat)
    requires count <= |w.held|
    ensures var r := Release(w, count);
            && r.held == w.held[count..] && r.passed == w.passed + w.held[..count]
            && r.late == w.late && r.heldWall == w.heldWall
            && r.released == if count == 0 then w.released else Some(w.held[count - 1].timestamp)
    decreases count
  {
    if count > 0 {
      ReleaseParts(w.(held := w.held[1..], released := Some(w.held[0].timestamp), passed := w.passed + [w.held[0]]), count - 1);
      assert w.held[..count] == [w.held[0]] + w.held[1..][..count - 1];
      JoinThree(w.passed, [w.held[0]], w.held[1..][..count - 1]);
    }
  }

  /** Any arrivals at all, with the window emptied by the idle check before some of them. */
  function HandleAll(w: Window, arrivals: seq<Packet>, idle: set<nat>): Window
    decreases |arrivals|
  {
    if arrivals == [] then w
    else
      var n := |arrivals| - 1;
      Handle(Settle(HandleAll(w, arrivals[..n], idle), n, idle), arrivals[n])
  }

  /** Every packet let through or held. */
  ghost function Alive(w: Window): multiset<Packet> { multiset(w.passed) + multiset(w.held) }

  lemma InsertKeepsAll(held: seq<Packet>, at: nat, p: Packet)
    requires at <= |held|
    ensures multiset(held[..at] + [p] + held[at..]) == multiset(held) + multiset{p}
  {
    assert held == held[..at] + held[at..];
  }

  lemma HoldCounts(w: Window, p: Packet)
    ensures var h := Hold(w, p);
            && h.passed == w.passed && |h.held| + h.late == |w.held| + w.late + 1
            && |h.held| <= |w.held| + 1 && Alive(h) <= Alive(w) + multiset{p}
  {
    hide Signed, Bisect.BisectRight, Offsets, Reference;
    var ref := Reference(w, p.timestamp);
    var at := Bisect.BisectRight(Offsets(w, ref), Signed(p.timestamp - ref), 0, |w.held|);
    InsertKeepsAll(w.held, at, p);
    var inserted := w.held[..at] + [p] + w.held[at..];
    assert |inserted| == |w.held| + 1;
  }

  lemma ReleaseCounts(w: Window, count: nat)
    requires count <= |w.held|
    ensures var r := Release(w, count);
            && w.passed <= r.passed && r.passed + r.held == w.passed + w.held && Alive(r) == Alive(w)
            && |r.passed| == |w.passed| + count && |r.held| == |w.held| - count && r.late == w.late
  {
    ReleaseParts(w, count);
    assert w.held == w.held[..count] + w.held[count..];
    JoinThree(w.passed, w.held[..count], w.held[count..]);
  }

  ghost predicate Progress(w: Window, r: Window, p: multiset<Packet>) {
    && w.passed <= r.passed && |r.held| <= REORDER_PACKETS && Alive(r) <= Alive(w) + p
    && |r.passed| + r.late + |r.held| == |w.passed| + w.late + |w.held| + |p|
  }

  lemma ArriveCounts(w: Window, p: Packet)
    requires |w.held| <= REORDER_PACKETS
    ensures Progress(w, Arrive(w, p), multiset{p})
  {
    hide Release, Hold;
    HoldCounts(w, p);
    var h := Hold(w, p);
    if |h.held| > REORDER_PACKETS { ReleaseCounts(h, |h.held| - REORDER_PACKETS); }
  }

  lemma HandleCounts(w: Window, p: Packet)
    requires |w.held| <= REORDER_PACKETS
    ensures Progress(w, Handle(w, p), multiset{p})
  {
    hide Release, Arrive;
    ReleaseCounts(w, |w.held|);
    var v := if p.wall - w.heldWall > SENDER_PAUSE_SECONDS then Flush(w).(released := None) else w;
    ArriveCounts(v, p);
  }

  /** Everything submitted was let through, dropped or is held, and nothing else is there. */
  ghost predicate Accounted(arrivals: seq<Packet>, r: Window) {
    && |arrivals| == |r.passed| + r.late + |r.held| && |r.held| <= REORDER_PACKETS
    && Alive(r) <= multiset(arrivals)
  }

  /** Conservation for any arrivals, with pauses, idle flushes, wrap-around, duplicates and restarts. */
  lemma {:induction false} SubmittedIsAccounted(arrivals: seq<Packet>, idle: set<nat>)
    ensures Accounted(arrivals, HandleAll(EMPTY, arrivals, idle))
    ensures Accounted(arrivals, Flush(HandleAll(EMPTY, arrivals, idle)))
    decreases |arrivals|
  {
    hide Handle, HandleAll, Accounted, Progress, Flush;
    if arrivals != [] {
      var n := |arrivals| - 1;
      var front, p := arrivals[..n], arrivals[n];
      SubmittedIsAccounted(front, idle);
      var w := Settle(HandleAll(EMPTY, front, idle), n, idle);
      WindowBounded(front, w);
      HandleCounts(w, p);
      AccountedMore(front, p, w, Handle(w, p));
      HandleAllLast(EMPTY, arrivals, idle);
      assert arrivals == front + [p];
    } else {
      HandleNone(EMPTY, idle);
      NoneAccounted();
    }
    FlushAccounted(arrivals, HandleAll(EMPTY, arrivals, idle));
  }

  lemma HandleNone(w: Window, idle: set<nat>)
    ensures HandleAll(w, [], idle) == w
  {}

  lemma NoneAccounted()
    ensures Accounted([], EMPTY)
  {}

  lemma FlushAccounted(arrivals: seq<Packet>, w: Window)
    requires Accounted(arrivals, w)
    ensures Accounted(arrivals, Flush(w))
  {
    hide Alive;
    ReleaseCounts(w, |w.held|);
  }

  lemma HandleAllLast(w: Window, arrivals: seq<Packet>, idle: set<nat>)
    requires arrivals != []
    ensures var n := |arrivals| - 1;
            HandleAll(w, arrivals, idle) == Handle(Settle(HandleAll(w, arrivals[..n], idle), n, idle), arrivals[n])
  {
    hide Handle;
  }

  lemma WindowBounded(arrivals: seq<Packet>, w: Window)
    requires Accounted(arrivals, w)
    ensures |w.held| <= REORDER_PACKETS
  {}

  lemma AccountedMore(front: seq<Packet>, p: Packet, w: Window, r: Window)
    requires Progress(w, r, multiset{p}) && Accounted(front, w)
    ensures Accounted(front + [p], r)
  {
    hide Alive;
    assert multiset(front + [p]) == multiset(front) + multiset{p};
  }

  // ---- The window sorts: reference definition

  function Later(s: set<int>, t: int): set<int> { set v | v in s && v > t }

  /** The last arrival, up to the n-th, before which the window was emptied. */
  function LastFlush(idle: set<nat>, n: nat): (m: nat)
    ensures m <= n
  {
    if n in idle || n == 0 then n else LastFlush(idle, n - 1)
  }

  /**
   The timestamps that survive: each with at most eight survivors ahead of it when it arrives, and none of
   those already there when the window was last emptied.
   */
  function Kept(times: seq<int>, idle: set<nat>): set<int>
    decreases |times|, 0
  {
    if times == [] then {}
    else
      var n := |times| - 1;
      var k, t := Kept(times[..n], idle), times[n];
      if |Later(k, t)| <= REORDER_PACKETS && Later(Settled(times[..n], idle), t) == {} then k + {t} else k
  }

  /** The survivors already let through when the window was last emptied. */
  function Settled(times: seq<int>, idle: set<nat>): set<int>
    decreases |times|, 1
  {
    Kept(times[..LastFlush(idle, |times|)], idle)
  }

  ghost predicate Increasing(s: seq<int>) { forall i, j :: 0 <= i < j < |s| ==> s[i] < s[j] }

  ghost function Elements(s: seq<int>): set<int> { set v | v in s }

  lemma {:induction false} IncreasingSize(s: seq<int>)
    requires Increasing(s)
    ensures |Elements(s)| == |s|
    decreases |s|
  {
    if s != [] {
      var front, last := s[..|s| - 1], s[|s| - 1];
      IncreasingSize(front);
      assert s == front + [last];
      assert Elements(s) == Elements(front) + {last} && last !in Elements(front);
    }
  }

  lemma LaterInSorted(s: seq<int>, cut: nat, t: int)
    requires Increasing(s) && cut <= |s|
    requires (forall i :: 0 <= i < cut ==> s[i] <= t) && forall i :: cut <= i < |s| ==> s[i] > t
    ensures |Later(Elements(s), t)| == |s| - cut
  {
    assert Later(Elements(s), t) == Elements(s[cut..]) by {
      forall v | v in Later(Elements(s), t) ensures v in s[cut..] {
        var i :| 0 <= i < |s| && s[i] == v;
        assert v == s[cut..][i - cut];
      }
    }
    IncreasingSize(s[cut..]);
  }

  lemma SignedExact(x: int, y: int)
    requires -0x8000_0000 <= x - y < 0x8000_0000
    ensures Signed(x % CLOCK - y % CLOCK) == x - y
  {}

  // ---- The window sorts: one burst

  /** arrivals are packets of one burst, times their unwrapped timestamps, all within half the clock's range. */
  ghost predicate Burst(arrivals: seq<Packet>, times: seq<int>, base: int) {
    && |arrivals| == |times|
    && forall i :: 0 <= i < |times| ==>
         base <= times[i] < base + 0x8000_0000 && arrivals[i].timestamp == times[i] % CLOCK
  }

  /** The same without a pause: into an empty window, with the window emptied before some arrivals. */
  function ArriveAll(arrivals: seq<Packet>, idle: set<nat>): Window
    decreases |arrivals|
  {
    if arrivals == [] then EMPTY
    else
      var n := |arrivals| - 1;
      Arrive(Settle(ArriveAll(arrivals[..n], idle), n, idle), arrivals[n])
  }

  ghost predicate Indices(order: seq<nat>, n: nat) { forall i :: 0 <= i < |order| ==> order[i] < n }

  ghost function TimesOf(times: seq<int>, order: seq<nat>): (s: seq<int>)
    requires Indices(order, |times|)
    ensures |s| == |order| && forall i :: 0 <= i < |s| ==> s[i] == times[order[i]]
  {
    seq(|order|, i requires 0 <= i < |order| => times[order[i]])
  }

  ghost function PacketsAt(arrivals: seq<Packet>, order: seq<nat>): (s: seq<Packet>)
    requires Indices(order, |arrivals|)
    ensures |s| == |order| && forall i :: 0 <= i < |s| ==> s[i] == arrivals[order[i]]
  {
    seq(|order|, i requires 0 <= i < |order| => arrivals[order[i]])
  }

  /** order lists the first arrivals of exactly the surviving timestamps, by time. */
  ghost predicate Survivors(times: seq<int>, idle: set<nat>, order: seq<nat>) {
    && Indices(order, |times|)
    && (forall i :: 0 <= i < |order| ==> times[order[i]] !in times[..order[i]])
    && Increasing(TimesOf(times, order)) && Elements(TimesOf(times, order)) == Kept(times, idle)
  }

  /** Of the arrivals in this order the first r have been let through and the rest are held. */
  ghost predicate Holding(w: Window, arrivals: seq<Packet>, order: seq<nat>, r: nat) {
    && Indices(order, |arrivals|) && r <= |order|
    && w.passed + w.held == PacketsAt(arrivals, order) && |w.passed| == r
    && w.released == (if r == 0 then None else Some(arrivals[order[r - 1]].timestamp))
    && w.late == |arrivals| - |order|
  }

  /**
   Where a burst stands: the survivors, let through or held. The first f are those the last flush let through;
   since then nothing was let through while the window had room.
   */
  ghost predicate Standing(w: Window, arrivals: seq<Packet>, times: seq<int>, idle: set<nat>, order: seq<nat>, r: nat, f: nat,
                           settled: set<int>)
  {
    && |arrivals| == |times| && Survivors(times, idle, order) && Holding(w, arrivals, order, r)
    && Flushed(TimesOf(times, order), r, f, settled)
  }

  ghost predicate Flushed(vals: seq<int>, r: nat, f: nat, settled: set<int>) {
    && f <= r <= |vals| <= r + REORDER_PACKETS && (r > f ==> |vals| == r + REORDER_PACKETS)
    && Elements(vals[..f]) == settled
  }

  lemma LastFlushPrefix(idle: set<nat>, n: nat)
    ensures n + 1 in idle ==> LastFlush(idle, n + 1) == n + 1
    ensures n + 1 !in idle ==> LastFlush(idle, n + 1) == LastFlush(idle, n)
  {}

  /** Emptying the window settles what survives so far; otherwise what was settled stays. */
  lemma SettledNext(times: seq<int>, t: int, idle: set<nat>)
    ensures Settled(times + [t], idle) ==
            if |times| + 1 in idle then Kept(times + [t], idle) else Settled(times, idle)
  {
    hide Kept, LastFlush;
    var n, all := |times|, times + [t];
    LastFlushPrefix(idle, n);
    assert all[..n + 1] == all;
    assert all[..LastFlush(idle, n)] == times[..LastFlush(idle, n)];
  }

  lemma {:induction false} KeptGrows(times: seq<int>, idle: set<nat>, m: nat)
    requires m <= |times|
    ensures Kept(times[..m], idle) <= Kept(times, idle)
    decreases |times|
  {
    if m < |times| {
      KeptGrows(times[..|times| - 1], idle, m);
      assert times[..|times| - 1][..m] == times[..m];
      hide Later, Settled;
    } else {
      assert times[..m] == times;
    }
  }

  lemma KeptPush(times: seq<int>, idle: set<nat>, t: int)
    ensures Kept(times + [t], idle) ==
            if |Later(Kept(times, idle), t)| <= REORDER_PACKETS && Later(Settled(times, idle), t) == {}
            then Kept(times, idle) + {t} else Kept(times, idle)
  {
    hide Later, Settled;
    assert (times + [t])[..|times|] == times;
  }

  /** Why t would not be let in now. */
  ghost predicate Overtaken(times: seq<int>, idle: set<nat>, t: int) {
    |Later(Kept(times, idle), t)| > REORDER_PACKETS || Later(Settled(times, idle), t) != {}
  }

  /** A timestamp once dropped is never let in later. */
  lemma {:induction false} DroppedStays(times: seq<int>, idle: set<nat>, t: int)
    requires t in times && t !in Kept(times, idle)
    ensures Overtaken(times, idle, t)
    decreases |times|
  {
    var front, last := times[..|times| - 1], times[|times| - 1];
    assert times == front + [last];
    KeptPush(front, idle, last);
    SettledNext(front, last, idle);
    if t in front && t !in Kept(front, idle) { DroppedStays(front, idle, t); }
    KeptGrows(times, idle, |front|);
    SettledKept(front, idle);
    hide Settled, Kept, LastFlush;
    SubsetSize(Later(Kept(front, idle), t), Later(Kept(times, idle), t));
    assert Later(Settled(front, idle), t) <= Later(Settled(times, idle), t);
  }

  lemma SettledKept(times: seq<int>, idle: set<nat>)
    ensures Settled(times, idle) <= Kept(times, idle)
  {
    hide Kept;
    KeptGrows(times, idle, LastFlush(idle, |times|));
  }

  lemma SubsetSize(a: set<int>, b: set<int>)
    requires a <= b
    ensures |a| <= |b|
  {
    assert b == a + (b - a);
  }

  lemma {:induction false} KeptArrived(times: seq<int>, idle: set<nat>)
    ensures forall v <- Kept(times, idle) :: v in times
    decreases |times|
  {
    if times != [] {
      var front := times[..|times| - 1];
      KeptArrived(front, idle);
      assert times == front + [times[|times| - 1]];
      hide Later, Settled;
    }
  }

  /** The window's test agrees with the reference: cut is where t belongs among the survivors so far. */
  lemma SurvivorTest(times: seq<int>, idle: set<nat>, vals: seq<int>, r: nat, f: nat, cut: nat, t: int)
    requires Increasing(vals) && Elements(vals) == Kept(times, idle) && Flushed(vals, r, f, Settled(times, idle))
    requires cut <= |vals| && (forall i :: 0 <= i < cut ==> vals[i] <= t) && forall i :: cut <= i < |vals| ==> vals[i] > t
    ensures (r > 0 && t <= vals[r - 1]) || t in vals ==> Kept(times + [t], idle) == Kept(times, idle)
    ensures !(r > 0 && t <= vals[r - 1]) && t !in vals ==>
      Kept(times + [t], idle) == Kept(times, idle) + {t} && t !in times
  {
    LaterInSorted(vals, cut, t);
    KeptPush(times, idle, t);
    hide Kept, Settled;
    if t in vals {
      assert t in Kept(times, idle);
    } else if r > 0 && t <= vals[r - 1] {
      assert cut < r;
      if r == f {
        assert vals[..f][r - 1] in Elements(vals[..f]);
        assert vals[r - 1] in Later(Settled(times, idle), t);
      }
    } else {
      assert cut >= r;
      forall v <- Settled(times, idle) ensures v <= t {
        var i: nat :| i < f && vals[..f][i] == v;
        assert vals[i] <= vals[r - 1];
      }
      assert Later(Settled(times, idle), t) == {};
      assert t !in Kept(times, idle);
      if t in times { DroppedStays(times, idle, t); }
    }
  }

  /** The held packets and the last released one, by unwrapped timestamp. */
  lemma StandingClocks(w: Window, arrivals: seq<Packet>, times: seq<int>, idle: set<nat>, order: seq<nat>, r: nat, f: nat,
                       settled: set<int>, base: int)
    requires Standing(w, arrivals, times, idle, order, r, f, settled) && Burst(arrivals, times, base)
    ensures |arrivals| == |times| && Indices(order, |times|) && r <= |order| <= r + REORDER_PACKETS
    ensures var vals := TimesOf(times, order);
            && Increasing(vals) && Elements(vals) == Kept(times, idle) && Flushed(vals, r, f, settled)
            && |w.held| == |order| - r && |w.passed| == r && (r == 0 ==> w.released == None)
            && (forall i :: 0 <= i < |order| ==> base <= vals[i] < base + 0x8000_0000)
            && (forall i :: 0 <= i < |w.held| ==> w.held[i].timestamp == vals[r + i] % CLOCK)
            && (r > 0 ==> w.released == Some(vals[r - 1] % CLOCK))
  {
    hide Kept, Increasing, Elements;
    var all := w.passed + w.held;
    forall i | 0 <= i < |w.held| ensures w.held[i] == arrivals[order[r + i]] {
      assert w.held[i] == all[r + i];
    }
  }

  /** Offsets from the window's reference are differences of unwrapped timestamps. */
  lemma OffsetsUnwrap(w: Window, vals: seq<int>, r: nat, base: int, p: Packet, t: int) returns (rv: int)
    requires r <= |vals| && |w.held| == |vals| - r && forall i :: 0 <= i < |vals| ==> base <= vals[i] < base + 0x8000_0000
    requires forall i :: 0 <= i < |w.held| ==> w.held[i].timestamp == vals[r + i] % CLOCK
    requires w.released == if r > 0 then Some(vals[r - 1] % CLOCK) else None
    requires base <= t < base + 0x8000_0000 && p.timestamp == t % CLOCK
    ensures var ref := Reference(w, p.timestamp);
            && Signed(p.timestamp - ref) == t - rv && (r > 0 ==> rv == vals[r - 1])
            && forall i :: 0 <= i < |w.held| ==> Offsets(w, ref)[i] == vals[r + i] - rv
  {
    hide Signed;
    rv := if r > 0 then vals[r - 1] else if |vals| > 0 then vals[0] else t;
    assert Reference(w, p.timestamp) == rv % CLOCK;
    SignedExact(t, rv);
    forall i | 0 <= i < |w.held| ensures Signed(w.held[i].timestamp - rv % CLOCK) == vals[r + i] - rv {
      SignedExact(vals[r + i], rv);
    }
  }

  /** Where bisect puts a new offset, seen in unwrapped time. */
  lemma PlaceOf(offsets: seq<int>, vals: seq<int>, r: nat, rv: int, t: int)
    requires Increasing(vals) && r <= |vals| && |offsets| == |vals| - r
    requires forall i :: 0 <= i < |offsets| ==> offsets[i] == vals[r + i] - rv
    ensures var at := Bisect.BisectRight(offsets, t - rv, 0, |offsets|);
            && (forall i :: r <= i < r + at ==> vals[i] <= t) && forall i :: r + at <= i < |vals| ==> vals[i] > t
  {
    Bisect.BisectRightFinds(offsets, t - rv, 0, |offsets|);
    var at := Bisect.BisectRight(offsets, t - rv, 0, |offsets|);
    forall i | r <= i < |vals| ensures (i < r + at ==> vals[i] <= t) && (i >= r + at ==> vals[i] > t) {
      assert offsets[i - r] == vals[i] - rv;
    }
  }

  lemma OffsetAmong(offsets: seq<int>, vals: seq<int>, r: nat, rv: int, t: int)
    requires r <= |vals| && |offsets| == |vals| - r && forall i :: 0 <= i < |offsets| ==> offsets[i] == vals[r + i] - rv
    ensures t - rv in offsets <==> t in vals[r..]
  {
    if t - rv in offsets {
      var i :| 0 <= i < |offsets| && offsets[i] == t - rv;
      assert vals[r..][i] == t;
    }
    if t in vals[r..] {
      var i :| 0 <= i < |vals| - r && vals[r..][i] == t;
      assert offsets[i] == t - rv;
    }
  }

  /** _hold in unwrapped time: drop what is not new, else insert in order. */
  lemma HoldUnwraps(w: Window, vals: seq<int>, r: nat, base: int, p: Packet, t: int) returns (at: nat)
    requires r <= |vals| && |w.held| == |vals| - r && forall i :: 0 <= i < |vals| ==> base <= vals[i] < base + 0x8000_0000
    requires forall i :: 0 <= i < |w.held| ==> w.held[i].timestamp == vals[r + i] % CLOCK
    requires w.released == if r > 0 then Some(vals[r - 1] % CLOCK) else None
    requires base <= t < base + 0x8000_0000 && p.timestamp == t % CLOCK
    requires Increasing(vals)
    ensures at <= |w.held| && (forall i :: r <= i < r + at ==> vals[i] <= t) && forall i :: r + at <= i < |vals| ==> vals[i] > t
    ensures if (r > 0 && t <= vals[r - 1]) || t in vals then Hold(w, p) == w.(late := w.late + 1)
            else Hold(w, p) == w.(held := w.held[..at] + [p] + w.held[at..], heldWall := Max(w.heldWall, p.wall))
  {
    hide Signed, Bisect.BisectRight, Offsets, Increasing;
    var rv := OffsetsUnwrap(w, vals, r, base, p, t);
    hide Reference;
    var offsets := Offsets(w, Reference(w, p.timestamp));
    PlaceOf(offsets, vals, r, rv, t);
    OffsetAmong(offsets, vals, r, rv, t);
    at := Bisect.BisectRight(offsets, t - rv, 0, |offsets|);
    NotNew(vals, r, t);
  }

  lemma NotNew(vals: seq<int>, r: nat, t: int)
    requires Increasing(vals) && r <= |vals|
    ensures (r > 0 && t <= vals[r - 1]) || t in vals[r..] <==> (r > 0 && t <= vals[r - 1]) || t in vals
  {
    assert vals == vals[..r] + vals[r..];
    if t in vals[..r] {
      var i :| 0 <= i < r && vals[..r][i] == t;
      assert vals[i] <= vals[r - 1];
    }
  }

  lemma ArriveParts(w: Window, p: Packet, at: nat)
    requires at <= |w.held| <= REORDER_PACKETS
    requires Hold(w, p) == w.(held := w.held[..at] + [p] + w.held[at..], heldWall := Max(w.heldWall, p.wall))
    ensures var h, c := Hold(w, p), if |w.held| == REORDER_PACKETS then 1 else 0;
            && Arrive(w, p).passed + Arrive(w, p).held == w.passed + h.held && |Arrive(w, p).passed| == |w.passed| + c
            && Arrive(w, p).late == w.late
            && Arrive(w, p).released == if c == 0 then w.released else Some(h.held[0].timestamp)
  {
    hide Hold;
    var h := Hold(w, p);
    if |h.held| > REORDER_PACKETS {
      ReleaseParts(h, 1);
      ReleaseCounts(h, 1);
    }
  }

  /** The arrival that extends the order: its index is new, its timestamp belongs at place g. */
  lemma OrderInsert(arrivals: seq<Packet>, times: seq<int>, order: seq<nat>, g: nat, p: Packet, t: int) returns (order': seq<nat>)
    requires |arrivals| == |times| && Indices(order, |times|) && g <= |order| && t !in times
    requires forall i :: 0 <= i < |order| ==> times[order[i]] !in times[..order[i]]
    requires Increasing(TimesOf(times, order))
    requires forall i :: 0 <= i < g ==> times[order[i]] < t
    requires forall i :: g <= i < |order| ==> times[order[i]] > t
    ensures var all, ts := arrivals + [p], times + [t];
            && order' == order[..g] + [|times|] + order[g..] && Indices(order', |ts|)
            && (forall i :: 0 <= i < |order'| ==> ts[order'[i]] !in ts[..order'[i]])
            && Increasing(TimesOf(ts, order')) && Elements(TimesOf(ts, order')) == Elements(TimesOf(times, order)) + {t}
            && PacketsAt(all, order') == PacketsAt(arrivals, order[..g]) + [p] + PacketsAt(arrivals, order[g..])
            && TimesOf(ts, order') == TimesOf(times, order)[..g] + [t] + TimesOf(times, order)[g..]
  {
    hide Elements, Increasing, TimesOf, PacketsAt;
    var ts := times + [t];
    order' := order[..g] + [|times|] + order[g..];
    FirstsInsert(times, order, g, t);
    TimesInsert(times, order, g, t);
    PacketsInsert(arrivals, order, g, p);
    SortedInsert(TimesOf(times, order), g, t);
  }

  lemma FirstsInsert(times: seq<int>, order: seq<nat>, g: nat, t: int)
    requires Indices(order, |times|) && g <= |order| && t !in times
    requires forall i :: 0 <= i < |order| ==> times[order[i]] !in times[..order[i]]
    ensures var ts, more := times + [t], order[..g] + [|times|] + order[g..];
            Indices(more, |ts|) && forall i :: 0 <= i < |more| ==> ts[more[i]] !in ts[..more[i]]
  {
    var ts, more := times + [t], order[..g] + [|times|] + order[g..];
    forall i | 0 <= i < |more| ensures more[i] < |ts| && ts[more[i]] !in ts[..more[i]] {
      if i == g {
        assert ts[..|times|] == times;
      } else {
        var k := more[i];
        assert k == (if i < g then order[i] else order[i - 1]);
        assert ts[..k] == times[..k] && ts[k] == times[k];
      }
    }
  }

  lemma TimesInsert(times: seq<int>, order: seq<nat>, g: nat, t: int)
    requires Indices(order, |times|) && g <= |order|
    ensures var ts, more, vals := times + [t], order[..g] + [|times|] + order[g..], TimesOf(times, order);
            Indices(more, |ts|) && TimesOf(ts, more) == vals[..g] + [t] + vals[g..]
  {}

  lemma PacketsInsert(arrivals: seq<Packet>, order: seq<nat>, g: nat, p: Packet)
    requires Indices(order, |arrivals|) && g <= |order|
    ensures var all, more := arrivals + [p], order[..g] + [|arrivals|] + order[g..];
            && Indices(more, |all|) && Indices(order[..g], |arrivals|) && Indices(order[g..], |arrivals|)
            && PacketsAt(all, more) == PacketsAt(arrivals, order[..g]) + [p] + PacketsAt(arrivals, order[g..])
  {}

  lemma SortedInsert(vals: seq<int>, g: nat, t: int)
    requires Increasing(vals) && g <= |vals|
    requires forall i :: 0 <= i < g ==> vals[i] < t
    requires forall i :: g <= i < |vals| ==> vals[i] > t
    ensures Increasing(vals[..g] + [t] + vals[g..]) && Elements(vals[..g] + [t] + vals[g..]) == Elements(vals) + {t}
  {
    assert vals == vals[..g] + vals[g..];
  }

  /** Dropping an arrival leaves the order as it was. */
  lemma OrderKeeps(arrivals: seq<Packet>, times: seq<int>, order: seq<nat>, p: Packet, t: int)
    requires |arrivals| == |times| && Indices(order, |times|)
    requires forall i :: 0 <= i < |order| ==> times[order[i]] !in times[..order[i]]
    ensures TimesOf(times + [t], order) == TimesOf(times, order) && PacketsAt(arrivals + [p], order) == PacketsAt(arrivals, order)
    ensures forall i :: 0 <= i < |order| ==> (times + [t])[order[i]] !in (times + [t])[..order[i]]
  {
    forall i | 0 <= i < |order| ensures (times + [t])[order[i]] !in (times + [t])[..order[i]] {
      assert (times + [t])[..order[i]] == times[..order[i]];
    }
  }

  lemma CutOf(vals: seq<int>, t: int) returns (cut: nat)
    requires Increasing(vals)
    ensures cut <= |vals| && (forall i :: 0 <= i < cut ==> vals[i] <= t) && forall i :: cut <= i < |vals| ==> vals[i] > t
  {
    assert Bisect.Ascending(vals);
    Bisect.BisectRightFinds(vals, t, 0, |vals|);
    cut := Bisect.BisectRight(vals, t, 0, |vals|);
  }

  lemma InsertedPackets(passed: seq<Packet>, held: seq<Packet>, at: nat, p: Packet, before: seq<Packet>, after: seq<Packet>)
    requires at <= |held| && passed + held == before + after && |before| == |passed| + at
    ensures var grown := held[..at] + [p] + held[at..];
            passed + grown == before + [p] + after && (before + [p] + after)[|passed|] == grown[0]
  {
    SplitAt(passed, held, at, before, after);
    JoinThree(passed, held[..at], [p] + held[at..]);
    JoinThree(held[..at], [p], held[at..]);
    JoinThree(before, [p], after);
  }

  lemma SplitAt(passed: seq<Packet>, held: seq<Packet>, at: nat, before: seq<Packet>, after: seq<Packet>)
    requires at <= |held| && passed + held == before + after && |before| == |passed| + at
    ensures before == passed + held[..at] && after == held[at..]
  {
    var all := passed + held;
    assert all[..|before|] == before && all[|before|..] == after;
    assert all[..|before|] == passed + held[..at] && all[|before|..] == held[at..];
  }

  lemma BurstFront(arrivals: seq<Packet>, times: seq<int>, base: int, p: Packet, t: int)
    requires |arrivals| == |times| && Burst(arrivals + [p], times + [t], base)
    ensures Burst(arrivals, times, base) && base <= t < base + 0x8000_0000 && p.timestamp == t % CLOCK
  {
    assert forall i :: 0 <= i < |times| ==> (times + [t])[i] == times[i] && (arrivals + [p])[i] == arrivals[i];
    assert (times + [t])[|times|] == t && (arrivals + [p])[|times|] == p;
  }

  lemma DropStep(w: Window, arrivals: seq<Packet>, times: seq<int>, idle: set<nat>, order: seq<nat>, r: nat, f: nat,
                 settled: set<int>, p: Packet, t: int)
    requires Standing(w, arrivals, times, idle, order, r, f, settled) && Hold(w, p) == w.(late := w.late + 1)
    requires Kept(times + [t], idle) == Kept(times, idle)
    ensures Standing(Arrive(w, p), arrivals + [p], times + [t], idle, order, r, f, settled)
  {
    hide Kept, Hold, Increasing, Elements, TimesOf, PacketsAt, Flushed;
    OrderKeeps(arrivals, times, order, p, t);
    assert |w.passed + w.held| == |order|;
    assert |w.held| <= REORDER_PACKETS by { HeldFew(w, arrivals, times, idle, order, r, f, settled); }
    assert Arrive(w, p) == w.(late := w.late + 1);
  }

  lemma HeldFew(w: Window, arrivals: seq<Packet>, times: seq<int>, idle: set<nat>, order: seq<nat>, r: nat, f: nat,
                settled: set<int>)
    requires Standing(w, arrivals, times, idle, order, r, f, settled)
    ensures |w.held| == |order| - r <= REORDER_PACKETS
  {
    hide Kept, Increasing, Elements, PacketsAt;
    assert |w.passed + w.held| == |order|;
  }

  lemma InsertStep(w: Window, arrivals: seq<Packet>, times: seq<int>, idle: set<nat>, order: seq<nat>, r: nat, f: nat,
                   settled: set<int>, at: nat, p: Packet, t: int)
    returns (order': seq<nat>, r': nat)
    requires Standing(w, arrivals, times, idle, order, r, f, settled) && at <= |w.held| && r + at <= |order|
    requires Hold(w, p) == w.(held := w.held[..at] + [p] + w.held[at..], heldWall := Max(w.heldWall, p.wall))
    requires Kept(times + [t], idle) == Kept(times, idle) + {t} && t !in times
    requires forall i :: 0 <= i < r + at ==> times[order[i]] < t
    requires forall i :: r + at <= i < |order| ==> times[order[i]] > t
    ensures Standing(Arrive(w, p), arrivals + [p], times + [t], idle, order', r', f, settled)
  {
    hide Kept, Hold, Arrive, Increasing, Elements, TimesOf, PacketsAt, Holding, Flushed;
    HeldFew(w, arrivals, times, idle, order, r, f, settled);
    order' := OrderInsert(arrivals, times, order, r + at, p, t);
    assert Survivors(times + [t], idle, order');
    hide Survivors;
    r' := if |w.held| == REORDER_PACKETS then r + 1 else r;
    FlushedInsert(TimesOf(times, order), r, f, settled, r + at, t);
    InsertHolding(w, arrivals, order, r, at, p, order', r');
  }

  lemma FlushedInsert(vals: seq<int>, r: nat, f: nat, settled: set<int>, g: nat, t: int)
    requires Flushed(vals, r, f, settled) && r <= g <= |vals|
    ensures Flushed(vals[..g] + [t] + vals[g..], if |vals| - r == REORDER_PACKETS then r + 1 else r, f, settled)
  {
    assert (vals[..g] + [t] + vals[g..])[..f] == vals[..f];
  }

  lemma InsertHolding(w: Window, arrivals: seq<Packet>, order: seq<nat>, r: nat, at: nat, p: Packet, order': seq<nat>, r': nat)
    requires Holding(w, arrivals, order, r) && at <= |w.held| <= REORDER_PACKETS && r + at <= |order|
    requires Hold(w, p) == w.(held := w.held[..at] + [p] + w.held[at..], heldWall := Max(w.heldWall, p.wall))
    requires order' == order[..r + at] + [|arrivals|] + order[r + at..] && Indices(order', |arrivals + [p]|)
    requires PacketsAt(arrivals + [p], order')
          == PacketsAt(arrivals, order[..r + at]) + [p] + PacketsAt(arrivals, order[r + at..])
    requires r' == if |w.held| == REORDER_PACKETS then r + 1 else r
    ensures Holding(Arrive(w, p), arrivals + [p], order', r') && |order'| == |order| + 1
  {
    hide Hold, Arrive, PacketsAt, Max;
    ArriveParts(w, p, at);
    InsertedRun(w, arrivals, order, at, p, PacketsAt(arrivals + [p], order'));
    if 0 < r' == r { assert order'[r - 1] == order[r - 1]; }
  }

  /** The packets let through and held, with the new one in its place. */
  lemma InsertedRun(w: Window, arrivals: seq<Packet>, order: seq<nat>, at: nat, p: Packet, all: seq<Packet>)
    requires Indices(order, |arrivals|) && w.passed + w.held == PacketsAt(arrivals, order) && at <= |w.held|
    requires |w.passed| + at <= |order|
    requires var g := |w.passed| + at; all == PacketsAt(arrivals, order[..g]) + [p] + PacketsAt(arrivals, order[g..])
    ensures var held := w.held[..at] + [p] + w.held[at..];
            w.passed + held == all && all[|w.passed|] == held[0]
  {
    var g := |w.passed| + at;
    var before, after := PacketsAt(arrivals, order[..g]), PacketsAt(arrivals, order[g..]);
    assert PacketsAt(arrivals, order) == before + after;
    hide PacketsAt;
    InsertedPackets(w.passed, w.held, at, p, before, after);
  }

  lemma BurstStep(w: Window, arrivals: seq<Packet>, times: seq<int>, idle: set<nat>, order: seq<nat>, r: nat, f: nat,
                  base: int, p: Packet, t: int)
    returns (order': seq<nat>, r': nat)
    requires |arrivals| == |times| && Burst(arrivals + [p], times + [t], base)
    requires Standing(w, arrivals, times, idle, order, r, f, Settled(times, idle))
    ensures Standing(Arrive(w, p), arrivals + [p], times + [t], idle, order', r', f, Settled(times, idle))
  {
    hide Kept, Settled, Hold, Arrive, Burst, Standing, Elements, Increasing, Flushed;
    BurstFront(arrivals, times, base, p, t);
    StandingClocks(w, arrivals, times, idle, order, r, f, Settled(times, idle), base);
    var vals := TimesOf(times, order);
    var at := HoldUnwraps(w, vals, r, base, p, t);
    if (r > 0 && t <= vals[r - 1]) || t in vals {
      var cut := CutOf(vals, t);
      SurvivorTest(times, idle, vals, r, f, cut, t);
      DropStep(w, arrivals, times, idle, order, r, f, Settled(times, idle), p, t);
      order', r' := order, r;
    } else {
      BelowPlace(vals, r, at, t);
      SurvivorTest(times, idle, vals, r, f, r + at, t);
      order', r' := InsertStep(w, arrivals, times, idle, order, r, f, Settled(times, idle), at, p, t);
    }
  }

  /** Emptying the window lets every survivor through. */
  lemma FlushStands(w: Window, arrivals: seq<Packet>, times: seq<int>, idle: set<nat>, order: seq<nat>, r: nat, f: nat,
                    settled: set<int>)
    requires Standing(w, arrivals, times, idle, order, r, f, settled)
    ensures Standing(Flush(w), arrivals, times, idle, order, |order|, |order|, Kept(times, idle))
  {
    hide Kept, Increasing, Elements, PacketsAt;
    var all := w.passed + w.held;
    assert |all| == |order|;
    ReleaseParts(w, |w.held|);
    assert w.held[..|w.held|] == w.held && all + [] == all;
    var vals := TimesOf(times, order);
    assert vals[..|order|] == vals;
    if |w.held| > 0 {
      assert all[|order| - 1] == w.held[|w.held| - 1];
      LastOf(arrivals, order);
    }
  }

  lemma LastOf(arrivals: seq<Packet>, order: seq<nat>)
    requires Indices(order, |arrivals|) && order != []
    ensures PacketsAt(arrivals, order)[|order| - 1] == arrivals[order[|order| - 1]]
  {}

  lemma BelowPlace(vals: seq<int>, r: nat, at: nat, t: int)
    requires Increasing(vals) && r + at <= |vals| && t !in vals && (r > 0 ==> vals[r - 1] < t)
    requires forall i :: r <= i < r + at ==> vals[i] <= t
    ensures forall i :: 0 <= i < r + at ==> vals[i] < t
  {
    forall i | 0 <= i < r + at ensures vals[i] < t { assert vals[i] in vals; }
  }

  lemma {:induction false} BurstStands(arrivals: seq<Packet>, times: seq<int>, idle: set<nat>, base: int)
    returns (order: seq<nat>, r: nat, f: nat)
    requires Burst(arrivals, times, base)
    ensures Standing(Settle(ArriveAll(arrivals, idle), |arrivals|, idle), arrivals, times, idle, order, r, f, Settled(times, idle))
    decreases |arrivals|
  {
    if arrivals == [] {
      order, r, f := [], 0, 0;
      assert times[..0] == [];
    } else {
      hide Kept, Arrive, Standing, Settled, Flush;
      var n := |arrivals| - 1;
      assert arrivals == arrivals[..n] + [arrivals[n]] && times == times[..n] + [times[n]];
      BurstFront(arrivals[..n], times[..n], base, arrivals[n], times[n]);
      var order0, r0, f0 := BurstStands(arrivals[..n], times[..n], idle, base);
      f := f0;
      var before := Settle(ArriveAll(arrivals[..n], idle), n, idle);
      order, r := BurstStep(before, arrivals[..n], times[..n], idle, order0, r0, f, base, arrivals[n], times[n]);
      SettledNext(times[..n], times[n], idle);
      if n + 1 in idle {
        FlushStands(Arrive(before, arrivals[n]), arrivals, times, idle, order, r, f, Settled(times[..n], idle));
        r, f := |order|, |order|;
      }
    }
  }

  /** The first arrivals of the surviving timestamps, in timestamp order. */
  ghost predicate SortedSurvivors(out: seq<Packet>, arrivals: seq<Packet>, times: seq<int>, idle: set<nat>, order: seq<nat>) {
    |arrivals| == |times| && Survivors(times, idle, order) && out == PacketsAt(arrivals, order)
  }

  /**
   A burst within half the clock's range, in any arrival order and with the window emptied at any points: window
   and final flush let through exactly the survivors, sorted, each once; the rest is counted late.
   */
  lemma WindowSorts(arrivals: seq<Packet>, times: seq<int>, idle: set<nat>, base: int) returns (order: seq<nat>)
    requires Burst(arrivals, times, base)
    ensures var r := Flush(ArriveAll(arrivals, idle));
            && SortedSurvivors(r.passed, arrivals, times, idle, order) && r.held == []
            && r.late == |arrivals| - |Kept(times, idle)|
  {
    hide Kept, ArriveAll, Increasing, Flush;
    var w := ArriveAll(arrivals, idle);
    var r, f;
    order, r, f := BurstStands(arrivals, times, idle, base);
    var s := Settle(w, |arrivals|, idle);
    FlushStands(s, arrivals, times, idle, order, r, f, Settled(times, idle));
    FlushTwice(w);
    FlushEmpties(s);
    assert Flush(s).passed + [] == Flush(s).passed;
    SurvivorCount(times, idle, order);
  }

  lemma SurvivorCount(times: seq<int>, idle: set<nat>, order: seq<nat>)
    requires Survivors(times, idle, order)
    ensures |order| == |Kept(times, idle)|
  {
    hide Kept;
    IncreasingSize(TimesOf(times, order));
  }

  lemma FlushEmpties(w: Window)
    ensures Flush(w).held == []
  {
    ReleaseParts(w, |w.held|);
  }

  lemma FlushTwice(w: Window)
    ensures Flush(Flush(w)) == Flush(w)
  {
    FlushEmpties(w);
  }

  /**
   Each packet is preceded on arrival by at most eight later ones (not counting repeats), and by none that was
   already there when the window was last emptied.
   */
  ghost predicate BoundedDisplacement(times: seq<int>, idle: set<nat>) {
    forall i :: 0 <= i < |times| && times[i] !in times[..i] ==> InPlace(times[..i], times[i], idle)
  }

  ghost predicate InPlace(before: seq<int>, t: int, idle: set<nat>) {
    && |Later(Elements(before), t)| <= REORDER_PACKETS
    && Later(Elements(before[..LastFlush(idle, |before|)]), t) == {}
  }

  lemma BoundedSplits(front: seq<int>, t: int, idle: set<nat>)
    ensures BoundedDisplacement(front + [t], idle) <==>
            BoundedDisplacement(front, idle) && (t in front || InPlace(front, t, idle))
  {
    hide InPlace;
    var times, n := front + [t], |front|;
    assert times[..n] == front && times[n] == t;
    assert forall i :: 0 <= i < n ==> times[i] == front[i] && times[..i] == front[..i];
    if BoundedDisplacement(front, idle) && (t in front || InPlace(front, t, idle)) {
      forall i | 0 <= i < |times| && times[i] !in times[..i] ensures InPlace(times[..i], times[i], idle) {
        if i < n { assert front[i] !in front[..i]; }
      }
    }
    if BoundedDisplacement(times, idle) {
      forall i | 0 <= i < n && front[i] !in front[..i] ensures InPlace(front[..i], front[i], idle) {
        assert times[i] !in times[..i];
      }
    }
  }

  lemma BoundedPrefix(times: seq<int>, idle: set<nat>, m: nat)
    requires BoundedDisplacement(times, idle) && m <= |times|
    ensures BoundedDisplacement(times[..m], idle)
  {
    hide InPlace;
    forall i | 0 <= i < m && times[..m][i] !in times[..m][..i] ensures InPlace(times[..m][..i], times[..m][i], idle) {
      assert times[..m][..i] == times[..i];
    }
  }

  /** Every distinct packet survives if and only if none is displaced past eight later ones or past a flush. */
  lemma {:induction false} AllSurviveIff(times: seq<int>, idle: set<nat>)
    ensures Kept(times, idle) == Elements(times) <==> BoundedDisplacement(times, idle)
    decreases |times|
  {
    if times != [] {
      var n := |times| - 1;
      var front, t := times[..n], times[n];
      assert times == front + [t];
      hide BoundedDisplacement, Kept, Settled, Elements, InPlace;
      AllSurviveIff(front, idle);
      BoundedSplits(front, t, idle);
      ElementsPush(front, t);
      if Kept(times, idle) == Elements(times) { SurvivedBefore(front, t, idle); }
      if BoundedDisplacement(front, idle) {
        var m := LastFlush(idle, n);
        BoundedPrefix(front, idle, m);
        AllSurviveIff(front[..m], idle);
        SettledIs(front, idle);
        NewlyKept(front, t, idle);
      }
    }
  }

  lemma ElementsPush(front: seq<int>, t: int)
    ensures Elements(front + [t]) == Elements(front) + {t}
  {}

  lemma SettledIs(times: seq<int>, idle: set<nat>)
    ensures Settled(times, idle) == Kept(times[..LastFlush(idle, |times|)], idle)
  {}

  /** Where all survive, all did before the last arrival. */
  lemma SurvivedBefore(front: seq<int>, t: int, idle: set<nat>)
    requires Kept(front + [t], idle) == Elements(front + [t])
    ensures Kept(front, idle) == Elements(front)
  {
    KeptArrived(front, idle);
    KeptPush(front, idle, t);
    hide Kept, Settled;
    forall v | v in front ensures v in Kept(front, idle) {
      assert v in front + [t] && v in Elements(front + [t]);
      if v !in Kept(front, idle) { DroppedStays(front, idle, v); }
    }
  }

  /** Where all survived so far, the next one does if it is in place, or was there before. */
  lemma NewlyKept(front: seq<int>, t: int, idle: set<nat>)
    requires Kept(front, idle) == Elements(front) && Settled(front, idle) == Elements(front[..LastFlush(idle, |front|)])
    ensures Kept(front + [t], idle) == Elements(front) + {t} <==> t in front || InPlace(front, t, idle)
  {
    hide Kept, Settled, Later;
    KeptPush(front, idle, t);
  }

  /** With no pause the handler is the burst step; after one, the old window is emptied and the clock forgotten. */
  lemma PauseStartsBurst(w: Window, p: Packet)
    ensures p.wall - w.heldWall <= SENDER_PAUSE_SECONDS ==> Handle(w, p) == Arrive(w, p)
    ensures p.wall - w.heldWall > SENDER_PAUSE_SECONDS ==>
              Handle(w, p) == Arrive(Window([], None, w.heldWall, w.passed + w.held, w.late), p)
  {
    ReleaseParts(w, |w.held|);
    assert w.held[..|w.held|] == w.held && w.held[|w.held|..] == [];
  }

  // ---- Bursts in a row

  /** The same window after other packets have gone before it. */
  ghost predicate Follows(w: Window, a: Window, before: seq<Packet>, late: nat) {
    w.held == a.held && w.released == a.released && w.passed == before + a.passed && w.late == late + a.late
  }

  lemma HoldFollows(w: Window, a: Window, before: seq<Packet>, late: nat, p: Packet)
    requires Follows(w, a, before, late)
    ensures Follows(Hold(w, p), Hold(a, p), before, late)
  {
    hide Signed, Bisect.BisectRight;
    var ref := Reference(w, p.timestamp);
    assert Reference(a, p.timestamp) == ref && Offsets(a, ref) == Offsets(w, ref);
  }

  lemma ReleaseFollows(w: Window, a: Window, before: seq<Packet>, late: nat, count: nat)
    requires Follows(w, a, before, late) && count <= |a.held|
    ensures Follows(Release(w, count), Release(a, count), before, late)
  {
    ReleaseParts(w, count);
    ReleaseParts(a, count);
    JoinThree(before, a.passed, a.held[..count]);
  }

  lemma ArriveFollows(w: Window, a: Window, before: seq<Packet>, late: nat, p: Packet)
    requires Follows(w, a, before, late)
    ensures Follows(Arrive(w, p), Arrive(a, p), before, late)
  {
    hide Hold, Release;
    HoldFollows(w, a, before, late, p);
    var h := Hold(a, p);
    if |h.held| > REORDER_PACKETS { ReleaseFollows(Hold(w, p), h, before, late, |h.held| - REORDER_PACKETS); }
  }

  /** These arrivals come after a pause, with no pause among them. */
  ghost predicate OneBurst(w: Window, arrivals: seq<Packet>, idle: set<nat>) {
    && arrivals != [] && arrivals[0].wall - Settle(w, 0, idle).heldWall > SENDER_PAUSE_SECONDS
    && forall n :: 0 < n < |arrivals| ==>
         arrivals[n].wall - Settle(HandleAll(w, arrivals[..n], idle), n, idle).heldWall <= SENDER_PAUSE_SECONDS
  }

  lemma OneBurstFront(w: Window, arrivals: seq<Packet>, idle: set<nat>)
    requires OneBurst(w, arrivals, idle) && |arrivals| > 1
    ensures OneBurst(w, arrivals[..|arrivals| - 1], idle)
  {
    hide HandleAll, Settle;
    var front := arrivals[..|arrivals| - 1];
    forall n | 0 < n < |front|
      ensures front[n].wall - Settle(HandleAll(w, front[..n], idle), n, idle).heldWall <= SENDER_PAUSE_SECONDS
    {
      assert front[..n] == arrivals[..n];
    }
  }

  /** The handler on such arrivals is the window started empty, after everything held before it. */
  lemma {:induction false} BurstFollows(w: Window, arrivals: seq<Packet>, idle: set<nat>)
    requires OneBurst(w, arrivals, idle)
    ensures Follows(HandleAll(w, arrivals, idle), ArriveAll(arrivals, idle), Flush(w).passed, w.late)
    decreases |arrivals|
  {
    hide Arrive, Flush;
    var n := |arrivals| - 1;
    var front, p := arrivals[..n], arrivals[n];
    HandleAllLast(w, arrivals, idle);
    if n == 0 {
      FlushTwice(w);
      FlushEmpties(w);
      FlushKeeps(w);
      FlushEmpty();
      assert front == [] && HandleAll(w, front, idle) == w && ArriveAll(front, idle) == EMPTY;
      assert Flush(w).passed + [] == Flush(w).passed;
      ArriveFollows(Flush(w).(released := None), EMPTY, Flush(w).passed, w.late, p);
    } else {
      OneBurstFront(w, arrivals, idle);
      BurstFollows(w, front, idle);
      var v, a := HandleAll(w, front, idle), ArriveAll(front, idle);
      hide HandleAll;
      FlushFollows(v, a, Flush(w).passed, w.late);
      ArriveFollows(Settle(v, n, idle), Settle(a, n, idle), Flush(w).passed, w.late, p);
    }
  }

  lemma FlushEmpty()
    ensures Flush(EMPTY) == EMPTY
  {}

  lemma FlushKeeps(w: Window)
    ensures Flush(w).late == w.late && Flush(w).heldWall == w.heldWall && Flush(w).passed == w.passed + w.held
  {
    ReleaseParts(w, |w.held|);
    assert w.held[..|w.held|] == w.held;
  }

  lemma FlushFollows(w: Window, a: Window, before: seq<Packet>, late: nat)
    requires Follows(w, a, before, late)
    ensures Follows(Flush(w), Flush(a), before, late)
  {
    ReleaseFollows(w, a, before, late, |a.held|);
  }

  datatype BurstRun = BurstRun(arrivals: seq<Packet>, times: seq<int>, idle: set<nat>, base: int)

  /** Everything one stream submits: one burst after another, a pause before each. */
  function RunBursts(bursts: seq<BurstRun>): Window {
    if bursts == [] then EMPTY
    else
      var last := bursts[|bursts| - 1];
      HandleAll(RunBursts(bursts[..|bursts| - 1]), last.arrivals, last.idle)
  }

  ghost predicate Paused(bursts: seq<BurstRun>) {
    forall k :: 0 <= k < |bursts| ==>
      && Burst(bursts[k].arrivals, bursts[k].times, bursts[k].base)
      && OneBurst(RunBursts(bursts[..k]), bursts[k].arrivals, bursts[k].idle)
  }

  lemma PausedFront(bursts: seq<BurstRun>)
    requires Paused(bursts) && bursts != []
    ensures Paused(bursts[..|bursts| - 1])
  {
    hide RunBursts, OneBurst, Burst;
    var front := bursts[..|bursts| - 1];
    assert forall k :: 0 <= k < |front| ==> front[..k] == bursts[..k];
  }

  /** What one burst lets through. */
  ghost predicate Outcome(out: seq<Packet>, b: BurstRun) {
    exists order :: SortedSurvivors(out, b.arrivals, b.times, b.idle, order)
  }

  /** Over a whole stream the packets let through are each burst's sorted survivors, one burst after another. */
  lemma {:induction false} BurstsInARow(bursts: seq<BurstRun>) returns (outs: seq<seq<Packet>>)
    requires Paused(bursts)
    ensures |outs| == |bursts| && Flush(RunBursts(bursts)).passed == Concat(outs)
    ensures forall k :: 0 <= k < |bursts| ==> Outcome(outs[k], bursts[k])
    decreases |bursts|
  {
    hide Outcome, Burst, OneBurst, Flush, HandleAll;
    if bursts == [] {
      outs := [];
      FlushEmpty();
    } else {
      var n := |bursts| - 1;
      var before, b := RunBursts(bursts[..n]), bursts[n];
      PausedFront(bursts);
      outs := BurstsInARow(bursts[..n]);
      BurstFollows(before, b.arrivals, b.idle);
      FlushFollows(HandleAll(before, b.arrivals, b.idle), ArriveAll(b.arrivals, b.idle), Flush(before).passed, before.late);
      var out := BurstOut(b);
      ConcatAppend(outs, [out]);
      ConcatOne(out);
      outs := outs + [out];
    }
  }

  lemma BurstOut(b: BurstRun) returns (out: seq<Packet>)
    requires Burst(b.arrivals, b.times, b.base)
    ensures out == Flush(ArriveAll(b.arrivals, b.idle)).passed && Outcome(out, b)
  {
    hide Flush, ArriveAll, Burst, SortedSurvivors;
    var order := WindowSorts(b.arrivals, b.times, b.idle, b.base);
    out := Flush(ArriveAll(b.arrivals, b.idle)).passed;
  }

  lemma ConcatOne<T>(out: seq<T>)
    ensures Concat([out]) == out
  {
    var one := [out];
    assert one[1..] == [] && out + [] == out;
  }

  // ---- Half the clock

  /**
   Two packets of one burst come out in the order of their times if and only if they are less than half the clock
   apart (exactly half counts on one side). That a burst's times all lie within half the clock is what WindowSorts
   relies on; it is sufficient, not necessary.
   */
  lemma TwoInOrderIff(a: Packet, b: Packet, ta: int, tb: int)
    requires a.timestamp == ta % CLOCK && b.timestamp == tb % CLOCK && -CLOCK < tb - ta < CLOCK
    ensures Flush(ArriveAll([a, b], {})).passed == (if ta == tb then [a] else if ta < tb then [a, b] else [b, a])
       <==> -0x8000_0000 <= tb - ta < 0x8000_0000
  {
    hide Flush, ArriveAll, Signed;
    TwoOut(a, b);
    SignedPair(ta, tb);
    if a != b { assert [a, b][0] != [b, a][0]; }
  }

  lemma TwoOut(a: Packet, b: Packet)
    ensures var d := Signed(b.timestamp - a.timestamp);
            Flush(ArriveAll([a, b], {})).passed == if d == 0 then [a] else if d > 0 then [a, b] else [b, a]
  {
    hide Hold, Release, Arrive;
    ArriveTwo(a, b);
    FirstHeld(a);
    assert Arrive(EMPTY, a) == Hold(EMPTY, a) by { ArriveFew(EMPTY, a); }
    var w := Hold(EMPTY, a);
    SecondHeld(a, b, w);
    assert Arrive(w, b) == Hold(w, b) by { ArriveFew(w, b); }
    hide ArriveAll, Signed;
    var h := Hold(w, b);
    FlushKeeps(h);
    assert [] + h.held == h.held;
  }

  lemma ArriveTwo(a: Packet, b: Packet)
    ensures ArriveAll([a, b], {}) == Arrive(Arrive(EMPTY, a), b)
  {
    hide Arrive;
    var one, none := [a], ([a])[..0];
    assert [a, b][..1] == one && none == [];
    assert ArriveAll(none, {}) == EMPTY && ArriveAll(one, {}) == Arrive(EMPTY, a);
  }

  lemma ArriveFew(w: Window, p: Packet)
    requires |w.held| < REORDER_PACKETS
    ensures Arrive(w, p) == Hold(w, p)
  {
    hide Hold, Release;
    HoldCounts(w, p);
  }

  lemma FirstHeld(a: Packet)
    ensures Hold(EMPTY, a) == Window([a], None, Max(0.0, a.wall), [], 0)
  {
    assert Offsets(EMPTY, a.timestamp) == [];
    Bisect.BisectRightFinds([], 0, 0, 0);
  }

  lemma SecondHeld(a: Packet, b: Packet, w: Window)
    requires w == Window([a], None, Max(0.0, a.wall), [], 0)
    ensures var d := Signed(b.timestamp - a.timestamp);
            Hold(w, b) == if d == 0 then w.(late := 1)
                          else w.(held := if d > 0 then [a, b] else [b, a], heldWall := Max(w.heldWall, b.wall))
  {
    var d := Signed(b.timestamp - a.timestamp);
    assert Offsets(w, a.timestamp) == [0];
    Bisect.BisectRightFinds([0], d, 0, 1);
  }

  /** The signed difference has the sign of the real one exactly within half the clock. */
  lemma SignedPair(ta: int, tb: int)
    requires -CLOCK < tb - ta < CLOCK
    ensures var d := Signed(tb % CLOCK - ta % CLOCK);
            && (d == 0 <==> ta == tb) && (tb % CLOCK == ta % CLOCK <==> ta == tb)
            && ((d > 0 <==> tb > ta) && (d < 0 <==> tb < ta) <==> -0x8000_0000 <= tb - ta < 0x8000_0000)
  {}
}
