/** A file follows its sender's RTP clock: ChannelRecorder._write in timestamps (ttsbot/recording/recorder.py). */
module SenderClock {
  import opened Bytes
  import opened Recorder

  /** The sample of the file at which packet i of the log starts. */
  ghost function StartOf(f: Layout, i: nat): nat
    requires |f.at| == |f.log| && i < |f.at| && f.at[i] <= |f.slots|
  {
    SlotsTotal(f.slots[..f.at[i]])
  }

  lemma LogPlaced(f: Layout, pause: nat)
    requires Laid(f, pause)
    ensures |f.at| == |f.log| && forall i :: 0 <= i < |f.at| ==> f.at[i] < |f.slots|
  {
    PlacedBounds(f.slots, f.log, f.at, pause);
  }

  lemma {:induction false} FillerLasts(slots: seq<Slot>, a: nat, b: nat)
    requires a <= b <= |slots| && forall k :: a <= k < b ==> slots[k] == Filler
    ensures SlotsTotal(slots[..b]) == SlotsTotal(slots[..a]) + 960 * (b - a)
    decreases b
  {
    if a < b {
      FillerLasts(slots, a, b - 1);
      assert slots[..b] == slots[..b - 1] + [Filler];
      TotalPush(slots[..b - 1], Filler);
    }
  }

  lemma {:induction false} PlacesGrow(slots: seq<Slot>, log: seq<Heard>, at: seq<nat>, pause: nat, i: nat, j: nat)
    requires Placed(slots, log, at, pause) && i < j < |at|
    ensures at[i] < at[j]
    decreases j
  {
    hide FillerBetween;
    if i < j - 1 { PlacesGrow(slots, log, at, pause, i, j - 1); }
  }

  lemma BetweenIsFiller(slots: seq<Slot>, log: seq<Heard>, at: seq<nat>, pause: nat, i: nat, k: nat)
    requires Placed(slots, log, at, pause) && 0 < i < |at| && at[i - 1] < k < at[i]
    ensures k < |slots| && slots[k] == Filler
  {
    hide FillerBetween;
    forall j | 0 <= j < |at| ensures at[j] != k {
      if j < i - 1 {
        PlacesGrow(slots, log, at, pause, j, i - 1);
      } else if i < j {
        PlacesGrow(slots, log, at, pause, i, j);
      }
    }
  }

  lemma StepPlaced(slots: seq<Slot>, log: seq<Heard>, at: seq<nat>, pause: nat, i: nat)
    requires Placed(slots, log, at, pause) && 0 < i < |log|
    ensures at[i - 1] < at[i] < |slots|
    ensures SlotsTotal(slots[..at[i]])
         == SlotsTotal(slots[..at[i - 1]]) + log[i - 1].samples + 960 * FillerBetween(log[i - 1], log[i], pause)
  {
    hide FillerBetween, SlotsTotal;
    var a, b := at[i - 1], at[i];
    forall k | a + 1 <= k < b ensures slots[k] == Filler {
      BetweenIsFiller(slots, log, at, pause, i, k);
    }
    FillerLasts(slots, a + 1, b);
    assert slots[..a + 1] == slots[..a] + [Speech(log[i - 1])];
    TotalPush(slots[..a], Speech(log[i - 1]));
  }

  // ---- Two packets in a row

  /**
   A piece begins at a packet that is not ahead of the one before by the RTP clock, comes more than a pause after its
   end by that clock, or more than a pause and 0.2 s after it by the wall clock.
   */
  lemma BeginsIff(f: Layout, pause: nat, i: nat)
    requires Laid(f, pause) && 0 < i < |f.log|
    ensures var prev, next := f.log[i - 1], f.log[i];
            var d := (next.timestamp - prev.timestamp) % 0x1_0000_0000;
            i in f.firsts <==> || d == 0 || d >= 0x8000_0000
                               || d - prev.samples > pause
                               || next.wall - prev.wall - (prev.samples + pause) as real / 48000.0 > 0.2
  {
    hide Placed;
  }

  /** A packet is dropped when it is behind by the RTP clock, unless more than 0.2 s passed and it is 10 s behind. */
  lemma StaleIff(prev: Heard, next: Heard)
    ensures var d := (next.timestamp - prev.timestamp) % 0x1_0000_0000;
            Stale(prev, next) <==> || d == 0
                                   || (d >= 0x8000_0000 && (next.wall - prev.wall <= 0.2 || 0x1_0000_0000 - d < 480_000))
  {}

  /**
   From the start of a packet to the start of the next: its own duration, and whole silence packets for the hole the
   RTP clock shows, or for the pause where a piece begins.
   */
  lemma StepOf(f: Layout, pause: nat, i: nat)
    requires Laid(f, pause) && 0 < i < |f.log|
    ensures |f.at| == |f.log| && f.at[i - 1] < f.at[i] < |f.slots|
    ensures var prev, next := f.log[i - 1], f.log[i];
            var d := (next.timestamp - prev.timestamp) % 0x1_0000_0000;
            StartOf(f, i) - StartOf(f, i - 1) == prev.samples +
              960 * (if i in f.firsts then pause / 960 else if d > prev.samples then (d - prev.samples) / 960 else 0)
  {
    hide Placed, SlotsTotal;
    LogPlaced(f, pause);
    StepPlaced(f.slots, f.log, f.at, pause, i);
  }

  // ---- A whole piece

  /** Packets i and j are in the same piece: the first packet of their piece is p, and the next piece begins after both. */
  ghost predicate SamePiece(f: Layout, i: nat, j: nat) {
    exists p :: 0 <= p < |f.firsts| && f.firsts[p] <= i && f.firsts[p] <= j &&
                (p + 1 < |f.firsts| ==> i < f.firsts[p + 1] && j < f.firsts[p + 1])
  }

  /** The piece a packet is in. */
  lemma {:induction false} PieceAt(f: Layout, pause: nat, i: nat, n: nat) returns (p: nat)
    requires Laid(f, pause) && i < |f.log| && 0 < n <= |f.firsts| && (n < |f.firsts| ==> i < f.firsts[n])
    ensures p < n && f.firsts[p] <= i && (p + 1 < |f.firsts| ==> i < f.firsts[p + 1])
  {
    hide Placed;
    if f.firsts[n - 1] <= i { return n - 1; }
    p := PieceAt(f, pause, i, n - 1);
  }

  lemma {:induction false} FirstsAscend(f: Layout, pause: nat, p: nat, q: nat)
    requires Laid(f, pause) && p < q < |f.firsts|
    ensures f.firsts[p] < f.firsts[q]
  {
    hide Placed;
    if p < q - 1 { FirstsAscend(f, pause, p, q - 1); }
  }

  /** Two packets share a piece exactly when no piece begins after the one and up to the other. */
  lemma SamePieceIff(f: Layout, pause: nat, i: nat, j: nat)
    requires Laid(f, pause) && i <= j < |f.log|
    ensures SamePiece(f, i, j) <==> forall k :: i < k <= j ==> k !in f.firsts
  {
    hide Laid, Marks;
    PieceCount(f, pause);
    var p := PieceAt(f, pause, i, |f.firsts|);
    if SamePiece(f, i, j) {
      var q :| 0 <= q < |f.firsts| && f.firsts[q] <= i && f.firsts[q] <= j &&
               (q + 1 < |f.firsts| ==> i < f.firsts[q + 1] && j < f.firsts[q + 1]);
      forall k | i < k <= j ensures k !in f.firsts {
        forall r | 0 <= r < |f.firsts| ensures f.firsts[r] != k {
          if r < q { FirstsAscend(f, pause, r, q); }
          if q + 1 < r { FirstsAscend(f, pause, q + 1, r); }
        }
      }
    } else {
      assert p + 1 < |f.firsts| && f.firsts[p + 1] in f.firsts && i < f.firsts[p + 1] <= j;
    }
  }

  lemma PieceCount(f: Layout, pause: nat)
    requires Laid(f, pause)
    ensures |f.firsts| > 0
  {
    hide Placed;
  }

  /** The sender's clock without its wrap-around, from packet i to packet j. */
  ghost predicate Unwraps(times: seq<int>, log: seq<Heard>, i: nat, j: nat) {
    && |times| == |log| && i <= j < |log|
    && (forall k :: i <= k <= j ==> times[k] % 0x1_0000_0000 == log[k].timestamp % 0x1_0000_0000)
    && forall k :: i < k <= j ==> 0 < times[k] - times[k - 1] < 0x8000_0000
  }

  /** No packet from i to j starts before the one before it ends. */
  ghost predicate NoOverlap(times: seq<int>, log: seq<Heard>, i: nat, j: nat)
    requires |times| == |log| && i <= j < |log|
  {
    forall k :: i < k <= j ==> times[k] - times[k - 1] >= log[k - 1].samples
  }

  /** Every hole between packet i and packet j is a whole number of 20 ms packets. */
  ghost predicate WholeHoles(times: seq<int>, log: seq<Heard>, i: nat, j: nat)
    requires |times| == |log| && i <= j < |log|
  {
    forall k :: i < k <= j ==> (times[k] - times[k - 1] - log[k - 1].samples) % 960 == 0
  }

  lemma StepIsDifference(a: int, b: int, x: nat, y: nat)
    requires a % 0x1_0000_0000 == x % 0x1_0000_0000 && b % 0x1_0000_0000 == y % 0x1_0000_0000
    requires 0 < b - a < 0x8000_0000
    ensures (y - x) % 0x1_0000_0000 == b - a
  {
    var m := 0x1_0000_0000;
    var qa, qb, qx, qy := a / m, b / m, x / m, y / m;
    assert y - x == (b - a) + m * (qy - qb - qx + qa);
    ModUnique(b - a, qy - qb - qx + qa);
  }

  lemma ModUnique(r: int, q: int)
    requires 0 <= r < 0x1_0000_0000
    ensures (r + 0x1_0000_0000 * q) % 0x1_0000_0000 == r
  {}

  lemma UnwrapsRange(times: seq<int>, log: seq<Heard>, i: nat, j: nat)
    requires Unwraps(times, log, i, j)
    ensures |times| == |log| && i <= j < |log|
  {}

  lemma {:induction false} LagSum(f: Layout, pause: nat, times: seq<int>, i: nat, j: nat)
    requires Laid(f, pause) && Unwraps(times, f.log, i, j) && NoOverlap(times, f.log, i, j)
    requires forall k :: i < k <= j ==> k !in f.firsts
    ensures |f.at| == |f.log| && f.at[i] < |f.slots| && f.at[j] < |f.slots|
    ensures var lag := (times[j] - times[i]) - (StartOf(f, j) - StartOf(f, i));
            0 <= lag <= 959 * (j - i) && (lag == 0 <==> WholeHoles(times, f.log, i, j))
    decreases j
  {
    hide Laid, SlotsTotal;
    LogPlaced(f, pause);
    if i < j {
      LagSum(f, pause, times, i, j - 1);
      StepOf(f, pause, j);
      StepIsDifference(times[j - 1], times[j], f.log[j - 1].timestamp, f.log[j].timestamp);
    }
  }

  /**
   Inside one piece the file keeps the sender's time: a later packet is behind it by less than 20 ms for every step, and
   not at all exactly when every hole was whole packets.
   */
  lemma FollowsSender(f: Layout, pause: nat, times: seq<int>, i: nat, j: nat)
    requires Laid(f, pause) && Unwraps(times, f.log, i, j) && NoOverlap(times, f.log, i, j) && SamePiece(f, i, j)
    ensures |f.at| == |f.log| && f.at[i] < |f.slots| && f.at[j] < |f.slots|
    ensures var lag := (times[j] - times[i]) - (StartOf(f, j) - StartOf(f, i));
            0 <= lag <= 959 * (j - i) && (lag == 0 <==> WholeHoles(times, f.log, i, j))
  {
    hide *;
    UnwrapsRange(times, f.log, i, j);
    SamePieceIff(f, pause, i, j);
    LagSum(f, pause, times, i, j);
  }
}
