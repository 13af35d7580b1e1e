/** ChannelRecorder._write and the chunk files it fills (ttsbot/recording/recorder.py). */
module Recorder {
  import opened Bytes
  import opened OpusPacket
  import Reorder
  import OggWriter

  const CLOCK_RESTART_SAMPLES := 480_000

  /** A packet let through to the file: its RTP timestamp, bytes, duration and wall time. */
  datatype Heard = Heard(timestamp: nat, opus: bytes, samples: nat, wall: real)

  /** A packet of the file: one that was heard, or silence the recorder put in. */
  datatype Slot = Speech(heard: Heard) | Filler

  /** Where a piece starts in its file and when it was said, both in milliseconds. */
  datatype Piece = Piece(offset: nat, wall: int)

  function SlotSamples(s: Slot): nat { if s.Filler? then 960 else s.heard.samples }

  function SlotPacket(s: Slot): bytes { if s.Filler? then OPUS_SILENCE else s.heard.opus }

  function SlotsTotal(slots: seq<Slot>): nat {
    if slots == [] then 0 else SlotsTotal(slots[..|slots| - 1]) + SlotSamples(slots[|slots| - 1])
  }

  /** round(samples / 48000, 3), in milliseconds. */
  function RoundMs(samples: nat): nat { (samples + 24) / 48 }

  /** round(seconds, 3), in milliseconds. */
  function RoundWall(seconds: real): int { (seconds * 1000.0 + 0.5).Floor }

  /** Both are the nearest millisecond, halves rounded up. */
  lemma RoundsToNearest(samples: nat, seconds: real)
    ensures 48 * RoundMs(samples) - 24 <= samples < 48 * RoundMs(samples) + 24
    ensures RoundWall(seconds) as real - 0.5 <= 1000.0 * seconds < RoundWall(seconds) as real + 0.5
  {}

  // ---- What two packets in a row mean

  function Delta(prev: Heard, next: Heard): nat { (next.timestamp - prev.timestamp) % Reorder.CLOCK }

  /** Not ahead of the other packet, by the clock. */
  predicate Behind(prev: Heard, next: Heard) { Delta(prev, next) == 0 || Delta(prev, next) >= 0x8000_0000 }

  function HowFarBehind(prev: Heard, next: Heard): nat {
    if Delta(prev, next) == 0 then 0 else Reorder.CLOCK - Delta(prev, next)
  }

  /** Dropped: behind, and neither far behind nor after a pause. */
  predicate Stale(prev: Heard, next: Heard) {
    Behind(prev, next) &&
    (next.wall - prev.wall <= Reorder.SENDER_PAUSE_SECONDS || HowFarBehind(prev, next) < CLOCK_RESTART_SAMPLES)
  }

  /** Samples missing between the two; a restarted clock has no gap. */
  function Gap(prev: Heard, next: Heard): nat {
    if Behind(prev, next) || Delta(prev, next) < prev.samples then 0 else Delta(prev, next) - prev.samples
  }

  function WallGap(prev: Heard, next: Heard, pause: nat): real {
    next.wall - prev.wall - (prev.samples + pause) as real / 48000.0
  }

  /** The clock restarted, or the gap is longer than a pause by either clock. */
  predicate StartsPiece(prev: Heard, next: Heard, pause: nat) {
    Behind(prev, next) || Gap(prev, next) > pause || WallGap(prev, next, pause) > 0.2
  }

  /** Silence packets put between the two in one file. */
  function FillerBetween(prev: Heard, next: Heard, pause: nat): nat {
    (if StartsPiece(prev, next, pause) then pause else Gap(prev, next)) / 960
  }

  // ---- What a file must be

  /** A file with its history: the packets heard, where each is, and which of them start a piece. */
  datatype Layout = Layout(slots: seq<Slot>, pieces: seq<Piece>, log: seq<Heard>, at: seq<nat>, firsts: seq<nat>)

  /**
   The file is the accepted packets in order, each as far after the one before as FillerBetween says, and
   nothing else; a piece starts at the first packet and exactly where StartsPiece holds.
   */
  ghost predicate Laid(f: Layout, pause: nat) {
    Placed(f.slots, f.log, f.at, pause) && Marks(f, pause)
  }

  ghost predicate Marks(f: Layout, pause: nat)
    requires Placed(f.slots, f.log, f.at, pause)
  {
    && FirstsRight(f.log, f.firsts, pause)
    && f.pieces == PiecesOf(f.slots, f.log, f.at, f.firsts)
  }

  /** The pieces that start at these packets of the log: where each is in the file, and when it was said. */
  ghost function PiecesOf(slots: seq<Slot>, log: seq<Heard>, at: seq<nat>, firsts: seq<nat>): (r: seq<Piece>)
    requires |at| == |log| && forall i :: 0 <= i < |at| ==> at[i] < |slots|
    requires forall j :: 0 <= j < |firsts| ==> firsts[j] < |log|
    ensures |r| == |firsts|
  {
    seq(|firsts|, j requires 0 <= j < |firsts| => PieceOf(slots, at[firsts[j]], log[firsts[j]]))
  }

  function FirstLayout(h: Heard): Layout {
    Layout([Speech(h)], [Piece(0, RoundWall(h.wall))], [h], [0], [0])
  }

  function Silence(n: nat): (r: seq<Slot>)
    ensures |r| == n
  {
    seq(n, _ => Filler)
  }

  /** The next packet of the same file. */
  function Extend(f: Layout, h: Heard, pause: nat): Layout
    requires f.log != []
  {
    var prev := f.log[|f.log| - 1];
    var filled := f.slots + Silence(FillerBetween(prev, h, pause));
    var starts := StartsPiece(prev, h, pause);
    Layout(filled + [Speech(h)],
           if starts then f.pieces + [Piece(RoundMs(SlotsTotal(filled)), RoundWall(h.wall))] else f.pieces,
           f.log + [h], f.at + [|filled|], if starts then f.firsts + [|f.log|] else f.firsts)
  }

  lemma FirstLaid(h: Heard, pause: nat)
    ensures Laid(FirstLayout(h), pause)
  {
    assert FirstLayout(h).slots[..0] == [];
  }

  /** Where the heard packets are, and that the rest is filler. */
  ghost predicate Placed(slots: seq<Slot>, log: seq<Heard>, at: seq<nat>, pause: nat) {
    && |at| == |log| > 0 && at[0] == 0 && |slots| == at[|at| - 1] + 1
    && (forall i :: 0 <= i < |at| ==> at[i] < |slots| && slots[at[i]] == Speech(log[i]))
    && (forall i :: 0 < i < |at| ==> at[i] == at[i - 1] + 1 + FillerBetween(log[i - 1], log[i], pause))
    && forall k :: 0 <= k < |slots| && k !in at ==> slots[k] == Filler
  }

  lemma PlacedExtends(slots: seq<Slot>, log: seq<Heard>, at: seq<nat>, h: Heard, n: nat, pause: nat)
    requires Placed(slots, log, at, pause) && n == FillerBetween(log[|log| - 1], h, pause)
    ensures Placed(slots + Silence(n) + [Speech(h)], log + [h], at + [|slots| + n], pause)
  {
    hide FillerBetween;
    var slots', at' := slots + Silence(n) + [Speech(h)], at + [|slots| + n];
    forall k | 0 <= k < |slots'| && k !in at' ensures slots'[k] == Filler {
      if k < |slots| {
        assert k !in at;
      } else {
        assert k != |slots| + n;
      }
    }
    forall i | 0 < i < |at'|
      ensures at'[i] == at'[i - 1] + 1 + FillerBetween((log + [h])[i - 1], (log + [h])[i], pause)
    {
      if i < |at| { assert (log + [h])[i] == log[i] && (log + [h])[i - 1] == log[i - 1]; }
    }
  }

  lemma ExtendLaid(f: Layout, h: Heard, pause: nat)
    requires Laid(f, pause)
    ensures Laid(Extend(f, h, pause), pause)
  {
    hide StartsPiece, FillerBetween, Marks;
    PlacedExtends(f.slots, f.log, f.at, h, FillerBetween(f.log[|f.log| - 1], h, pause), pause);
    hide Placed;
    ExtendMarks(f, h, pause);
  }

  ghost predicate FirstsRight(log: seq<Heard>, firsts: seq<nat>, pause: nat) {
    && |firsts| > 0 && firsts[0] == 0
    && (forall j :: 0 < j < |firsts| ==> firsts[j - 1] < firsts[j])
    && (forall j :: 0 <= j < |firsts| ==> firsts[j] < |log|)
    && (forall i :: 0 < i < |log| ==> (i in firsts <==> StartsPiece(log[i - 1], log[i], pause)))
  }

  lemma FirstsExtend(log: seq<Heard>, firsts: seq<nat>, h: Heard, pause: nat)
    requires log != [] && FirstsRight(log, firsts, pause)
    ensures FirstsRight(log + [h], if StartsPiece(log[|log| - 1], h, pause) then firsts + [|log|] else firsts, pause)
  {
    hide StartsPiece;
    var log', firsts' := log + [h], if StartsPiece(log[|log| - 1], h, pause) then firsts + [|log|] else firsts;
    assert |log| !in firsts;
    forall i | 0 < i < |log'| ensures i in firsts' <==> StartsPiece(log'[i - 1], log'[i], pause) {
      assert log'[i - 1] == log[i - 1];
      if i < |log| { assert log'[i] == log[i]; }
    }
  }

  ghost function PieceOf(slots: seq<Slot>, position: nat, h: Heard): Piece
    requires position <= |slots|
  {
    Piece(RoundMs(SlotsTotal(slots[..position])), RoundWall(h.wall))
  }

  lemma PieceStable(slots: seq<Slot>, more: seq<Slot>, position: nat, h: Heard)
    requires position <= |slots|
    ensures PieceOf(slots + more, position, h) == PieceOf(slots, position, h)
  {
    assert (slots + more)[..position] == slots[..position];
  }

  lemma PiecesStable(slots: seq<Slot>, log: seq<Heard>, at: seq<nat>, firsts: seq<nat>, more: seq<Slot>, h: Heard, k: nat)
    requires |at| == |log| && forall i :: 0 <= i < |at| ==> at[i] < |slots|
    requires forall j :: 0 <= j < |firsts| ==> firsts[j] < |log|
    requires k < |slots + more|
    ensures PiecesOf(slots + more, log + [h], at + [k], firsts) == PiecesOf(slots, log, at, firsts)
  {
    hide PieceOf;
    forall j | 0 <= j < |firsts|
      ensures PieceOf(slots + more, (at + [k])[firsts[j]], (log + [h])[firsts[j]]) == PieceOf(slots, at[firsts[j]], log[firsts[j]])
    {
      PieceStable(slots, more, at[firsts[j]], log[firsts[j]]);
    }
  }

  lemma PlacedBounds(slots: seq<Slot>, log: seq<Heard>, at: seq<nat>, pause: nat)
    requires Placed(slots, log, at, pause)
    ensures |at| == |log| > 0 && forall i :: 0 <= i < |at| ==> at[i] < |slots|
  {}

  lemma ExtendMarks(f: Layout, h: Heard, pause: nat)
    requires Laid(f, pause)
    requires var g := Extend(f, h, pause); Placed(g.slots, g.log, g.at, pause)
    ensures Marks(Extend(f, h, pause), pause)
  {
    hide StartsPiece, FillerBetween, Placed, SlotsTotal, RoundMs, RoundWall;
    PlacedBounds(f.slots, f.log, f.at, pause);
    var g := Extend(f, h, pause);
    var n, old' := |f.log|, f.slots;
    var silence := Silence(FillerBetween(f.log[n - 1], h, pause));
    var filled := old' + silence;
    FirstsExtend(f.log, f.firsts, h, pause);
    PiecesStable(old', f.log, f.at, f.firsts, silence + [Speech(h)], h, |filled|);
    JoinThree(old', silence, [Speech(h)]);
    assert filled[..|filled|] == filled && g.slots[..|filled|] == filled;
    if StartsPiece(f.log[n - 1], h, pause) {
      PiecesPush(g.slots, g.log, g.at, f.firsts, n);
    }
  }

  lemma PiecesPush(slots: seq<Slot>, log: seq<Heard>, at: seq<nat>, firsts: seq<nat>, n: nat)
    requires |at| == |log| && n < |log| && forall i :: 0 <= i < |at| ==> at[i] < |slots|
    requires forall j :: 0 <= j < |firsts| ==> firsts[j] < |log|
    ensures PiecesOf(slots, log, at, firsts + [n]) == PiecesOf(slots, log, at, firsts) + [PieceOf(slots, at[n], log[n])]
  {
    hide PieceOf;
  }

  // ---- The class

  /** A line of chunks.jsonl, with the packets of its file. Times in milliseconds. */
  datatype Chunk = Chunk(slots: seq<Slot>, pieces: seq<Piece>, startedAt: int, endedAt: int, audio: nat, packets: nat)

  /** What an open chunk's fields say of its history. */
  ghost predicate OpenOk(file: Layout, slots: seq<Slot>, pieces: seq<Piece>, samples: nat, last: Heard, startedAt: real,
                         packets: nat, pause: nat)
  {
    && file.log != [] && Laid(file, pause) && file.slots == slots && file.pieces == pieces && samples == SlotsTotal(slots)
    && last == file.log[|file.log| - 1].(opus := []) && startedAt == file.log[0].wall && packets == |file.log|
  }

  ghost predicate ChunksOk(done: seq<Layout>, closed: seq<Chunk>, pause: nat) {
    |done| == |closed| && forall i :: 0 <= i < |done| ==> ClosedOk(done[i], closed[i], pause)
  }

  lemma ChunksPush(done: seq<Layout>, closed: seq<Chunk>, f: Layout, c: Chunk, pause: nat)
    requires ChunksOk(done, closed, pause) && ClosedOk(f, c, pause)
    ensures ChunksOk(done + [f], closed + [c], pause)
  {
    hide ClosedOk;
  }

  /** The manifest line made from the fields. */
  lemma ClosesOk(file: Layout, slots: seq<Slot>, pieces: seq<Piece>, samples: nat, last: Heard, startedAt: real, packets: nat,
                 pause: nat)
    requires OpenOk(file, slots, pieces, samples, last, startedAt, packets, pause)
    ensures var pad := |slots| % OggWriter.PACKETS_PER_PAGE == 0;
            ClosedOk(file, Chunk(if pad then slots + [Filler] else slots, pieces, RoundWall(startedAt),
                                 RoundWall(last.wall + last.samples as real / 48000.0),
                                 RoundMs(if pad then samples + 960 else samples), packets), pause)
  {
    hide Laid, RoundWall, RoundMs;
    TotalPush(slots, Filler);
  }

  lemma FirstOpen(h: Heard, pause: nat)
    ensures OpenOk(FirstLayout(h), [Speech(h)], [Piece(0, RoundWall(h.wall))], h.samples, h.(opus := []), h.wall, 1, pause)
  {
    hide Laid, RoundWall;
    FirstLaid(h, pause);
    var slots := [Speech(h)];
    assert slots[..0] == [] && SlotsTotal(slots) == SlotsTotal(slots[..0]) + h.samples;
  }

  lemma OpenTotal(file: Layout, slots: seq<Slot>, pieces: seq<Piece>, samples: nat, last: Heard, startedAt: real, packets: nat,
                  pause: nat)
    requires OpenOk(file, slots, pieces, samples, last, startedAt, packets, pause)
    ensures file.log != [] && samples == SlotsTotal(slots)
  {}

  /** The fields after one more packet of the same file. */
  lemma NextOpen(file: Layout, slots: seq<Slot>, pieces: seq<Piece>, samples: nat, last: Heard, startedAt: real, packets: nat,
                 h: Heard, pause: nat)
    requires OpenOk(file, slots, pieces, samples, last, startedAt, packets, pause)
    ensures var starts := StartsPiece(last, h, pause);
            var filled := slots + Silence((if starts then pause else Gap(last, h)) / 960);
            && Extend(file, h, pause).log == file.log + [h]
            && OpenOk(Extend(file, h, pause), filled + [Speech(h)],
                      pieces + (if starts then [Piece(RoundMs(SlotsTotal(filled)), RoundWall(h.wall))] else []),
                      SlotsTotal(filled) + h.samples, h.(opus := []), startedAt, packets + 1, pause)
  {
    hide Laid, StartsPiece, Gap, SlotsTotal, RoundMs, RoundWall, Silence, Extend;
    NextLayout(file, last, h, pause);
    TotalPush(slots + Silence((if StartsPiece(last, h, pause) then pause else Gap(last, h)) / 960), Speech(h));
  }

  class ChunkTrack {
    const pause: nat // samples
    const chunkSeconds: real
    var writing: bool
    var slots: seq<Slot> // what the open writer was given
    var samples: nat
    var pieces: seq<Piece>
    var lastTimestamp: nat
    var lastSamples: nat
    var lastWall: real
    var startedAt: real
    var packets: nat
    var late: nat
    var closed: seq<Chunk>
    ghost var file: Layout
    ghost var done: seq<Layout> // one for each closed chunk

    ghost predicate Valid()
      reads this
    {
      (writing ==> OpenOk(file, slots, pieces, samples, Last(), startedAt, packets, pause)) && ChunksOk(done, closed, pause)
    }

    /** The fields kept of the last packet written. */
    ghost function Last(): Heard
      reads this
    {
      Heard(lastTimestamp, [], lastSamples, lastWall)
    }

    /** Every packet written to any file of this track, in order. */
    ghost function Log(): seq<Heard>
      reads this
    {
      LogOf(done) + if writing then file.log else []
    }

    constructor (pauseMs: nat, seconds: real)
      ensures Valid() && Log() == [] && !writing && pause == pauseMs * 48 && chunkSeconds == seconds
    {
      pause, chunkSeconds := pauseMs * 48, seconds;
      writing, slots, samples, pieces, late, closed := false, [], 0, [], 0, [];
      lastTimestamp, lastSamples, lastWall, startedAt, packets := 0, 0, 0.0, 0.0, 0;
      file, done := Layout([], [], [], [], []), [];
    }

    /** writer.close: the end-of-stream page needs a packet when none is waiting. */
    method CloseChunk()
      requires Valid()
      modifies this
      ensures Valid() && !writing && Log() == old(Log()) && late == old(late)
      ensures if old(writing) then |closed| == |old(closed)| + 1 && closed[..|old(closed)|] == old(closed)
              else closed == old(closed)
      ensures done == old(done) + if old(writing) then [old(file)] else []
    {
      hide Laid, OpenOk, ClosedOk, ChunksOk, LogOf, RoundWall, RoundMs;
      assert done + [] == done;
      if !writing { return; }
      writing := false;
      var pad := |slots| % OggWriter.PACKETS_PER_PAGE == 0;
      ClosesOk(file, slots, pieces, samples, Last(), startedAt, packets, pause);
      ghost var before := closed;
      closed := closed + [Chunk(if pad then slots + [Filler] else slots, pieces, RoundWall(startedAt),
                                RoundWall(lastWall + lastSamples as real / 48000.0),
                                RoundMs(if pad then samples + 960 else samples), packets)];
      LogOfAppend(done, file);
      ChunksPush(done, before, file, closed[|before|], pause);
      done := done + [file];
    }

    method WriteSilence(amount: nat)
      modifies `slots, `samples
      ensures slots == old(slots) + Silence(amount / 960)
      ensures old(samples) == SlotsTotal(old(slots)) ==> samples == SlotsTotal(slots)
    {
      assert slots + Silence(0) == slots;
      for i := 0 to amount / 960
        invariant slots == old(slots) + Silence(i)
        invariant old(samples) == SlotsTotal(old(slots)) ==> samples == SlotsTotal(slots)
      {
        assert Silence(i + 1) == Silence(i) + [Filler];
        TotalPush(slots, Filler);
        slots := slots + [Filler];
        samples := samples + 960;
      }
    }

    /** How a packet follows the last one written: dropped, starting a piece, or after a gap. */
    method Follows(h: Heard) returns (stale: bool, newPiece: bool, gap: nat)
      ensures stale == Stale(Last(), h)
      ensures !stale ==> newPiece == StartsPiece(Last(), h, pause) && gap == Gap(Last(), h)
    {
      var delta := (h.timestamp - lastTimestamp) % Reorder.CLOCK;
      var wallGap := h.wall - lastWall - (lastSamples + pause) as real / 48000.0;
      if delta == 0 || delta >= 0x8000_0000 {
        var behind := if delta == 0 then 0 else Reorder.CLOCK - delta;
        if h.wall - lastWall <= Reorder.SENDER_PAUSE_SECONDS || behind < CLOCK_RESTART_SAMPLES { return true, false, 0; }
        return false, true, 0;
      }
      gap := if delta < lastSamples then 0 else delta - lastSamples;
      return false, gap > pause || wallGap > 0.2, gap;
    }

    method Remember(h: Heard)
      modifies `lastTimestamp, `lastSamples, `lastWall
      ensures Last() == h.(opus := [])
    {
      lastWall, lastTimestamp, lastSamples := h.wall, h.timestamp, h.samples;
    }

    method OpenChunk(h: Heard)
      requires Valid() && !writing
      modifies `slots, `samples, `pieces, `lastTimestamp, `lastSamples, `lastWall, `startedAt, `packets, `writing, `file
      ensures Valid() && writing && file == FirstLayout(h) && Last() == h.(opus := [])
      ensures Log() == old(Log()) + [h]
    {
      hide OpenOk, ChunksOk, LogOf, RoundWall;
      FirstOpen(h, pause);
      slots, samples, pieces := [Speech(h)], h.samples, [Piece(0, RoundWall(h.wall))];
      Remember(h);
      startedAt, packets := h.wall, 1;
      writing, file := true, FirstLayout(h);
    }

    /** The silence before the next packet, and the piece it starts. */
    method FillBefore(h: Heard, newPiece: bool, gap: nat)
      requires samples == SlotsTotal(slots)
      modifies `slots, `samples, `pieces
      ensures slots == old(slots) + Silence((if newPiece then pause else gap) / 960) && samples == SlotsTotal(slots)
      ensures pieces == old(pieces) + if newPiece then [Piece(RoundMs(samples), RoundWall(h.wall))] else []
    {
      if newPiece {
        WriteSilence(pause);
        pieces := pieces + [Piece(RoundMs(samples), RoundWall(h.wall))];
      } else if gap > 0 {
        WriteSilence(gap);
      } else {
        assert slots + Silence(0) == slots;
      }
    }

    method AppendPacket(h: Heard, newPiece: bool, gap: nat)
      requires Valid() && writing && newPiece == StartsPiece(Last(), h, pause) && gap == Gap(Last(), h)
      modifies `slots, `samples, `pieces, `lastTimestamp, `lastSamples, `lastWall, `packets, `file
      ensures Valid() && file == Extend(old(file), h, pause) && Last() == h.(opus := [])
      ensures Log() == old(Log()) + [h]
    {
      hide OpenOk, ChunksOk, StartsPiece, Gap, LogOf, SlotsTotal, RoundMs, RoundWall, Silence, Extend;
      OpenTotal(file, slots, pieces, samples, Last(), startedAt, packets, pause);
      NextOpen(file, slots, pieces, samples, Last(), startedAt, packets, h, pause);
      ghost var next := Extend(file, h, pause);
      JoinThree(LogOf(done), file.log, [h]);
      FillBefore(h, newPiece, gap);
      slots := slots + [Speech(h)];
      samples := samples + h.samples;
      Remember(h);
      packets := packets + 1;
      file := next;
    }

    /** A stale packet is counted and dropped; any other is the next one of the log. */
    method Write(h: Heard)
      requires Valid()
      modifies this
      ensures Valid()
      ensures old(writing) && Stale(old(Last()), h) ==>
        late == old(late) + 1 && Log() == old(Log()) && closed == old(closed) && slots == old(slots)
      ensures !(old(writing) && Stale(old(Last()), h)) ==>
        && writing && late == old(late) && Log() == old(Log()) + [h] && Last() == h.(opus := [])
        && if !old(writing) then file == FirstLayout(h) && closed == old(closed)
           else if StartsPiece(old(Last()), h, pause) && old(samples) as real / 48000.0 >= chunkSeconds
           then file == FirstLayout(h) && |closed| == |old(closed)| + 1 && done == old(done) + [old(file)]
           else file == Extend(old(file), h, pause) && closed == old(closed) && done == old(done)
    {
      hide Laid, ClosedOk, StartsPiece, Stale, Gap, Extend, FirstLayout, LogOf, SlotsTotal;
      var stale, newPiece, gap := false, true, 0;
      if writing {
        stale, newPiece, gap := Follows(h);
        if stale {
          late := late + 1;
          return;
        }
      }
      if newPiece && writing && samples as real / 48000.0 >= chunkSeconds {
        CloseChunk();
      }
      if !writing {
        OpenChunk(h);
      } else {
        AppendPacket(h, newPiece, gap);
      }
    }
  }

  lemma TotalPush(slots: seq<Slot>, s: Slot)
    ensures SlotsTotal(slots + [s]) == SlotsTotal(slots) + SlotSamples(s)
  {
    assert (slots + [s])[..|slots|] == slots;
  }

  /** The next layout in terms of what the track remembers of the last packet. */
  lemma NextLayout(f: Layout, last: Heard, h: Heard, pause: nat)
    requires f.log != [] && last == f.log[|f.log| - 1].(opus := []) && Laid(f, pause)
    ensures var starts := StartsPiece(last, h, pause);
            var filled := f.slots + Silence((if starts then pause else Gap(last, h)) / 960);
            var next := Extend(f, h, pause);
            && Laid(next, pause) && next.log == f.log + [h] && next.slots == filled + [Speech(h)]
            && next.pieces == f.pieces + if starts then [Piece(RoundMs(SlotsTotal(filled)), RoundWall(h.wall))] else []
  {
    hide Laid, RoundMs, RoundWall, SlotsTotal, Silence;
    SameNeighbours(f, last, h, pause);
    ExtendLaid(f, h, pause);
  }

  lemma SameNeighbours(f: Layout, last: Heard, h: Heard, pause: nat)
    requires f.log != [] && last == f.log[|f.log| - 1].(opus := [])
    ensures var prev := f.log[|f.log| - 1];
            && StartsPiece(prev, h, pause) == StartsPiece(last, h, pause) && Gap(prev, h) == Gap(last, h)
            && FillerBetween(prev, h, pause) == (if StartsPiece(last, h, pause) then pause else Gap(last, h)) / 960
  {}

  /** A finished chunk: its packets and pieces, and the times and counts of its manifest line. */
  ghost predicate ClosedOk(f: Layout, c: Chunk, pause: nat) {
    && Laid(f, pause) && c.pieces == f.pieces
    && c.slots == (if |f.slots| % OggWriter.PACKETS_PER_PAGE == 0 then f.slots + [Filler] else f.slots)
    && LineOk(f, c)
  }

  ghost predicate LineOk(f: Layout, c: Chunk) {
    && f.log != [] && c.packets == |f.log| && c.audio == RoundMs(SlotsTotal(c.slots))
    && c.startedAt == RoundWall(f.log[0].wall)
    && var last := f.log[|f.log| - 1]; c.endedAt == RoundWall(last.wall + last.samples as real / 48000.0)
  }

  ghost function LogOf(files: seq<Layout>): seq<Heard> {
    if files == [] then [] else LogOf(files[..|files| - 1]) + files[|files| - 1].log
  }

  lemma LogOfAppend(files: seq<Layout>, f: Layout)
    ensures LogOf(files + [f]) == LogOf(files) + f.log
  {
    assert (files + [f])[..|files|] == files;
  }
}
