/** What packets of 2.5 ms do to times in milliseconds (ttsbot/recording/recorder.py, ttsbot/archive/mix.py). */
module Rounding {
  import opened Bytes
  import opened OpusPacket
  import opened OggIndex
  import opened Recorder
  import opened Mix
  import opened Conservation
  import opened MixPlan

  /** One CELT frame of 2.5 ms. */
  const BRIEF: bytes := [128]

  lemma BriefLasts()
    ensures Playable(BRIEF) && Samples(BRIEF) == 120 && BRIEF != OPUS_SILENCE
  {}

  // ---- A piece looked up one packet late

  lemma {:induction false} SilenceLasts(slots: seq<Slot>, n: nat)
    ensures SlotsTotal(slots + Silence(n)) == SlotsTotal(slots) + 960 * n
  {
    if n == 0 {
      assert slots + Silence(0) == slots;
    } else {
      SilenceLasts(slots, n - 1);
      TotalPush(slots + Silence(n - 1), Filler);
      assert slots + Silence(n) == slots + Silence(n - 1) + [Filler];
    }
  }

  /**
   A packet of 2.5 ms, a pause of 600 ms, another piece: it starts at 602.5 ms, its offset says 603, and looking that
   up finds the packet after its first one.
   */
  lemma HalfMisses() returns (f: Layout, c: Chunk)
    ensures ClosedOk(f, c, 28_800) && Measured(f.log) && |c.pieces| == |f.firsts| == 2
    ensures f.firsts[1] < |f.at| && f.at[f.firsts[1]] == 31 && c.pieces[1].offset == 603
    ensures FirstAt(FilePackets(c.slots), 48 * c.pieces[1].offset) == 32
  {
    var a, b := Heard(0, BRIEF, 120, 1000.0), Heard(60_000, BRIEF, 120, 1001.25);
    f := BriefLayout(a, b);
    c := Chunk(f.slots, f.pieces, RoundWall(1000.0), RoundWall(1001.25 + 120.0 / 48000.0), RoundMs(SlotsTotal(f.slots)), 2);
    hide Laid, SlotsTotal, FirstAt, Measured;
    BriefMeasured(a, b);
    assert f.slots[..31] == c.slots[..31];
    PieceOffsetExact(f, c, 28_800, 1);
  }

  lemma BriefMeasured(a: Heard, b: Heard)
    requires a.opus == b.opus == BRIEF && a.samples == b.samples == 120
    ensures Measured([a, b])
  {
    BriefLasts();
    hide Playable, Samples;
  }

  /** Two such packets, 30 packets of pause apart. */
  lemma BriefLayout(a: Heard, b: Heard) returns (f: Layout)
    requires a == Heard(0, BRIEF, 120, 1000.0) && b == Heard(60_000, BRIEF, 120, 1001.25)
    ensures Laid(f, 28_800) && |f.slots| == 32 && f.log == [a, b] && f.at == [0, 31] && f.firsts == [0, 1]
    ensures SlotsTotal(f.slots[..31]) == 28_920 && |f.pieces| == 2 && f.pieces[1].offset == 603
  {
    hide Laid, StartsPiece, FillerBetween, SlotsTotal, RoundMs, RoundWall, Silence;
    var first := FirstLayout(a);
    var filled := first.slots + Silence(30);
    BriefPause(a, b);
    BriefTotal(a);
    FirstLaid(a, 28_800);
    ExtendLaid(first, b, 28_800);
    f := Extend(first, b, 28_800);
    assert f.slots == filled + [Speech(b)];
    assert |filled| == 31 && f.slots[..31] == filled;
  }

  lemma BriefPause(a: Heard, b: Heard)
    requires a == Heard(0, BRIEF, 120, 1000.0) && b == Heard(60_000, BRIEF, 120, 1001.25)
    ensures StartsPiece(a, b, 28_800) && FillerBetween(a, b, 28_800) == 30
  {
    assert Gap(a, b) == 59_880;
  }

  lemma BriefTotal(a: Heard)
    requires a.samples == 120
    ensures SlotsTotal([Speech(a)] + Silence(30)) == 28_920 && RoundMs(28_920) == 603
  {
    var one := [Speech(a)];
    assert one[..0] == [] && SlotsTotal(one) == 120;
    SilenceLasts(one, 30);
  }

  // ---- A plan whose pieces overlap, and a position that steps back

  lemma PlaceBrief(b: Built, item: Item, lib: Library)
    requires item.file in lib && lib[item.file] == [BRIEF] && item.offset == 0 && item.following.None?
    ensures var r := Place(b, item, lib, 0);
            && r == Built(b.slots + [Copied(item.file, 0)],
                          b.pieces + [MixPiece(item.user, item.file, 0, item.wall, RoundMs(MixTotal(b.slots, lib)), 3)])
            && MixTotal(r.slots, lib) == MixTotal(b.slots, lib) + 120
  {
    BriefLasts();
    var packets := lib[item.file];
    FirstAtZero(packets);
    assert packets[..0] == [] && packets[0] == BRIEF;
    hide Playable, Samples, FirstAt;
    assert Trim(packets, 0, 1) == 1;
    assert Copies(item.file, packets, 0, 0) == [] && Copies(item.file, packets, 0, 1) == [] + [Copied(item.file, 0)];
    var none: seq<MixSlot>, copy := [], Copied(item.file, 0);
    assert Picks(item, lib) == none + [copy];
    MixTotalPush(none, copy, lib);
    MixTotalPush(b.slots, copy, lib);
    assert b.slots + PauseSlots(0) == b.slots && none + [copy] == [copy];
  }

  /** Items already in order stay as they are. */
  lemma {:induction false} SortStays(items: seq<Item>)
    requires forall i, j :: 0 <= i < j < |items| ==> !Precedes(items[j], items[i])
    ensures SortItems(items) == items
  {
    hide Precedes;
    if items != [] {
      var front, last := items[..|items| - 1], items[|items| - 1];
      SortStays(front);
      InsertAtEnd(last, front);
      assert items == front + [last];
    }
  }

  lemma {:induction false} InsertAtEnd(x: Item, s: seq<Item>)
    requires forall i :: 0 <= i < |s| ==> !Precedes(x, s[i])
    ensures InsertItem(x, s) == s + [x]
  {
    hide Precedes;
    if s != [] {
      InsertAtEnd(x, s[1..]);
      assert s == [s[0]] + s[1..];
    }
  }

  function OnePiece(file: nat, wall: int): Source { Source(1, file, true, [Piece(0, wall)]) }

  lemma OneItem(file: nat, wall: int)
    ensures ItemsFrom(OnePiece(file, wall), ByOffset(OnePiece(file, wall).pieces), 0) == [Item(wall, 1, file, 0, None)]
  {
    var one := [Piece(0, wall)];
    var none := one[..0];
    assert none == [] && ByOffset(one) == one;
  }

  lemma {:induction false} ThreeItems(a: Source, b: Source, c: Source, x: Item, y: Item, z: Item)
    requires a.hasAudio && ItemsFrom(a, ByOffset(a.pieces), 0) == [x]
    requires b.hasAudio && ItemsFrom(b, ByOffset(b.pieces), 0) == [y]
    requires c.hasAudio && ItemsFrom(c, ByOffset(c.pieces), 0) == [z]
    ensures AllItems([a, b, c]) == [x, y, z]
  {
    hide ItemsFrom, ByOffset;
    var all := [a, b, c];
    assert all[1..] == [b, c] && all[1..][1..] == [c] && all[1..][1..][1..] == [];
    assert AllItems([c]) == [z] + AllItems([]);
    assert AllItems([b, c]) == [y] + AllItems([c]);
    assert AllItems(all) == [x] + AllItems([b, c]);
  }

  /**
   Three speakers say 2.5 ms each, without a gap: the second piece ends at 6 ms and the third starts at 5, so the
   position steps back as the clock goes on.
   */
  lemma StepsBack() returns (sources: seq<Source>, lib: Library)
    ensures DistinctFiles(sources)
    ensures var plan := MixOf(SortItems(AllItems(sources)), lib, 0).pieces;
            && plan == [MixPiece(1, 0, 0, 0, 0, 3), MixPiece(1, 1, 0, 10, 3, 3), MixPiece(1, 2, 0, 13, 5, 3)]
            && !PlanOk(plan) && PositionAt(plan, 12.9) == Some(6) && PositionAt(plan, 13.0) == Some(5)
  {
    sources := [OnePiece(0, 0), OnePiece(1, 10), OnePiece(2, 13)];
    lib := map[0 := [BRIEF], 1 := [BRIEF], 2 := [BRIEF]];
    assert DistinctFiles(sources) && forall f :: 0 <= f < 3 ==> f in lib && lib[f] == [BRIEF];
    hide DistinctFiles;
    var x, y, z := Item(0, 1, 0, 0, None), Item(10, 1, 1, 0, None), Item(13, 1, 2, 0, None);
    OneItem(0, 0);
    OneItem(1, 10);
    OneItem(2, 13);
    hide ItemsFrom, ByOffset, MixOf, SortItems, AllItems, PositionAt, PlanOk;
    ThreeItems(sources[0], sources[1], sources[2], x, y, z);
    InOrder(x, y, z);
    ThreePlaced(x, y, z, lib);
    StepBackAt([MixPiece(1, 0, 0, 0, 0, 3), MixPiece(1, 1, 0, 10, 3, 3), MixPiece(1, 2, 0, 13, 5, 3)]);
  }

  lemma InOrder(x: Item, y: Item, z: Item)
    requires x.wall < y.wall < z.wall
    ensures SortItems([x, y, z]) == [x, y, z]
  {
    SortStays([x, y, z]);
  }

  lemma ThreePlaced(x: Item, y: Item, z: Item, lib: Library)
    requires x == Item(0, 1, 0, 0, None) && y == Item(10, 1, 1, 0, None) && z == Item(13, 1, 2, 0, None)
    requires forall f :: 0 <= f < 3 ==> f in lib && lib[f] == [BRIEF]
    ensures MixOf([x, y, z], lib, 0).pieces
         == [MixPiece(1, 0, 0, 0, 0, 3), MixPiece(1, 1, 0, 10, 3, 3), MixPiece(1, 2, 0, 13, 5, 3)]
  {
    hide Place, MixTotal;
    var order := [x, y, z];
    assert order[..2] == [x, y] && order[..2][..1] == [x] && order[..2][..1][..0] == [];
    var b0 := MixOf([], lib, 0);
    var b1, b2 := Place(b0, x, lib, 0), Place(Place(b0, x, lib, 0), y, lib, 0);
    assert MixOf([x], lib, 0) == b1 && MixOf([x, y], lib, 0) == b2 && MixOf(order, lib, 0) == Place(b2, z, lib, 0);
    NoSlots(lib);
    PlaceBrief(b0, x, lib);
    PlaceBrief(b1, y, lib);
    PlaceBrief(b2, z, lib);
  }

  lemma StepBackAt(plan: seq<MixPiece>)
    requires plan == [MixPiece(1, 0, 0, 0, 0, 3), MixPiece(1, 1, 0, 10, 3, 3), MixPiece(1, 2, 0, 13, 5, 3)]
    ensures !PlanOk(plan) && PositionAt(plan, 12.9) == Some(6) && PositionAt(plan, 13.0) == Some(5)
  {
    hide PositionAt, Begun;
    assert plan[1].start + plan[1].duration > plan[2].start;
    PositionIsLinear(plan, 12.9);
    PositionIsLinear(plan, 13.0);
    BegunIs(plan, 12.9, 2);
    BegunIs(plan, 13.0, 3);
  }
}
