/** From the recorder's chunk files to the session mix: where every packet and every piece ends up. */
module Conservation {
  import opened Bytes
  import opened OpusPacket
  import opened OggIndex
  import opened OggWriter
  import opened OggPage
  import opened OggFiles
  import OggCrash
  import opened Recorder
  import opened Mix

  // ---- The layout of the mix

  /** The items that have something to copy, in the order they are placed. */
  function AudibleOf(order: seq<Item>, lib: Library): seq<Item> {
    if order == [] then []
    else AudibleOf(order[..|order| - 1], lib) + if Audible(order[|order| - 1], lib) then [order[|order| - 1]] else []
  }

  function PieceFor(item: Item, lib: Library, start: nat): MixPiece
    requires item.file in lib
  {
    MixPiece(item.user, item.file, RoundMs(IndexTotal(lib[item.file][..First(item, lib[item.file])])), item.wall,
             RoundMs(start), RoundMs(MixTotal(Picks(item, lib), lib)))
  }

  /** One placed piece: its packets fill its span of the mix, its times are those of the span. */
  ghost predicate SpanOk(slots: seq<MixSlot>, lib: Library, item: Item, span: (nat, nat), piece: MixPiece) {
    && item.file in lib && span.0 <= span.1 <= |slots|
    && slots[span.0..span.1] == Picks(item, lib)
    && piece == PieceFor(item, lib, MixTotal(slots[..span.0], lib))
  }

  /** Two spans in a row are apart by exactly the gap's whole silence packets. */
  ghost predicate Apart(slots: seq<MixSlot>, gapMs: nat, a: (nat, nat), b: (nat, nat)) {
    a.1 + gapMs / 20 == b.0 <= |slots| && slots[a.1..b.0] == PauseSlots(gapMs)
  }

  /** Piece j of the plan is who[j], in spans[j] of the mix; the mix is the spans and the gaps between them. */
  ghost predicate LaidOut(b: Built, lib: Library, gapMs: nat, who: seq<Item>, spans: seq<(nat, nat)>) {
    && |spans| == |who| == |b.pieces|
    && (if |who| == 0 then b.slots == [] else spans[0].0 == 0 && spans[|who| - 1].1 == |b.slots|)
    && (forall j :: 0 <= j < |who| ==> SpanOk(b.slots, lib, who[j], spans[j], b.pieces[j]))
    && forall j :: 0 < j < |who| ==> Apart(b.slots, gapMs, spans[j - 1], spans[j])
  }

  lemma {:induction false} MixIsLaidOut(order: seq<Item>, lib: Library, gapMs: nat) returns (spans: seq<(nat, nat)>)
    ensures LaidOut(MixOf(order, lib, gapMs), lib, gapMs, AudibleOf(order, lib), spans)
  {
    hide MixTotal, PieceFor, First, RoundMs, Picks, SpanOk, Apart;
    if order == [] {
      spans := [];
    } else {
      var front, item := order[..|order| - 1], order[|order| - 1];
      spans := MixIsLaidOut(front, lib, gapMs);
      if Audible(item, lib) {
        spans := PlaceLaidOut(MixOf(front, lib, gapMs), item, lib, gapMs, AudibleOf(front, lib), spans);
      }
    }
  }

  lemma SpanStable(slots: seq<MixSlot>, more: seq<MixSlot>, lib: Library, item: Item, span: (nat, nat), piece: MixPiece)
    requires SpanOk(slots, lib, item, span, piece)
    ensures SpanOk(slots + more, lib, item, span, piece)
  {
    hide Picks, PieceFor, MixTotal;
    assert (slots + more)[span.0..span.1] == slots[span.0..span.1] && (slots + more)[..span.0] == slots[..span.0];
  }

  lemma ApartStable(slots: seq<MixSlot>, more: seq<MixSlot>, gapMs: nat, a: (nat, nat), b: (nat, nat))
    requires Apart(slots, gapMs, a, b)
    ensures Apart(slots + more, gapMs, a, b)
  {
    assert (slots + more)[a.1..b.0] == slots[a.1..b.0];
  }

  lemma PlaceLaidOut(b: Built, item: Item, lib: Library, gapMs: nat, who: seq<Item>, spans: seq<(nat, nat)>)
    returns (spans': seq<(nat, nat)>)
    requires LaidOut(b, lib, gapMs, who, spans) && Audible(item, lib)
    ensures LaidOut(Place(b, item, lib, gapMs), lib, gapMs, who + [item], spans')
  {
    hide MixTotal, First, Last, RoundMs, Picks, SpanOk, Apart;
    var c := Place(b, item, lib, gapMs);
    var spaced := if b.pieces == [] then b.slots else b.slots + PauseSlots(gapMs);
    var picks, piece := Picks(item, lib), PieceFor(item, lib, MixTotal(spaced, lib));
    assert c == Built(spaced + picks, b.pieces + [piece]);
    hide Place, PieceFor;
    spans' := spans + [(|spaced|, |c.slots|)];
    NewSpan(spaced, picks, lib, item, piece);
    var more := c.slots[|b.slots|..];
    assert c.slots == b.slots + more;
    forall j | 0 <= j < |who| ensures SpanOk(c.slots, lib, who[j], spans[j], b.pieces[j]) {
      SpanStable(b.slots, more, lib, who[j], spans[j], b.pieces[j]);
    }
    forall j | 0 < j < |who| ensures Apart(c.slots, gapMs, spans[j - 1], spans[j]) {
      ApartStable(b.slots, more, gapMs, spans[j - 1], spans[j]);
    }
    if |who| > 0 { NewGap(b.slots, picks, gapMs, spans[|who| - 1]); }
  }

  lemma NewSpan(spaced: seq<MixSlot>, picks: seq<MixSlot>, lib: Library, item: Item, piece: MixPiece)
    requires item.file in lib && picks == Picks(item, lib) && piece == PieceFor(item, lib, MixTotal(spaced, lib))
    ensures SpanOk(spaced + picks, lib, item, (|spaced|, |spaced + picks|), piece)
  {
    hide Picks, PieceFor, MixTotal;
    assert (spaced + picks)[..|spaced|] == spaced && (spaced + picks)[|spaced|..|spaced + picks|] == picks;
  }

  lemma NewGap(slots: seq<MixSlot>, picks: seq<MixSlot>, gapMs: nat, last: (nat, nat))
    requires last.1 == |slots|
    ensures var spaced := slots + PauseSlots(gapMs);
            Apart(spaced + picks, gapMs, last, (|spaced|, |spaced + picks|))
  {
    var spaced := slots + PauseSlots(gapMs);
    assert (spaced + picks)[|slots|..|spaced|] == PauseSlots(gapMs);
  }

  lemma {:induction false} AudibleOrdered(order: seq<Item>, lib: Library)
    requires WallOrdered(order)
    ensures WallOrdered(AudibleOf(order, lib))
    ensures forall x <- AudibleOf(order, lib) :: x in order && Audible(x, lib)
  {
    hide Audible;
    if order != [] {
      var front, last := order[..|order| - 1], order[|order| - 1];
      AudibleOrdered(front, lib);
      forall x <- AudibleOf(front, lib) ensures x in order && x.wall <= last.wall {
        assert x in front;
      }
    }
  }

  /** Every packet of these files lasts a whole number of milliseconds. */
  predicate WholeMs(lib: Library) {
    forall f <- lib :: forall p <- lib[f] :: IndexSamples(p) % 48 == 0
  }

  lemma {:induction false} MixTotalWhole(slots: seq<MixSlot>, lib: Library)
    requires WholeMs(lib)
    ensures MixTotal(slots, lib) % 48 == 0
  {
    hide MixSamples, WholeMs;
    if slots != [] {
      MixTotalWhole(slots[..|slots| - 1], lib);
      MixSlotWhole(slots[|slots| - 1], lib);
    }
  }

  lemma MixSlotWhole(s: MixSlot, lib: Library)
    requires WholeMs(lib)
    ensures MixSamples(s, lib) % 48 == 0
  {
    hide IndexSamples;
  }

  lemma {:induction false} MixTotalAppend(a: seq<MixSlot>, b: seq<MixSlot>, lib: Library)
    ensures MixTotal(a + b, lib) == MixTotal(a, lib) + MixTotal(b, lib)
  {
    hide MixSamples;
    if b == [] {
      assert a + b == a;
    } else {
      MixTotalAppend(a, b[..|b| - 1], lib);
      assert (a + b)[..|a + b| - 1] == a + b[..|b| - 1];
    }
  }

  lemma RoundNear(a: nat, b: nat, gap: nat)
    ensures RoundMs(a) <= RoundMs(a + b + 960 * gap)
    ensures -1 <= RoundMs(a) + RoundMs(b) + 20 * gap - RoundMs(a + b + 960 * gap) <= 1
    ensures a % 48 == 0 || b % 48 == 0 ==> RoundMs(a + b + 960 * gap) == RoundMs(a) + RoundMs(b) + 20 * gap
  {}

  /** In milliseconds the second of two spans starts one gap after the first ends, give or take one. */
  ghost predicate NextTo(start: int, length: int, next: int, gap: int, exact: bool) {
    && start <= next && start + length + gap - 1 <= next <= start + length + gap + 1
    && (exact ==> next == start + length + gap)
  }

  lemma SpanTotal(slots: seq<MixSlot>, lib: Library, gapMs: nat, a: (nat, nat), b: (nat, nat))
    requires a.0 <= a.1 && Apart(slots, gapMs, a, b)
    ensures MixTotal(slots[..b.0], lib)
         == MixTotal(slots[..a.0], lib) + MixTotal(slots[a.0..a.1], lib) + 960 * (gapMs / 20)
  {
    hide MixTotal;
    var before, mine, gap := slots[..a.0], slots[a.0..a.1], slots[a.1..b.0];
    assert slots[..b.0] == (before + mine) + gap;
    MixTotalAppend(before + mine, gap, lib);
    MixTotalAppend(before, mine, lib);
    TotalOfGap([], gapMs * 48 / 960, lib);
    NoSlots(lib);
    assert gap == [] + seq(gapMs * 48 / 960, _ => Pause);
  }

  lemma SpanEnds(slots: seq<MixSlot>, lib: Library, gapMs: nat, a: (nat, nat), b: (nat, nat))
    requires a.0 <= a.1 && Apart(slots, gapMs, a, b)
    ensures NextTo(RoundMs(MixTotal(slots[..a.0], lib)), RoundMs(MixTotal(slots[a.0..a.1], lib)),
                   RoundMs(MixTotal(slots[..b.0], lib)), 20 * (gapMs / 20), WholeMs(lib))
  {
    hide MixTotal, WholeMs, RoundMs;
    SpanTotal(slots, lib, gapMs, a, b);
    if WholeMs(lib) { MixTotalWhole(slots[..a.0], lib); }
    RoundNear(MixTotal(slots[..a.0], lib), MixTotal(slots[a.0..a.1], lib), gapMs / 20);
  }

  /**
   Each piece of the plan starts one gap after the one before has ended: exactly, where packets last whole
   milliseconds, and to one millisecond of rounding in any case.
   */
  lemma PlanExact(b: Built, lib: Library, gapMs: nat, who: seq<Item>, spans: seq<(nat, nat)>, j: nat)
    requires LaidOut(b, lib, gapMs, who, spans) && 0 < j < |who|
    ensures NextTo(b.pieces[j - 1].start, b.pieces[j - 1].duration, b.pieces[j].start, 20 * (gapMs / 20), WholeMs(lib))
    ensures b.pieces[0].start == 0
  {
    hide First, IndexTotal, Picks, MixTotal, WholeMs, RoundMs, Apart;
    SpanEnds(b.slots, lib, gapMs, spans[j - 1], spans[j]);
    assert SpanOk(b.slots, lib, who[0], spans[0], b.pieces[0]);
    assert b.slots[..0] == [];
    NoSlots(lib);
    assert RoundMs(0) == 0 by { EmptyTotal(); }
  }

  /** The whole of build_mix: pieces by wall clock, each in its own span, one exact gap apart. */
  lemma MixInOrder(sources: seq<Source>, lib: Library, gapMs: nat) returns (who: seq<Item>, spans: seq<(nat, nat)>)
    ensures LaidOut(MixOf(SortItems(AllItems(sources)), lib, gapMs), lib, gapMs, who, spans)
    ensures WallOrdered(who) && forall x <- who :: Audible(x, lib)
  {
    hide LaidOut, WallOrdered, MixOf, SortItems, Audible;
    var order := SortItems(AllItems(sources));
    SortOrdered(AllItems(sources));
    AudibleOrdered(order, lib);
    spans := MixIsLaidOut(order, lib, gapMs);
    who := AudibleOf(order, lib);
  }

  /** The plan's line for each span: whose it is and when it was said, and in milliseconds where it is and how long. */
  lemma PlanSays(b: Built, lib: Library, gapMs: nat, who: seq<Item>, spans: seq<(nat, nat)>, j: nat)
    requires LaidOut(b, lib, gapMs, who, spans) && j < |who|
    ensures |b.pieces| == |who| == |spans| && spans[j].0 <= spans[j].1 <= |b.slots| && who[j].file in lib
    ensures var x, piece, packets := who[j], b.pieces[j], lib[who[j].file];
      && piece.user == x.user && piece.file == x.file && piece.wall == x.wall
      && 48 * piece.start - 24 <= MixTotal(b.slots[..spans[j].0], lib) < 48 * piece.start + 24
      && 48 * piece.duration - 24 <= MixTotal(b.slots[spans[j].0..spans[j].1], lib) < 48 * piece.duration + 24
      && 48 * piece.fileStart - 24 <= IndexTotal(packets[..First(x, packets)]) < 48 * piece.fileStart + 24
  {
    hide MixTotal, IndexTotal, First, Picks, Apart;
    assert SpanOk(b.slots, lib, who[j], spans[j], b.pieces[j]);
  }

  /** The piece of a source that an item stands for, and the piece of the same file that comes next. */
  ghost predicate StandsFor(x: Item, c: Source, p: Piece) {
    && c.hasAudio && p in c.pieces && x.wall == p.wall && x.user == c.user && x.file == c.file && x.offset == p.offset
    && match x.following
       case None => forall q <- c.pieces :: q.offset <= p.offset
       case Some(o) => (exists q <- c.pieces :: q.offset == o) && p.offset <= o
                       && forall q <- c.pieces :: !(p.offset < q.offset < o)
  }

  lemma {:induction false} ItemsAt(c: Source, sorted: seq<Piece>, i: nat)
    requires i <= |sorted|
    ensures |ItemsFrom(c, sorted, i)| == |sorted| - i
    ensures forall k :: i <= k < |sorted| ==> ItemsFrom(c, sorted, i)[k - i] == ItemAt(c, sorted, k)
    decreases |sorted| - i
  {
    if i < |sorted| {
      ItemsAt(c, sorted, i + 1);
      var rest := ItemsFrom(c, sorted, i + 1);
      assert ItemsFrom(c, sorted, i) == [ItemAt(c, sorted, i)] + rest;
      forall k | i < k < |sorted| ensures ItemsFrom(c, sorted, i)[k - i] == ItemAt(c, sorted, k) {
        assert ItemsFrom(c, sorted, i)[k - i] == rest[k - (i + 1)];
      }
    }
  }

  function ItemAt(c: Source, sorted: seq<Piece>, i: nat): Item
    requires i < |sorted|
  {
    Item(sorted[i].wall, c.user, c.file, sorted[i].offset, if i + 1 < |sorted| then Some(sorted[i + 1].offset) else None)
  }

  lemma ItemStands(c: Source, sorted: seq<Piece>, i: nat, x: Item)
    requires c.hasAudio && OffsetsAscend(sorted) && (forall q :: q in c.pieces <==> q in sorted) && i < |sorted|
    requires x == ItemAt(c, sorted, i)
    ensures StandsFor(x, c, sorted[i])
  {
    assert sorted[i] in sorted;
    if i + 1 < |sorted| { assert sorted[i + 1] in sorted; }
    forall q <- c.pieces ensures exists k :: 0 <= k < |sorted| && sorted[k] == q { assert q in sorted; }
  }

  ghost predicate From(x: Item, c: Source) { exists p <- c.pieces :: StandsFor(x, c, p) }

  ghost predicate Grounded(x: Item, sources: seq<Source>) { exists c <- sources :: From(x, c) }

  ghost predicate Itemized(items: seq<Item>, c: Source, p: Piece) { exists x <- items :: StandsFor(x, c, p) }

  lemma GroundedMore(x: Item, c: Source, rest: seq<Source>)
    requires From(x, c) || Grounded(x, rest)
    ensures Grounded(x, [c] + rest)
  {
    hide From;
    var all := [c] + rest;
    assert c in all && forall d <- rest :: d in all;
  }

  lemma ItemizedMore(a: seq<Item>, b: seq<Item>, c: Source, p: Piece)
    requires Itemized(a, c, p) || Itemized(b, c, p)
    ensures Itemized(a + b, c, p)
  {
    hide StandsFor;
    assert forall x :: x in a || x in b ==> x in a + b;
  }

  /** Each item of a source stands for one of its pieces, and each piece has one. */
  lemma SourceItems(c: Source)
    requires c.hasAudio
    ensures var items := ItemsFrom(c, ByOffset(c.pieces), 0);
            && (forall x <- items :: From(x, c))
            && forall p <- c.pieces :: Itemized(items, c, p)
  {
    hide StandsFor, OffsetsAscend, ByOffset, ItemsFrom, ItemAt;
    var sorted := ByOffset(c.pieces);
    var items := ItemsFrom(c, sorted, 0);
    ByOffsetAscends(c.pieces);
    ItemsAt(c, sorted, 0);
    forall k | 0 <= k < |sorted| ensures StandsFor(items[k], c, sorted[k]) && sorted[k] in c.pieces {
      assert items[k - 0] == ItemAt(c, sorted, k);
      ItemStands(c, sorted, k, items[k]);
      assert sorted[k] in sorted;
    }
    forall x <- items ensures From(x, c) {
      var k :| 0 <= k < |items| && items[k] == x;
      assert StandsFor(x, c, sorted[k]);
    }
    forall p <- c.pieces ensures Itemized(items, c, p) {
      var k :| 0 <= k < |sorted| && sorted[k] == p;
      assert items[k] in items && StandsFor(items[k], c, p);
    }
  }

  /** What build_mix places: the pieces of the sources with audio, each with what follows it in its file. */
  lemma {:induction false} ItemsAreSourcePieces(sources: seq<Source>)
    ensures forall x <- AllItems(sources) :: Grounded(x, sources)
    ensures forall c <- sources, p <- c.pieces :: c.hasAudio ==> Itemized(AllItems(sources), c, p)
  {
    hide StandsFor, ItemsFrom, ByOffset, From, Grounded, Itemized;
    if sources != [] {
      var c, rest := sources[0], sources[1..];
      var own := if c.hasAudio then ItemsFrom(c, ByOffset(c.pieces), 0) else [];
      ItemsAreSourcePieces(rest);
      if c.hasAudio { SourceItems(c); }
      assert sources == [c] + rest && AllItems(sources) == own + AllItems(rest);
      hide AllItems;
      forall x <- AllItems(sources) ensures Grounded(x, sources) {
        assert x in own || x in AllItems(rest);
        GroundedMore(x, c, rest);
      }
      forall d <- sources, p <- d.pieces | d.hasAudio ensures Itemized(AllItems(sources), d, p) {
        ItemizedMore(own, AllItems(rest), d, p);
      }
    }
  }

  // ---- From the recorder's books

  /** What the index reads back from a recorded file. */
  function FilePackets(slots: seq<Slot>): (r: seq<bytes>)
    ensures |r| == |slots|
  {
    seq(|slots|, i requires 0 <= i < |slots| => SlotPacket(slots[i]))
  }

  /** Every heard packet was measured, as _process does. */
  predicate Measured(log: seq<Heard>) {
    forall h <- log :: Playable(h.opus) && h.samples == Samples(h.opus)
  }

  predicate SlotsMeasured(slots: seq<Slot>) {
    forall s <- slots :: s.Speech? ==> Measured([s.heard])
  }

  lemma {:induction false} TotalsAgree(slots: seq<Slot>)
    requires SlotsMeasured(slots)
    ensures SlotsTotal(slots) == IndexTotal(FilePackets(slots)) && AllPlayable(FilePackets(slots))
  {
    hide Playable, Samples;
    if slots != [] {
      var front, s := slots[..|slots| - 1], slots[|slots| - 1];
      SlotMeasured(s);
      TotalsAgree(front);
      assert FilePackets(slots) == FilePackets(front) + [SlotPacket(s)];
      assert FilePackets(slots)[..|slots| - 1] == FilePackets(front);
    }
  }

  lemma SlotMeasured(s: Slot)
    requires s.Speech? ==> Measured([s.heard])
    ensures Playable(SlotPacket(s)) && IndexSamples(SlotPacket(s)) == SlotSamples(s)
  {
    SilenceIsDiscordFrame();
    if s.Speech? { assert s.heard in [s.heard]; }
  }

  lemma LaidMeasured(f: Layout, c: Chunk, pause: nat)
    requires ClosedOk(f, c, pause) && Measured(f.log)
    ensures SlotsMeasured(c.slots) && |c.slots| >= |f.slots|
    ensures forall k :: 0 <= k <= |f.slots| ==> c.slots[..k] == f.slots[..k]
  {
    hide Playable, Samples, FirstsRight, FillerBetween, PiecesOf;
    forall s <- c.slots | s.Speech? ensures Measured([s.heard]) {
      var k :| 0 <= k < |c.slots| && c.slots[k] == s;
      assert k < |f.slots| && f.slots[k] == s;
      assert k in f.at;
      var i :| 0 <= i < |f.at| && f.at[i] == k;
      assert s.heard == f.log[i] && s.heard in f.log;
    }
  }

  /**
   The offset of a piece is the time its first packet starts, to the nearest millisecond. Looking it up in the
   file finds that packet exactly when rounding did not move it past the packet's start; otherwise the next one.
   */
  lemma PieceOffsetExact(f: Layout, c: Chunk, pause: nat, j: nat)
    requires ClosedOk(f, c, pause) && Measured(f.log) && j < |f.firsts|
    ensures |c.pieces| == |f.firsts| && f.firsts[j] < |f.at| && f.at[f.firsts[j]] < |c.slots|
    ensures var k := f.at[f.firsts[j]];
            var start, offset := SlotsTotal(c.slots[..k]), 48 * c.pieces[j].offset;
            && start - 24 <= offset <= start + 24 && (start % 48 == 0 ==> offset == start)
            && FirstAt(FilePackets(c.slots), offset) == if offset <= start then k else k + 1
    ensures f.firsts[0] == 0 && f.at[0] == 0 && c.pieces[0].offset == 0
  {
    hide Laid, ClosedOk, FirstAt, SlotsTotal, SlotsMeasured, RoundWall, Measured, RoundMs;
    LaidMeasured(f, c, pause);
    OffsetAt(f, c, pause, 0);
    OffsetAt(f, c, pause, j);
    assert c.slots[..0] == [];
    EmptyTotal();
    RoundsToMs(SlotsTotal(c.slots[..f.at[f.firsts[j]]]));
    StartFound(c.slots, f.at[f.firsts[j]], 48 * c.pieces[j].offset);
  }

  lemma RoundsToMs(samples: nat)
    ensures samples - 24 <= 48 * RoundMs(samples) <= samples + 24
    ensures samples % 48 == 0 ==> 48 * RoundMs(samples) == samples
  {}

  /** A time near the start of a packet of a measured file finds that packet, or the next. */
  lemma StartFound(slots: seq<Slot>, k: nat, sample: nat)
    requires SlotsMeasured(slots) && k < |slots|
    requires SlotsTotal(slots[..k]) - 24 <= sample <= SlotsTotal(slots[..k]) + 24
    ensures FirstAt(FilePackets(slots), sample) == if sample <= SlotsTotal(slots[..k]) then k else k + 1
  {
    hide FirstAt, SlotsTotal, SlotsMeasured, IndexTotal, Playable;
    var packets := FilePackets(slots);
    TotalsAgree(slots);
    SliceMeasured(slots, k);
    TotalsAgree(slots[..k]);
    assert packets[..k] == FilePackets(slots[..k]);
    StartsApart(packets, k);
    if k > 0 { StartsApart(packets, k - 1); }
    FirstAtBetween(packets, if sample <= SlotsTotal(slots[..k]) then k else k + 1, sample);
  }

  lemma EmptyTotal()
    ensures SlotsTotal([]) == 0 && RoundMs(0) == 0
  {}

  lemma SliceMeasured(slots: seq<Slot>, k: nat)
    requires SlotsMeasured(slots) && k <= |slots|
    ensures SlotsMeasured(slots[..k])
  {}

  lemma OffsetAt(f: Layout, c: Chunk, pause: nat, j: nat)
    requires ClosedOk(f, c, pause) && j < |f.firsts|
    requires forall k :: 0 <= k <= |f.slots| ==> |c.slots| >= k && c.slots[..k] == f.slots[..k]
    ensures f.firsts[j] < |f.at| == |f.log| && f.at[f.firsts[j]] < |f.slots| && |c.pieces| == |f.firsts|
    ensures f.firsts[0] == 0 && f.at[0] == 0
    ensures c.pieces[j] == Piece(RoundMs(SlotsTotal(c.slots[..f.at[f.firsts[j]]])), RoundWall(f.log[f.firsts[j]].wall))
  {
    hide SlotsTotal, RoundMs, RoundWall, StartsPiece, FillerBetween;
  }

  // ---- Through the file

  /** The files on disk, by what their index finds. */
  function Indexed(files: map<nat, bytes>): Library {
    map f | f in files && ScanFile(files[f]).Ok? :: ScanFile(files[f]).value.packets
  }

  /** A finished file is read whole. */
  lemma ClosedFileIndexed(file: bytes, packets: seq<bytes>)
    requires ClosedFile(file, packets)
    ensures ScanFile(file) == Ok(OggIndex.Found(2, packets, false))
  {
    hide Stream, ScanFile, FileBytes, OggWriter.Audio, OggIndex.SoundPage;
    var serial: nat, pages: seq<PageSpec> :| IsClosed(file, packets, serial, pages);
    assert pages[..|pages|] == pages && file + [] == file;
    NothingUnsound();
    OggCrash.ScanWrittenPages(serial, pages, |pages|, []);
  }

  lemma NothingUnsound()
    ensures !OggIndex.SoundPage([])
  {}

  /** What the recorder gives its writer is the chunk, but for the packet close adds. */
  lemma ClosedSlots(f: Layout, c: Chunk, pause: nat)
    requires ClosedOk(f, c, pause)
    ensures FilePackets(c.slots) == Padded(FilePackets(f.slots))
  {
    hide Laid;
  }

  /** The packets a chunk's writer is given can be written, and all of them are short if those heard are. */
  lemma ChunkWritable(f: Layout, c: Chunk, pause: nat)
    requires ClosedOk(f, c, pause) && Measured(f.log)
    ensures AllPlayable(FilePackets(f.slots))
    ensures (forall h <- f.log :: |h.opus| < MAX_OPUS_PACKET) ==> Short(FilePackets(f.slots))
  {
    LaidMeasured(f, c, pause);
    assert c.slots[..|f.slots|] == f.slots;
    SliceMeasured(c.slots, |f.slots|);
    TotalsAgree(f.slots);
    hide Playable, Samples, Measured, FirstsRight, FillerBetween, PiecesOf;
    if forall h <- f.log :: |h.opus| < MAX_OPUS_PACKET {
      forall p <- FilePackets(f.slots) ensures |p| < MAX_OPUS_PACKET {
        var k :| 0 <= k < |f.slots| && FilePackets(f.slots)[k] == p;
        if f.slots[k].Speech? {
          assert k in f.at;
          var i :| 0 <= i < |f.at| && f.at[i] == k;
          assert f.slots[k].heard == f.log[i] && f.log[i] in f.log;
        }
      }
    }
  }

  /**
   Writing a chunk and reading it back through the index. False if a page was refused, which short packets never
   are; then the file holds the pages before it and no later write reaches it.
   */
  method WriteChunk(serial: int, f: Layout, c: Chunk, pause: nat) returns (file: bytes, ok: bool)
    requires ClosedOk(f, c, pause) && Measured(f.log)
    ensures AllPlayable(FilePackets(f.slots)) && (ok <==> Closable(FilePackets(f.slots)))
    ensures if ok then ClosedFile(file, FilePackets(c.slots)) else OpenFile(file, FilePackets(f.slots))
    ensures ok ==> ScanFile(file) == Ok(OggIndex.Found(2, FilePackets(c.slots), false))
    ensures (forall h <- f.log :: |h.opus| < MAX_OPUS_PACKET) && |f.slots| < OggWriter.PACKETS_PER_PAGE * 0xFFFF_FFFD ==> ok
  {
    hide ClosedOk, ClosedFile, OpenFile, Closable, Measured, ScanFile, Playable, Short;
    ClosedSlots(f, c, pause);
    ChunkWritable(f, c, pause);
    var packets := FilePackets(f.slots);
    if Short(packets) && |packets| < OggWriter.PACKETS_PER_PAGE * 0xFFFF_FFFD { ShortAreWritten(packets); }
    var w;
    w, ok := WriteStream(serial, packets);
    file := w.file;
    if ok { ClosedFileIndexed(file, FilePackets(c.slots)); }
  }

  /** A file of the recorder in a session: it was written and closed, its books are its pieces. */
  ghost predicate Recorded(c: Source, files: map<nat, bytes>, f: Layout, chunk: Chunk, pause: nat) {
    && ClosedOk(f, chunk, pause) && Measured(f.log) && c.hasAudio && c.pieces == chunk.pieces
    && c.file in files && ClosedFile(files[c.file], FilePackets(chunk.slots))
  }

  lemma RecordedIndexed(c: Source, files: map<nat, bytes>, f: Layout, chunk: Chunk, pause: nat)
    requires Recorded(c, files, f, chunk, pause)
    ensures c.file in Indexed(files) && Indexed(files)[c.file] == FilePackets(chunk.slots)
  {
    hide ScanFile, ClosedFile, ClosedOk;
    ClosedFileIndexed(files[c.file], FilePackets(chunk.slots));
  }

  /** From recorder to mix, through the file: every packet heard is in the mix exactly once, unless it is the silence packet. */
  lemma HeardIsMixedOnce(sources: seq<Source>, i: nat, files: map<nat, bytes>, gapMs: nat, f: Layout, chunk: Chunk, pause: nat,
                         n: nat)
    requires DistinctFiles(sources) && i < |sources| && Recorded(sources[i], files, f, chunk, pause)
    requires n < |f.log| && f.log[n].opus != OPUS_SILENCE
    ensures n < |f.at|
    ensures multiset(MixOf(SortItems(AllItems(sources)), Indexed(files), gapMs).slots)[Copied(sources[i].file, f.at[n])] == 1
  {
    RecordedIndexed(sources[i], files, f, chunk, pause);
    hide Indexed, ClosedFile;
    PieceOffsetExact(f, chunk, pause, 0);
    LaidMeasured(f, chunk, pause);
    HeardAt(f, chunk, pause, n);
    hide MixOf, SortItems, AllItems, DistinctFiles, ClosedOk, Laid, Playable, FirstAt, SlotsTotal;
    assert sources[i].pieces[0] in sources[i].pieces;
    MixConserves(sources, i, Indexed(files), gapMs, f.at[n]);
  }

  lemma HeardAt(f: Layout, c: Chunk, pause: nat, n: nat)
    requires ClosedOk(f, c, pause) && Measured(f.log) && n < |f.log|
    ensures |f.at| == |f.log| && f.at[n] < |c.slots| && FilePackets(c.slots)[f.at[n]] == f.log[n].opus
    ensures Playable(f.log[n].opus)
  {
    hide Playable, FillerBetween, FirstsRight, PiecesOf;
    assert c.slots[f.at[n]] == f.slots[f.at[n]];
  }
}
