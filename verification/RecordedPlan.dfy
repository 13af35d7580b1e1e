/** A recorded chunk in a mix: the plan's pieces, the chunk's books and the file agree on where everything is. */
module RecordedPlan {
  import opened Bytes
  import opened OggIndex
  import OggFiles
  import opened Recorder
  import opened Mix
  import opened Conservation
  import opened MixPlan

  // ---- The books of a recorded chunk

  lemma {:induction false} IndexTotalWhole(packets: seq<bytes>)
    requires forall p <- packets :: IndexSamples(p) % 48 == 0
    ensures IndexTotal(packets) % 48 == 0
  {
    hide IndexSamples;
    if packets != [] { IndexTotalWhole(packets[..|packets| - 1]); }
  }

  lemma {:induction false} FirstsAscend(firsts: seq<nat>, i: nat, j: nat)
    requires i < j < |firsts| && forall k :: 0 < k < |firsts| ==> firsts[k - 1] < firsts[k]
    ensures firsts[i] < firsts[j]
    decreases j
  {
    if i < j - 1 { FirstsAscend(firsts, i, j - 1); }
  }

  /** Every packet of the chunk lasts a whole number of milliseconds. */
  predicate WholePackets(c: Chunk) { forall p <- FilePackets(c.slots) :: IndexSamples(p) % 48 == 0 }

  /** Where the q-th piece of a recorded file starts: its packet, and its offset, exactly. */
  lemma PieceAt(f: Layout, c: Chunk, pause: nat, q: nat)
    requires ClosedOk(f, c, pause) && Measured(f.log) && q < |c.pieces|
    requires WholePackets(c)
    ensures q < |f.firsts| == |c.pieces| && f.firsts[q] < |f.at| && f.at[f.firsts[q]] < |c.slots|
    ensures var k, packets := f.at[f.firsts[q]], FilePackets(c.slots);
            && FirstAt(packets, 48 * c.pieces[q].offset) == k && IndexTotal(packets[..k]) == 48 * c.pieces[q].offset
  {
    hide Measured, IndexSamples, FirstAt, SlotsTotal, IndexTotal, Laid;
    assert |c.pieces| == |f.firsts| by { LaidFirsts(f, pause); }
    PieceOffsetExact(f, c, pause, q);
    LaidMeasured(f, c, pause);
    var k, packets := f.at[f.firsts[q]], FilePackets(c.slots);
    SliceMeasured(c.slots, k);
    TotalsAgree(c.slots[..k]);
    assert packets[..k] == FilePackets(c.slots[..k]);
    forall p <- packets[..k] ensures IndexSamples(p) % 48 == 0 { assert p in packets; }
    IndexTotalWhole(packets[..k]);
  }

  lemma LaidFirsts(f: Layout, pause: nat)
    requires Laid(f, pause)
    ensures |f.pieces| == |f.firsts| && |f.at| == |f.log|
    ensures forall k :: 0 < k < |f.firsts| ==> f.firsts[k - 1] < f.firsts[k]
    ensures forall k :: 0 <= k < |f.firsts| ==> f.firsts[k] < |f.at|
    ensures forall i :: 0 < i < |f.at| ==> f.at[i - 1] < f.at[i]
  {
    hide StartsPiece, FillerBetween;
  }

  /** The pieces of a recorded file start one after another. */
  lemma PiecesApart(f: Layout, c: Chunk, pause: nat, q: nat, r: nat)
    requires ClosedOk(f, c, pause) && Measured(f.log) && q < r < |c.pieces|
    requires WholePackets(c)
    ensures c.pieces[q].offset < c.pieces[r].offset
  {
    hide Measured, IndexSamples, FirstAt, IndexTotal, Laid;
    LaidFirsts(f, pause);
    PieceAt(f, c, pause, q);
    PieceAt(f, c, pause, r);
    FirstsAscend(f.firsts, q, r);
    FirstsAscend(f.at, f.firsts[q], f.firsts[r]);
    FirstAtMonotone(FilePackets(c.slots), 48 * c.pieces[r].offset,
                    if c.pieces[r].offset <= c.pieces[q].offset then 48 * c.pieces[q].offset else 48 * c.pieces[r].offset);
  }

  ghost predicate Apart(pieces: seq<Piece>) { forall q, r :: 0 <= q < r < |pieces| ==> pieces[q].offset < pieces[r].offset }

  /** Already in order: sorting changes nothing. */
  lemma {:induction false} SortedStays(pieces: seq<Piece>)
    requires Apart(pieces)
    ensures ByOffset(pieces) == pieces
  {
    if pieces != [] {
      var front, last := pieces[..|pieces| - 1], pieces[|pieces| - 1];
      ApartFront(pieces);
      hide Apart, InsertPiece;
      SortedStays(front);
      InsertLast(last, front);
      assert pieces == front + [last];
    }
  }

  lemma ApartFront(pieces: seq<Piece>)
    requires Apart(pieces) && pieces != []
    ensures var front := pieces[..|pieces| - 1]; Apart(front) && forall q <- front :: q.offset < pieces[|pieces| - 1].offset
  {}

  lemma {:induction false} InsertLast(p: Piece, s: seq<Piece>)
    requires forall q <- s :: q.offset < p.offset
    ensures InsertPiece(p, s) == s + [p]
  {
    if s != [] {
      InsertLast(p, s[1..]);
      assert s[0] in s && s == [s[0]] + s[1..];
    }
  }

  // ---- Its items, through the sorting

  function ItemAt(c: Source, sorted: seq<Piece>, q: nat): Item
    requires q < |sorted|
  {
    Item(sorted[q].wall, c.user, c.file, sorted[q].offset, if q + 1 < |sorted| then Some(sorted[q + 1].offset) else None)
  }

  /** No two items of this file start at the same offset, and each is the item of one of its pieces. */
  ghost predicate Unique(s: seq<Item>, c: Source, sorted: seq<Piece>) {
    && (forall i, j :: 0 <= i < j < |s| && s[i].file == c.file && s[j].file == c.file ==> s[i].offset != s[j].offset)
    && forall x <- s :: x.file == c.file ==> exists q: nat :: q < |sorted| && x == ItemAt(c, sorted, q)
  }

  lemma {:induction false} ItemsUnique(c: Source, sorted: seq<Piece>, k: nat)
    requires Apart(sorted)
    ensures Unique(ItemsFrom(c, sorted, k), c, sorted)
    ensures forall x <- ItemsFrom(c, sorted, k) :: exists q: nat :: k <= q < |sorted| && x == ItemAt(c, sorted, q)
    decreases |sorted| - k
  {
    if k < |sorted| {
      var rest := ItemsFrom(c, sorted, k + 1);
      ItemsUnique(c, sorted, k + 1);
      assert ItemsFrom(c, sorted, k) == [ItemAt(c, sorted, k)] + rest;
      forall x <- rest ensures x.offset != sorted[k].offset && exists q: nat :: k <= q < |sorted| && x == ItemAt(c, sorted, q) {
        var q: nat :| k + 1 <= q < |sorted| && x == ItemAt(c, sorted, q);
      }
      hide ItemsFrom, Apart;
      PushUnique(ItemAt(c, sorted, k), rest, c, sorted);
    }
  }

  lemma {:induction false} OtherItems(c: Source, sorted: seq<Piece>, k: nat)
    ensures forall x <- ItemsFrom(c, sorted, k) :: x.file == c.file
    decreases |sorted| - k
  {
    if k < |sorted| { OtherItems(c, sorted, k + 1); }
  }

  lemma {:induction false} NoItems(sources: seq<Source>, file: nat)
    requires forall c <- sources :: c.file != file
    ensures forall x <- AllItems(sources) :: x.file != file
  {
    if sources != [] {
      var c, rest := sources[0], sources[1..];
      NoItems(rest, file);
      OtherItems(c, ByOffset(c.pieces), 0);
      hide ItemsFrom, ByOffset;
      assert forall x <- AllItems(sources) ::
        x in (if c.hasAudio then ItemsFrom(c, ByOffset(c.pieces), 0) else []) || x in AllItems(rest);
    }
  }

  lemma UniqueJoin(a: seq<Item>, b: seq<Item>, c: Source, sorted: seq<Piece>)
    requires Unique(a, c, sorted) && Unique(b, c, sorted)
    requires (forall x <- a :: x.file != c.file) || forall x <- b :: x.file != c.file
    ensures Unique(a + b, c, sorted)
  {
    hide ItemAt;
    var s := a + b;
    forall i, j | 0 <= i < j < |s| && s[i].file == c.file && s[j].file == c.file ensures s[i].offset != s[j].offset {
      if j < |a| {
        assert a[i].offset != a[j].offset;
      } else {
        assert s[j] == b[j - |a|];
        assert s[i] in a || s[i] in b;
        assert i >= |a|;
        assert b[i - |a|].offset != b[j - |a|].offset;
      }
    }
  }

  lemma NoneUnique(s: seq<Item>, c: Source, sorted: seq<Piece>)
    requires forall x <- s :: x.file != c.file
    ensures Unique(s, c, sorted)
  {}

  lemma {:induction false} AllUnique(sources: seq<Source>, i: nat)
    requires DistinctFiles(sources) && i < |sources| && Apart(ByOffset(sources[i].pieces))
    ensures Unique(AllItems(sources), sources[i], ByOffset(sources[i].pieces))
    decreases |sources|
  {
    hide ItemsFrom, ByOffset, Unique, Apart;
    var c, rest := sources[0], sources[1..];
    var sorted := ByOffset(sources[i].pieces);
    var own := if c.hasAudio then ItemsFrom(c, ByOffset(c.pieces), 0) else [];
    if i == 0 {
      if c.hasAudio { ItemsUnique(c, sorted, 0); } else { NoneUnique(own, c, sorted); }
      NoItems(rest, c.file);
      NoneUnique(AllItems(rest), c, sorted);
      UniqueJoin(own, AllItems(rest), c, sorted);
    } else {
      AllUnique(rest, i - 1);
      OtherItems(c, ByOffset(c.pieces), 0);
      NoneUnique(own, sources[i], sorted);
      UniqueJoin(own, AllItems(rest), sources[i], sorted);
    }
  }

  lemma {:induction false} InsertUnique(x: Item, s: seq<Item>, c: Source, sorted: seq<Piece>)
    requires Unique(s, c, sorted) && (x.file == c.file ==> exists q: nat :: q < |sorted| && x == ItemAt(c, sorted, q))
    requires x.file == c.file ==> forall y <- s :: y.file == c.file ==> y.offset != x.offset
    ensures Unique(InsertItem(x, s), c, sorted) && forall y :: y in InsertItem(x, s) <==> y == x || y in s
  {
    hide Precedes, ItemAt, Unique;
    if s != [] && !Precedes(x, s[0]) {
      TailUnique(s, c, sorted);
      var first, rest := s[0], InsertItem(x, s[1..]);
      assert s == [first] + s[1..];
      InsertUnique(x, s[1..], c, sorted);
      PushUnique(first, rest, c, sorted);
    } else {
      PushUnique(x, s, c, sorted);
    }
  }

  lemma PushUnique(x: Item, s: seq<Item>, c: Source, sorted: seq<Piece>)
    requires Unique(s, c, sorted) && (x.file == c.file ==> exists q: nat :: q < |sorted| && x == ItemAt(c, sorted, q))
    requires x.file == c.file ==> forall y <- s :: y.file == c.file ==> y.offset != x.offset
    ensures Unique([x] + s, c, sorted)
  {
    hide ItemAt;
  }

  lemma TailUnique(s: seq<Item>, c: Source, sorted: seq<Piece>)
    requires Unique(s, c, sorted) && s != []
    ensures Unique(s[1..], c, sorted)
    ensures var x := s[0];
            && (x.file == c.file ==> exists q: nat :: q < |sorted| && x == ItemAt(c, sorted, q))
            && (x.file == c.file ==> forall y <- s[1..] :: y.file == c.file ==> y.offset != x.offset)
  {
    hide ItemAt;
    assert forall i :: 0 <= i < |s| - 1 ==> s[1..][i] == s[i + 1];
  }

  lemma FrontUnique(s: seq<Item>, c: Source, sorted: seq<Piece>)
    requires Unique(s, c, sorted) && s != []
    ensures Unique(s[..|s| - 1], c, sorted)
    ensures var x := s[|s| - 1];
            && (x.file == c.file ==> exists q: nat :: q < |sorted| && x == ItemAt(c, sorted, q))
            && (x.file == c.file ==> forall y <- s[..|s| - 1] :: y.file == c.file ==> y.offset != x.offset)
  {
    hide ItemAt;
  }

  lemma {:induction false} SortUnique(items: seq<Item>, c: Source, sorted: seq<Piece>)
    requires Unique(items, c, sorted)
    ensures Unique(SortItems(items), c, sorted) && forall y :: y in SortItems(items) <==> y in items
  {
    hide InsertItem, Unique;
    if items == [] {
      NoneUnique([], c, sorted);
    } else {
      var front, last := items[..|items| - 1], items[|items| - 1];
      FrontUnique(items, c, sorted);
      SortUnique(front, c, sorted);
      InsertUnique(last, SortItems(front), c, sorted);
      assert items == front + [last];
    }
  }

  lemma {:induction false} AudibleUnique(order: seq<Item>, lib: Library, c: Source, sorted: seq<Piece>)
    requires Unique(order, c, sorted)
    ensures Unique(AudibleOf(order, lib), c, sorted) && forall y <- AudibleOf(order, lib) :: y in order
  {
    hide Audible, Unique;
    if order == [] {
      NoneUnique([], c, sorted);
    } else {
      var front, last := order[..|order| - 1], order[|order| - 1];
      FrontUnique(order, c, sorted);
      AudibleUnique(front, lib, c, sorted);
      assert order == front + [last];
      if Audible(last, lib) { AppendUnique(AudibleOf(front, lib), last, c, sorted); }
      else { assert AudibleOf(front, lib) + [] == AudibleOf(front, lib); }
    }
  }

  lemma AppendUnique(s: seq<Item>, x: Item, c: Source, sorted: seq<Piece>)
    requires Unique(s, c, sorted) && (x.file == c.file ==> exists q: nat :: q < |sorted| && x == ItemAt(c, sorted, q))
    requires x.file == c.file ==> forall y <- s :: y.file == c.file ==> y.offset != x.offset
    ensures Unique(s + [x], c, sorted)
  {
    hide ItemAt;
  }

  // ---- The plan

  /** The mix of these sources, through their files. */
  function MixedPieces(sources: seq<Source>, files: map<nat, bytes>, gapMs: nat): seq<MixPiece> {
    MixOf(SortItems(AllItems(sources)), Indexed(files), gapMs).pieces
  }

  /** Piece j of the plan is piece q of the chunk. */
  ghost predicate SamePiece(c: Source, books: seq<Piece>, q: nat, piece: MixPiece) {
    q < |books| && piece.file == c.file && piece.fileStart == books[q].offset && piece.wall == books[q].wall
  }

  lemma BooksApart(c: Source, files: map<nat, bytes>, f: Layout, chunk: Chunk, pause: nat)
    requires Recorded(c, files, f, chunk, pause) && WholePackets(chunk)
    ensures Apart(chunk.pieces) && ByOffset(c.pieces) == chunk.pieces
  {
    hide IndexSamples, Indexed, ByOffset, ClosedOk, Measured, OggFiles.ClosedFile;
    forall q, r | 0 <= q < r < |chunk.pieces| ensures chunk.pieces[q].offset < chunk.pieces[r].offset {
      PiecesApart(f, chunk, pause, q, r);
    }
    SortedStays(chunk.pieces);
  }

  /** Every piece of the plan that comes from a recorded file is one of its pieces, and each of those is in it once at most. */
  lemma PlanPieces(sources: seq<Source>, i: nat, files: map<nat, bytes>, gapMs: nat, f: Layout, chunk: Chunk, pause: nat)
    returns (places: seq<nat>)
    requires DistinctFiles(sources) && i < |sources| && Recorded(sources[i], files, f, chunk, pause) && WholePackets(chunk)
    ensures var plan := MixedPieces(sources, files, gapMs);
            && |places| == |plan|
            && (forall j :: 0 <= j < |plan| && plan[j].file == sources[i].file ==>
                  SamePiece(sources[i], chunk.pieces, places[j], plan[j]))
            && forall j, k :: 0 <= j < k < |plan| && plan[j].file == sources[i].file && plan[k].file == sources[i].file ==>
                 places[j] != places[k]
  {
    var c, lib := sources[i], Indexed(files);
    BooksApart(c, files, f, chunk, pause);
    hide Indexed, Recorded;
    var items := AllItems(sources);
    AllUnique(sources, i);
    SortUnique(items, c, chunk.pieces);
    AudibleUnique(SortItems(items), lib, c, chunk.pieces);
    var who := AudibleOf(SortItems(items), lib);
    var spans := MixIsLaidOut(SortItems(items), lib, gapMs);
    var plan := MixedPieces(sources, files, gapMs);
    hide AllItems, SortItems, MixOf, AudibleOf;
    places := PlacesOf(who, c, chunk.pieces);
    forall j | 0 <= j < |plan| && plan[j].file == c.file ensures SamePiece(c, chunk.pieces, places[j], plan[j]) {
      assert SpanOk(MixOf(SortItems(items), lib, gapMs).slots, lib, who[j], spans[j], plan[j]);
      PlacedPiece(c, files, f, chunk, pause, who[j], places[j], plan[j]);
    }
    forall j, k | 0 <= j < k < |plan| && plan[j].file == c.file && plan[k].file == c.file ensures places[j] != places[k] {
      assert SpanOk(MixOf(SortItems(items), lib, gapMs).slots, lib, who[j], spans[j], plan[j]);
      assert SpanOk(MixOf(SortItems(items), lib, gapMs).slots, lib, who[k], spans[k], plan[k]);
    }
  }

  lemma {:induction false} PlacesOf(who: seq<Item>, c: Source, sorted: seq<Piece>) returns (places: seq<nat>)
    requires Unique(who, c, sorted)
    ensures |places| == |who|
    ensures forall j :: 0 <= j < |who| && who[j].file == c.file ==> places[j] < |sorted| && who[j] == ItemAt(c, sorted, places[j])
    ensures forall j, k :: 0 <= j < k < |who| && who[j].file == c.file && who[k].file == c.file ==> places[j] != places[k]
  {
    if who == [] {
      places := [];
    } else {
      var n := |who| - 1;
      FrontUnique(who, c, sorted);
      places := PlacesOf(who[..n], c, sorted);
      var q: nat := 0;
      if who[n].file == c.file { q :| q < |sorted| && who[n] == ItemAt(c, sorted, q); }
      forall j | 0 <= j < n && who[j].file == c.file && who[n].file == c.file ensures places[j] != q {
        assert who[..n][j] == who[j] && who[j].offset != who[n].offset;
      }
      places := places + [q];
    }
  }

  lemma PlacedPiece(c: Source, files: map<nat, bytes>, f: Layout, chunk: Chunk, pause: nat, x: Item, q: nat, piece: MixPiece)
    requires Recorded(c, files, f, chunk, pause) && WholePackets(chunk)
    requires q < |chunk.pieces| && x == ItemAt(c, chunk.pieces, q)
    requires x.file in Indexed(files) && exists start: nat :: piece == PieceFor(x, Indexed(files), start)
    ensures SamePiece(c, chunk.pieces, q, piece)
  {
    hide Indexed, IndexSamples, FirstAt, IndexTotal, ClosedOk, MixTotal, Picks, Measured, OggFiles.ClosedFile, RoundMs, PieceFor;
    RecordedIndexed(c, files, f, chunk, pause);
    PieceAt(f, chunk, pause, q);
    hide Recorded;
    RoundsToMs(48 * chunk.pieces[q].offset);
    var start: nat :| piece == PieceFor(x, Indexed(files), start);
    PieceStart(x, Indexed(files), start);
  }

  lemma PieceStart(x: Item, lib: Library, start: nat)
    requires x.file in lib
    ensures var piece := PieceFor(x, lib, start);
            && piece.file == x.file && piece.wall == x.wall
            && piece.fileStart == RoundMs(IndexTotal(lib[x.file][..FirstAt(lib[x.file], 48 * x.offset)]))
  {
    hide RoundMs, IndexTotal, FirstAt, MixTotal, Picks;
  }

  /**
   A moment inside a piece of the mix that came from a recorded chunk, before the chunk's next piece: looked up
   through the file and, at its wall time, through the wall clock, it has the same place when no later piece of the
   mix had begun by then, and the wall clock's is never earlier (but for the slack of plans without a gap).
   */
  lemma RecordedPositionsAgree(sources: seq<Source>, i: nat, files: map<nat, bytes>, gapMs: nat, f: Layout, chunk: Chunk,
                               pause: nat, j: nat, offset: real)
    requires DistinctFiles(sources) && i < |sources| && Recorded(sources[i], files, f, chunk, pause) && WholePackets(chunk)
    requires j < |MixedPieces(sources, files, gapMs)| && MixedPieces(sources, files, gapMs)[j].file == sources[i].file
    requires var mine := MixedPieces(sources, files, gapMs)[j];
             && mine.fileStart as real <= offset <= (mine.fileStart + mine.duration) as real
             && forall p <- chunk.pieces :: p.offset > mine.fileStart ==> p.offset as real > offset + 0.001
    ensures var plan, wall := MixedPieces(sources, files, gapMs), WallTime(chunk.pieces, offset);
            var viaFile, viaWall := PositionInFile(plan, sources[i].file, offset, false), PositionAt(plan, wall);
            && viaFile.Some? && viaWall.Some? && viaFile.value <= viaWall.value + PlanSlack(Indexed(files), gapMs)
            && (j + 1 == |plan| || plan[j + 1].wall as real > wall ==> viaFile == viaWall)
  {
    hide Recorded, MixedPieces, Indexed, PlanWithin, PositionInFile, PositionAt, WallTime, Apart, SamePiece, DistinctFiles;
    hide Inside, Booked, IndexSamples;
    var plan, c := MixedPieces(sources, files, gapMs), sources[i];
    MixedOk(sources, files, gapMs);
    hide PlanSlack;
    var places := PlanPieces(sources, i, files, gapMs, f, chunk, pause);
    BooksApart(c, files, f, chunk, pause);
    InsideAndBooked(plan, places, c, chunk.pieces, j, offset);
    PositionsAgree(plan, j, chunk.pieces, places[j], offset, PlanSlack(Indexed(files), gapMs));
  }

  lemma MixedOk(sources: seq<Source>, files: map<nat, bytes>, gapMs: nat)
    ensures PlanWithin(MixedPieces(sources, files, gapMs), PlanSlack(Indexed(files), gapMs))
  {
    hide MixOf, SortItems, AllItems, Indexed, PlanWithin, PlanSlack;
    BuiltPlanOk(sources, Indexed(files), gapMs);
  }

  /** What PositionsAgree asks of a plan and a chunk's books. */
  lemma InsideAndBooked(plan: seq<MixPiece>, places: seq<nat>, c: Source, books: seq<Piece>, j: nat, offset: real)
    requires |places| == |plan| && j < |plan| && plan[j].file == c.file && Apart(books)
    requires forall k :: 0 <= k < |plan| && plan[k].file == c.file ==> SamePiece(c, books, places[k], plan[k])
    requires forall k, m :: 0 <= k < m < |plan| && plan[k].file == c.file && plan[m].file == c.file ==> places[k] != places[m]
    requires plan[j].fileStart as real <= offset <= (plan[j].fileStart + plan[j].duration) as real
    requires forall p <- books :: p.offset > plan[j].fileStart ==> p.offset as real > offset + 0.001
    ensures Inside(plan, j, offset) && Booked(books, places[j], plan[j], offset)
  {
    var q := places[j];
    assert SamePiece(c, books, q, plan[j]);
    forall p <- plan | p.file == plan[j].file && p != plan[j]
      ensures p.fileStart < plan[j].fileStart || p.fileStart as real > offset + 0.001
    {
      var k :| 0 <= k < |plan| && plan[k] == p;
      assert SamePiece(c, books, places[k], plan[k]);
      OtherPlace(plan, places, c, j, k);
      assert books[places[k]] in books;
    }
    if q + 1 < |books| { assert books[q + 1] in books; }
  }

  lemma OtherPlace(plan: seq<MixPiece>, places: seq<nat>, c: Source, j: nat, k: nat)
    requires |places| == |plan| && j < |plan| && k < |plan| && j != k && plan[j].file == c.file && plan[k].file == c.file
    requires forall k, m :: 0 <= k < m < |plan| && plan[k].file == c.file && plan[m].file == c.file ==> places[k] != places[m]
    ensures places[j] != places[k]
  {
    var low, high := if j < k then j else k, if j < k then k else j;
    assert places[low] != places[high];
  }
}
