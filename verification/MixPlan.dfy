/** MixPlan (ttsbot/archive/mix.py) and wall_time (ttsbot/recording/transcript.py): finding a moment in the mix. */
module MixPlan {
  import opened Bytes
  import opened Reals
  import opened Recorder
  import opened Mix
  import opened Conservation
  import opened Bisect

  /** Times in milliseconds; a query may fall between two of them. */
  function Round(x: real): int { (x + 0.5).Floor }

  function Walls(pieces: seq<MixPiece>): (r: seq<int>)
    ensures |r| == |pieces|
  {
    seq(|pieces|, i requires 0 <= i < |pieces| => pieces[i].wall)
  }

  /** Inside the piece being said at this moment, or else the start of the next one. */
  function PositionAt(pieces: seq<MixPiece>, wall: real): Option<int> {
    if pieces == [] then None
    else
      var i := BisectRight(Walls(pieces), wall.Floor, 0, |pieces|) - 1;
      if i >= 0 && wall <= (pieces[i].wall + pieces[i].duration) as real then
        Some(Round(pieces[i].start as real + (wall - pieces[i].wall as real)))
      else if i + 1 < |pieces| then Some(pieces[i + 1].start)
      else Some(pieces[|pieces| - 1].start + pieces[|pieces| - 1].duration)
  }

  function InsertByStart(p: MixPiece, s: seq<MixPiece>): seq<MixPiece> {
    if s == [] || p.fileStart < s[0].fileStart then [p] + s else [s[0]] + InsertByStart(p, s[1..])
  }

  /** The pieces of one file, sorted by where they start in it. */
  function ByFile(pieces: seq<MixPiece>, file: nat): seq<MixPiece> {
    if pieces == [] then []
    else
      var front, last := ByFile(pieces[..|pieces| - 1], file), pieces[|pieces| - 1];
      if last.file == file then InsertByStart(last, front) else front
  }

  function FileStarts(own: seq<MixPiece>): (r: seq<int>)
    ensures |r| == |own|
  {
    seq(|own|, i requires 0 <= i < |own| => own[i].fileStart)
  }

  function PositionInFile(pieces: seq<MixPiece>, file: nat, offset: real, end: bool): Option<int> {
    var own := ByFile(pieces, file);
    if own == [] then None
    else
      var found := BisectRight(FileStarts(own), (offset + 0.001).Floor, 0, |own|) - 1;
      var i := if found < 0 then 0 else found;
      var inside := offset - own[i].fileStart as real;
      if inside > own[i].duration as real && !end && i + 1 < |own| then Some(own[i + 1].start)
      else Some(Round(own[i].start as real + Min(Max(0.0, inside), own[i].duration as real)))
  }

  function Span(pieces: seq<MixPiece>, file: nat, start: real, stop: real): Option<(int, int)> {
    var first, last := PositionInFile(pieces, file, start, false), PositionInFile(pieces, file, stop, true);
    if first.None? || last.None? then None
    else Some((first.value, if first.value >= last.value then first.value else last.value))
  }

  /** wall_time: milliseconds on the wall clock of an offset into a chunk file. */
  function WallTime(books: seq<Piece>, offset: real): real
    requires books != []
  {
    var found := BisectRight(seq(|books|, k requires 0 <= k < |books| => books[k].offset), offset.Floor, 0, |books|) - 1;
    var i := if found < 0 then 0 else found;
    books[i].wall as real + Max(0.0, offset - books[i].offset as real)
  }

  // ---- What build_mix promises about a plan

  ghost predicate WallsAscend(pieces: seq<MixPiece>) {
    forall i, j :: 0 <= i <= j < |pieces| ==> pieces[i].wall <= pieces[j].wall
  }

  /** Pieces in wall-clock order, each starting no earlier than the one before ends, but for slack milliseconds. */
  ghost predicate PlanWithin(pieces: seq<MixPiece>, slack: nat) {
    && WallsAscend(pieces)
    && (forall i :: 0 <= i < |pieces| ==> pieces[i].duration >= 0 && pieces[i].start >= 0)
    && (forall i, j :: 0 <= i <= j < |pieces| ==> pieces[i].start <= pieces[j].start)
    && forall i, j :: 0 <= i < j < |pieces| ==> pieces[i].start + pieces[i].duration <= pieces[j].start + slack
  }

  ghost predicate PlanOk(pieces: seq<MixPiece>) { PlanWithin(pieces, 0) }

  /** Piece k starts after the one before it, and where that one ends but for the slack. */
  predicate Linked(pieces: seq<MixPiece>, k: nat, slack: nat)
    requires 0 < k < |pieces|
  {
    && pieces[k - 1].start <= pieces[k].start
    && pieces[k - 1].start + pieces[k - 1].duration <= pieces[k].start + slack
  }

  lemma ChainOk(pieces: seq<MixPiece>, slack: nat)
    requires WallsAscend(pieces)
    requires forall i :: 0 <= i < |pieces| ==> pieces[i].duration >= 0 && pieces[i].start >= 0
    requires forall k :: 0 < k < |pieces| ==> Linked(pieces, k, slack)
    ensures PlanWithin(pieces, slack)
  {
    forall i, j | 0 <= i < j < |pieces|
      ensures pieces[i].start <= pieces[j].start && pieces[i].start + pieces[i].duration <= pieces[j].start + slack
    {
      StartsFollow(pieces, i, j, slack);
    }
  }

  /** Rounding can cost a millisecond only without a gap of one silence packet, and not in whole milliseconds. */
  function PlanSlack(lib: Library, gapMs: nat): nat { if WholeMs(lib) || gapMs >= 20 then 0 else 1 }

  /** What every plan of build_mix is. */
  lemma BuiltPlanOk(sources: seq<Source>, lib: Library, gapMs: nat)
    ensures PlanWithin(MixOf(SortItems(AllItems(sources)), lib, gapMs).pieces, PlanSlack(lib, gapMs))
  {
    hide MixOf, SortItems, AllItems, WholeMs, Audible, LaidOut;
    var b := MixOf(SortItems(AllItems(sources)), lib, gapMs);
    var who, spans := MixInOrder(sources, lib, gapMs);
    PieceWalls(b, lib, gapMs, who, spans);
    forall k | 0 < k < |b.pieces| ensures Linked(b.pieces, k, PlanSlack(lib, gapMs)) {
      PlanExact(b, lib, gapMs, who, spans, k);
    }
    ChainOk(b.pieces, PlanSlack(lib, gapMs));
  }

  /** A start and a length, in samples, whose roundings to milliseconds add up to one too many. */
  predicate Collide(start: nat, length: nat) { start % 48 >= 24 && length % 48 >= 24 && start % 48 + length % 48 < 72 }

  /** Exactly which mixes have such a plan. */
  lemma BuiltPlanOkIff(sources: seq<Source>, lib: Library, gapMs: nat) returns (who: seq<Item>, spans: seq<(nat, nat)>)
    ensures var b := MixOf(SortItems(AllItems(sources)), lib, gapMs);
            && LaidOut(b, lib, gapMs, who, spans)
            && (PlanOk(b.pieces) <==> gapMs >= 20 || NoClash(b.slots, lib, spans))
  {
    hide MixOf, SortItems, AllItems, Audible, Clash, LaidOut, PlanOk;
    who, spans := MixInOrder(sources, lib, gapMs);
    var b := MixOf(SortItems(AllItems(sources)), lib, gapMs);
    PieceWalls(b, lib, gapMs, who, spans);
    LaidOutSizes(b, lib, gapMs, who, spans);
    forall k: nat | k + 1 < |b.pieces| ensures InTurn(b.pieces, k) <==> gapMs >= 20 || !Clash(b.slots, lib, spans[k]) {
      NextFits(b, lib, gapMs, who, spans, k + 1);
    }
    hide InTurn;
    PlanOkIff(b.pieces);
  }

  lemma LaidOutSizes(b: Built, lib: Library, gapMs: nat, who: seq<Item>, spans: seq<(nat, nat)>)
    requires LaidOut(b, lib, gapMs, who, spans)
    ensures |b.pieces| == |who| == |spans|
  {}

  predicate InTurn(pieces: seq<MixPiece>, k: nat)
    requires k + 1 < |pieces|
  {
    pieces[k].start + pieces[k].duration <= pieces[k + 1].start
  }

  lemma PlanOkIff(pieces: seq<MixPiece>)
    requires WallsAscend(pieces)
    requires forall i :: 0 <= i < |pieces| ==> pieces[i].duration >= 0 && pieces[i].start >= 0
    ensures PlanOk(pieces) <==> forall k: nat :: k + 1 < |pieces| ==> InTurn(pieces, k)
  {
    if forall k: nat :: k + 1 < |pieces| ==> InTurn(pieces, k) {
      forall k | 0 < k < |pieces| ensures Linked(pieces, k, 0) { assert InTurn(pieces, k - 1); }
      ChainOk(pieces, 0);
    }
  }

  ghost predicate NoClash(slots: seq<MixSlot>, lib: Library, spans: seq<(nat, nat)>) {
    forall k: nat :: k < |spans| - 1 ==> !Clash(slots, lib, spans[k])
  }

  /** The piece in this span of the mix is too long by rounding for the next one to follow it directly. */
  ghost predicate Clash(slots: seq<MixSlot>, lib: Library, span: (nat, nat)) {
    span.0 <= span.1 <= |slots| && Collide(MixTotal(slots[..span.0], lib), MixTotal(slots[span.0..span.1], lib))
  }

  lemma NextFits(b: Built, lib: Library, gapMs: nat, who: seq<Item>, spans: seq<(nat, nat)>, k: nat)
    requires LaidOut(b, lib, gapMs, who, spans) && 0 < k < |who|
    ensures b.pieces[k - 1].start + b.pieces[k - 1].duration <= b.pieces[k].start
       <==> gapMs >= 20 || !Clash(b.slots, lib, spans[k - 1])
  {
    hide First, Picks, MixTotal, RoundMs, Collide;
    var slots, a, z := b.slots, spans[k - 1], spans[k];
    assert SpanOk(slots, lib, who[k - 1], a, b.pieces[k - 1]) && SpanOk(slots, lib, who[k], z, b.pieces[k]);
    assert Apart(slots, gapMs, spans[k - 1], spans[k]);
    SpanTotal(slots, lib, gapMs, a, z);
    Roundings(MixTotal(slots[..a.0], lib), MixTotal(slots[a.0..a.1], lib), gapMs / 20);
  }

  lemma Roundings(a: nat, b: nat, gap: nat)
    ensures RoundMs(a) + RoundMs(b) <= RoundMs(a + b + 960 * gap) <==> gap > 0 || !Collide(a, b)
  {}

  lemma PieceWalls(b: Built, lib: Library, gapMs: nat, who: seq<Item>, spans: seq<(nat, nat)>)
    requires LaidOut(b, lib, gapMs, who, spans)
    ensures |b.pieces| == |who|
    ensures forall j :: 0 <= j < |who| ==> b.pieces[j].wall == who[j].wall && b.pieces[j].duration >= 0 && b.pieces[j].start >= 0
  {
    hide First, Picks, MixTotal, Apart;
    forall j | 0 <= j < |who| ensures b.pieces[j].wall == who[j].wall && b.pieces[j].duration >= 0 && b.pieces[j].start >= 0 {
      assert SpanOk(b.slots, lib, who[j], spans[j], b.pieces[j]);
    }
  }

  lemma {:induction false} StartsFollow(pieces: seq<MixPiece>, i: nat, j: nat, slack: nat)
    requires i < j < |pieces| && forall k :: 0 < k < |pieces| ==> Linked(pieces, k, slack)
    ensures pieces[i].start <= pieces[j].start && pieces[i].start + pieces[i].duration <= pieces[j].start + slack
    decreases j
  {
    assert Linked(pieces, j, slack);
    if i < j - 1 { StartsFollow(pieces, i, j - 1, slack); }
  }

  // ---- position_at

  /** The reference: walk back from the end to the last piece begun by then. */
  function Begun(pieces: seq<MixPiece>, wall: real): (n: nat)
    ensures n <= |pieces|
  {
    if pieces == [] then 0
    else if pieces[|pieces| - 1].wall as real <= wall then |pieces|
    else Begun(pieces[..|pieces| - 1], wall)
  }

  function LinearPosition(pieces: seq<MixPiece>, wall: real): Option<int> {
    var n := Begun(pieces, wall);
    if pieces == [] then None
    else if n > 0 && wall <= (pieces[n - 1].wall + pieces[n - 1].duration) as real then
      Some(Round(pieces[n - 1].start as real + (wall - pieces[n - 1].wall as real)))
    else if n < |pieces| then Some(pieces[n].start)
    else Some(pieces[n - 1].start + pieces[n - 1].duration)
  }

  lemma {:induction false} BegunIs(pieces: seq<MixPiece>, wall: real, n: nat)
    requires n <= |pieces| && (forall i :: 0 <= i < n ==> pieces[i].wall as real <= wall)
    requires forall i :: n <= i < |pieces| ==> pieces[i].wall as real > wall
    ensures Begun(pieces, wall) == n
  {
    if n < |pieces| { BegunIs(pieces[..|pieces| - 1], wall, n); }
  }

  /** The binary search finds the last piece begun by then. */
  lemma SearchFinds(pieces: seq<MixPiece>, wall: real)
    requires WallsAscend(pieces)
    ensures var n := BisectRight(Walls(pieces), wall.Floor, 0, |pieces|);
            && (forall i :: 0 <= i < n ==> pieces[i].wall as real <= wall)
            && forall i :: n <= i < |pieces| ==> pieces[i].wall as real > wall
  {
    var walls := Walls(pieces);
    assert Ascending(walls);
    BisectRightFinds(walls, wall.Floor, 0, |walls|);
    var n := BisectRight(walls, wall.Floor, 0, |walls|);
    forall i | 0 <= i < |pieces| ensures (i < n ==> pieces[i].wall as real <= wall) && (i >= n ==> pieces[i].wall as real > wall) {
      assert walls[i] == pieces[i].wall;
    }
  }

  lemma PositionIsLinear(pieces: seq<MixPiece>, wall: real)
    requires WallsAscend(pieces)
    ensures PositionAt(pieces, wall) == LinearPosition(pieces, wall)
  {
    hide Begun, BisectRight, Walls, Round;
    SearchFinds(pieces, wall);
    hide WallsAscend;
    BegunIs(pieces, wall, BisectRight(Walls(pieces), wall.Floor, 0, |pieces|));
  }

  /** In every mix that is made. */
  lemma BuiltPositionIsLinear(sources: seq<Source>, lib: Library, gapMs: nat, wall: real)
    ensures var plan := MixOf(SortItems(AllItems(sources)), lib, gapMs).pieces;
            PositionAt(plan, wall) == LinearPosition(plan, wall)
  {
    hide MixOf, SortItems, AllItems, PositionAt, LinearPosition;
    BuiltPlanOk(sources, lib, gapMs);
    PositionIsLinear(MixOf(SortItems(AllItems(sources)), lib, gapMs).pieces, wall);
  }

  /** Between the start of the piece last begun and the start of the one after it (or the end). */
  lemma PositionBetween(pieces: seq<MixPiece>, wall: real, slack: nat)
    requires PlanWithin(pieces, slack) && pieces != []
    ensures var n, at := BisectRight(Walls(pieces), wall.Floor, 0, |pieces|), PositionAt(pieces, wall).value;
            && (n > 0 ==> pieces[n - 1].start <= at)
            && (if n < |pieces| then at <= pieces[n].start + slack
                else at <= pieces[|pieces| - 1].start + pieces[|pieces| - 1].duration)
  {
    hide BisectRight, Walls;
    SearchFinds(pieces, wall);
  }

  lemma RoundWithin(start: int, inside: real, duration: int)
    requires inside <= duration as real
    ensures Round(start as real + inside) <= start + duration
  {}

  /**
   A later moment never lands earlier in the mix, even where speech overlaps, and never outside it; where rounding
   let two pieces of the plan overlap, by the slack at most.
   */
  lemma PositionMonotone(pieces: seq<MixPiece>, a: real, b: real, slack: nat)
    requires PlanWithin(pieces, slack) && pieces != [] && a <= b
    ensures PositionAt(pieces, a).value <= PositionAt(pieces, b).value + slack
    ensures 0 <= PositionAt(pieces, a).value <= pieces[|pieces| - 1].start + pieces[|pieces| - 1].duration + slack
  {
    hide BisectRight, Walls;
    SearchFinds(pieces, a);
    SearchFinds(pieces, b);
    PositionBetween(pieces, a, slack);
    PositionBetween(pieces, b, slack);
    var m, n := BisectRight(Walls(pieces), a.Floor, 0, |pieces|), BisectRight(Walls(pieces), b.Floor, 0, |pieces|);
    assert n < |pieces| ==> pieces[n].wall as real > a;
    assert m <= n;
    if m < n {
      hide PositionAt;
    } else {
      SamePieceMonotone(pieces, a, b, slack);
    }
  }

  /** While no further piece begins. */
  lemma SamePieceMonotone(pieces: seq<MixPiece>, a: real, b: real, slack: nat)
    requires PlanWithin(pieces, slack) && pieces != [] && a <= b
    requires BisectRight(Walls(pieces), a.Floor, 0, |pieces|) == BisectRight(Walls(pieces), b.Floor, 0, |pieces|)
    ensures PositionAt(pieces, a).value <= PositionAt(pieces, b).value + slack
  {
    hide BisectRight, Walls;
    SearchFinds(pieces, a);
    PositionBetween(pieces, a, slack);
  }

  // ---- position_in_file

  ghost predicate StartsAscend(s: seq<MixPiece>) { forall i, j :: 0 <= i <= j < |s| ==> s[i].fileStart <= s[j].fileStart }

  lemma {:induction false} InsertKeeps(p: MixPiece, s: seq<MixPiece>)
    requires StartsAscend(s)
    ensures StartsAscend(InsertByStart(p, s))
    ensures forall q :: q in InsertByStart(p, s) <==> q == p || q in s
  {
    if s != [] && p.fileStart >= s[0].fileStart {
      InsertKeeps(p, s[1..]);
      assert s == [s[0]] + s[1..];
      var rest := InsertByStart(p, s[1..]);
      forall q <- rest ensures s[0].fileStart <= q.fileStart {
        if q != p { assert q in s[1..]; }
      }
    }
  }

  lemma {:induction false} ByFileIs(pieces: seq<MixPiece>, file: nat)
    ensures StartsAscend(ByFile(pieces, file))
    ensures forall q :: q in ByFile(pieces, file) <==> q in pieces && q.file == file
  {
    if pieces != [] {
      var front, last := pieces[..|pieces| - 1], pieces[|pieces| - 1];
      ByFileIs(front, file);
      InsertKeeps(last, ByFile(front, file));
      assert pieces == front + [last];
    }
  }

  /** The offset is in this piece: no other piece of the file starts between its start and (a microsecond past) the offset. */
  ghost predicate Inside(pieces: seq<MixPiece>, j: nat, offset: real)
    requires j < |pieces|
  {
    && pieces[j].fileStart as real <= offset <= (pieces[j].fileStart + pieces[j].duration) as real
    && forall q <- pieces :: q.file == pieces[j].file && q != pieces[j] ==>
         q.fileStart < pieces[j].fileStart || q.fileStart as real > offset + 0.001
  }

  lemma InsidePosition(pieces: seq<MixPiece>, j: nat, offset: real, end: bool)
    requires j < |pieces| && Inside(pieces, j, offset)
    ensures PositionInFile(pieces, pieces[j].file, offset, end)
         == Some(Round(pieces[j].start as real + (offset - pieces[j].fileStart as real)))
  {
    var own, mine := ByFile(pieces, pieces[j].file), pieces[j];
    ByFileIs(pieces, mine.file);
    var starts := FileStarts(own);
    assert Ascending(starts);
    var x := (offset + 0.001).Floor;
    BisectRightFinds(starts, x, 0, |own|);
    var n := BisectRight(starts, x, 0, |own|);
    assert mine in own;
    var m :| 0 <= m < |own| && own[m] == mine;
    assert starts[m] <= x;
    assert m < n;
    assert own[n - 1] == mine by {
      assert starts[n - 1] <= x && own[n - 1] in own && own[n - 1].fileStart >= mine.fileStart;
    }
  }

  /** The chunk's books say the same of the piece as the plan, and its next piece has not begun at the offset. */
  ghost predicate Booked(books: seq<Piece>, i: nat, mine: MixPiece, offset: real) {
    && OffsetsAscend(books) && i < |books|
    && books[i].offset == mine.fileStart && books[i].wall == mine.wall
    && (i + 1 < |books| ==> books[i + 1].offset as real > offset)
  }

  lemma BookedWall(books: seq<Piece>, i: nat, mine: MixPiece, offset: real)
    requires Booked(books, i, mine, offset) && mine.fileStart as real <= offset
    ensures WallTime(books, offset) == mine.wall as real + (offset - mine.fileStart as real)
  {
    var starts := seq(|books|, k requires 0 <= k < |books| => books[k].offset);
    assert Ascending(starts);
    BisectRightFinds(starts, offset.Floor, 0, |books|);
    var n := BisectRight(starts, offset.Floor, 0, |books|);
    assert starts[i] <= offset.Floor;
    if i + 1 < |books| { assert starts[i + 1] > offset.Floor; }
  }

  /** An offset before the books' first piece has that piece's time. */
  lemma WallBefore(books: seq<Piece>, offset: real)
    requires books != [] && OffsetsAscend(books) && offset <= books[0].offset as real
    requires forall i :: 0 < i < |books| ==> books[i].offset as real > offset
    ensures WallTime(books, offset) == books[0].wall as real
  {
    var starts := seq(|books|, k requires 0 <= k < |books| => books[k].offset);
    assert Ascending(starts);
    BisectRightFinds(starts, offset.Floor, 0, |books|);
    if |books| > 1 { assert starts[1] > offset.Floor; }
  }

  /** Positions are rounded to the nearest millisecond, halves up. */
  lemma RoundsToNearest(x: real)
    ensures Round(x) as real - 0.5 <= x < Round(x) as real + 0.5
  {}

  /**
   A moment inside a piece, found through its file and through the wall clock. The wall clock never gives an
   earlier place (but for the slack); it gives the same one when no later piece had begun by then, and a later one
   when one had and the mix leaves a gap.
   */
  lemma PositionsAgree(pieces: seq<MixPiece>, j: nat, books: seq<Piece>, i: nat, offset: real, slack: nat)
    requires PlanWithin(pieces, slack) && j < |pieces| && Inside(pieces, j, offset) && Booked(books, i, pieces[j], offset)
    ensures var wall := WallTime(books, offset);
            var viaFile, viaWall := PositionInFile(pieces, pieces[j].file, offset, false), PositionAt(pieces, wall);
            && viaFile.Some? && viaWall.Some? && viaFile.value <= viaWall.value + slack
            && (j + 1 == |pieces| || pieces[j + 1].wall as real > wall ==> viaFile == viaWall)
            && (j + 1 < |pieces| && pieces[j + 1].wall as real <= wall && pieces[j].start + pieces[j].duration < pieces[j + 1].start
                ==> viaFile.value < viaWall.value)
  {
    assert pieces[j].fileStart as real <= offset <= (pieces[j].fileStart + pieces[j].duration) as real;
    hide WallTime, PositionInFile, PositionAt, Inside, Booked, Round, PlanWithin;
    BookedWall(books, i, pieces[j], offset);
    InsidePosition(pieces, j, offset, false);
    WallPosition(pieces, j, WallTime(books, offset), offset - pieces[j].fileStart as real, slack);
  }

  /** The wall clock's answer for a moment this far into piece j. */
  lemma WallPosition(pieces: seq<MixPiece>, j: nat, wall: real, into: real, slack: nat)
    requires PlanWithin(pieces, slack) && j < |pieces| && 0.0 <= into <= pieces[j].duration as real
    requires wall == pieces[j].wall as real + into
    ensures var viaFile, viaWall := Round(pieces[j].start as real + into), PositionAt(pieces, wall);
            && viaWall.Some? && viaFile <= viaWall.value + slack
            && (j + 1 == |pieces| || pieces[j + 1].wall as real > wall ==> viaFile == viaWall.value)
            && (j + 1 < |pieces| && pieces[j + 1].wall as real <= wall && pieces[j].start + pieces[j].duration < pieces[j + 1].start
                ==> viaFile < viaWall.value)
  {
    hide BisectRight, Walls, Round;
    RoundWithin(pieces[j].start, into, pieces[j].duration);
    SearchFinds(pieces, wall);
    PositionBetween(pieces, wall, slack);
    var n := BisectRight(Walls(pieces), wall.Floor, 0, |pieces|);
    assert n > j;
    if j + 1 < |pieces| && pieces[j + 1].wall as real <= wall {
      assert n > j + 1;
      assert pieces[j + 1].start <= pieces[n - 1].start;
    } else {
      assert j + 1 < |pieces| ==> pieces[j + 1].wall as real > wall;
      assert n == j + 1;
    }
  }

  /** Piece j is the last of its file to begin by (a microsecond past) the offset. */
  ghost predicate LastBegun(pieces: seq<MixPiece>, j: nat, offset: real) {
    && j < |pieces| && pieces[j].fileStart as real <= offset + 0.001
    && forall q <- pieces :: q.file == pieces[j].file && q != pieces[j] ==>
         q.fileStart < pieces[j].fileStart || q.fileStart as real > offset + 0.001
  }

  /** Piece k is the next of this file to begin after the offset. */
  ghost predicate NextBegins(pieces: seq<MixPiece>, file: nat, k: nat, offset: real) {
    && k < |pieces| && pieces[k].file == file && pieces[k].fileStart as real > offset + 0.001
    && forall q <- pieces :: q.file == file && q != pieces[k] ==>
         q.fileStart as real <= offset + 0.001 || q.fileStart > pieces[k].fileStart
  }

  /** What the search in a file's pieces finds: how many of them begin by the offset. */
  lemma FileSearch(pieces: seq<MixPiece>, file: nat, offset: real)
    ensures var own := ByFile(pieces, file);
            var n := BisectRight(FileStarts(own), (offset + 0.001).Floor, 0, |own|);
            && (forall i :: 0 <= i < n ==> own[i].fileStart as real <= offset + 0.001)
            && (forall i :: n <= i < |own| ==> own[i].fileStart as real > offset + 0.001)
            && StartsAscend(own) && forall q :: q in own <==> q in pieces && q.file == file
  {
    var own := ByFile(pieces, file);
    ByFileIs(pieces, file);
    var starts := FileStarts(own);
    assert Ascending(starts);
    BisectRightFinds(starts, (offset + 0.001).Floor, 0, |own|);
    forall i | 0 <= i < |own| ensures own[i].fileStart == starts[i] {}
  }

  lemma FoundLast(pieces: seq<MixPiece>, j: nat, offset: real)
    requires LastBegun(pieces, j, offset)
    ensures var own := ByFile(pieces, pieces[j].file);
            var n := BisectRight(FileStarts(own), (offset + 0.001).Floor, 0, |own|);
            n > 0 && own[n - 1] == pieces[j]
  {
    hide BisectRight, FileStarts, ByFile;
    var own, mine := ByFile(pieces, pieces[j].file), pieces[j];
    FileSearch(pieces, mine.file, offset);
    var n := BisectRight(FileStarts(own), (offset + 0.001).Floor, 0, |own|);
    assert mine in own;
    var m :| 0 <= m < |own| && own[m] == mine;
    assert m < n && own[n - 1] in own && own[n - 1].fileStart >= mine.fileStart;
  }

  lemma FoundNext(pieces: seq<MixPiece>, file: nat, k: nat, offset: real)
    requires NextBegins(pieces, file, k, offset)
    ensures var own := ByFile(pieces, file);
            var n := BisectRight(FileStarts(own), (offset + 0.001).Floor, 0, |own|);
            n < |own| && own[n] == pieces[k]
  {
    hide BisectRight, FileStarts, ByFile;
    var own, next := ByFile(pieces, file), pieces[k];
    FileSearch(pieces, file, offset);
    var n := BisectRight(FileStarts(own), (offset + 0.001).Floor, 0, |own|);
    assert next in own;
    var m :| 0 <= m < |own| && own[m] == next;
    assert n <= m && own[n] in own && own[n].fileStart <= next.fileStart;
  }

  /**
   An offset in the pause after a piece, which the mix has cut out, is the start of the next piece of the file, or with
   end the end of the piece before; after the last piece it is always that end.
   */
  lemma PausePosition(pieces: seq<MixPiece>, j: nat, offset: real, end: bool)
    requires j < |pieces| && LastBegun(pieces, j, offset) && pieces[j].duration >= 0
    requires offset > (pieces[j].fileStart + pieces[j].duration) as real
    ensures forall k: nat :: k < |pieces| && NextBegins(pieces, pieces[j].file, k, offset) && !end ==>
      PositionInFile(pieces, pieces[j].file, offset, end) == Some(pieces[k].start)
    ensures end || (forall q <- pieces :: q.file == pieces[j].file ==> q.fileStart as real <= offset + 0.001) ==>
      PositionInFile(pieces, pieces[j].file, offset, end) == Some(pieces[j].start + pieces[j].duration)
  {
    hide LastBegun, NextBegins, BisectRight, FileStarts, ByFile;
    FoundLast(pieces, j, offset);
    FileSearch(pieces, pieces[j].file, offset);
    var own := ByFile(pieces, pieces[j].file);
    var n := BisectRight(FileStarts(own), (offset + 0.001).Floor, 0, |own|);
    assert forall i :: 0 <= i < |own| ==> own[i] in own;
    forall k: nat | k < |pieces| && NextBegins(pieces, pieces[j].file, k, offset) && !end
      ensures PositionInFile(pieces, pieces[j].file, offset, end) == Some(pieces[k].start)
    {
      FoundNext(pieces, pieces[j].file, k, offset);
    }
  }

  lemma NextIn(pieces: seq<MixPiece>, file: nat, k: nat, offset: real)
    requires NextBegins(pieces, file, k, offset)
    ensures k < |pieces| && pieces[k] in pieces && pieces[k].file == file
  {}

  /** An offset before the first piece of the file is the start of that piece. */
  lemma BeforePosition(pieces: seq<MixPiece>, file: nat, k: nat, offset: real, end: bool)
    requires k < |pieces| && NextBegins(pieces, file, k, offset) && pieces[k].duration >= 0
    requires forall q <- pieces :: q.file == file ==> q.fileStart as real > offset + 0.001
    ensures PositionInFile(pieces, file, offset, end) == Some(pieces[k].start)
  {
    hide NextBegins, BisectRight, FileStarts, ByFile;
    FoundNext(pieces, file, k, offset);
    FileSearch(pieces, file, offset);
    var own := ByFile(pieces, file);
    var n := BisectRight(FileStarts(own), (offset + 0.001).Floor, 0, |own|);
    assert forall i :: 0 <= i < |own| ==> own[i] in own;
    assert pieces[k] in pieces && pieces[k].file == file by { NextIn(pieces, file, k, offset); }
  }

  /** A segment that begins inside a piece and ends before the next one: cut where the piece ends. */
  lemma SegmentSpan(pieces: seq<MixPiece>, j: nat, start: real, stop: real)
    requires j < |pieces| && Inside(pieces, j, start) && start <= stop && LastBegun(pieces, j, stop)
    ensures var mine := pieces[j];
            var length := if stop - mine.fileStart as real < mine.duration as real then stop - mine.fileStart as real
                          else mine.duration as real;
            Span(pieces, mine.file, start, stop)
              == Some((Round(mine.start as real + (start - mine.fileStart as real)), Round(mine.start as real + length)))
  {
    hide PositionInFile, Inside, LastBegun, NextBegins, Round;
    var mine := pieces[j];
    InsideBounds(pieces, j, start, stop);
    InsidePosition(pieces, j, start, false);
    if stop <= (mine.fileStart + mine.duration) as real {
      InsidePosition(pieces, j, stop, true);
    } else {
      PausePosition(pieces, j, stop, true);
    }
    RoundMonotone(mine.start, start - mine.fileStart as real, stop - mine.fileStart as real, mine.duration);
  }

  lemma InsideBounds(pieces: seq<MixPiece>, j: nat, start: real, stop: real)
    requires j < |pieces| && Inside(pieces, j, start) && start <= stop && LastBegun(pieces, j, stop)
    ensures pieces[j].fileStart as real <= start <= (pieces[j].fileStart + pieces[j].duration) as real
    ensures stop <= (pieces[j].fileStart + pieces[j].duration) as real ==> Inside(pieces, j, stop)
  {}

  lemma RoundMonotone(at: int, a: real, b: real, duration: int)
    ensures a <= b ==> Round(at as real + a) <= Round(at as real + b)
    ensures a <= duration as real ==> Round(at as real + a) <= at + duration
    ensures Round(at as real + duration as real) == at + duration
  {}

  /** A segment's end never lands before its start. */
  lemma SpanForward(pieces: seq<MixPiece>, file: nat, start: real, stop: real)
    ensures Span(pieces, file, start, stop).Some? <==> exists p <- pieces :: p.file == file
    ensures Span(pieces, file, start, stop).Some? ==> Span(pieces, file, start, stop).value.0 <= Span(pieces, file, start, stop).value.1
  {
    ByFileIs(pieces, file);
    var own := ByFile(pieces, file);
    if own != [] { assert own[0] in own; }
  }
}
