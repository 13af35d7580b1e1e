/** build_mix (ttsbot/archive/mix.py): every speaker's pieces joined into one file, in wall-clock order. */
module Mix {
  import opened Bytes
  import opened OpusPacket
  import opened OggIndex
  import opened Recorder

  /** A chunk file as the session lists it; without audio when retention deleted it. */
  datatype Source = Source(user: int, file: nat, hasAudio: bool, pieces: seq<Piece>)

  /** One piece to be placed: where it starts in its file, and where the next one of the file does. */
  datatype Item = Item(wall: int, user: int, file: nat, offset: nat, following: Option<nat>)

  /** A packet of the mix: copied from a file, or silence between pieces. */
  datatype MixSlot = Copied(file: nat, k: nat) | Pause

  /** Where a piece landed; times in milliseconds. */
  datatype MixPiece = MixPiece(user: int, file: nat, fileStart: int, wall: int, start: int, duration: int)

  /** The packets of every file that can be read. */
  type Library = map<nat, seq<bytes>>

  // ---- The order

  /** sorted(pieces, key=offset) */
  function InsertPiece(p: Piece, s: seq<Piece>): seq<Piece> {
    if s == [] || p.offset < s[0].offset then [p] + s else [s[0]] + InsertPiece(p, s[1..])
  }

  function ByOffset(pieces: seq<Piece>): seq<Piece> {
    if pieces == [] then [] else InsertPiece(pieces[|pieces| - 1], ByOffset(pieces[..|pieces| - 1]))
  }

  function ItemsFrom(c: Source, sorted: seq<Piece>, i: nat): seq<Item>
    decreases |sorted| - i
  {
    if i >= |sorted| then []
    else
      [Item(sorted[i].wall, c.user, c.file, sorted[i].offset, if i + 1 < |sorted| then Some(sorted[i + 1].offset) else None)]
      + ItemsFrom(c, sorted, i + 1)
  }

  function AllItems(sources: seq<Source>): seq<Item> {
    if sources == [] then []
    else (if sources[0].hasAudio then ItemsFrom(sources[0], ByOffset(sources[0].pieces), 0) else []) + AllItems(sources[1..])
  }

  /** (wall, user, file, offset), compared in turn. */
  predicate Precedes(a: Item, b: Item) {
    a.wall < b.wall || (a.wall == b.wall && (a.user < b.user || (a.user == b.user
      && (a.file < b.file || (a.file == b.file && a.offset < b.offset)))))
  }

  function InsertItem(x: Item, s: seq<Item>): seq<Item> {
    if s == [] || Precedes(x, s[0]) then [x] + s else [s[0]] + InsertItem(x, s[1..])
  }

  function SortItems(items: seq<Item>): seq<Item> {
    if items == [] then [] else InsertItem(items[|items| - 1], SortItems(items[..|items| - 1]))
  }

  // ---- One piece

  /** The packets of a piece end before the pause the recorder put after it. */
  function Trim(packets: seq<bytes>, first: nat, last: nat): (r: nat)
    requires last <= |packets|
    ensures r <= last && (first <= last ==> first <= r)
    ensures forall k :: r <= k < last ==> packets[k] == OPUS_SILENCE
    ensures r > first ==> packets[r - 1] != OPUS_SILENCE
    decreases last
  {
    if last > first && packets[last - 1] == OPUS_SILENCE then Trim(packets, first, last - 1) else last
  }

  function First(item: Item, packets: seq<bytes>): (r: nat)
    ensures r <= |packets|
  {
    FirstAt(packets, 48 * item.offset)
  }

  function RawLast(item: Item, packets: seq<bytes>): (r: nat)
    ensures r <= |packets|
  {
    if item.following.Some? then FirstAt(packets, 48 * item.following.value) else |packets|
  }

  function Last(item: Item, packets: seq<bytes>): (r: nat)
    ensures r <= |packets|
  {
    Trim(packets, First(item, packets), RawLast(item, packets))
  }

  function When<T>(also: bool, x: T): seq<T> { if also then [x] else [] }

  /** The copies of packets first..last of a file; an undecodable one is dropped. */
  function Copies(file: nat, packets: seq<bytes>, first: nat, last: nat): seq<MixSlot>
    requires last <= |packets|
    decreases last
  {
    if last <= first then []
    else Copies(file, packets, first, last - 1) + When(Playable(packets[last - 1]), Copied(file, last - 1))
  }

  function Picks(item: Item, lib: Library): seq<MixSlot> {
    if item.file in lib
    then Copies(item.file, lib[item.file], First(item, lib[item.file]), Last(item, lib[item.file]))
    else []
  }

  /** The item has packets to copy. */
  predicate Audible(item: Item, lib: Library) {
    item.file in lib && First(item, lib[item.file]) < Last(item, lib[item.file])
  }

  // ---- The mix

  datatype Built = Built(slots: seq<MixSlot>, pieces: seq<MixPiece>)

  function MixSamples(s: MixSlot, lib: Library): nat {
    if s.Pause? then 960
    else if s.file in lib && s.k < |lib[s.file]| then IndexSamples(lib[s.file][s.k])
    else 0
  }

  function MixTotal(slots: seq<MixSlot>, lib: Library): nat {
    if slots == [] then 0 else MixTotal(slots[..|slots| - 1], lib) + MixSamples(slots[|slots| - 1], lib)
  }

  function PauseSlots(gapMs: nat): seq<MixSlot> { seq(gapMs * 48 / 960, _ => Pause) }

  function Place(b: Built, item: Item, lib: Library, gapMs: nat): Built {
    if !Audible(item, lib) then b
    else
      var spaced := if b.pieces == [] then b.slots else b.slots + PauseSlots(gapMs);
      var all := spaced + Picks(item, lib);
      var start := MixTotal(spaced, lib);
      var fileStart := IndexTotal(lib[item.file][..First(item, lib[item.file])]);
      Built(all, b.pieces + [MixPiece(item.user, item.file, RoundMs(fileStart), item.wall, RoundMs(start),
                                      RoundMs(MixTotal(Picks(item, lib), lib)))])
  }

  function MixOf(order: seq<Item>, lib: Library, gapMs: nat): Built {
    if order == [] then Built([], [])
    else Place(MixOf(order[..|order| - 1], lib, gapMs), order[|order| - 1], lib, gapMs)
  }

  ghost predicate Missing(sources: seq<Source>, f: nat) { exists c <- sources :: !c.hasAudio && c.file == f }

  lemma MissingMore(sources: seq<Source>, c: Source, f: nat)
    ensures Missing(sources + [c], f) <==> Missing(sources, f) || (!c.hasAudio && c.file == f)
  {
    var all := sources + [c];
    assert all[|sources|] == c && forall x <- sources :: x in all;
    assert forall x <- all :: x == c || x in sources;
  }

  lemma MissingAll(missing: seq<nat>, sources: seq<Source>, c: Source)
    requires forall f :: f in missing <==> Missing(sources, f)
    ensures forall f :: f in (if c.hasAudio then missing else missing + [c.file]) <==> Missing(sources + [c], f)
  {
    hide Missing;
    forall f: nat ensures f in (if c.hasAudio then missing else missing + [c.file]) <==> Missing(sources + [c], f) {
      MissingMore(sources, c, f);
    }
  }

  lemma ItemsNext(sources: seq<Source>, i: nat)
    requires i < |sources|
    ensures AllItems(sources[i..]) ==
      (if sources[i].hasAudio then ItemsFrom(sources[i], ByOffset(sources[i].pieces), 0) else []) + AllItems(sources[i + 1..])
  {
    assert sources[i..][1..] == sources[i + 1..];
  }

  method Collect(sources: seq<Source>) returns (order: seq<Item>, missing: seq<nat>)
    ensures order == AllItems(sources)
    ensures forall f :: f in missing <==> Missing(sources, f)
  {
    hide ItemsFrom, ByOffset, Missing, AllItems;
    order, missing := [], [];
    assert sources[0..] == sources && order + AllItems(sources) == AllItems(sources);
    forall f: nat ensures !Missing(sources[..0], f) { NoneMissing(f); }
    for i := 0 to |sources|
      invariant order + AllItems(sources[i..]) == AllItems(sources)
      invariant forall f :: f in missing <==> Missing(sources[..i], f)
    {
      ItemsNext(sources, i);
      assert sources[..i + 1] == sources[..i] + [sources[i]];
      MissingAll(missing, sources[..i], sources[i]);
      if sources[i].hasAudio {
        var items := ItemsFrom(sources[i], ByOffset(sources[i].pieces), 0);
        JoinThree(order, items, AllItems(sources[i + 1..]));
        order := order + items;
      } else {
        assert [] + AllItems(sources[i + 1..]) == AllItems(sources[i + 1..]);
        missing := missing + [sources[i].file];
      }
    }
    assert sources[..|sources|] == sources;
    NoItems(sources[|sources|..]);
    assert order + [] == order;
  }

  lemma NoneMissing(f: nat)
    ensures !Missing([], f)
  {}

  lemma NoItems(sources: seq<Source>)
    requires sources == []
    ensures AllItems(sources) == []
  {}

  method CutPause(packets: seq<bytes>, first: nat, end: nat) returns (last: nat)
    requires end <= |packets|
    ensures last == Trim(packets, first, end)
  {
    last := end;
    while last > first && packets[last - 1] == OPUS_SILENCE
      invariant last <= |packets| && Trim(packets, first, last) == Trim(packets, first, end)
    {
      last := last - 1;
    }
  }

  method CopyPackets(before: seq<MixSlot>, total: nat, file: nat, first: nat, last: nat, lib: Library)
    returns (slots: seq<MixSlot>, samples: nat)
    requires file in lib && first <= last <= |lib[file]| && total == MixTotal(before, lib)
    ensures slots == before + Copies(file, lib[file], first, last) && samples == MixTotal(slots, lib)
    ensures samples == total + MixTotal(Copies(file, lib[file], first, last), lib)
  {
    hide Playable, Samples, MixTotal;
    slots, samples := before, total;
    assert before + [] == before;
    NoSlots(lib);
    for k := first to last
      invariant slots == before + Copies(file, lib[file], first, k) && samples == MixTotal(slots, lib)
      invariant samples == total + MixTotal(Copies(file, lib[file], first, k), lib)
    {
      var copies := Copies(file, lib[file], first, k);
      if Playable(lib[file][k]) {
        MixTotalPush(slots, Copied(file, k), lib);
        MixTotalPush(copies, Copied(file, k), lib);
        JoinThree(before, copies, [Copied(file, k)]);
        slots := slots + [Copied(file, k)];
        samples := samples + Samples(lib[file][k]);
      } else {
        assert copies + [] == copies;
      }
    }
  }

  /** What build_mix does with one piece of a readable file. */
  method PlaceItem(before: seq<MixSlot>, placed: seq<MixPiece>, total: nat, item: Item, lib: Library, gapMs: nat)
    returns (slots: seq<MixSlot>, pieces: seq<MixPiece>, samples: nat)
    requires item.file in lib && total == MixTotal(before, lib)
    ensures Built(slots, pieces) == Place(Built(before, placed), item, lib, gapMs) && samples == MixTotal(slots, lib)
  {
    hide First, RawLast, Trim, Copies, MixTotal, RoundMs, IndexTotal;
    slots, pieces, samples := before, placed, total;
    var first, end := First(item, lib[item.file]), RawLast(item, lib[item.file]);
    var last := CutPause(lib[item.file], first, end);
    if last > first {
      if pieces != [] {
        TotalOfGap(slots, gapMs * 48 / 960, lib);
        slots := slots + PauseSlots(gapMs);
        samples := samples + 960 * (gapMs * 48 / 960);
      }
      var start := samples;
      slots, samples := CopyPackets(slots, samples, item.file, first, last, lib);
      pieces := pieces + [MixPiece(item.user, item.file, RoundMs(IndexTotal(lib[item.file][..first])), item.wall,
                                   RoundMs(start), RoundMs(samples - start))];
    }
  }

  /**
   The loops of build_mix: the writer's packets and the plan. missing lists the files without audio; damaged those
   that cannot be read or whose index (in hurt) stopped at damage, each once.
   */
  method BuildMix(sources: seq<Source>, lib: Library, hurt: set<nat>, gapMs: nat)
    returns (mix: Built, missing: seq<nat>, damaged: seq<nat>)
    ensures mix == MixOf(SortItems(AllItems(sources)), lib, gapMs)
    ensures forall f :: f in missing <==> exists c <- sources :: !c.hasAudio && c.file == f
    ensures forall f :: f in damaged <==> (f !in lib || f in hurt) && exists x <- AllItems(sources) :: x.file == f
    ensures forall i, j :: 0 <= i < j < |damaged| ==> damaged[i] != damaged[j]
  {
    hide AllItems, SortItems, MixTotal, Place;
    var order;
    order, missing := Collect(sources);
    SortMembers(order);
    order := SortItems(order);
    damaged := [];
    var tried: set<nat> := {};
    var slots: seq<MixSlot>, pieces: seq<MixPiece>, samples: nat := [], [], 0;
    assert MixTotal([], lib) == 0 by { NoSlots(lib); }
    for n := 0 to |order|
      invariant Built(slots, pieces) == MixOf(order[..n], lib, gapMs) && samples == MixTotal(slots, lib)
      invariant forall f :: f in tried <==> exists x <- order[..n] :: x.file == f
      invariant forall f :: f in damaged <==> f in tried && (f !in lib || f in hurt)
      invariant forall i, j :: 0 <= i < j < |damaged| ==> damaged[i] != damaged[j]
    {
      assert order[..n + 1][..n] == order[..n];
      var item := order[n];
      assert order[..n + 1] == order[..n] + [item];
      if item.file !in tried {
        tried := tried + {item.file};
        if item.file !in lib || item.file in hurt { damaged := damaged + [item.file]; }
      }
      if item.file !in lib { UnreadableNotPlaced(Built(slots, pieces), item, lib, gapMs); }
      if item.file in lib {
        slots, pieces, samples := PlaceItem(slots, pieces, samples, item, lib, gapMs);
      }
    }
    assert order[..|order|] == order;
    mix := Built(slots, pieces);
  }

  lemma UnreadableNotPlaced(b: Built, item: Item, lib: Library, gapMs: nat)
    requires item.file !in lib
    ensures Place(b, item, lib, gapMs) == b
  {}

  lemma {:induction false} InsertMembers(x: Item, s: seq<Item>)
    ensures forall y :: y in InsertItem(x, s) <==> y == x || y in s
  {
    hide Precedes;
    if s != [] {
      InsertMembers(x, s[1..]);
      assert s == [s[0]] + s[1..];
    }
  }

  lemma {:induction false} SortMembers(items: seq<Item>)
    ensures forall y :: y in SortItems(items) <==> y in items
  {
    hide InsertItem;
    if items != [] {
      var front, last := items[..|items| - 1], items[|items| - 1];
      SortMembers(front);
      InsertMembers(last, SortItems(front));
      assert items == front + [last];
    }
  }

  lemma NoSlots(lib: Library)
    ensures MixTotal([], lib) == 0
  {}

  lemma MixTotalPush(slots: seq<MixSlot>, s: MixSlot, lib: Library)
    ensures MixTotal(slots + [s], lib) == MixTotal(slots, lib) + MixSamples(s, lib)
  {
    assert (slots + [s])[..|slots|] == slots;
  }

  lemma {:induction false} TotalOfGap(slots: seq<MixSlot>, n: nat, lib: Library)
    ensures MixTotal(slots + seq(n, _ => Pause), lib) == MixTotal(slots, lib) + 960 * n
  {
    if n == 0 {
      assert slots + seq(0, _ => Pause) == slots;
    } else {
      assert slots + seq(n, _ => Pause) == (slots + seq(n - 1, _ => Pause)) + [Pause];
      TotalOfGap(slots, n - 1, lib);
      MixTotalPush(slots + seq(n - 1, _ => Pause), Pause, lib);
    }
  }

  // ---- Wall-clock order

  ghost predicate WallOrdered(items: seq<Item>) { forall i, j :: 0 <= i <= j < |items| ==> items[i].wall <= items[j].wall }

  lemma {:induction false} InsertOrdered(x: Item, s: seq<Item>)
    requires WallOrdered(s)
    ensures WallOrdered(InsertItem(x, s))
    ensures forall y <- InsertItem(x, s) :: y == x || y in s
  {
    if s != [] && !Precedes(x, s[0]) {
      InsertOrdered(x, s[1..]);
      var rest := InsertItem(x, s[1..]);
      forall y <- rest ensures s[0].wall <= y.wall && (y == x || y in s) {
        if y != x { assert y in s[1..]; }
      }
    }
  }

  lemma {:induction false} SortOrdered(items: seq<Item>)
    ensures WallOrdered(SortItems(items))
  {
    if items != [] {
      SortOrdered(items[..|items| - 1]);
      InsertOrdered(items[|items| - 1], SortItems(items[..|items| - 1]));
    }
  }

  /** Said no later; of what was said at once, the lower user, file and offset first. */
  predicate NotAfter(x: Item, y: Item) {
    && x.wall <= y.wall
    && (x.wall == y.wall ==> x.user <= y.user)
    && (x.wall == y.wall && x.user == y.user ==> x.file <= y.file)
    && (x.wall == y.wall && x.user == y.user && x.file == y.file ==> x.offset <= y.offset)
  }

  ghost predicate Ranked(items: seq<Item>) { forall i, j :: 0 <= i < j < |items| ==> NotAfter(items[i], items[j]) }

  lemma NotAfterIff(x: Item, y: Item)
    ensures NotAfter(x, y) <==> !Precedes(y, x)
  {}

  lemma NotAfterCarries(x: Item, y: Item, z: Item)
    requires NotAfter(x, y) && NotAfter(y, z)
    ensures NotAfter(x, z)
  {}

  lemma {:induction false} InsertPlaces(x: Item, s: seq<Item>)
    requires Ranked(s)
    ensures Ranked(InsertItem(x, s)) && multiset(InsertItem(x, s)) == multiset(s) + multiset{x}
  {
    hide NotAfter, Precedes;
    if s == [] {
    } else if Precedes(x, s[0]) {
      assert NotAfter(x, s[0]) by { BeforeIsNotAfter(x, s[0]); }
      forall j | 0 <= j < |s| ensures NotAfter(x, s[j]) {
        if j > 0 { NotAfterCarries(x, s[0], s[j]); }
      }
    } else {
      var rest := InsertItem(x, s[1..]);
      InsertPlaces(x, s[1..]);
      InsertMembers(x, s[1..]);
      NotAfterIff(s[0], x);
      assert s == [s[0]] + s[1..];
      forall y <- rest ensures NotAfter(s[0], y) {
        if y != x {
          var j: nat :| j < |s| - 1 && s[1..][j] == y;
          assert NotAfter(s[0], s[j + 1]);
        }
      }
    }
  }

  lemma BeforeIsNotAfter(x: Item, y: Item)
    requires Precedes(x, y)
    ensures NotAfter(x, y)
  {}

  /** Every item once, ascending by wall time, then user, file and offset. */
  lemma {:induction false} SortPlaces(items: seq<Item>)
    ensures Ranked(SortItems(items)) && multiset(SortItems(items)) == multiset(items)
  {
    hide Ranked, InsertItem;
    if items == [] {
      NothingRanked();
    } else {
      var front, last := items[..|items| - 1], items[|items| - 1];
      SortPlaces(front);
      InsertPlaces(last, SortItems(front));
      assert items == front + [last];
    }
  }

  lemma NothingRanked()
    ensures Ranked([])
  {}

  // ---- Conservation: what is copied, counted

  /** The copies all items make. */
  ghost function Multi(items: seq<Item>, lib: Library): multiset<MixSlot> {
    if items == [] then multiset{} else multiset(Picks(items[0], lib)) + Multi(items[1..], lib)
  }

  lemma SumThree<T>(a: multiset<T>, b: multiset<T>, c: multiset<T>)
    ensures a + (b + c) == (a + b) + c
  {}

  lemma MultiNone(lib: Library)
    ensures Multi([], lib) == multiset{}
  {}

  lemma MultiFirst(items: seq<Item>, lib: Library)
    requires items != []
    ensures Multi(items, lib) == multiset(Picks(items[0], lib)) + Multi(items[1..], lib)
  {
    hide Picks;
  }

  lemma {:induction false} MultiAppend(a: seq<Item>, b: seq<Item>, lib: Library)
    ensures Multi(a + b, lib) == Multi(a, lib) + Multi(b, lib)
  {
    hide Picks;
    if a == [] {
      assert a + b == b;
      assert multiset{} + Multi(b, lib) == Multi(b, lib);
    } else {
      FirstOfSum(a, b);
      MultiAppend(a[1..], b, lib);
      MultiFirst(a, lib);
      MultiFirst(a + b, lib);
      hide Multi;
      SumThree(multiset(Picks(a[0], lib)), Multi(a[1..], lib), Multi(b, lib));
    }
  }

  lemma {:induction false} InsertKeepsCopies(x: Item, s: seq<Item>, lib: Library)
    ensures Multi(InsertItem(x, s), lib) == Multi(s, lib) + multiset(Picks(x, lib))
  {
    hide Picks, Precedes;
    var r := InsertItem(x, s);
    if s == [] || Precedes(x, s[0]) {
      assert r[1..] == s;
    } else {
      InsertKeepsCopies(x, s[1..], lib);
      assert r[1..] == InsertItem(x, s[1..]);
    }
  }

  lemma {:induction false} SortKeepsCopies(items: seq<Item>, lib: Library)
    ensures Multi(SortItems(items), lib) == Multi(items, lib)
  {
    hide Picks, InsertItem;
    if items != [] {
      var front, last := items[..|items| - 1], items[|items| - 1];
      var one := [last];
      assert items == front + one && one[1..] == [];
      SortKeepsCopies(front, lib);
      InsertKeepsCopies(last, SortItems(front), lib);
      MultiAppend(front, one, lib);
      assert Multi(one, lib) == multiset(Picks(last, lib));
    }
  }

  lemma {:induction false} MixKeepsCopies(order: seq<Item>, lib: Library, gapMs: nat, file: nat, k: nat)
    ensures multiset(MixOf(order, lib, gapMs).slots)[Copied(file, k)] == Multi(order, lib)[Copied(file, k)]
  {
    hide First, Last, Copies, MixTotal, RoundMs, IndexTotal;
    if order != [] {
      var front: seq<Item>, last: Item := order[..|order| - 1], order[|order| - 1];
      MixKeepsCopies(front, lib, gapMs, file, k);
      MultiAppend(front, [last], lib);
      var one := [last];
      assert one[1..] == [] && order == front + one;
      assert multiset(PauseSlots(gapMs))[Copied(file, k)] == 0;
      if !Audible(last, lib) { NoPicks(last, lib); }
    }
  }

  lemma NoPicks(item: Item, lib: Library)
    requires !Audible(item, lib)
    ensures Picks(item, lib) == []
  {}

  lemma {:induction false} CopyCount(file: nat, packets: seq<bytes>, first: nat, last: nat, f: nat, k: nat)
    requires last <= |packets|
    ensures multiset(Copies(file, packets, first, last))[Copied(f, k)]
         == if f == file && first <= k < last && Playable(packets[k]) then 1 else 0
    decreases last
  {
    hide Playable, When, Copies;
    CopiesLast(file, packets, first, last);
    if last > first {
      CopyCount(file, packets, first, last - 1, f, k);
      CountPush(Copies(file, packets, first, last - 1), Copied(file, last - 1), Playable(packets[last - 1]), Copied(f, k));
    } else {
      CountNone(Copied(f, k));
    }
  }

  lemma CopiesLast(file: nat, packets: seq<bytes>, first: nat, last: nat)
    requires last <= |packets|
    ensures Copies(file, packets, first, last) ==
            if last <= first then []
            else Copies(file, packets, first, last - 1) + When(Playable(packets[last - 1]), Copied(file, last - 1))
  {
    hide Playable, When;
  }

  lemma CountPush<T>(s: seq<T>, x: T, also: bool, y: T)
    ensures multiset(s + When(also, x))[y] == multiset(s)[y] + if also && x == y then 1 else 0
  {
    if !also { assert s + [] == s; }
  }

  lemma CountNone<T>(y: T)
    ensures var none: seq<T> := []; multiset(none)[y] == 0
  {}

  /** Nothing past the end of a file is copied. */
  lemma {:induction false} BeyondEnd(items: seq<Item>, lib: Library, file: nat, k: nat)
    requires file in lib && k >= |lib[file]|
    ensures Multi(items, lib)[Copied(file, k)] == 0
  {
    if items != [] {
      hide First, Last, Copies;
      BeyondEnd(items[1..], lib, file, k);
      var x := items[0];
      if x.file in lib { CopyCount(x.file, lib[x.file], First(x, lib[x.file]), Last(x, lib[x.file]), file, k); }
    }
  }

  lemma MixBeyondEnd(sources: seq<Source>, lib: Library, gapMs: nat, file: nat, k: nat)
    requires file in lib && k >= |lib[file]|
    ensures multiset(MixOf(SortItems(AllItems(sources)), lib, gapMs).slots)[Copied(file, k)] == 0
  {
    hide MixOf, SortItems, AllItems, Multi;
    MixKeepsCopies(SortItems(AllItems(sources)), lib, gapMs, file, k);
    BeyondEnd(SortItems(AllItems(sources)), lib, file, k);
  }

  // ---- Coverage: the pieces of a file share out its packets

  ghost predicate OffsetsAscend(s: seq<Piece>) { forall i, j :: 0 <= i <= j < |s| ==> s[i].offset <= s[j].offset }

  lemma {:induction false} InsertAscends(p: Piece, s: seq<Piece>)
    requires OffsetsAscend(s)
    ensures OffsetsAscend(InsertPiece(p, s))
    ensures forall q :: q in InsertPiece(p, s) <==> q == p || q in s
  {
    if s != [] && p.offset >= s[0].offset {
      InsertAscends(p, s[1..]);
      assert s == [s[0]] + s[1..];
      var rest := InsertPiece(p, s[1..]);
      forall q <- rest ensures s[0].offset <= q.offset {
        if q != p { assert q in s[1..]; }
      }
    }
  }

  lemma {:induction false} ByOffsetAscends(pieces: seq<Piece>)
    ensures OffsetsAscend(ByOffset(pieces))
    ensures forall q :: q in ByOffset(pieces) <==> q in pieces
  {
    if pieces != [] {
      var front, last := pieces[..|pieces| - 1], pieces[|pieces| - 1];
      ByOffsetAscends(front);
      InsertAscends(last, ByOffset(front));
      assert pieces == front + [last];
    }
  }

  lemma FirstAtMonotone(packets: seq<bytes>, a: int, b: int)
    requires a <= b
    ensures FirstAt(packets, a) <= FirstAt(packets, b)
  {
    hide FirstAt, IndexTotal;
    FirstAtFinds(packets, a);
    FirstAtFinds(packets, b);
    var k := FirstAt(packets, b);
    assert k < |packets| ==> IndexTotal(packets[..k]) >= a;
  }

  /** Packet k of the file of these pieces is copied by exactly one of them from the i-th on, unless cut as pause. */
  lemma {:induction false} PiecesShare(c: Source, sorted: seq<Piece>, i: nat, lib: Library, k: nat)
    requires c.file in lib && OffsetsAscend(sorted) && i < |sorted| && k < |lib[c.file]|
    ensures var n, packet := Multi(ItemsFrom(c, sorted, i), lib)[Copied(c.file, k)], lib[c.file][k];
            && (n == 0 || n == 1)
            && (k < FirstAt(lib[c.file], 48 * sorted[i].offset) || !Playable(packet) ==> n == 0)
            && (k >= FirstAt(lib[c.file], 48 * sorted[i].offset) && Playable(packet) && packet != OPUS_SILENCE ==> n == 1)
    decreases |sorted| - i
  {
    hide FirstAt, Playable;
    var packets, items := lib[c.file], ItemsFrom(c, sorted, i);
    var item := items[0];
    assert items[1..] == ItemsFrom(c, sorted, i + 1);
    CopyCount(c.file, packets, First(item, packets), Last(item, packets), c.file, k);
    if i + 1 < |sorted| {
      PiecesShare(c, sorted, i + 1, lib, k);
      FirstAtMonotone(packets, 48 * sorted[i].offset, 48 * sorted[i + 1].offset);
    }
  }

  /** The items of one file copy only that file. */
  lemma {:induction false} OtherFilesApart(c: Source, sorted: seq<Piece>, i: nat, lib: Library, file: nat, k: nat)
    requires file != c.file
    ensures Multi(ItemsFrom(c, sorted, i), lib)[Copied(file, k)] == 0
    decreases |sorted| - i
  {
    hide First, Last;
    if i < |sorted| {
      OtherFilesApart(c, sorted, i + 1, lib, file, k);
      var items := ItemsFrom(c, sorted, i);
      assert items[1..] == ItemsFrom(c, sorted, i + 1);
      if c.file in lib {
        CopyCount(c.file, lib[c.file], First(items[0], lib[c.file]), Last(items[0], lib[c.file]), file, k);
      }
    }
  }

  ghost predicate DistinctFiles(sources: seq<Source>) {
    forall i, j :: 0 <= i < j < |sources| ==> sources[i].file != sources[j].file
  }

  /** Copies of one file come from its own entry of the session. */
  lemma {:induction false} OneSourceCounts(sources: seq<Source>, i: nat, lib: Library, k: nat)
    requires DistinctFiles(sources) && i < |sources| && sources[i].hasAudio
    ensures Multi(AllItems(sources), lib)[Copied(sources[i].file, k)]
         == Multi(ItemsFrom(sources[i], ByOffset(sources[i].pieces), 0), lib)[Copied(sources[i].file, k)]
    decreases |sources|
  {
    hide ItemsFrom, ByOffset, Multi;
    var c, rest := sources[0], sources[1..];
    var own := if c.hasAudio then ItemsFrom(c, ByOffset(c.pieces), 0) else [];
    MultiAppend(own, AllItems(rest), lib);
    if !c.hasAudio { MultiNone(lib); }
    if i == 0 {
      NotAmong(rest, lib, c.file, k);
    } else {
      OneSourceCounts(rest, i - 1, lib, k);
      OtherFilesApart(c, ByOffset(c.pieces), 0, lib, sources[i].file, k);
    }
  }

  lemma {:induction false} NotAmong(sources: seq<Source>, lib: Library, file: nat, k: nat)
    requires forall c <- sources :: c.file != file
    ensures Multi(AllItems(sources), lib)[Copied(file, k)] == 0
    decreases |sources|
  {
    if sources != [] {
      var c, rest := sources[0], sources[1..];
      var own := if c.hasAudio then ItemsFrom(c, ByOffset(c.pieces), 0) else [];
      NotAmong(rest, lib, file, k);
      OtherFilesApart(c, ByOffset(c.pieces), 0, lib, file, k);
      hide ItemsFrom;
      MultiAppend(own, AllItems(rest), lib);
    }
  }

  /**
   Conservation. Of a readable file whose pieces start at offset 0, every playable packet that is not silence is
   in the mix exactly once, every other packet at most once, and no packet past its end or undecodable at all.
   */
  lemma MixConserves(sources: seq<Source>, i: nat, lib: Library, gapMs: nat, k: nat)
    requires DistinctFiles(sources) && i < |sources| && sources[i].hasAudio && sources[i].file in lib
    requires exists p <- sources[i].pieces :: p.offset == 0
    requires k < |lib[sources[i].file]|
    ensures var n := multiset(MixOf(SortItems(AllItems(sources)), lib, gapMs).slots)[Copied(sources[i].file, k)];
            var packet := lib[sources[i].file][k];
            n <= 1 && (!Playable(packet) ==> n == 0) && (Playable(packet) && packet != OPUS_SILENCE ==> n == 1)
  {
    hide MixOf, Playable, ItemsFrom, AllItems, Multi, SortItems;
    var c, order := sources[i], SortItems(AllItems(sources));
    MixKeepsCopies(order, lib, gapMs, c.file, k);
    SortKeepsCopies(AllItems(sources), lib);
    OneSourceCounts(sources, i, lib, k);
    ByOffsetAscends(c.pieces);
    var sorted := ByOffset(c.pieces);
    var p :| p in c.pieces && p.offset == 0;
    assert p in sorted && sorted[0].offset == 0;
    PiecesShare(c, sorted, 0, lib, k);
    FirstAtZero(lib[c.file]);
  }

  lemma FirstAtZero(packets: seq<bytes>)
    ensures FirstAt(packets, 0) == 0
  {
    FirstAtFinds(packets, 0);
    assert IndexTotal(packets[..0]) >= 0;
  }
}
