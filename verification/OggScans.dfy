/** What OggPacketIndex and ogg_duration (ttsbot/recording/ogg.py) make of any Ogg Opus file, whoever wrote it. */
module OggScans {
  import opened Bytes
  import opened OggPage
  import opened OggDemuxer
  import opened OggIndex
  import opened OggStreams

  function NonEmpty(packets: seq<bytes>): seq<bytes> {
    if packets == [] then [] else (if packets[0] == [] then [] else [packets[0]]) + NonEmpty(packets[1..])
  }

  /** The page carries the marker and its own checksum. */
  predicate Checked(p: RawPage)
    requires Shaped(p)
  {
    p.marker == [0x4F, 0x67, 0x67, 0x53] && CrcMatches(RawBytes(p))
  }

  predicate AllChecked(pages: seq<RawPage>) { forall p <- pages :: Shaped(p) && Checked(p) }

  lemma CheckedIsSound(p: RawPage, after: bytes)
    requires Shaped(p) && Checked(p)
    ensures var d := RawBytes(p) + after;
            && SoundPage(d) && d[PageEnd(d)..] == after && FieldsOf(d).table == Sizes(p.segments)
            && d[TableEnd(d)..PageEnd(d)] == Concat(p.segments)
  {
    hide CrcMatches, RawBytes;
    RawFront(p, after);
    var d := RawBytes(p) + after;
    assert |d[PageEnd(d)..]| == |after|;
    assert d[..PageEnd(d)] == RawBytes(p);
  }

  lemma {:induction false} KeepAppend(headers: nat, a: seq<bytes>, b: seq<bytes>)
    ensures Keep(headers, a + b) == match Keep(headers, a)
                                    case Unsupported => Unsupported
                                    case Ok((h, kept)) => AddAudio(kept, Keep(h, b))
    decreases |a|
  {
    if a == [] {
      assert a + b == b;
      if Keep(headers, b).Ok? { assert [] + Keep(headers, b).value.1 == Keep(headers, b).value.1; }
    } else {
      FirstOfSum(a, b);
      KeepAppend(if headers < 2 then headers + 1 else headers, a[1..], b);
      if headers >= 2 && Keep(headers, a[1..]).Ok? && Keep(Keep(headers, a[1..]).value.0, b).Ok? {
        JoinThree(if a[0] == [] then [] else [a[0]], Keep(headers, a[1..]).value.1, Keep(Keep(headers, a[1..]).value.0, b).value.1);
      }
    }
  }

  lemma {:induction false} KeepsNonEmpty(packets: seq<bytes>)
    ensures Keep(2, packets) == Ok((2, NonEmpty(packets)))
    decreases |packets|
  {
    if packets != [] { KeepsNonEmpty(packets[1..]); }
  }

  /** What a scan has when it stops: the headers and packets of what it could read. */
  function Stopped(kept: Result<(nat, seq<bytes>)>, damaged: bool): Result<Found> {
    match kept
    case Unsupported => Unsupported
    case Ok((h, packets)) => Ok(Found(h, packets, damaged))
  }

  lemma StoppedAfter(kept: seq<bytes>, rest: Result<(nat, seq<bytes>)>, damaged: bool)
    ensures After(kept, Stopped(rest, damaged)) == Stopped(AddAudio(kept, rest), damaged)
  {}

  lemma {:induction false} ScanPages(pages: seq<RawPage>, tail: bytes, headers: nat, open: bytes)
    requires AllShaped(pages) && AllChecked(pages) && !SoundPage(tail)
    ensures ScanFrom(StreamBytes(pages) + tail, headers, open)
         == Stopped(Keep(headers, Assemble(open, AllSegments(pages)).0), tail != [])
    decreases |pages|
  {
    hide SoundPage, Keep, Assemble, RawBytes, Shaped, Checked, Sizes, Concat, FieldsOf, PageEnd, TableEnd, Lace, AddAudio;
    if pages == [] {
      assert [] + tail == tail;
      NothingAssembled(open);
      NothingKept(headers);
    } else {
      var p, rest := pages[0], pages[1..];
      var d := StreamBytes(pages) + tail;
      assert d == RawBytes(p) + (StreamBytes(rest) + tail) by {
        JoinThree(RawBytes(p), StreamBytes(rest), tail);
      }
      CheckedIsSound(p, StreamBytes(rest) + tail);
      ShortSegments(p);
      LaceIsAssemble(open, p.segments);
      AssembleAppend(open, p.segments, AllSegments(rest));
      var (packets, left) := Assemble(open, p.segments);
      KeepAppend(headers, packets, Assemble(left, AllSegments(rest)).0);
      match Keep(headers, packets) {
        case Unsupported =>
        case Ok((h, kept)) =>
          ScanPages(rest, tail, h, left);
          StoppedAfter(kept, Keep(h, Assemble(left, AllSegments(rest)).0), tail != []);
      }
    }
  }

  lemma NothingAssembled(open: bytes)
    ensures Assemble(open, []) == ([], open)
  {}

  lemma NothingKept(headers: nat)
    ensures Keep(headers, []) == Ok((headers, []))
  {}

  lemma ShortSegments(p: RawPage)
    requires Shaped(p)
    ensures forall s <- p.segments :: |s| <= 255
  {}

  /**
   Checked pages that hold two headers and any packets, over as many pages as it takes, then perhaps the beginning of
   one more packet, then perhaps damage: every whole packet that is not empty is found, if the headers are Opus headers.
   */
  lemma ScanFindsWhole(pages: seq<RawPage>, tail: bytes, head: bytes, tags: bytes, packets: seq<bytes>, unfinished: seq<bytes>)
    requires AllShaped(pages) && AllChecked(pages) && !SoundPage(tail)
    requires AllSegments(pages) == CutAll([head, tags] + packets) + unfinished && forall s <- unfinished :: |s| == 255
    ensures ScanFile(StreamBytes(pages) + tail) ==
            if |head| >= 8 && head[..8] == [0x4F, 0x70, 0x75, 0x73, 0x48, 0x65, 0x61, 0x64]
               && |tags| >= 8 && tags[..8] == [0x4F, 0x70, 0x75, 0x73, 0x54, 0x61, 0x67, 0x73]
            then Ok(Found(2, NonEmpty(packets), tail != []))
            else Unsupported
  {
    hide ScanFrom, StreamBytes, AllSegments, AllChecked, SoundPage, CutAll, NonEmpty;
    var all := [head, tags] + packets;
    ScanPages(pages, tail, 0, []);
    CutAllAssembles(all);
    AssembleAppend([], CutAll(all), unfinished);
    OpenLeft([], unfinished);
    hide Assemble;
    assert all + [] == all && all[1..][1..] == packets && all[1..][0] == tags;
    KeepsNonEmpty(packets);
  }

  /** Fewer than two packets: no file the index takes. */
  lemma ScanNeedsHeaders(pages: seq<RawPage>, tail: bytes)
    requires AllShaped(pages) && AllChecked(pages) && !SoundPage(tail) && |Assemble([], AllSegments(pages)).0| < 2
    ensures ScanFile(StreamBytes(pages) + tail) == Unsupported
  {
    hide ScanFrom, StreamBytes, AllSegments, AllChecked, SoundPage, Assemble;
    ScanPages(pages, tail, 0, []);
    var packets := Assemble([], AllSegments(pages)).0;
    if |packets| == 1 { assert packets[1..] == []; }
  }

  // ---- ogg_duration

  /** The largest granule position, at least 0. */
  function Largest(pages: seq<RawPage>): int
    requires AllShaped(pages)
  {
    if pages == [] then 0
    else
      var rest := Largest(pages[1..]);
      assert Shaped(pages[0]);
      if SignedLE(pages[0].granule) > rest then SignedLE(pages[0].granule) else rest
  }

  lemma {:induction false} DurationPages(pages: seq<RawPage>, tail: bytes, granule: int)
    requires AllShaped(pages) && (forall p <- pages :: p.marker == MAGIC) && granule >= 0
    requires !(Complete(tail) && tail[..4] == MAGIC)
    ensures DurationFrom(StreamBytes(pages) + tail, granule) == if granule > Largest(pages) then granule else Largest(pages)
    decreases |pages|
  {
    hide RawBytes, SignedLE, FieldsOf, PageEnd, TableEnd, Complete, Shaped;
    if pages == [] {
      assert [] + tail == tail;
    } else {
      var p, rest := pages[0], pages[1..];
      var d := StreamBytes(pages) + tail;
      assert d == RawBytes(p) + (StreamBytes(rest) + tail) by {
        JoinThree(RawBytes(p), StreamBytes(rest), tail);
      }
      RawFront(p, StreamBytes(rest) + tail);
      GranuleAt(p, StreamBytes(rest) + tail);
      var g := SignedLE(p.granule);
      DurationPages(rest, tail, if g > granule then g else granule);
    }
  }

  lemma GranuleAt(p: RawPage, after: bytes)
    requires Shaped(p)
    ensures (RawBytes(p) + after)[6..14] == p.granule
  {
    RawHeadFields(p);
    assert (RawBytes(p) + after)[6..14] == RawHead(p)[6..14];
  }

  /** ogg_duration is the largest granule position of the whole pages at the front of the file, checksums aside. */
  lemma DurationIsLargest(pages: seq<RawPage>, tail: bytes)
    requires AllShaped(pages) && forall p <- pages :: p.marker == MAGIC
    requires !(Complete(tail) && tail[..4] == MAGIC)
    ensures DurationFrom(StreamBytes(pages) + tail, 0) == Largest(pages)
    ensures Largest(pages) >= 0 && (Largest(pages) == 0 || exists p <- pages :: Shaped(p) && SignedLE(p.granule) == Largest(pages))
    ensures forall p <- pages :: Shaped(p) && SignedLE(p.granule) <= Largest(pages)
  {
    hide SignedLE, DurationFrom, StreamBytes, Complete;
    LargestIs(pages);
    DurationPages(pages, tail, 0);
  }

  lemma {:induction false} LargestIs(pages: seq<RawPage>)
    requires AllShaped(pages)
    ensures Largest(pages) >= 0 && (Largest(pages) == 0 || exists p <- pages :: Shaped(p) && SignedLE(p.granule) == Largest(pages))
    ensures forall p <- pages :: Shaped(p) && SignedLE(p.granule) <= Largest(pages)
  {
    hide SignedLE;
    if pages != [] {
      assert Shaped(pages[0]) && pages[0] in pages;
      LargestIs(pages[1..]);
      assert forall p <- pages[1..] :: p in pages;
      assert forall p <- pages :: p == pages[0] || p in pages[1..];
    }
  }
}
