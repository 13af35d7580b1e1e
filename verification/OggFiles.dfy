/** Whole files of OggOpusWriter (ttsbot/recording/ogg.py): which pages are written, which are refused, what is left. */
module OggFiles {
  import opened Bytes
  import opened OpusPacket
  import opened OggPage
  import opened OggWriter
  import opened OggRoundTrip

  // ---- Which pages are written

  /** The m-th full page of these packets fits. */
  predicate PageFits(packets: seq<bytes>, m: nat)
    requires AllPlayable(packets) && PACKETS_PER_PAGE * (m + 1) <= |packets|
  {
    Fits(packets[PACKETS_PER_PAGE * m..PACKETS_PER_PAGE * (m + 1)], Total(packets[..PACKETS_PER_PAGE * (m + 1)]), m + 2)
  }

  function PagesFrom(packets: seq<bytes>, m: nat): (k: nat)
    requires AllPlayable(packets) && PACKETS_PER_PAGE * m <= |packets|
    ensures m <= k && PACKETS_PER_PAGE * k <= |packets|
    decreases |packets| - PACKETS_PER_PAGE * m
  {
    if PACKETS_PER_PAGE * (m + 1) <= |packets| && PageFits(packets, m) then PagesFrom(packets, m + 1) else m
  }

  /** How many full pages precede the first that is refused. */
  function PagesWritten(packets: seq<bytes>): (k: nat)
    requires AllPlayable(packets)
    ensures PACKETS_PER_PAGE * k <= |packets|
  {
    PagesFrom(packets, 0)
  }

  lemma {:induction false} PagesStop(packets: seq<bytes>, m: nat)
    requires AllPlayable(packets) && PACKETS_PER_PAGE * m <= |packets|
    ensures var k := PagesFrom(packets, m); PACKETS_PER_PAGE * (k + 1) <= |packets| ==> !PageFits(packets, k)
    decreases |packets| - PACKETS_PER_PAGE * m
  {
    hide PageFits;
    if PACKETS_PER_PAGE * (m + 1) <= |packets| && PageFits(packets, m) { PagesStop(packets, m + 1); }
  }

  lemma AllPlayablePush(q: seq<bytes>, p: bytes)
    requires AllPlayable(q) && Playable(p)
    ensures AllPlayable(q + [p])
  {}

  lemma PageFitsStable(q: seq<bytes>, p: bytes, m: nat)
    requires AllPlayable(q) && AllPlayable(q + [p]) && PACKETS_PER_PAGE * (m + 1) <= |q|
    ensures PageFits(q + [p], m) == PageFits(q, m)
  {
    hide Fits, Total;
    var n := PACKETS_PER_PAGE * (m + 1);
    assert (q + [p])[..n] == q[..n];
    assert (q + [p])[PACKETS_PER_PAGE * m..n] == q[PACKETS_PER_PAGE * m..n];
  }

  /** One more packet completes at most one more page. */
  lemma {:induction false} PagesPush(q: seq<bytes>, p: bytes, m: nat)
    requires AllPlayable(q) && AllPlayable(q + [p]) && PACKETS_PER_PAGE * m <= |q|
    ensures var k := PagesFrom(q, m);
            PagesFrom(q + [p], m) ==
            if |q| + 1 == PACKETS_PER_PAGE * (k + 1) && PageFits(q + [p], k) then k + 1 else k
    decreases |q| - PACKETS_PER_PAGE * m
  {
    hide PageFits;
    if PACKETS_PER_PAGE * (m + 1) <= |q| {
      PageFitsStable(q, p, m);
      if PageFits(q, m) { PagesPush(q, p, m + 1); }
    }
  }

  // ---- The writer on a list of packets

  ghost predicate FullPages(pages: seq<PageSpec>)
    requires |pages| >= 2
  {
    forall p <- pages[2..] :: |p.packets| == PACKETS_PER_PAGE
  }

  /** The writer after these packets: the pages before the first refused one are on disk, everything else waits. */
  ghost predicate WroteTo(w: OggOpusWriter, q: seq<bytes>)
    reads w
  {
    && w.Valid() && AllPlayable(q) && FullPages(w.pages) && w.samples == Total(q)
    && var n := PACKETS_PER_PAGE * PagesWritten(q);
       |w.pages| == PagesWritten(q) + 2 && Audio(w.pages) == q[..n] && w.packets == q[n..]
  }

  lemma {:induction false} LacingAppend(a: seq<bytes>, b: seq<bytes>)
    ensures LacingAll(a + b) == LacingAll(a) + LacingAll(b)
  {
    hide Lacing;
    if a == [] {
      assert a + b == b;
    } else {
      FirstOfSum(a, b);
      LacingAppend(a[1..], b);
      JoinThree(Lacing(a[0]), LacingAll(a[1..]), LacingAll(b));
    }
  }

  /** More packets never fit where fewer did not. */
  lemma FitsFewer(a: seq<bytes>, b: seq<bytes>, granule: nat, later: nat, sequence: nat)
    requires Fits(a + b, later, sequence) && granule <= later
    ensures Fits(a, granule, sequence)
  {
    LacingAppend(a, b);
  }

  /** A full page refused in q keeps everything after it waiting. */
  lemma StaysRefused(q: seq<bytes>, k: nat, sequence: nat)
    requires AllPlayable(q) && PACKETS_PER_PAGE * (k + 1) <= |q| && !PageFits(q, k) && sequence == k + 2
    ensures !Fits(q[PACKETS_PER_PAGE * k..], Total(q), sequence)
  {
    hide Fits, Total;
    var from, to := PACKETS_PER_PAGE * k, PACKETS_PER_PAGE * (k + 1);
    assert q[from..] == q[from..to] + q[to..] && q == q[..to] + q[to..];
    TotalAppend(q[..to], q[to..]);
    if Fits(q[from..], Total(q), sequence) { FitsFewer(q[from..to], q[to..], Total(q[..to]), Total(q), sequence); }
  }

  /** The page a write completes is the next full page. */
  lemma CompletesPage(all: seq<bytes>, k: nat)
    requires AllPlayable(all) && |all| == PACKETS_PER_PAGE * (k + 1)
    ensures Fits(all[PACKETS_PER_PAGE * k..], Total(all), k + 2) == PageFits(all, k)
  {
    hide Fits, Total;
    assert all[..|all|] == all && all[PACKETS_PER_PAGE * k..|all|] == all[PACKETS_PER_PAGE * k..];
  }

  /** What the flush inside a write meets, when pages k and up are still to be written. */
  lemma FlushMeets(q: seq<bytes>, p: bytes)
    requires AllPlayable(q) && AllPlayable(q + [p])
    ensures var k, all := PagesWritten(q), q + [p];
            && (|all| == PACKETS_PER_PAGE * (k + 1) ==> Fits(all[PACKETS_PER_PAGE * k..], Total(all), k + 2) == PageFits(all, k))
            && (|all| > PACKETS_PER_PAGE * (k + 1) ==> !Fits(all[PACKETS_PER_PAGE * k..], Total(all), k + 2))
  {
    hide Fits, Total, PagesFrom, PageFits;
    var k, all := PagesWritten(q), q + [p];
    if |all| == PACKETS_PER_PAGE * (k + 1) { CompletesPage(all, k); }
    if |all| > PACKETS_PER_PAGE * (k + 1) {
      PagesStop(q, 0);
      PageFitsStable(q, p, k);
      StaysRefused(all, k, k + 2);
    }
  }

  method WriteOne(w: OggOpusWriter, ghost q: seq<bytes>, p: bytes) returns (r: Outcome)
    requires WroteTo(w, q) && Playable(p)
    modifies w
    ensures WroteTo(w, q + [p])
    ensures r.PageTooLarge? <==> |q| + 1 >= PACKETS_PER_PAGE * (PagesWritten(q + [p]) + 1)
  {
    hide Fits, PageFits, PageBytes, PagesFrom, Playable, Samples, PacketsOf, HeadPacket, TagsPacket, LacingAll;
    AllPlayablePush(q, p);
    FlushMeets(q, p);
    PagesPush(q, p, 0);
    TotalAppend(q, [p]);
    TotalOne(p);
    ghost var n, all := PACKETS_PER_PAGE * PagesWritten(q), q + [p];
    assert all[n..] == q[n..] + [p] && all[..n] == q[..n];
    hide Total;
    r := w.Write(p);
    assert w.Sent() == all[..n] + all[n..] == all;
    hide FullPages;
    if r.Written? && |q| + 1 == n + PACKETS_PER_PAGE {
      FullPagesPush(old(w.pages), w.pages[|w.pages| - 1]);
      assert all[..|all|] == all && all[|all|..] == [];
    }
  }

  lemma FullPagesPush(pages: seq<PageSpec>, p: PageSpec)
    requires |pages| >= 2 && FullPages(pages) && |p.packets| == PACKETS_PER_PAGE
    ensures FullPages(pages + [p])
  {
    assert (pages + [p])[2..] == pages[2..] + [p];
  }

  lemma TotalOne(p: bytes)
    requires Playable(p)
    ensures AllPlayable([p]) && Total([p]) == Samples(p)
  {
    var one := [p];
    assert one[1..] == [];
  }

  lemma NothingWritten(w: OggOpusWriter)
    requires w.Healthy() && w.Sent() == []
    ensures Progress(w, [], true)
  {
    hide Fits, PageBytes, HeadPacket, TagsPacket, LacingAll;
    FullPageCount(w.pages[2..]);
  }

  lemma {:induction false} FullPageCount(pages: seq<PageSpec>)
    requires forall p <- pages :: |p.packets| == PACKETS_PER_PAGE
    ensures |PacketsOf(pages)| == PACKETS_PER_PAGE * |pages|
  {
    if pages != [] { FullPageCount(pages[1..]); }
  }

  /** One more packet does not undo a refusal. */
  lemma RefusedStays(q: seq<bytes>, p: bytes)
    requires AllPlayable(q) && AllPlayable(q + [p]) && |q| >= PACKETS_PER_PAGE * (PagesWritten(q) + 1)
    ensures PagesWritten(q + [p]) == PagesWritten(q)
  {
    hide PageFits;
    PagesPush(q, p, 0);
  }

  /** After these packets; ok says whether none was refused. */
  ghost predicate Progress(w: OggOpusWriter, q: seq<bytes>, ok: bool)
    reads w
  {
    WroteTo(w, q) && (ok <==> |q| < PACKETS_PER_PAGE * (PagesWritten(q) + 1))
  }

  method WriteNext(w: OggOpusWriter, ghost q: seq<bytes>, p: bytes, ok: bool) returns (still: bool)
    requires Progress(w, q, ok) && Playable(p)
    modifies w
    ensures Progress(w, q + [p], still)
  {
    hide PagesFrom, PagesWritten, PageFits, Playable, Fits, OggOpusWriter.Valid;
    AllPlayablePush(q, p);
    if !ok { RefusedStays(q, p); }
    var r := WriteOne(w, q, p);
    still := ok && !r.PageTooLarge?;
  }

  /** Write after write, going on after a refused page as the recorder does; false if one was. */
  method WritePackets(serial: int, packets: seq<bytes>) returns (w: OggOpusWriter, ok: bool)
    requires AllPlayable(packets)
    ensures fresh(w) && WroteTo(w, packets)
    ensures ok <==> |packets| < PACKETS_PER_PAGE * (PagesWritten(packets) + 1)
  {
    hide WroteTo, OggOpusWriter.Healthy, PagesWritten;
    w := new OggOpusWriter(serial);
    ok := true;
    NothingWritten(w);
    assert packets[..0] == [];
    for i := 0 to |packets|
      invariant fresh(w) && Progress(w, packets[..i], ok)
    {
      assert packets[..i + 1] == packets[..i] + [packets[i]] && packets[i] in packets;
      ok := WriteNext(w, packets[..i], packets[i], ok);
    }
    assert packets[..|packets|] == packets;
  }

  // ---- Finished files

  /** What close adds to these packets. */
  function Padded(packets: seq<bytes>): seq<bytes> {
    packets + if |packets| % PACKETS_PER_PAGE == 0 then [OPUS_SILENCE] else []
  }

  /** The page close writes fits: what waits, or one silence packet. Never after a refused page. */
  predicate Closable(packets: seq<bytes>)
    requires AllPlayable(packets)
  {
    var k := PagesWritten(packets);
    var waiting := packets[PACKETS_PER_PAGE * k..];
    if waiting == [] then Fits([OPUS_SILENCE], Total(packets) + 960, k + 2) else Fits(waiting, Total(packets), k + 2)
  }

  lemma ClosableWhole(packets: seq<bytes>)
    requires AllPlayable(packets) && Closable(packets)
    ensures |packets| < PACKETS_PER_PAGE * (PagesWritten(packets) + 1)
  {
    hide Fits, Total, PagesFrom;
    var k := PagesWritten(packets);
    PagesStop(packets, 0);
    if PACKETS_PER_PAGE * (k + 1) <= |packets| { StaysRefused(packets, k, k + 2); }
  }

  /** A finished file with these audio packets. */
  ghost predicate ClosedFile(file: bytes, packets: seq<bytes>) {
    exists serial, pages :: IsClosed(file, packets, serial, pages)
  }

  ghost predicate IsClosed(file: bytes, packets: seq<bytes>, serial: nat, pages: seq<PageSpec>) {
    && Stream(serial, pages) && |pages| > 2 && pages[|pages| - 1].flags == FLAG_EOS
    && file == FileBytes(pages) && packets == Audio(pages) && packets != []
  }

  /** A file that is not finished: whole pages of 50 of these packets, the first ones. */
  ghost predicate OpenFile(file: bytes, packets: seq<bytes>) {
    exists serial, pages :: IsOpen(file, packets, serial, pages)
  }

  ghost predicate IsOpen(file: bytes, packets: seq<bytes>, serial: nat, pages: seq<PageSpec>) {
    && Stream(serial, pages) && FullPages(pages) && file == FileBytes(pages)
    && PACKETS_PER_PAGE * (|pages| - 2) <= |packets| && Audio(pages) == packets[..PACKETS_PER_PAGE * (|pages| - 2)]
  }

  lemma ClosedFileReadsBack(file: bytes, packets: seq<bytes>)
    requires ClosedFile(file, packets) && AllFrames(packets)
    ensures ReadsBack(file, packets)
  {
    hide Stream, AllFrames;
    var serial: nat, pages: seq<PageSpec> :| IsClosed(file, packets, serial, pages);
    ClosedStreamReadsBack(serial, pages);
  }

  /** Write a list of packets, one by one, and close; true when no page was refused, and then the file is finished. */
  method WriteStream(serial: int, packets: seq<bytes>) returns (w: OggOpusWriter, ok: bool)
    requires AllPlayable(packets)
    ensures fresh(w) && w.OnDisk()
    ensures ok <==> Closable(packets)
    ensures if ok then ClosedFile(w.file, Padded(packets)) else OpenFile(w.file, packets)
    ensures ok && AllFrames(packets) ==> ReadsBack(w.file, Padded(packets))
  {
    hide Closable, WroteTo, ClosedFile, OpenFile, ReadsBack, AllFrames, Playable, PagesWritten;
    var whole;
    w, whole := WritePackets(serial, packets);
    ok := CloseWritten(w, packets);
    if ok && AllFrames(packets) { PaddedReadsBack(w.file, packets); }
  }

  method CloseWritten(w: OggOpusWriter, ghost packets: seq<bytes>) returns (ok: bool)
    requires WroteTo(w, packets)
    modifies w
    ensures w.OnDisk() && (ok <==> Closable(packets))
    ensures if ok then ClosedFile(w.file, Padded(packets)) else OpenFile(w.file, packets)
  {
    hide Fits, PageBytes, PagesFrom, Playable, Samples, PacketsOf, HeadPacket, TagsPacket, LacingAll, Total;
    WrittenIsOpen(w, packets);
    ghost var n := PACKETS_PER_PAGE * PagesWritten(packets);
    assert packets[..n] + packets[n..] == packets;
    if Closable(packets) { ClosableWhole(packets); }
    ok := w.Close();
    if ok {
      assert w.pages[|w.pages| - 1].flags == FLAG_EOS;
      assert IsClosed(w.file, Padded(packets), w.serial, w.pages);
    }
  }

  /** What is on disk before the close, or when it is refused. */
  lemma WrittenIsOpen(w: OggOpusWriter, packets: seq<bytes>)
    requires WroteTo(w, packets)
    ensures OpenFile(w.file, packets)
  {
    hide Fits, PageBytes, PagesFrom, Playable, PacketsOf, HeadPacket, TagsPacket, LacingAll, Total, Stream;
    assert IsOpen(w.file, packets, w.serial, w.pages) by { hide PagesWritten; }
  }

  lemma PaddedReadsBack(file: bytes, packets: seq<bytes>)
    requires ClosedFile(file, Padded(packets)) && AllFrames(packets)
    ensures ReadsBack(file, Padded(packets))
  {
    SilenceIsDiscordFrame();
    hide DiscordFrame, ReadsBack, ClosedFile;
    ClosedFileReadsBack(file, Padded(packets));
  }

  // ---- Exactly which pages are refused

  /** Full segments of 255 bytes, beside the one short segment every packet has. */
  function FullSegments(packets: seq<bytes>): nat {
    if packets == [] then 0 else |packets[0]| / 255 + FullSegments(packets[1..])
  }

  lemma {:induction false} LacingCount(packets: seq<bytes>)
    ensures |LacingAll(packets)| == |packets| + FullSegments(packets)
  {
    if packets != [] { LacingCount(packets[1..]); }
  }

  lemma {:induction false} TotalBound(packets: seq<bytes>)
    requires AllPlayable(packets)
    ensures Total(packets) <= 5760 * |packets|
  {
    hide Playable, Samples;
    if packets != [] {
      PlayableBounds(packets[0]);
      TotalBound(packets[1..]);
    }
  }

  /** Up to 2^32 pages, a full page is refused if and only if its packets hold more than 205 full segments. */
  lemma PageFitsIff(packets: seq<bytes>, m: nat)
    requires AllPlayable(packets) && PACKETS_PER_PAGE * (m + 1) <= |packets| && m < 0xFFFF_FFFE
    ensures PageFits(packets, m) <==> FullSegments(packets[PACKETS_PER_PAGE * m..PACKETS_PER_PAGE * (m + 1)]) <= 205
  {
    hide Playable, Samples, Total, LacingAll;
    LacingCount(packets[PACKETS_PER_PAGE * m..PACKETS_PER_PAGE * (m + 1)]);
    TotalBound(packets[..PACKETS_PER_PAGE * (m + 1)]);
  }

  predicate Short(packets: seq<bytes>) {
    AllPlayable(packets) && forall p <- packets :: |p| < MAX_OPUS_PACKET
  }

  lemma {:induction false} ShortSegments(packets: seq<bytes>)
    requires forall p <- packets :: |p| < MAX_OPUS_PACKET
    ensures FullSegments(packets) <= 4 * |packets|
  {
    if packets != [] { ShortSegments(packets[1..]); }
  }

  /** Packets under 1275 bytes are never refused: not by a full page, not by the last. */
  lemma ShortAreWritten(packets: seq<bytes>)
    requires Short(packets) && |packets| < PACKETS_PER_PAGE * 0xFFFF_FFFD
    ensures PagesWritten(packets) == |packets| / PACKETS_PER_PAGE && Closable(packets)
  {
    hide Playable, Total, PageFits;
    ShortPages(packets, 0);
    var n := PACKETS_PER_PAGE * PagesWritten(packets);
    ShortSegments(packets[n..]);
    LacingCount(packets[n..]);
    LacingCount([OPUS_SILENCE]);
    var one := [OPUS_SILENCE];
    assert one[1..] == [];
    TotalBound(packets);
  }

  lemma {:induction false} ShortPages(packets: seq<bytes>, m: nat)
    requires Short(packets) && PACKETS_PER_PAGE * m <= |packets| < PACKETS_PER_PAGE * 0xFFFF_FFFD
    ensures PagesFrom(packets, m) == |packets| / PACKETS_PER_PAGE
    decreases |packets| - PACKETS_PER_PAGE * m
  {
    hide Playable, PageFits;
    if PACKETS_PER_PAGE * (m + 1) <= |packets| {
      PageFitsIff(packets, m);
      ShortSegments(packets[PACKETS_PER_PAGE * m..PACKETS_PER_PAGE * (m + 1)]);
      ShortPages(packets, m + 1);
    }
  }
}
