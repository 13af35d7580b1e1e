/** What OggOpusWriter prints, OggOpusDemuxer reads back, however the file is cut into chunks. */
module OggRoundTrip {
  import opened Bytes
  import opened OpusPacket
  import opened OggPage
  import opened OggDemuxer
  import opened OggWriter

  /** A page as written, at the front of the buffer and not continuing a packet, is taken whole. */
  lemma WrittenPageTaken(st: State, p: PageSpec, rest: bytes)
    requires p.Valid() && st.buffer == PageBytes(p) + rest && st.packet == [] && p.flags % 2 == 0
    requires if st.serial.None? then (p.flags / 2) % 2 == 1
             else st.serial.value == p.serial && (st.sequence + 1) % 0x1_0000_0000 == p.sequence
    ensures FrontOf(st.buffer).WholePage?
    ensures TakePage(st) ==
            match Accept(st.headers, p.packets)
            case Unsupported => Unsupported
            case Ok((headers, audio)) =>
              Ok((State(rest, [], Some(p.serial), p.sequence, headers, st.packetCount + |audio|, (p.flags / 4) % 2 == 1), audio))
  {
    hide Page, FieldsOf, Complete, PageEnd, TableEnd, Lace, Accept, LacingAll, Concat;
    PageFields(p.flags, p.granule, p.serial, p.sequence, p.packets, rest);
    LaceRoundTrip(p.packets);
  }

  lemma {:induction false} AcceptAudio(packets: seq<bytes>)
    ensures Accept(2, packets) == if AllFrames(packets) then Ok((2, packets)) else Unsupported
    decreases |packets|
  {
    if packets != [] {
      AcceptAudio(packets[1..]);
      assert packets == [packets[0]] + packets[1..];
    }
  }

  /** The state between two audio pages. */
  function Between(serial: nat, pages: seq<PageSpec>, k: nat, count: nat): State
    requires k <= |pages| && k > 0 && forall p <- pages :: p.Valid()
  {
    State(FileBytes(pages[k..]), [], Some(serial), k - 1, 2, count, false)
  }

  function Closed(serial: nat, pages: seq<PageSpec>, count: nat): State
    requires |pages| > 0
  {
    State([], [], Some(serial), |pages| - 1, 2, count, true)
  }

  lemma {:induction false} AudioPagesRead(serial: nat, pages: seq<PageSpec>, k: nat, count: nat)
    requires Stream(serial, pages) && 2 <= k < |pages| && pages[|pages| - 1].flags == FLAG_EOS
    ensures var audio := PacketsOf(pages[k..]);
            Drain(Between(serial, pages, k, count)) ==
            if AllFrames(audio) then Ok((Closed(serial, pages, count + |audio|), audio)) else Unsupported
    decreases |pages| - k
  {
    hide Accept, HeadPacket, TagsPacket, PageBytes, LacingAll, TakePage, FrontOf, DiscordFrame, Total, Playable;
    var st, p := Between(serial, pages, k, count), pages[k];
    var rest := pages[k + 1..];
    assert pages[k..][0] == p && pages[k..][1..] == rest;
    WrittenPageTaken(st, p, FileBytes(rest));
    AcceptAudio(p.packets);
    var audio := PacketsOf(pages[k..]);
    assert audio == p.packets + PacketsOf(rest);
    if k == |pages| - 1 {
      assert rest == [] && audio == p.packets;
    } else {
      AudioPagesRead(serial, pages, k + 1, count + |p.packets|);
      assert AllFrames(audio) <==> AllFrames(p.packets) && AllFrames(PacketsOf(rest));
    }
  }

  lemma HeadPageRead(serial: nat, rest: bytes)
    requires HeadPage(serial).Valid()
    ensures Drain(INITIAL.(buffer := PageBytes(HeadPage(serial)) + rest))
         == Drain(State(rest, [], Some(serial), 0, 1, 0, false))
  {
    HeaderPacketsAccepted();
    hide Accept, HeadPacket, PageBytes, LacingAll, TakePage, FrontOf;
    var st, next := INITIAL.(buffer := PageBytes(HeadPage(serial)) + rest), State(rest, [], Some(serial), 0, 1, 0, false);
    WrittenPageTaken(st, HeadPage(serial), rest);
    assert TakePage(st) == Ok((next, []));
    PrependNothing(Drain(next));
  }

  lemma TagsPageRead(serial: nat, rest: bytes)
    requires TagsPage(serial).Valid()
    ensures Drain(State(PageBytes(TagsPage(serial)) + rest, [], Some(serial), 0, 1, 0, false))
         == Drain(State(rest, [], Some(serial), 1, 2, 0, false))
  {
    HeaderPacketsAccepted();
    hide Accept, TagsPacket, PageBytes, LacingAll, TakePage, FrontOf;
    var st := State(PageBytes(TagsPage(serial)) + rest, [], Some(serial), 0, 1, 0, false);
    var next := State(rest, [], Some(serial), 1, 2, 0, false);
    WrittenPageTaken(st, TagsPage(serial), rest);
    assert TakePage(st) == Ok((next, []));
    PrependNothing(Drain(next));
  }

  lemma HeaderPagesRead(serial: nat, pages: seq<PageSpec>)
    requires Stream(serial, pages)
    ensures Drain(INITIAL.(buffer := FileBytes(pages))) == Drain(Between(serial, pages, 2, 0))
  {
    hide HeadPage, TagsPage, PageBytes, LacingAll, Drain, Total, Playable;
    assert pages[1..][1..] == pages[2..];
    HeadPageRead(serial, FileBytes(pages[1..]));
    TagsPageRead(serial, FileBytes(pages[2..]));
  }

  lemma HeaderPacketsAccepted()
    ensures Accept(0, [HeadPacket()]) == Ok((1, [])) && Accept(1, [TagsPacket()]) == Ok((2, []))
  {
    assert [HeadPacket()][1..] == [] && [TagsPacket()][1..] == [];
  }

  /**
   A closed stream, cut into any chunks: read back as exactly its audio packets when each lasts 20 ms,
   refused when one does not.
   */
  lemma ClosedStreamReads(serial: nat, pages: seq<PageSpec>, chunks: seq<bytes>)
    requires Stream(serial, pages) && |pages| > 2 && pages[|pages| - 1].flags == FLAG_EOS && Audio(pages) != []
    requires Concat(chunks) == FileBytes(pages)
    ensures if AllFrames(Audio(pages))
            then ConsumeAll(INITIAL, chunks) == Ok((Closed(serial, pages, |Audio(pages)|), Audio(pages)))
                 && Finished(Closed(serial, pages, |Audio(pages)|))
            else ConsumeAll(INITIAL, chunks) == Unsupported
  {
    hide Drain, ConsumeAll, FileBytes, PacketsOf, Concat, DiscordFrame, HeadPage, TagsPage;
    AnyCutIsOneFeed(chunks);
    HeaderPagesRead(serial, pages);
    AudioPagesRead(serial, pages, 2, 0);
  }

  /** However the file is cut, the demuxer returns these packets and accepts the end. */
  ghost predicate ReadsBack(data: bytes, packets: seq<bytes>) {
    forall chunks: seq<bytes> :: Concat(chunks) == data ==>
      && ConsumeAll(INITIAL, chunks).Ok?
      && ConsumeAll(INITIAL, chunks).value.1 == packets
      && Finished(ConsumeAll(INITIAL, chunks).value.0)
  }

  lemma ClosedStreamReadsBack(serial: nat, pages: seq<PageSpec>)
    requires Stream(serial, pages) && |pages| > 2 && pages[|pages| - 1].flags == FLAG_EOS
    requires Audio(pages) != [] && AllFrames(Audio(pages))
    ensures ReadsBack(FileBytes(pages), Audio(pages))
  {
    hide Drain, ConsumeAll, FileBytes, PacketsOf, Concat, DiscordFrame, HeadPage, TagsPage;
    forall chunks: seq<bytes> | Concat(chunks) == FileBytes(pages)
      ensures ConsumeAll(INITIAL, chunks).Ok? && Finished(ConsumeAll(INITIAL, chunks).value.0)
           && ConsumeAll(INITIAL, chunks).value.1 == Audio(pages)
    {
      ClosedStreamReads(serial, pages, chunks);
    }
  }
}
