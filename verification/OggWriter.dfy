/** OggOpusWriter (ttsbot/recording/ogg.py): packets grouped into pages, one file. */
module OggWriter {
  import opened Bytes
  import opened OpusPacket
  import opened OggPage
  import opened OggDemuxer

  const PACKETS_PER_PAGE := 50

  function HeadPacket(): bytes {
    OPUS_HEAD + [1, 2] + [0, 0] + [0x80, 0xBB, 0, 0] + [0, 0] + [0] // version, channels, pre-skip, 48000, gain, family
  }

  function TagsPacket(): bytes {
    OPUS_TAGS + [6, 0, 0, 0] + [0x74, 0x74, 0x73, 0x62, 0x6F, 0x74] + [0, 0, 0, 0] // vendor "ttsbot", no comments
  }

  /**
   The two headers as RFC 7845 lays them out (sections 5.1 and 5.2): version 1, two channels, nothing to skip, 48000 Hz,
   no gain, mapping family 0; then the vendor and an empty comment list.
   */
  lemma HeadersAreRfc7845()
    ensures var h := HeadPacket();
      && |h| == 19 && h[..8] == OPUS_HEAD && h[8] == 1 && h[9] == 2 && FromLE(h[10..12]) == 0 && FromLE(h[12..16]) == 48000
      && FromLE(h[16..18]) == 0 && h[18] == 0
    ensures var t := TagsPacket();
      && |t| == 22 && t[..8] == OPUS_TAGS && FromLE(t[8..12]) == |t[12..18]| == 6 && FromLE(t[18..22]) == 0
  {
    HeadParts();
    TagsParts();
    hide HeadPacket, TagsPacket;
    LittleEndian([0x80, 0xBB, 0, 0], 48000);
    LittleEndian([0, 0], 0);
    LittleEndian([0, 0, 0, 0], 0);
    LittleEndian([6, 0, 0, 0], 6);
  }

  lemma HeadParts()
    ensures var h := HeadPacket();
      && |h| == 19 && h[..8] == OPUS_HEAD && h[8] == 1 && h[9] == 2 && h[10..12] == [0, 0] && h[12..16] == [0x80, 0xBB, 0, 0]
      && h[16..18] == [0, 0] && h[18] == 0
  {}

  lemma TagsParts()
    ensures var t := TagsPacket();
      |t| == 22 && t[..8] == OPUS_TAGS && t[8..12] == [6, 0, 0, 0] && t[18..22] == [0, 0, 0, 0]
  {}

  lemma LittleEndian(b: bytes, x: nat)
    requires |b| == 2 || |b| == 4
    requires x == b[0] as int + 256 * (b[1] as int + if |b| == 2 then 0 else 256 * (b[2] as int + 256 * (b[3] as int)))
    ensures FromLE(b) == x
  {
    assert b[1..][1..] == b[2..] && FromLE(b) == b[0] as int + 256 * FromLE(b[1..]);
    assert FromLE(b[1..]) == b[1] as int + 256 * FromLE(b[2..]);
    if |b| == 4 {
      assert b[2..][1..] == b[3..] && b[3..][1..] == [];
      assert FromLE(b[2..]) == b[2] as int + 256 * FromLE(b[3..]) && FromLE(b[3..]) == b[3] as int + 256 * FromLE([]);
    }
  }

  predicate AllPlayable(packets: seq<bytes>) { forall p <- packets :: Playable(p) }

  function Total(packets: seq<bytes>): nat
    requires AllPlayable(packets)
  {
    if packets == [] then 0 else Samples(packets[0]) + Total(packets[1..])
  }

  lemma {:induction false} TotalAppend(a: seq<bytes>, b: seq<bytes>)
    requires AllPlayable(a) && AllPlayable(b)
    ensures AllPlayable(a + b) && Total(a + b) == Total(a) + Total(b)
  {
    if a == [] {
      assert a + b == b;
    } else {
      TotalAppend(a[1..], b);
      assert (a + b)[1..] == a[1..] + b;
    }
  }

  // ---- What a written file is

  function HeadPage(serial: nat): PageSpec { PageSpec(FLAG_BOS, 0, serial, 0, [HeadPacket()]) }
  function TagsPage(serial: nat): PageSpec { PageSpec(0, 0, serial, 1, [TagsPacket()]) }

  /**
   The pages of one stream: numbered from 0 under one serial; the two header pages; then audio pages
   whose granule position is the number of samples up to their end. Only the last may carry end-of-stream.
   */
  predicate Stream(serial: nat, pages: seq<PageSpec>) {
    && serial < 0x1_0000_0000 && |pages| >= 2 && pages[0] == HeadPage(serial) && pages[1] == TagsPage(serial)
    && (forall p <- pages :: p.Valid())
    && (forall i :: 2 <= i < |pages| ==>
          && pages[i].serial == serial && pages[i].sequence == i && AllPlayable(pages[i].packets)
          && pages[i].granule == pages[i - 1].granule + Total(pages[i].packets))
    && (forall i :: 2 <= i < |pages| - 1 ==> pages[i].flags == 0)
  }

  /** The stream goes on: no end-of-stream page yet. */
  predicate Unfinished(pages: seq<PageSpec>) {
    forall i :: 2 <= i < |pages| ==> pages[i].flags == 0
  }

  function Audio(pages: seq<PageSpec>): seq<bytes>
    requires |pages| >= 2
  {
    PacketsOf(pages[2..])
  }

  lemma HeadersFit(serial: nat)
    requires serial < 0x1_0000_0000
    ensures HeadPage(serial).Valid() && TagsPage(serial).Valid()
  {
    assert LacingAll([HeadPacket()][1..]) == [] && LacingAll([TagsPacket()][1..]) == [];
  }

  lemma {:induction false} GranuleIsTotal(serial: nat, pages: seq<PageSpec>)
    requires Stream(serial, pages)
    ensures AllPlayable(Audio(pages)) && pages[|pages| - 1].granule == Total(Audio(pages))
    decreases |pages|
  {
    hide PageBytes, Fits, Playable, HeadPacket, TagsPacket;
    if |pages| == 2 {
      assert pages[2..] == [];
    } else {
      var front, last := pages[..|pages| - 1], pages[|pages| - 1];
      GranuleIsTotal(serial, front);
      assert pages == front + [last];
      AudioAppend(front, last);
      TotalAppend(Audio(front), last.packets);
    }
  }

  /** One more page keeps the stream well formed. */
  lemma StreamAppend(serial: nat, pages: seq<PageSpec>, p: PageSpec)
    requires Stream(serial, pages) && Unfinished(pages) && p.Valid() && AllPlayable(p.packets)
    requires AllPlayable(Audio(pages))
    requires p.serial == serial && p.sequence == |pages| && p.granule == Total(Audio(pages)) + Total(p.packets)
    ensures Stream(serial, pages + [p]) && Audio(pages + [p]) == Audio(pages) + p.packets
    ensures p.flags == 0 ==> Unfinished(pages + [p])
  {
    hide Fits, HeadPacket, TagsPacket, Playable, Total, PacketsOf;
    AudioAppend(pages, p);
    GranuleIsTotal(serial, pages);
    var all := pages + [p];
    forall i | 2 <= i < |all|
      ensures all[i].serial == serial && all[i].sequence == i && AllPlayable(all[i].packets)
           && all[i].granule == all[i - 1].granule + Total(all[i].packets)
    {
      if i < |pages| { assert all[i] == pages[i] && all[i - 1] == pages[i - 1]; }
    }
  }

  lemma AudioAppend(pages: seq<PageSpec>, p: PageSpec)
    requires |pages| >= 2
    ensures Audio(pages + [p]) == Audio(pages) + p.packets
  {
    assert (pages + [p])[2..] == pages[2..] + [p];
    PacketsAppend(pages[2..], [p]);
    assert [p][1..] == [] && p.packets + [] == p.packets;
  }

  // ---- The class

  datatype Outcome = Written | BadPacket | PageTooLarge

  function Silent(n: nat): seq<bytes> { seq(n, _ => OPUS_SILENCE) }

  method SegmentTable(packets: seq<bytes>) returns (lacing: bytes)
    ensures lacing == LacingAll(packets)
  {
    lacing := [];
    for i := 0 to |packets|
      invariant LacingAll(packets) == lacing + LacingAll(packets[i..])
    {
      assert packets[i..][1..] == packets[i + 1..];
      JoinThree(lacing, Lacing(packets[i]), LacingAll(packets[i + 1..]));
      lacing := lacing + Lacing(packets[i]);
    }
  }

  class OggOpusWriter {
    const serial: nat
    var file: bytes // what has reached the disk
    var sequence: nat
    var packets: seq<bytes>
    var samples: nat // the next granule position
    var bytesWritten: nat
    ghost var pages: seq<PageSpec> // what each page on disk holds

    ghost predicate OnDisk()
      reads this
    {
      (forall p <- pages :: p.Valid()) && file == FileBytes(pages) && bytesWritten == |file| && sequence == |pages|
    }

    ghost predicate Valid()
      reads this
    {
      && OnDisk() && Stream(serial, pages) && Unfinished(pages)
      && AllPlayable(Audio(pages)) && AllPlayable(packets)
      && samples == Total(Audio(pages)) + Total(packets)
    }

    /** No page has been refused: every audio page holds 50 packets, the rest wait. */
    ghost predicate Healthy()
      reads this
    {
      Valid() && (forall p <- pages[2..] :: |p.packets| == PACKETS_PER_PAGE) && |packets| < PACKETS_PER_PAGE
    }

    /** Everything written so far, on disk or waiting. */
    ghost function Sent(): seq<bytes>
      requires |pages| >= 2
      reads this
    {
      Audio(pages) + packets
    }

    constructor (serialNumber: int)
      ensures Healthy() && Sent() == [] && serial == serialNumber % 0x1_0000_0000
    {
      hide PageBytes, Fits, HeadPacket, TagsPacket, Playable;
      var id := serialNumber % 0x1_0000_0000;
      HeadersFit(id);
      serial := id;
      file := PageBytes(HeadPage(id)) + PageBytes(TagsPage(id));
      sequence, packets, samples := 2, [], 0;
      bytesWritten := |PageBytes(HeadPage(id)) + PageBytes(TagsPage(id))|;
      pages := [HeadPage(id), TagsPage(id)];
      FileAppend([HeadPage(id)], [TagsPage(id)]);
      FileOfOne(HeadPage(id));
      FileOfOne(TagsPage(id));
      assert [HeadPage(id), TagsPage(id)] == [HeadPage(id)] + [TagsPage(id)];
    }

    /** Refuses a page over 255 segments (or past its counters) before touching the file. */
    method WritePage(content: seq<bytes>, granule: nat, flags: byte) returns (ok: bool)
      requires OnDisk() && serial < 0x1_0000_0000
      modifies `file, `sequence, `bytesWritten, `pages
      ensures OnDisk()
      ensures ok <==> Fits(content, granule, old(sequence))
      ensures if ok then pages == old(pages) + [PageSpec(flags, granule, serial, old(sequence), content)]
              else unchanged(this)
    {
      hide PageBytes, LacingAll, Playable;
      var lacing := SegmentTable(content);
      if |lacing| > 255 || granule >= 0x8000_0000_0000_0000 || sequence >= 0x1_0000_0000 { return false; }
      var spec := PageSpec(flags, granule, serial, sequence, content);
      var page := PageBytes(spec);
      FileAppend(pages, [spec]);
      FileOfOne(spec);
      file := file + page;
      sequence := sequence + 1;
      bytesWritten := bytesWritten + |page|;
      pages := pages + [spec];
      return true;
    }

    method Flush(flags: byte) returns (ok: bool)
      requires Valid()
      modifies this
      ensures OnDisk()
      ensures ok <==> Fits(old(packets), samples, old(sequence))
      ensures !ok ==> unchanged(this)
      ensures ok ==>
        && packets == [] && samples == old(samples) && Stream(serial, pages)
        && pages == old(pages) + [PageSpec(flags, samples, serial, |old(pages)|, old(packets))]
        && Audio(pages) == old(Audio(pages)) + old(packets)
        && (flags == 0 ==> Valid())
    {
      hide PageBytes, Fits, Playable, Samples;
      ghost var spec := PageSpec(flags, samples, serial, sequence, packets);
      ok := WritePage(packets, samples, flags);
      if ok {
        StreamAppend(serial, old(pages), spec);
        TotalAppend(Audio(old(pages)), packets);
        packets := [];
        assert Total(packets) == 0;
      }
    }

    /** A refused page leaves its packets waiting; the file stays as it was. */
    method Write(packet: bytes) returns (r: Outcome)
      requires Valid()
      modifies this
      ensures Valid()
      ensures r.BadPacket? <==> !Playable(packet)
      ensures r.BadPacket? ==> unchanged(this)
      ensures !r.BadPacket? ==> Sent() == old(Sent()) + [packet] && samples == old(samples) + Samples(packet)
      ensures !r.BadPacket? && |old(packets)| + 1 < PACKETS_PER_PAGE ==>
        r.Written? && pages == old(pages) && packets == old(packets) + [packet]
      ensures !r.BadPacket? && |old(packets)| + 1 >= PACKETS_PER_PAGE ==>
        var full := old(packets) + [packet];
        && (r.Written? <==> Fits(full, samples, old(sequence)))
        && if r.Written?
           then packets == [] && pages == old(pages) + [PageSpec(0, samples, serial, |old(pages)|, full)]
           else packets == full && pages == old(pages) && file == old(file)
      ensures old(Healthy()) && r.Written? ==> Healthy()
    {
      hide PageBytes, Fits, Playable, Samples, PacketsOf, FileBytes;
      if !Playable(packet) { return BadPacket; }
      TotalAppend(packets, [packet]);
      assert Total([packet]) == Samples(packet) by { assert [packet][1..] == []; }
      hide Total;
      samples := samples + Samples(packet);
      packets := packets + [packet];
      assert Sent() == old(Sent()) + [packet];
      if |packets| >= PACKETS_PER_PAGE {
        ghost var before := Sent();
        var ok := Flush(0);
        if !ok { return PageTooLarge; }
        assert Sent() == before;
      }
      return Written;
    }

    /** Whole packets only; stops at the first page that is refused. */
    method WriteSilence(amount: nat) returns (ok: bool)
      requires Valid()
      modifies this
      ensures Valid() && (old(Healthy()) && ok ==> Healthy())
      ensures exists n: nat :: n <= amount / 960 && (ok ==> n == amount / 960) && Sent() == old(Sent()) + Silent(n)
    {
      hide PageBytes, Fits, Samples, Total, PacketsOf, FileBytes;
      SilenceIsDiscordFrame();
      assert Sent() + Silent(0) == Sent();
      for i := 0 to amount / 960
        invariant Valid() && (old(Healthy()) ==> Healthy())
        invariant Sent() == old(Sent()) + Silent(i)
      {
        assert Silent(i + 1) == Silent(i) + [OPUS_SILENCE];
        var r := Write(OPUS_SILENCE);
        assert Sent() == old(Sent()) + Silent(i + 1);
        if r != Written { return false; }
      }
      return true;
    }

    /** The end-of-stream page holds what waits, or one silence packet; too much waiting is refused. */
    method Close() returns (ok: bool)
      requires Valid()
      modifies this
      ensures OnDisk()
      ensures ok <==> if old(packets) == [] then Fits([OPUS_SILENCE], old(samples) + 960, old(sequence))
                      else Fits(old(packets), old(samples), old(sequence))
      ensures !ok ==> pages == old(pages) && file == old(file)
      ensures ok ==>
        && Stream(serial, pages) && |pages| == |old(pages)| + 1 && pages[..|old(pages)|] == old(pages)
        && pages[|old(pages)|].flags == FLAG_EOS
        && Audio(pages) == old(Sent()) + if old(packets) == [] then [OPUS_SILENCE] else []
    {
      hide PageBytes, Fits;
      SilenceIsDiscordFrame();
      if packets == [] {
        var r := Write(OPUS_SILENCE);
        assert packets == [OPUS_SILENCE];
      }
      ok := Flush(FLAG_EOS);
    }
  }
}
