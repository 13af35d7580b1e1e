/** The Ogg page format (RFC 3533, section 6): layout, segment table, checksum. */
module OggPage {
  import opened Bytes
  import Crc

  const MAGIC: bytes := [0x4F, 0x67, 0x67, 0x53] // "OggS"
  const FLAG_BOS: byte := 2
  const FLAG_EOS: byte := 4

  // ---- Writing

  /** The segment sizes of one packet; a multiple of 255 ends in an empty segment. */
  function Lacing(packet: bytes): (r: bytes)
    ensures |r| == |packet| / 255 + 1
  {
    seq(|packet| / 255, _ => 255) + [|packet| % 255]
  }

  function LacingAll(packets: seq<bytes>): bytes {
    if packets == [] then [] else Lacing(packets[0]) + LacingAll(packets[1..])
  }

  /** What one page can hold: 255 segments, and counters that fit their fields. */
  predicate Fits(packets: seq<bytes>, granule: nat, sequence: nat) {
    |LacingAll(packets)| <= 255 && granule < 0x8000_0000_0000_0000 && sequence < 0x1_0000_0000
  }

  /** The 27 fixed bytes, from the packed fields. */
  function Layout(flags: byte, granule: bytes, serial: bytes, sequence: bytes, crc: bytes, segments: byte): (r: bytes)
    requires |granule| == 8 && |serial| == |sequence| == |crc| == 4
    ensures |r| == 27
  {
    MAGIC + [0, flags] + granule + serial + sequence + crc + [segments]
  }

  function Header(flags: byte, granule: nat, serial: nat, sequence: nat, crc: nat, segments: byte): (r: bytes)
    ensures |r| == 27
  {
    Layout(flags, ToLE(granule, 8), ToLE(serial, 4), ToLE(sequence, 4), ToLE(crc, 4), segments)
  }

  function Page(flags: byte, granule: nat, serial: nat, sequence: nat, packets: seq<bytes>): bytes
    requires Fits(packets, granule, sequence) && |LacingAll(packets)| <= 255
  {
    var rest := LacingAll(packets) + Concat(packets);
    var segments := |LacingAll(packets)|;
    var crc := Crc.OggCrc(Header(flags, granule, serial, sequence, 0, segments) + rest);
    Header(flags, granule, serial, sequence, crc, segments) + rest
  }

  // ---- Reading

  /** Where the segment table at the front of d ends. */
  function TableEnd(d: bytes): (r: nat)
    requires |d| >= 27
    ensures 27 <= r <= 27 + 255
  {
    var segments: int := d[26];
    27 + segments
  }

  /** Where the page at the front of d ends. */
  function PageEnd(d: bytes): (r: nat)
    requires |d| >= 27 && |d| >= TableEnd(d)
    ensures r >= TableEnd(d)
  {
    TableEnd(d) + Sum(d[27..TableEnd(d)])
  }

  /** A whole page is at the front of d. */
  predicate Complete(d: bytes) {
    |d| >= 27 && |d| >= TableEnd(d) && |d| >= PageEnd(d)
  }

  function Zeroed(page: bytes): (r: bytes)
    requires |page| >= 27
    ensures |r| == |page|
  {
    page[..22] + [0, 0, 0, 0] + page[26..]
  }

  predicate CrcMatches(page: bytes)
    requires |page| >= 27
  {
    Crc.OggCrc(Zeroed(page)) == FromLE(page[22..26])
  }

  /** Cut a page body into packets: (those that end here, the bytes of one still open). */
  function Lace(open: bytes, sizes: bytes, body: bytes): (seq<bytes>, bytes)
    requires |body| == Sum(sizes)
    decreases |sizes|
  {
    if sizes == [] then ([], open)
    else
      var grown := open + body[..sizes[0]];
      if sizes[0] == 255 then Lace(grown, sizes[1..], body[sizes[0]..])
      else
        var (packets, left) := Lace([], sizes[1..], body[sizes[0]..]);
        ([grown] + packets, left)
  }

  // ---- The two directions fit together

  lemma {:induction false} SumOfRun(n: nat, last: byte)
    ensures Sum(seq(n, _ => 255) + [last]) == 255 * n + last
  {
    var s: bytes := seq(n, _ => 255) + [last];
    if n == 0 {
      assert s == [last];
    } else {
      SumOfRun(n - 1, last);
      assert s[1..] == seq(n - 1, _ => 255) + [last];
    }
  }

  lemma {:induction false} LacingSums(packets: seq<bytes>)
    ensures Sum(LacingAll(packets)) == |Concat(packets)|
  {
    if packets != [] {
      var p := packets[0];
      SumOfRun(|p| / 255, |p| % 255);
      SumAppend(Lacing(p), LacingAll(packets[1..]));
      LacingSums(packets[1..]);
    }
  }

  /** n full segments and a short one put one packet together. */
  lemma {:induction false} LaceRun(open: bytes, n: nat, last: byte, more: bytes, packet: bytes, rest: bytes)
    requires last < 255 && |packet| == 255 * n + last && |rest| == Sum(more)
    ensures Sum((seq(n, _ => 255) + [last]) + more) == |packet + rest|
    ensures Lace(open, (seq(n, _ => 255) + [last]) + more, packet + rest)
         == ([open + packet] + Lace([], more, rest).0, Lace([], more, rest).1)
    decreases n
  {
    var sizes: bytes := (seq(n, _ => 255) + [last]) + more;
    SumOfRun(n, last);
    SumAppend(seq(n, _ => 255) + [last], more);
    if n == 0 {
      assert sizes == [last] + more && sizes[1..] == more;
      assert (packet + rest)[..last] == packet && (packet + rest)[last..] == rest;
    } else {
      assert sizes[0] == 255 && sizes[1..] == (seq(n - 1, _ => 255) + [last]) + more;
      assert (packet + rest)[..255] == packet[..255] && (packet + rest)[255..] == packet[255..] + rest;
      LaceRun(open + packet[..255], n - 1, last, more, packet[255..], rest);
      assert open + packet[..255] + packet[255..] == open + packet;
    }
  }

  /** Reading a segment table gives back the packets it was made for, with nothing left open. */
  lemma {:induction false} LaceRoundTrip(packets: seq<bytes>)
    ensures Sum(LacingAll(packets)) == |Concat(packets)|
    ensures Lace([], LacingAll(packets), Concat(packets)) == (packets, [])
  {
    LacingSums(packets);
    if packets != [] {
      var p := packets[0];
      LaceRoundTrip(packets[1..]);
      LaceRun([], |p| / 255, |p| % 255, LacingAll(packets[1..]), p, Concat(packets[1..]));
      assert [] + p == p && [p] + packets[1..] == packets;
    }
  }

  lemma LayoutFields(flags: byte, granule: bytes, serial: bytes, sequence: bytes, crc: bytes, segments: byte)
    requires |granule| == 8 && |serial| == |sequence| == |crc| == 4
    ensures var h := Layout(flags, granule, serial, sequence, crc, segments);
            && h[..4] == MAGIC && h[4] == 0 && h[5] == flags && h[6..14] == granule && h[14..18] == serial
            && h[18..22] == sequence && h[22..26] == crc && h[26] == segments
  {}

  lemma HeaderFields(flags: byte, granule: nat, serial: nat, sequence: nat, crc: nat, segments: byte)
    requires granule < 0x8000_0000_0000_0000 && serial < 0x1_0000_0000 && sequence < 0x1_0000_0000
    ensures var h := Header(flags, granule, serial, sequence, crc, segments);
            && h[..4] == MAGIC && h[4] == 0 && h[5] == flags
            && FromLE(h[6..14]) == granule && FromLE(h[14..18]) == serial && FromLE(h[18..22]) == sequence
            && h[26] == segments
  {
    LayoutFields(flags, ToLE(granule, 8), ToLE(serial, 4), ToLE(sequence, 4), ToLE(crc, 4), segments);
    assert Pow256(4) == 0x1_0000_0000;
    assert Pow256(8) == 0x1_0000_0000_0000_0000;
    LERoundTrip(granule, 8);
    LERoundTrip(serial, 4);
    LERoundTrip(sequence, 4);
  }

  /** Everything a reader takes from the front of d before looking at the body. */
  datatype Fields = Fields(flags: byte, granule: nat, serial: nat, sequence: nat, table: bytes)

  function FieldsOf(d: bytes): Fields
    requires |d| >= 27 && |d| >= TableEnd(d)
  {
    Fields(d[5], FromLE(d[6..14]), FromLE(d[14..18]), FromLE(d[18..22]), d[27..TableEnd(d)])
  }

  lemma FieldsOfHeader(head: bytes, rest: bytes)
    requires |head| == 27 && |rest| >= head[26]
    ensures var d := head + rest;
            && |d| >= TableEnd(d) && d[..4] == head[..4] && d[4] == head[4]
            && FieldsOf(d) == Fields(head[5], FromLE(head[6..14]), FromLE(head[14..18]), FromLE(head[18..22]), rest[..head[26]])
  {
    var d := head + rest;
    assert d[..4] == head[..4] && d[6..14] == head[6..14] && d[14..18] == head[14..18] && d[18..22] == head[18..22];
    assert d[27..TableEnd(d)] == rest[..head[26]];
  }

  /** Every field of a written page is where a reader looks, whatever follows the page. */
  lemma PageFields(flags: byte, granule: nat, serial: nat, sequence: nat, packets: seq<bytes>, after: bytes)
    requires Fits(packets, granule, sequence) && serial < 0x1_0000_0000
    ensures var page := Page(flags, granule, serial, sequence, packets);
            var d := page + after;
            && |page| == 27 + |LacingAll(packets)| + |Concat(packets)|
            && Complete(d) && d[..4] == MAGIC && d[4] == 0 && PageEnd(d) == |page|
            && FieldsOf(d) == Fields(flags, granule, serial, sequence, LacingAll(packets))
            && d[TableEnd(d)..PageEnd(d)] == Concat(packets)
            && d[..PageEnd(d)] == page && d[PageEnd(d)..] == after
  {
    var lacing, body := LacingAll(packets), Concat(packets);
    var crc := Crc.OggCrc(Header(flags, granule, serial, sequence, 0, |lacing|) + (lacing + body));
    var head := Header(flags, granule, serial, sequence, crc, |lacing|);
    assert Page(flags, granule, serial, sequence, packets) == head + (lacing + body);
    LacingSums(packets);
    HeaderFields(flags, granule, serial, sequence, crc, |lacing|);
    PageParts(head, lacing, body, after);
  }

  lemma PageParts(head: bytes, lacing: bytes, body: bytes, after: bytes)
    requires |head| == 27 && |lacing| == head[26] && Sum(lacing) == |body|
    ensures var page := head + (lacing + body);
            var d := page + after;
            && Complete(d) && d[..4] == head[..4] && d[4] == head[4] && PageEnd(d) == |page|
            && FieldsOf(d) == Fields(head[5], FromLE(head[6..14]), FromLE(head[14..18]), FromLE(head[18..22]), lacing)
            && d[TableEnd(d)..PageEnd(d)] == body && d[..PageEnd(d)] == page && d[PageEnd(d)..] == after
  {
    var page := head + (lacing + body);
    var d := page + after;
    FieldsOfHeader(head, lacing + body + after);
    assert d == head + (lacing + body + after);
    assert (lacing + body + after)[..|lacing|] == lacing;
    assert d[27..TableEnd(d)] == lacing;
    assert d[TableEnd(d)..|page|] == body;
  }

  /** Setting the checksum field of a header. */
  lemma ZeroedHeader(flags: byte, granule: bytes, serial: bytes, sequence: bytes, crc: bytes, segments: byte, rest: bytes)
    requires |granule| == 8 && |serial| == |sequence| == |crc| == 4
    ensures var page := Layout(flags, granule, serial, sequence, crc, segments) + rest;
            && page[22..26] == crc
            && Zeroed(page) == Layout(flags, granule, serial, sequence, [0, 0, 0, 0], segments) + rest
  {}

  lemma ChecksumOfLayout(flags: byte, granule: bytes, serial: bytes, sequence: bytes, segments: byte, rest: bytes)
    requires |granule| == 8 && |serial| == |sequence| == 4
    ensures var crc := Crc.OggCrc(Layout(flags, granule, serial, sequence, [0, 0, 0, 0], segments) + rest);
            CrcMatches(Layout(flags, granule, serial, sequence, ToLE(crc, 4), segments) + rest)
  {
    var crc := Crc.OggCrc(Layout(flags, granule, serial, sequence, [0, 0, 0, 0], segments) + rest);
    ZeroedHeader(flags, granule, serial, sequence, ToLE(crc, 4), segments, rest);
    Crc.CrcFits(Layout(flags, granule, serial, sequence, [0, 0, 0, 0], segments) + rest);
    LERoundTrip(crc, 4);
  }

  /** A page as written passes its own checksum. */
  lemma WrittenPageChecks(flags: byte, granule: nat, serial: nat, sequence: nat, packets: seq<bytes>)
    requires Fits(packets, granule, sequence)
    ensures |Page(flags, granule, serial, sequence, packets)| >= 27
    ensures CrcMatches(Page(flags, granule, serial, sequence, packets))
  {
    assert ToLE(0, 4) == [0, 0, 0, 0];
    ChecksumOfLayout(flags, ToLE(granule, 8), ToLE(serial, 4), ToLE(sequence, 4), |LacingAll(packets)|,
                     LacingAll(packets) + Concat(packets));
  }

  /** Damage within four bytes of a page, away from its checksum field, never passes the checksum. */
  lemma DamagedPageFails(page: bytes, damaged: bytes, at: nat, n: nat)
    requires |page| == |damaged| >= 27 && CrcMatches(page) && page != damaged
    requires n <= 4 && at + n <= |page| && (at + n <= 22 || at >= 26)
    requires page[..at] == damaged[..at] && page[at + n..] == damaged[at + n..]
    ensures !CrcMatches(damaged)
  {
    hide FromLE, Crc.OggCrc;
    var x, y := Zeroed(page), Zeroed(damaged);
    ZeroedParts(page, at, n);
    ZeroedParts(damaged, at, n);
    assert page == page[..at] + page[at..at + n] + page[at + n..];
    assert damaged == damaged[..at] + damaged[at..at + n] + damaged[at + n..];
    ZeroedAgree(page, damaged, at, n);
    hide Zeroed;
    Crc.BurstDetected(x[..at], page[at..at + n], damaged[at..at + n], x[at + n..]);
  }

  lemma ZeroedParts(page: bytes, at: nat, n: nat)
    requires |page| >= 27 && at + n <= |page| && (at + n <= 22 || at >= 26)
    ensures Zeroed(page) == Zeroed(page)[..at] + page[at..at + n] + Zeroed(page)[at + n..]
  {}

  lemma ZeroedAgree(page: bytes, damaged: bytes, at: nat, n: nat)
    requires |page| == |damaged| >= 27 && at + n <= |page| && (at + n <= 22 || at >= 26)
    requires page[..at] == damaged[..at] && page[at + n..] == damaged[at + n..]
    ensures Zeroed(page)[..at] == Zeroed(damaged)[..at] && Zeroed(page)[at + n..] == Zeroed(damaged)[at + n..]
    ensures page[22..26] == damaged[22..26]
  {
    forall i | 0 <= i < |page| && (i < at || i >= at + n) ensures page[i] == damaged[i] {
      if i < at {
        assert page[..at][i] == damaged[..at][i];
      } else {
        assert page[at + n..][i - at - n] == damaged[at + n..][i - at - n];
      }
    }
  }

  // ---- Files as page lists

  /** What one written page was made from. */
  datatype PageSpec = PageSpec(flags: byte, granule: nat, serial: nat, sequence: nat, packets: seq<bytes>) {
    predicate Valid() { Fits(packets, granule, sequence) && serial < 0x1_0000_0000 }
  }

  function PageBytes(p: PageSpec): bytes
    requires p.Valid()
  {
    Page(p.flags, p.granule, p.serial, p.sequence, p.packets)
  }

  function FileBytes(pages: seq<PageSpec>): bytes
    requires forall p <- pages :: p.Valid()
  {
    if pages == [] then [] else PageBytes(pages[0]) + FileBytes(pages[1..])
  }

  lemma {:induction false} FileAppend(a: seq<PageSpec>, b: seq<PageSpec>)
    requires (forall p <- a :: p.Valid()) && forall p <- b :: p.Valid()
    ensures (forall p <- a + b :: p.Valid()) && FileBytes(a + b) == FileBytes(a) + FileBytes(b)
  {
    hide PageBytes, Fits;
    if a == [] {
      assert a + b == b;
    } else {
      FileAppend(a[1..], b);
      assert (a + b)[1..] == a[1..] + b;
      JoinThree(PageBytes(a[0]), FileBytes(a[1..]), FileBytes(b));
    }
  }

  lemma FileOfOne(p: PageSpec)
    requires p.Valid()
    ensures FileBytes([p]) == PageBytes(p)
  {
    assert [p][1..] == [];
    var page := PageBytes(p);
    assert page + [] == page;
  }

  /** The packets of all pages, in order. */
  function PacketsOf(pages: seq<PageSpec>): seq<bytes> {
    if pages == [] then [] else pages[0].packets + PacketsOf(pages[1..])
  }

  lemma {:induction false} PacketsAppend(a: seq<PageSpec>, b: seq<PageSpec>)
    ensures PacketsOf(a + b) == PacketsOf(a) + PacketsOf(b)
  {
    hide Fits;
    if a == [] {
      assert a + b == b;
    } else {
      PacketsAppend(a[1..], b);
      assert (a + b)[1..] == a[1..] + b;
      JoinThree(a[0].packets, PacketsOf(a[1..]), PacketsOf(b));
    }
  }
}
