/** Which byte strings OggOpusDemuxer (ttsbot/ogg_opus.py) takes for a stream, whoever wrote them. */
module OggStreams {
  import opened Bytes
  import opened OpusPacket
  import opened OggPage
  import opened OggDemuxer

  // ---- Streams as RFC 3533 and RFC 7845 describe them

  /** A page as it lies in the file: the 27 bytes of its header by field, and its segments. */
  datatype RawPage = RawPage(marker: bytes, version: byte, flags: byte, granule: bytes, serial: bytes, sequence: bytes,
                             checksum: bytes, segments: seq<bytes>)

  predicate Shaped(p: RawPage) {
    && |p.marker| == |p.serial| == |p.sequence| == |p.checksum| == 4 && |p.granule| == 8
    && |p.segments| <= 255 && forall s <- p.segments :: |s| <= 255
  }

  predicate AllShaped(pages: seq<RawPage>) { forall p <- pages :: Shaped(p) }

  function Sizes(segments: seq<bytes>): (r: bytes)
    requires forall s <- segments :: |s| <= 255
    ensures |r| == |segments|
  {
    seq(|segments|, i requires 0 <= i < |segments| => SizeOf(segments[i]))
  }

  function SizeOf(segment: bytes): byte
    requires |segment| <= 255
  {
    |segment|
  }

  function RawHead(p: RawPage): (r: bytes)
    requires Shaped(p)
    ensures |r| == 27
  {
    p.marker + [p.version, p.flags] + p.granule + p.serial + p.sequence + p.checksum + [|p.segments|]
  }

  function RawBytes(p: RawPage): (r: bytes)
    requires Shaped(p)
    ensures |r| >= 27
  {
    RawHead(p) + (Sizes(p.segments) + Concat(p.segments))
  }

  function StreamBytes(pages: seq<RawPage>): (r: bytes)
    requires AllShaped(pages)
    ensures r == [] <==> pages == []
  {
    if pages == [] then [] else RawBytes(pages[0]) + StreamBytes(pages[1..])
  }

  /** The segments of all pages, in order. */
  function AllSegments(pages: seq<RawPage>): seq<bytes> {
    if pages == [] then [] else pages[0].segments + AllSegments(pages[1..])
  }

  /** A packet in pieces of 255 bytes, ended by a shorter one, which may be empty. */
  function Cut(packet: bytes): seq<bytes>
    decreases |packet|
  {
    if |packet| < 255 then [packet] else [packet[..255]] + Cut(packet[255..])
  }

  function CutAll(packets: seq<bytes>): seq<bytes> {
    if packets == [] then [] else Cut(packets[0]) + CutAll(packets[1..])
  }

  /** A packet is unfinished after these segments. */
  predicate MidPacket(segments: seq<bytes>) { segments != [] && |segments[|segments| - 1]| == 255 }

  /** Page i of a stream is where and what it should be. */
  ghost predicate InPlace(pages: seq<RawPage>, i: nat)
    requires i < |pages|
  {
    var p := pages[i];
    && p.marker == [0x4F, 0x67, 0x67, 0x53] && p.version == 0
    && (i == 0 ==> (p.flags / 2) % 2 == 1)
    && (i > 0 ==> p.serial == pages[0].serial && FromLE(p.sequence) == (FromLE(pages[i - 1].sequence) + 1) % 0x1_0000_0000)
    && (p.flags % 2 == 1 <==> MidPacket(AllSegments(pages[..i])))
    && ((p.flags / 4) % 2 == 1 <==> i == |pages| - 1)
  }

  /** "OpusHead" with one or two channels, and "OpusTags". */
  predicate Headers(head: bytes, tags: bytes) {
    && |head| >= 19 && head[..8] == [0x4F, 0x70, 0x75, 0x73, 0x48, 0x65, 0x61, 0x64] && head[9] in {1, 2}
    && |tags| >= 8 && tags[..8] == [0x4F, 0x70, 0x75, 0x73, 0x54, 0x61, 0x67, 0x73]
  }

  /** One logical stream of these 20 ms packets, cut over its pages at any segments. */
  ghost predicate Conforms(pages: seq<RawPage>, audio: seq<bytes>) {
    && (forall i :: 0 <= i < |pages| ==> InPlace(pages, i))
    && audio != [] && AllFrames(audio)
    && exists head, tags :: Headers(head, tags) && AllSegments(pages) == CutAll([head, tags] + audio)
  }

  // ---- Segments into packets

  /** The packets these segments end, after an open one, and what is left open. */
  function Assemble(open: bytes, segments: seq<bytes>): (seq<bytes>, bytes)
    decreases |segments|
  {
    if segments == [] then ([], open)
    else if |segments[0]| == 255 then Assemble(open + segments[0], segments[1..])
    else ([open + segments[0]] + Assemble([], segments[1..]).0, Assemble([], segments[1..]).1)
  }

  lemma {:induction false} SizesSum(segments: seq<bytes>)
    requires forall s <- segments :: |s| <= 255
    ensures Sum(Sizes(segments)) == |Concat(segments)|
  {
    if segments != [] {
      SizesRest(segments);
      SizesSum(segments[1..]);
    }
  }

  lemma SizesRest(segments: seq<bytes>)
    requires segments != [] && forall s <- segments :: |s| <= 255
    ensures Sizes(segments)[0] == |segments[0]| && Sizes(segments)[1..] == Sizes(segments[1..])
  {}

  lemma {:induction false} LaceIsAssemble(open: bytes, segments: seq<bytes>)
    requires forall s <- segments :: |s| <= 255
    ensures Sum(Sizes(segments)) == |Concat(segments)|
    ensures Lace(open, Sizes(segments), Concat(segments)) == Assemble(open, segments)
    decreases |segments|
  {
    SizesSum(segments);
    if segments != [] {
      var body, s, rest := Concat(segments), segments[0], segments[1..];
      SizesRest(segments);
      SizesSum(rest);
      assert body[..|s|] == s && body[|s|..] == Concat(rest);
      LaceIsAssemble(if |s| == 255 then open + s else [], rest);
    }
  }

  /** One more segment. */
  lemma {:induction false} AssembleOne(open: bytes, segments: seq<bytes>, s: bytes)
    ensures var (packets, left) := Assemble(open, segments);
            Assemble(open, segments + [s]) == if |s| == 255 then (packets, left + s) else (packets + [left + s], [])
    decreases |segments|
  {
    if segments == [] {
      assert segments + [s] == [s] && [s][1..] == [];
      assert Assemble(open + s, []) == ([], open + s) && Assemble([], []) == ([], []);
      assert [open + s] + [] == [open + s] == [] + [open + s];
    } else {
      FirstOfSum(segments, [s]);
      AssembleOne(if |segments[0]| == 255 then open + segments[0] else [], segments[1..], s);
      if |segments[0]| != 255 {
        var (packets, left) := Assemble([], segments[1..]);
        JoinThree([open + segments[0]], packets, [left + s]);
      }
    }
  }

  lemma {:induction false} AssembleAppend(open: bytes, a: seq<bytes>, b: seq<bytes>)
    ensures var (packets, left) := Assemble(open, a);
            Assemble(open, a + b) == (packets + Assemble(left, b).0, Assemble(left, b).1)
    decreases |a|
  {
    if a == [] {
      assert a + b == b && [] + Assemble(open, b).0 == Assemble(open, b).0;
    } else {
      FirstOfSum(a, b);
      AssembleAppend(if |a[0]| == 255 then open + a[0] else [], a[1..], b);
      if |a[0]| != 255 {
        var (packets, left) := Assemble([], a[1..]);
        JoinThree([open + a[0]], packets, Assemble(left, b).0);
      }
    }
  }

  lemma OpenIff(segments: seq<bytes>)
    ensures Assemble([], segments).1 != [] <==> MidPacket(segments)
  {
    if segments != [] {
      var last := |segments| - 1;
      AssembleOne([], segments[..last], segments[last]);
      assert segments == segments[..last] + [segments[last]];
    }
  }

  lemma {:induction false} CutAssembles(open: bytes, packet: bytes, rest: seq<bytes>)
    ensures Assemble(open, Cut(packet) + rest) == ([open + packet] + Assemble([], rest).0, Assemble([], rest).1)
    decreases |packet|
  {
    FirstOfSum(Cut(packet), rest);
    if |packet| < 255 {
      assert Cut(packet)[1..] + rest == rest;
    } else {
      assert Cut(packet)[1..] == Cut(packet[255..]);
      CutAssembles(open + packet[..255], packet[255..], rest);
      assert open + packet[..255] + packet[255..] == open + packet;
    }
  }

  lemma {:induction false} CutAllAssembles(packets: seq<bytes>)
    ensures Assemble([], CutAll(packets)) == (packets, [])
  {
    if packets != [] {
      CutAssembles([], packets[0], CutAll(packets[1..]));
      CutAllAssembles(packets[1..]);
      assert [] + packets[0] == packets[0] && [packets[0]] + packets[1..] == packets;
    }
  }

  /** Segments that leave nothing open begin with the pieces of their first packet. */
  lemma {:induction false} FirstCut(open: bytes, segments: seq<bytes>) returns (k: nat, rest: bytes)
    requires (forall s <- segments :: |s| <= 255) && segments != [] && Assemble(open, segments).1 == []
    ensures k <= |segments| && segments == Cut(rest) + segments[k..] && k > 0
    ensures Assemble(open, segments) == ([open + rest] + Assemble([], segments[k..]).0, Assemble([], segments[k..]).1)
    decreases |segments|
  {
    var s, more := segments[0], segments[1..];
    if |s| < 255 {
      return 1, s;
    }
    k, rest := FirstCut(open + s, more);
    assert more[k..] == segments[k + 1..];
    assert (s + rest)[..255] == s && (s + rest)[255..] == rest;
    JoinThree([s], Cut(rest), more[k..]);
    assert segments == [s] + more;
    JoinThree(open, s, rest);
    k, rest := k + 1, s + rest;
  }

  /** Only the pieces of some packets leave nothing open, and they give back those packets. */
  lemma {:induction false} AssemblesIff(segments: seq<bytes>, packets: seq<bytes>)
    requires forall s <- segments :: |s| <= 255
    ensures Assemble([], segments) == (packets, []) <==> segments == CutAll(packets)
    decreases |segments|
  {
    CutAllAssembles(packets);
    if segments != [] && Assemble([], segments) == (packets, []) {
      var k, first := FirstCut([], segments);
      assert [] + first == first;
      AssemblesIff(segments[k..], packets[1..]);
    }
  }

  // ---- Packets

  lemma {:induction false} AcceptAppend(headers: nat, a: seq<bytes>, b: seq<bytes>)
    ensures Accept(headers, a + b) == match Accept(headers, a)
                                      case Unsupported => Unsupported
                                      case Ok((h, audio)) => AddAudio(audio, Accept(h, b))
    decreases |a|
  {
    hide IsHead, DiscordFrame;
    if a == [] {
      assert a + b == b;
      OnTrackStart(headers, b);
    } else {
      FirstOfSum(a, b);
      var h := if headers < 2 then headers + 1 else headers;
      AcceptAppend(h, a[1..], b);
      if headers > 1 && Accept(h, a[1..]).Ok? && Accept(Accept(h, a[1..]).value.0, b).Ok? {
        JoinThree([a[0]], Accept(h, a[1..]).value.1, Accept(Accept(h, a[1..]).value.0, b).value.1);
      }
    }
  }

  lemma {:induction false} AcceptFrames(packets: seq<bytes>)
    ensures Accept(2, packets) == if AllFrames(packets) then Ok((2, packets)) else Unsupported
  {
    hide DiscordFrame;
    if packets != [] {
      AcceptFrames(packets[1..]);
      assert packets == [packets[0]] + packets[1..];
    }
  }

  /** What is accepted in full: two headers and then audio of 20 ms packets. */
  lemma AcceptIff(packets: seq<bytes>, audio: seq<bytes>)
    ensures Accept(0, packets) == Ok((2, audio))
       <==> AllFrames(audio) && exists head, tags :: Headers(head, tags) && packets == [head, tags] + audio
  {
    hide DiscordFrame;
    if |packets| >= 2 {
      assert packets == [packets[0], packets[1]] + packets[2..];
      assert packets[1..][1..] == packets[2..] && packets[1..][0] == packets[1];
      AcceptFrames(packets[2..]);
      HeadersIff(packets[0], packets[1]);
    } else if |packets| == 1 {
      assert packets[1..] == [];
    }
  }

  lemma HeadersIff(head: bytes, tags: bytes)
    ensures Headers(head, tags) <==> IsHead(head) && OPUS_TAGS <= tags
  {}

  // ---- Pages

  lemma RawHeadFields(p: RawPage)
    requires Shaped(p)
    ensures var h := RawHead(p);
            && h[..4] == p.marker && h[4] == p.version && h[5] == p.flags && h[6..14] == p.granule && h[14..18] == p.serial
            && h[18..22] == p.sequence && h[22..26] == p.checksum && h[26] == |p.segments|
  {}

  /** What a reader finds at the front of a page and whatever follows it. */
  lemma RawFront(p: RawPage, after: bytes)
    requires Shaped(p)
    ensures var d := RawBytes(p) + after;
            && Complete(d) && d[..4] == p.marker && d[4] == p.version && d[PageEnd(d)..] == after
            && FieldsOf(d) == Fields(p.flags, FromLE(p.granule), FromLE(p.serial), FromLE(p.sequence), Sizes(p.segments))
            && d[TableEnd(d)..PageEnd(d)] == Concat(p.segments)
  {
    hide Concat, Sizes, FromLE;
    SizesSum(p.segments);
    RawHeadFields(p);
    PageParts(RawHead(p), Sizes(p.segments), Concat(p.segments), after);
  }

  lemma {:induction false} SegmentsOne(pages: seq<RawPage>, i: nat)
    requires i < |pages|
    ensures AllSegments(pages[..i + 1]) == AllSegments(pages[..i]) + pages[i].segments
    decreases i
  {
    if i == 0 {
      assert pages[..0] == [] && pages[..1] == [pages[0]] && pages[..1][1..] == [];
      assert pages[0].segments + [] == [] + pages[0].segments;
    } else {
      SegmentsOne(pages[1..], i - 1);
      assert pages[..i + 1][1..] == pages[1..][..i] && pages[..i][1..] == pages[1..][..i - 1];
      JoinThree(pages[0].segments, AllSegments(pages[1..][..i - 1]), pages[i].segments);
    }
  }

  /** The packets that end on the first i pages, and what is open after them. */
  ghost function SoFar(pages: seq<RawPage>, i: nat): (seq<bytes>, bytes)
    requires i <= |pages|
  {
    Assemble([], AllSegments(pages[..i]))
  }

  lemma AfterOne(pages: seq<RawPage>, i: nat)
    requires i < |pages|
    ensures var (packets, left) := SoFar(pages, i);
            SoFar(pages, i + 1) == (packets + Assemble(left, pages[i].segments).0, Assemble(left, pages[i].segments).1)
  {
    SegmentsOne(pages, i);
    AssembleAppend([], AllSegments(pages[..i]), pages[i].segments);
  }

  /** The reader's state after the first i pages, apart from its buffer. */
  ghost predicate At(pages: seq<RawPage>, i: nat, st: State)
    requires i <= |pages|
  {
    && (if i == 0 then st.serial == None
        else st.serial == Some(FromLE(pages[0].serial)) && st.sequence == FromLE(pages[i - 1].sequence))
    && st.packet == SoFar(pages, i).1 && Audio(pages, i).Ok? && Audio(pages, i).value.0 == st.headers
    && |Audio(pages, i).value.1| == st.packetCount
  }

  /** Headers and audio of the packets that end on the first i pages. */
  ghost function Audio(pages: seq<RawPage>, i: nat): Result<(nat, seq<bytes>)>
    requires i <= |pages|
  {
    Accept(0, SoFar(pages, i).0)
  }

  lemma AudioOne(pages: seq<RawPage>, i: nat)
    requires i < |pages|
    ensures Audio(pages, i + 1) == match Audio(pages, i)
                                   case Unsupported => Unsupported
                                   case Ok((h, audio)) =>
                                     AddAudio(audio, Accept(h, Assemble(SoFar(pages, i).1, pages[i].segments).0))
  {
    hide Accept, AddAudio;
    AfterOne(pages, i);
    AcceptAppend(0, SoFar(pages, i).0, Assemble(SoFar(pages, i).1, pages[i].segments).0);
  }

  lemma {:induction false} AudioStays(pages: seq<RawPage>, i: nat, j: nat)
    requires i <= j <= |pages| && Audio(pages, i) == Unsupported
    ensures Audio(pages, j) == Unsupported
    decreases j
  {
    hide Audio, SoFar, Assemble, Accept;
    if i < j {
      AudioStays(pages, i, j - 1);
      AudioOne(pages, j - 1);
    }
  }

  /** Page i follows the pages before it. */
  ghost predicate FollowsOn(pages: seq<RawPage>, i: nat)
    requires i < |pages|
  {
    var p := pages[i];
    && (i == 0 ==> (p.flags / 2) % 2 == 1)
    && (i > 0 ==> p.serial == pages[0].serial && FromLE(p.sequence) == (FromLE(pages[i - 1].sequence) + 1) % 0x1_0000_0000)
    && (p.flags % 2 == 1 <==> MidPacket(AllSegments(pages[..i])))
  }

  lemma FollowsIff(pages: seq<RawPage>, i: nat, st: State)
    requires AllShaped(pages) && i < |pages| && At(pages, i, st) && Shaped(pages[i])
    ensures var p := pages[i];
            var f := Fields(p.flags, FromLE(p.granule), FromLE(p.serial), FromLE(p.sequence), Sizes(p.segments));
            PageFollows(st, f) <==> FollowsOn(pages, i)
  {
    hide FromLE, Assemble, Accept, Sizes;
    OpenIff(AllSegments(pages[..i]));
    if i > 0 {
      assert Shaped(pages[0]) && Shaped(pages[i]);
      if FromLE(pages[i].serial) == FromLE(pages[0].serial) { LEInjective(pages[i].serial, pages[0].serial); }
    }
  }

  /** Taking page i. */
  lemma TakeRaw(pages: seq<RawPage>, i: nat, st: State, after: bytes)
    requires AllShaped(pages) && i < |pages| && At(pages, i, st)
    requires Shaped(pages[i]) && st.buffer == RawBytes(pages[i]) + after
    requires pages[i].marker == MAGIC && pages[i].version == 0
    ensures FrontOf(st.buffer) == WholePage
    ensures TakePage(st).Ok? <==> FollowsOn(pages, i) && Audio(pages, i + 1).Ok?
    ensures TakePage(st).Ok? ==>
      var (next, audio) := TakePage(st).value;
      && Audio(pages, i).Ok? && next.buffer == after && (next.eos <==> (pages[i].flags / 4) % 2 == 1) && At(pages, i + 1, next)
      && Audio(pages, i + 1).value.1 == Audio(pages, i).value.1 + audio
  {
    hide FromLE, Accept, Sizes, Lace, Assemble, PageFollows, FollowsOn, RawBytes;
    var p := pages[i];
    RawFront(p, after);
    FollowsIff(pages, i, st);
    LaceIsAssemble(st.packet, p.segments);
    AudioOne(pages, i);
    AfterOne(pages, i);
  }

  // ---- Streams

  /** Everything after page i is in place and the whole is a stream with audio. */
  ghost predicate EndsWell(pages: seq<RawPage>, i: nat) {
    && i < |pages| && (forall k :: i <= k < |pages| ==> InPlace(pages, k))
    && Audio(pages, |pages|).Ok? && Audio(pages, |pages|).value.0 == 2 && Audio(pages, |pages|).value.1 != []
    && SoFar(pages, |pages|).1 == []
  }

  ghost predicate Accepted(r: Result<(State, seq<bytes>)>) { r.Ok? && Finished(r.value.0) }

  lemma StreamRest(pages: seq<RawPage>, i: nat)
    requires AllShaped(pages) && i < |pages|
    ensures AllShaped(pages[i..]) && AllShaped(pages[i + 1..]) && Shaped(pages[i])
    ensures StreamBytes(pages[i..]) == RawBytes(pages[i]) + StreamBytes(pages[i + 1..])
  {
    assert pages[i..][1..] == pages[i + 1..];
  }

  lemma NotInPlace(pages: seq<RawPage>, i: nat)
    requires i < |pages|
    ensures InPlace(pages, i) <==> && pages[i].marker == MAGIC && pages[i].version == 0 && FollowsOn(pages, i)
                                   && ((pages[i].flags / 4) % 2 == 1 <==> i == |pages| - 1)
  {}

  lemma LastState(pages: seq<RawPage>, st: State)
    requires At(pages, |pages|, st) && st.buffer == [] && st.eos
    ensures Audio(pages, |pages|).Ok?
    ensures Finished(st) <==> && Audio(pages, |pages|).value.0 == 2 && Audio(pages, |pages|).value.1 != []
                              && SoFar(pages, |pages|).1 == []
  {
    hide Audio, SoFar;
  }

  /** One turn of the loop. */
  lemma DrainTurn(st: State)
    ensures FrontOf(st.buffer) == NotAPage ==> Drain(st) == Unsupported
    ensures st.buffer == [] ==> Drain(st) == Ok((st, []))
    ensures FrontOf(st.buffer) == WholePage ==>
      match TakePage(st)
      case Unsupported => Drain(st) == Unsupported
      case Ok((next, audio)) => Drain(st) == if !next.eos then Prepend(audio, Drain(next))
                                             else if next.buffer == [] then Ok((next, audio)) else Unsupported
  {
    hide TakePage;
  }

  lemma {:induction false} RestOfStream(pages: seq<RawPage>, i: nat, st: State)
    requires AllShaped(pages) && i <= |pages| && At(pages, i, st) && !st.eos
    requires AllShaped(pages[i..]) && st.buffer == StreamBytes(pages[i..])
    ensures Accepted(Drain(st)) <==> EndsWell(pages, i)
    ensures Accepted(Drain(st)) ==> Audio(pages, i).Ok? && Audio(pages, |pages|).Ok?
                                    && Audio(pages, |pages|).value.1 == Audio(pages, i).value.1 + Drain(st).value.1
    decreases |pages| - i, 1
  {
    hide RawBytes, At, InPlace, FollowsOn, TakePage, SoFar, Audio, Drain, FrontOf, StreamBytes;
    DrainTurn(st);
    if i == |pages| {
      assert pages[i..] == [];
    } else {
      var after := StreamBytes(pages[i + 1..]) by { StreamRest(pages, i); }
      StreamRest(pages, i);
      NotInPlace(pages, i);
      if pages[i].marker == MAGIC && pages[i].version == 0 {
        TakeRaw(pages, i, st, after);
        if TakePage(st).Ok? {
          RestTaken(pages, i, st);
        } else if Audio(pages, i + 1) == Unsupported {
          AudioStays(pages, i + 1, |pages|);
        }
      } else {
        NoPage(pages[i], after);
      }
    }
  }

  lemma NoPage(p: RawPage, after: bytes)
    requires Shaped(p) && (p.marker != MAGIC || p.version != 0)
    ensures FrontOf(RawBytes(p) + after) == NotAPage
  {
    RawFront(p, after);
  }

  /** Page i was taken: the stream ends with it or goes on. */
  lemma {:induction false} RestTaken(pages: seq<RawPage>, i: nat, st: State)
    requires AllShaped(pages) && i < |pages| && AllShaped(pages[i + 1..]) && TakePage.requires(st) && TakePage(st).Ok?
    requires var (next, audio) := TakePage(st).value;
      && next.buffer == StreamBytes(pages[i + 1..]) && (next.eos <==> (pages[i].flags / 4) % 2 == 1)
      && At(pages, i + 1, next) && Audio(pages, i).Ok? && Audio(pages, i + 1).Ok?
      && Audio(pages, i + 1).value.1 == Audio(pages, i).value.1 + audio
      && Drain(st) == if !next.eos then Prepend(audio, Drain(next)) else if next.buffer == [] then Ok((next, audio)) else Unsupported
    requires InPlace(pages, i) <==> ((pages[i].flags / 4) % 2 == 1 <==> i == |pages| - 1)
    ensures Accepted(Drain(st)) <==> EndsWell(pages, i)
    ensures Accepted(Drain(st)) ==> Audio(pages, |pages|).Ok?
                                    && Audio(pages, |pages|).value.1 == Audio(pages, i).value.1 + Drain(st).value.1
    decreases |pages| - i, 0
  {
    hide RawBytes, At, InPlace, TakePage, SoFar, Audio, Drain, Finished;
    var (next, audio) := TakePage(st).value;
    if !next.eos {
      RestOfStream(pages, i + 1, next);
      if Accepted(Drain(next)) { JoinThree(Audio(pages, i).value.1, audio, Drain(next).value.1); }
    } else if i + 1 == |pages| {
      LastState(pages, next);
    }
  }

  lemma {:induction false} SegmentsShort(pages: seq<RawPage>)
    requires AllShaped(pages)
    ensures forall s <- AllSegments(pages) :: |s| <= 255
  {
    if pages != [] {
      assert Shaped(pages[0]);
      SegmentsShort(pages[1..]);
    }
  }

  /** The packets of a whole stream. */
  lemma WholeIff(pages: seq<RawPage>, audio: seq<bytes>)
    requires AllShaped(pages)
    ensures SoFar(pages, |pages|).1 == [] && Audio(pages, |pages|) == Ok((2, audio))
       <==> AllFrames(audio) && exists head, tags :: Headers(head, tags) && AllSegments(pages) == CutAll([head, tags] + audio)
  {
    hide Headers, Accept, CutAll, Assemble, AllFrames, AllSegments;
    var segments, packets := AllSegments(pages), SoFar(pages, |pages|).0;
    assert pages[..|pages|] == pages;
    SegmentsShort(pages);
    AssemblesIff(segments, packets);
    AcceptIff(packets, audio);
    forall head, tags | Headers(head, tags) && segments == CutAll([head, tags] + audio)
      ensures SoFar(pages, |pages|) == ([head, tags] + audio, [])
    {
      AssemblesIff(segments, [head, tags] + audio);
    }
  }

  /** Fed chunk by chunk and finished: no exception, and exactly these packets. */
  ghost predicate ReadWhole(chunks: seq<bytes>, audio: seq<bytes>) {
    var r := ConsumeAll(INITIAL, chunks);
    r.Ok? && r.value.1 == audio && Finished(r.value.0)
  }

  lemma StartAt(pages: seq<RawPage>, data: bytes)
    ensures At(pages, 0, INITIAL.(buffer := data)) && Audio(pages, 0) == Ok((0, []))
  {
    assert pages[..0] == [];
  }

  /**
   However a file of such pages is cut into chunks, it is accepted to its end with exactly this audio if and only if it
   is one stream of two headers and that audio. Anything else wrong with any page or packet has it rejected.
   */
  lemma StreamAcceptedIff(pages: seq<RawPage>, chunks: seq<bytes>, audio: seq<bytes>)
    requires AllShaped(pages) && Concat(chunks) == StreamBytes(pages)
    ensures ReadWhole(chunks, audio) <==> Conforms(pages, audio)
  {
    hide ConsumeAll, Drain, StreamBytes, Concat, At, Audio, SoFar, InPlace, AllFrames, Headers, CutAll, AllSegments, Finished;
    AnyCutIsOneFeed(chunks);
    StartAt(pages, Concat(chunks));
    assert pages[0..] == pages;
    RestOfStream(pages, 0, INITIAL.(buffer := Concat(chunks)));
    WholeIff(pages, audio);
    var r := Drain(INITIAL.(buffer := Concat(chunks)));
    if Accepted(r) {
      assert [] + r.value.1 == r.value.1;
      WholeIff(pages, r.value.1);
    }
  }

  // ---- Nothing but pages

  /** A page body by its segment table. */
  function Split(sizes: bytes, body: bytes): (r: seq<bytes>)
    requires Sum(sizes) == |body|
    ensures |r| == |sizes| && (forall s <- r :: |s| <= 255) && Sizes(r) == sizes && Concat(r) == body
  {
    if sizes == [] then []
    else
      var size: nat := sizes[0];
      var rest := Split(sizes[1..], body[size..]);
      assert Sizes([body[..size]] + rest) == sizes;
      assert ([body[..size]] + rest)[1..] == rest;
      [body[..size]] + rest
  }

  function RawAt(d: bytes): (r: RawPage)
    requires Complete(d)
    ensures Shaped(r)
  {
    RawPage(d[..4], d[4], d[5], d[6..14], d[14..18], d[18..22], d[22..26],
            Split(d[27..TableEnd(d)], d[TableEnd(d)..PageEnd(d)]))
  }

  lemma RawHeadOf(d: bytes)
    requires Complete(d)
    ensures RawHead(RawAt(d)) == d[..27]
  {}

  lemma RawAtFront(d: bytes)
    requires Complete(d)
    ensures d == RawBytes(RawAt(d)) + d[PageEnd(d)..]
  {
    RawHeadOf(d);
    hide RawHead;
    assert d[..27] + (d[27..TableEnd(d)] + d[TableEnd(d)..PageEnd(d)]) + d[PageEnd(d)..] == d;
  }

  lemma {:induction false} PagesIn(st: State) returns (pages: seq<RawPage>)
    requires Accepted(Drain(st))
    ensures AllShaped(pages) && StreamBytes(pages) == st.buffer
    decreases |st.buffer|
  {
    hide RawAt, RawBytes;
    DrainTurn(st);
    if FrontOf(st.buffer) == NeedMore {
      return [];
    }
    var next := TakePage(st).value.0;
    RawAtFront(st.buffer);
    var rest: seq<RawPage> := [];
    if !next.eos {
      rest := PagesIn(next);
    }
    pages := [RawAt(st.buffer)] + rest;
    assert pages[1..] == rest;
  }

  /** What is accepted, for all byte strings in all cuts: the streams, and nothing else. */
  lemma AcceptedIsStream(chunks: seq<bytes>, audio: seq<bytes>)
    ensures ReadWhole(chunks, audio)
       <==> exists pages :: AllShaped(pages) && StreamBytes(pages) == Concat(chunks) && Conforms(pages, audio)
  {
    hide ConsumeAll, Drain, StreamBytes, Concat, Conforms, AllShaped, Finished;
    AnyCutIsOneFeed(chunks);
    if Accepted(ConsumeAll(INITIAL, chunks)) {
      var pages := PagesIn(INITIAL.(buffer := Concat(chunks)));
      StreamAcceptedIff(pages, chunks, audio);
    }
    forall pages | AllShaped(pages) && StreamBytes(pages) == Concat(chunks)
      ensures ReadWhole(chunks, audio) <==> Conforms(pages, audio)
    {
      StreamAcceptedIff(pages, chunks, audio);
    }
  }

  // ---- While the stream still comes in

  /** Page i is in place and is not the last one. */
  ghost predicate GoesOn(pages: seq<RawPage>, i: nat)
    requires i < |pages|
  {
    pages[i].marker == MAGIC && pages[i].version == 0 && FollowsOn(pages, i) && (pages[i].flags / 4) % 2 == 0
  }

  lemma CutRawNeedsMore(p: RawPage, n: nat)
    requires Shaped(p) && p.marker == MAGIC && p.version == 0 && n < |RawBytes(p)|
    ensures FrontOf(RawBytes(p)[..n]) == NeedMore
  {
    hide Concat, Sizes, FieldsOf, RawHead;
    RawFront(p, []);
    var page := RawBytes(p);
    var cut := page[..n];
    assert page + [] == page;
    assert |page[PageEnd(page)..]| == 0;
    if |cut| >= 27 {
      assert cut[..4] == page[..4] && cut[4] == page[4];
      if |cut| >= TableEnd(cut) { assert cut[27..TableEnd(cut)] == page[27..TableEnd(page)]; }
    }
  }

  lemma {:induction false} TakenSoFar(pages: seq<RawPage>, i: nat, st: State, tail: bytes)
    requires AllShaped(pages) && i <= |pages| && At(pages, i, st) && !st.eos && FrontOf(tail) == NeedMore
    requires AllShaped(pages[i..]) && st.buffer == StreamBytes(pages[i..]) + tail
    requires (forall k :: i <= k < |pages| ==> GoesOn(pages, k)) && Audio(pages, |pages|).Ok?
    ensures Drain(st).Ok? && Audio(pages, i).Ok?
    ensures Audio(pages, |pages|).value.1 == Audio(pages, i).value.1 + Drain(st).value.1
    decreases |pages| - i
  {
    hide RawBytes, At, FollowsOn, TakePage, SoFar, Audio, Drain, FrontOf, StreamBytes, GoesOn;
    DrainTurn(st);
    AudioOk(pages, i, st);
    if i == |pages| {
      assert pages[i..] == [];
      DrainNothing(st, tail);
      assert Audio(pages, i).value.1 + [] == Audio(pages, i).value.1;
    } else {
      StreamRest(pages, i);
      var after := StreamBytes(pages[i + 1..]) + tail;
      JoinThree(RawBytes(pages[i]), StreamBytes(pages[i + 1..]), tail);
      GoesOnMeans(pages, i);
      TakeRaw(pages, i, st, after);
      if Audio(pages, i + 1) == Unsupported { AudioStays(pages, i + 1, |pages|); }
      var (next, audio) := TakePage(st).value;
      TakenSoFar(pages, i + 1, next, tail);
      JoinThree(Audio(pages, i).value.1, audio, Drain(next).value.1);
    }
  }

  lemma AudioOk(pages: seq<RawPage>, i: nat, st: State)
    requires i <= |pages| && At(pages, i, st)
    ensures Audio(pages, i).Ok?
  {}

  lemma DrainNothing(st: State, tail: bytes)
    requires FrontOf(tail) == NeedMore && st.buffer == StreamBytes([]) + tail
    ensures Drain(st) == Ok((st, []))
  {
    assert StreamBytes([]) + tail == tail;
  }

  lemma GoesOnMeans(pages: seq<RawPage>, i: nat)
    requires i < |pages| && GoesOn(pages, i)
    ensures pages[i].marker == MAGIC && pages[i].version == 0 && FollowsOn(pages, i) && (pages[i].flags / 4) % 2 == 0
  {}

  lemma {:induction false} OpenLeft(open: bytes, more: seq<bytes>)
    requires forall s <- more :: |s| == 255
    ensures Assemble(open, more).0 == []
    decreases |more|
  {
    if more != [] { OpenLeft(open + more[0], more[1..]); }
  }

  /**
   Nothing is held back: when the first pages of a stream have come, and part of the next, every packet that ends on them
   has been handed out, however the bytes were cut; only an unfinished packet waits.
   */
  lemma OutputIsPrompt(pages: seq<RawPage>, next: RawPage, n: nat, chunks: seq<bytes>, head: bytes, tags: bytes,
                       audio: seq<bytes>, unfinished: seq<bytes>)
    requires AllShaped(pages) && Shaped(next) && next.marker == MAGIC && next.version == 0 && n < |RawBytes(next)|
    requires Concat(chunks) == StreamBytes(pages) + RawBytes(next)[..n]
    requires forall k :: 0 <= k < |pages| ==> GoesOn(pages, k)
    requires Headers(head, tags) && AllFrames(audio)
    requires AllSegments(pages) == CutAll([head, tags] + audio) + unfinished && forall s <- unfinished :: |s| == 255
    ensures ConsumeAll(INITIAL, chunks).Ok? && ConsumeAll(INITIAL, chunks).value.1 == audio
  {
    hide ConsumeAll, Drain, StreamBytes, Concat, At, GoesOn, AllFrames, Headers, CutAll, AllSegments, RawBytes, FrontOf;
    var tail, all := RawBytes(next)[..n], [head, tags] + audio;
    AnyCutIsOneFeed(chunks);
    CutRawNeedsMore(next, n);
    StartAt(pages, Concat(chunks));
    WholeAudio(pages, all, unfinished, audio) by { AcceptIff(all, audio); }
    hide Audio, SoFar;
    assert pages[0..] == pages;
    TakenSoFar(pages, 0, INITIAL.(buffer := Concat(chunks)), tail);
    var r := Drain(INITIAL.(buffer := Concat(chunks)));
    assert [] + r.value.1 == r.value.1;
  }

  lemma WholeAudio(pages: seq<RawPage>, packets: seq<bytes>, unfinished: seq<bytes>, audio: seq<bytes>)
    requires AllSegments(pages) == CutAll(packets) + unfinished && forall s <- unfinished :: |s| == 255
    requires Accept(0, packets) == Ok((2, audio))
    ensures Audio(pages, |pages|) == Ok((2, audio))
  {
    hide Accept, AllSegments;
    assert pages[..|pages|] == pages;
    CutAllAssembles(packets);
    AssembleAppend([], CutAll(packets), unfinished);
    OpenLeft([], unfinished);
    hide Assemble;
    assert packets + [] == packets;
  }
}
