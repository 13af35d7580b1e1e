/** OggOpusDemuxer (ttsbot/ogg_opus.py): arbitrary chunks in, whole 20 ms Opus packets out. */
module OggDemuxer {
  import opened Bytes
  import opened OpusPacket
  import opened OggPage

  const OPUS_HEAD: bytes := [0x4F, 0x70, 0x75, 0x73, 0x48, 0x65, 0x61, 0x64] // "OpusHead"
  const OPUS_TAGS: bytes := [0x4F, 0x70, 0x75, 0x73, 0x54, 0x61, 0x67, 0x73] // "OpusTags"

  datatype State = State(
    buffer: bytes, packet: bytes, serial: Option<nat>, sequence: nat,
    headers: nat, packetCount: nat, eos: bool)

  const INITIAL := State([], [], None, 0, 0, 0, false)

  // ---- What one page means

  predicate IsHead(packet: bytes) {
    |packet| >= 19 && OPUS_HEAD <= packet && (packet[9] == 1 || packet[9] == 2)
  }

  /** The packets of a page against the stream so far: (header packets seen, audio packets). */
  function Accept(headers: nat, packets: seq<bytes>): Result<(nat, seq<bytes>)>
    decreases |packets|
  {
    if packets == [] then Ok((headers, []))
    else if headers == 0 then
      if IsHead(packets[0]) then Accept(1, packets[1..]) else Unsupported
    else if headers == 1 then
      if OPUS_TAGS <= packets[0] then Accept(2, packets[1..]) else Unsupported
    else if !DiscordFrame(packets[0]) then Unsupported
    else
      match Accept(headers, packets[1..])
      case Unsupported => Unsupported
      case Ok((h, audio)) => Ok((h, [packets[0]] + audio))
  }

  /** Stream identity, page order and the continuation flag. */
  predicate PageFollows(st: State, f: Fields) {
    && (if st.serial.None? then (f.flags / 2) % 2 == 1
        else f.serial == st.serial.value && f.sequence == (st.sequence + 1) % 0x1_0000_0000)
    && ((f.flags % 2 == 1) <==> (st.packet != []))
  }

  /** The state after the complete page at the front of the buffer, and its audio packets. */
  function TakePage(st: State): Result<(State, seq<bytes>)>
    requires Complete(st.buffer)
  {
    var d := st.buffer;
    var f := FieldsOf(d);
    if !PageFollows(st, f) then Unsupported
    else
      var (packets, open) := Lace(st.packet, f.table, d[TableEnd(d)..PageEnd(d)]);
      match Accept(st.headers, packets)
      case Unsupported => Unsupported
      case Ok((headers, audio)) =>
        Ok((State(d[PageEnd(d)..], open, Some(if st.serial.None? then f.serial else st.serial.value), f.sequence,
                  headers, st.packetCount + |audio|, (f.flags / 4) % 2 == 1), audio))
  }

  datatype Front = NeedMore | NotAPage | WholePage

  function FrontOf(d: bytes): (r: Front)
    ensures r.WholePage? ==> Complete(d)
  {
    if |d| < 27 then NeedMore
    else if d[..4] != MAGIC || d[4] != 0 then NotAPage
    else if !Complete(d) then NeedMore
    else WholePage
  }

  /** Take every complete page. Nothing may follow the end-of-stream page. */
  function Drain(st: State): Result<(State, seq<bytes>)>
    decreases |st.buffer|
  {
    match FrontOf(st.buffer)
    case NeedMore => Ok((st, []))
    case NotAPage => Unsupported
    case WholePage =>
      match TakePage(st)
      case Unsupported => Unsupported
      case Ok((next, audio)) =>
        if next.eos then (if next.buffer == [] then Ok((next, audio)) else Unsupported)
        else Prepend(audio, Drain(next))
  }

  function Prepend(audio: seq<bytes>, r: Result<(State, seq<bytes>)>): Result<(State, seq<bytes>)> {
    match r
    case Unsupported => Unsupported
    case Ok((st, more)) => Ok((st, audio + more))
  }

  lemma PrependNothing(r: Result<(State, seq<bytes>)>)
    ensures Prepend([], r) == r
  {
    if r.Ok? { assert [] + r.value.1 == r.value.1; }
  }

  lemma PrependTwice(a: seq<bytes>, b: seq<bytes>, r: Result<(State, seq<bytes>)>)
    ensures Prepend(a, Prepend(b, r)) == Prepend(a + b, r)
  {
    if r.Ok? { assert a + (b + r.value.1) == (a + b) + r.value.1; }
  }

  function Consume(st: State, chunk: bytes): Result<(State, seq<bytes>)> {
    if st.eos && chunk != [] then Unsupported else Drain(st.(buffer := st.buffer + chunk))
  }

  /** A whole run: one feed a chunk, stopping at the first rejection. */
  function ConsumeAll(st: State, chunks: seq<bytes>): Result<(State, seq<bytes>)>
    decreases |chunks|
  {
    if chunks == [] then Ok((st, []))
    else
      match Consume(st, chunks[0])
      case Unsupported => Unsupported
      case Ok((next, audio)) => Prepend(audio, ConsumeAll(next, chunks[1..]))
  }

  predicate Finished(st: State) {
    st.buffer == [] && st.packet == [] && st.headers == 2 && st.packetCount > 0 && st.eos
  }

  // ---- Chunking is unobservable

  /** Go on with more bytes after the result of an earlier feed. */
  function Then(r: Result<(State, seq<bytes>)>, more: bytes): Result<(State, seq<bytes>)> {
    match r
    case Unsupported => Unsupported
    case Ok((st, audio)) => Prepend(audio, Consume(st, more))
  }

  lemma PrependThen(audio: seq<bytes>, r: Result<(State, seq<bytes>)>, more: bytes)
    ensures Then(Prepend(audio, r), more) == Prepend(audio, Then(r, more))
  {
    if r.Ok? {
      var (st, mid) := r.value;
      if Consume(st, more).Ok? {
        var tail := Consume(st, more).value.1;
        assert (audio + mid) + tail == audio + (mid + tail);
      }
    }
  }

  lemma FrontStable(d: bytes, more: bytes)
    requires !FrontOf(d).NeedMore?
    ensures FrontOf(d + more) == FrontOf(d)
    ensures FrontOf(d).WholePage? ==>
      var e := d + more;
      && FieldsOf(e) == FieldsOf(d) && PageEnd(e) == PageEnd(d) && TableEnd(e) == TableEnd(d)
      && e[TableEnd(e)..PageEnd(e)] == d[TableEnd(d)..PageEnd(d)] && e[PageEnd(e)..] == d[PageEnd(d)..] + more
  {
    var e := d + more;
    assert e[..4] == d[..4];
    if FrontOf(d).WholePage? {
      assert e[27..TableEnd(e)] == d[27..TableEnd(d)];
      assert e[6..14] == d[6..14] && e[14..18] == d[14..18] && e[18..22] == d[18..22];
      assert e[TableEnd(e)..PageEnd(e)] == d[TableEnd(d)..PageEnd(d)];
    }
  }

  /** Bytes that arrive later do not change how a page already complete is read. */
  lemma PageStable(st: State, more: bytes)
    requires FrontOf(st.buffer).WholePage?
    ensures FrontOf(st.buffer + more).WholePage?
    ensures TakePage(st.(buffer := st.buffer + more)) ==
            match TakePage(st)
            case Unsupported => Unsupported
            case Ok((next, audio)) => Ok((next.(buffer := next.buffer + more), audio))
  {
    hide Lace, Accept, FieldsOf;
    FrontStable(st.buffer, more);
  }

  lemma DrainLastPage(st: State, more: bytes)
    requires FrontOf(st.buffer).WholePage? && TakePage(st).Ok? && TakePage(st).value.0.eos
    ensures Drain(st.(buffer := st.buffer + more)) == Then(Drain(st), more)
  {
    PageStable(st, more);
    var (next, audio) := TakePage(st).value;
    var whole := st.(buffer := st.buffer + more);
    if next.buffer + more == [] {
      assert more == [] && next.buffer == [];
      assert FrontOf(next.buffer) == NeedMore;
      assert audio + [] == audio;
    } else {
      assert Drain(whole) == Unsupported;
    }
  }

  lemma {:induction false} DrainThenConsume(st: State, more: bytes)
    requires !st.eos
    ensures Drain(st.(buffer := st.buffer + more)) == Then(Drain(st), more)
    decreases |st.buffer|
  {
    var whole := st.(buffer := st.buffer + more);
    match FrontOf(st.buffer) {
      case NeedMore => PrependNothing(Drain(whole));
      case NotAPage => FrontStable(st.buffer, more);
      case WholePage =>
        PageStable(st, more);
        match TakePage(st) {
          case Unsupported =>
          case Ok((next, audio)) =>
            if next.eos {
              DrainLastPage(st, more);
            } else {
              DrainThenConsume(next, more);
              assert Drain(whole) == Prepend(audio, Drain(next.(buffer := next.buffer + more)));
              PrependThen(audio, Drain(next), more);
            }
        }
    }
  }

  /** Nothing left to take: holds initially and after every feed. */
  predicate Quiescent(st: State) { Consume(st, []) == Ok((st, [])) }

  lemma DrainQuiescent(st: State)
    requires !st.eos && Drain(st).Ok?
    ensures Quiescent(Drain(st).value.0)
  {
    var (next, audio) := Drain(st).value;
    DrainThenConsume(st, []);
    assert st.buffer + [] == st.buffer;
    match Consume(next, []) {
      case Unsupported =>
      case Ok((last, rest)) =>
        assert last == next && audio + rest == audio;
        assert |audio + rest| == |audio| + |rest|;
    }
  }

  lemma ConsumeQuiescent(st: State, chunk: bytes)
    requires Quiescent(st) && Consume(st, chunk).Ok?
    ensures Quiescent(Consume(st, chunk).value.0)
  {
    if st.eos {
      assert st.buffer + chunk == st.buffer + [];
    } else {
      DrainQuiescent(st.(buffer := st.buffer + chunk));
    }
  }

  /** Two feeds in a row are one. */
  lemma ConsumeThen(st: State, c: bytes, rest: bytes)
    requires Quiescent(st)
    ensures Then(Consume(st, c), rest) == Consume(st, c + rest)
  {
    hide Drain;
    if st.eos {
      if c == [] {
        assert c + rest == rest;
        PrependNothing(Consume(st, rest));
      }
    } else {
      hide Quiescent;
      DrainThenConsume(st.(buffer := st.buffer + c), rest);
      assert st.buffer + c + rest == st.buffer + (c + rest);
    }
  }

  lemma {:induction false} ConsumeAllIsOnce(st: State, chunks: seq<bytes>)
    requires Quiescent(st)
    ensures ConsumeAll(st, chunks) == Consume(st, Concat(chunks))
    decreases |chunks|
  {
    if chunks != [] {
      hide Consume, Drain, Quiescent;
      var first := Consume(st, chunks[0]);
      ConsumeThen(st, chunks[0], Concat(chunks[1..]));
      if first.Ok? {
        ConsumeQuiescent(st, chunks[0]);
        ConsumeAllIsOnce(first.value.0, chunks[1..]);
      }
    }
  }

  lemma AnyCutIsOneFeed(chunks: seq<bytes>)
    ensures ConsumeAll(INITIAL, chunks) == Drain(INITIAL.(buffer := Concat(chunks)))
  {
    ConsumeAllIsOnce(INITIAL, chunks);
    assert INITIAL.buffer + Concat(chunks) == Concat(chunks);
  }

  /** Two ways of cutting the same bytes are both rejected, or agree on packets and final state. */
  lemma ChunkingUnobservable(a: seq<bytes>, b: seq<bytes>)
    requires Concat(a) == Concat(b)
    ensures ConsumeAll(INITIAL, a) == ConsumeAll(INITIAL, b)
  {
    AnyCutIsOneFeed(a);
    AnyCutIsOneFeed(b);
  }

  // ---- The class

  function AddAudio(audio: seq<bytes>, r: Result<(nat, seq<bytes>)>): Result<(nat, seq<bytes>)> {
    match r
    case Unsupported => Unsupported
    case Ok((h, more)) => Ok((h, audio + more))
  }

  /** The outcome of a page is still reachable: audio taken so far, packets still to come. */
  ghost predicate OnTrack(total: Result<(nat, seq<bytes>)>, audio: seq<bytes>, headers: nat, rest: seq<bytes>) {
    total == AddAudio(audio, Accept(headers, rest))
  }

  lemma OnTrackStart(headers: nat, packets: seq<bytes>)
    ensures OnTrack(Accept(headers, packets), [], headers, packets)
  {
    var r := Accept(headers, packets);
    if r.Ok? { assert [] + r.value.1 == r.value.1; }
  }

  lemma OnTrackStep(total: Result<(nat, seq<bytes>)>, audio: seq<bytes>, headers: nat, p: bytes, rest: seq<bytes>)
    requires OnTrack(total, audio, headers, [p] + rest)
    ensures headers == 0 ==> if IsHead(p) then OnTrack(total, audio, 1, rest) else total == Unsupported
    ensures headers == 1 ==> if OPUS_TAGS <= p then OnTrack(total, audio, 2, rest) else total == Unsupported
    ensures headers > 1 ==> if DiscordFrame(p) then OnTrack(total, audio + [p], headers, rest) else total == Unsupported
  {
    assert ([p] + rest)[1..] == rest;
    var r := Accept(headers, rest);
    if headers > 1 && r.Ok? {
      assert audio + ([p] + r.value.1) == (audio + [p]) + r.value.1;
    }
  }

  /** No segments left: everything has been taken, and what is open stays open. */
  lemma SegmentsEnd(total: Result<(nat, seq<bytes>)>, audio: seq<bytes>, headers: nat, open: bytes, buffer: bytes, cursor: nat,
                    pageEnd: nat)
    requires cursor + Sum([]) == pageEnd <= |buffer| && OnTrack(total, audio, headers, Lace(open, [], buffer[cursor..pageEnd]).0)
    ensures total == Ok((headers, audio)) && Lace(open, [], buffer[cursor..pageEnd]).1 == open
  {
    assert audio + [] == audio;
  }

  lemma LaceStep(open: bytes, sizes: bytes, i: nat, buffer: bytes, cursor: nat, pageEnd: nat)
    requires i < |sizes| && cursor + Sum(sizes[i..]) == pageEnd <= |buffer|
    ensures cursor + sizes[i] + Sum(sizes[i + 1..]) == pageEnd
    ensures var grown := open + buffer[cursor..cursor + sizes[i]];
            Lace(open, sizes[i..], buffer[cursor..pageEnd]) ==
            if sizes[i] == 255 then Lace(grown, sizes[i + 1..], buffer[cursor + sizes[i]..pageEnd])
            else var (packets, left) := Lace([], sizes[i + 1..], buffer[cursor + sizes[i]..pageEnd]);
                 ([grown] + packets, left)
  {
    assert sizes[i..][1..] == sizes[i + 1..];
    var body := buffer[cursor..pageEnd];
    assert body[..sizes[i]] == buffer[cursor..cursor + sizes[i]];
    assert body[sizes[i]..] == buffer[cursor + sizes[i]..pageEnd];
  }

  class OggOpusDemuxer {
    var buffer: bytes
    var packet: bytes
    var serial: Option<nat>
    var sequence: nat
    var headers: nat
    var packetCount: nat
    var eos: bool

    constructor ()
      ensures Now() == INITIAL
    {
      buffer, packet, serial, sequence, headers, packetCount, eos := [], [], None, 0, 0, 0, false;
    }

    function Now(): State
      reads this
    {
      State(buffer, packet, serial, sequence, headers, packetCount, eos)
    }

    /** The packets that end on the page at the front of the buffer; Unsupported is an exception. */
    method TakeSegments(sizes: bytes, headerEnd: nat) returns (output: Result<seq<bytes>>)
      requires headerEnd + Sum(sizes) <= |buffer|
      modifies `packet, `headers, `packetCount
      ensures var (packets, open) := Lace(old(packet), sizes, buffer[headerEnd..headerEnd + Sum(sizes)]);
              match Accept(old(headers), packets)
              case Unsupported => output == Unsupported
              case Ok((h, audio)) =>
                output == Ok(audio) && headers == h && packetCount == old(packetCount) + |audio| && packet == open
    {
      hide Lace, Accept, OnTrack, Sum, IsHead, DiscordFrame;
      var audio: seq<bytes> := [];
      var cursor: nat := headerEnd;
      ghost var pageEnd := headerEnd + Sum(sizes);
      ghost var all := Lace(packet, sizes, buffer[headerEnd..pageEnd]);
      ghost var total := Accept(headers, all.0);
      assert sizes[0..] == sizes;
      OnTrackStart(headers, all.0);
      for i := 0 to |sizes|
        invariant cursor + Sum(sizes[i..]) == pageEnd
        invariant packetCount == old(packetCount) + |audio|
        invariant Lace(packet, sizes[i..], buffer[cursor..pageEnd]).1 == all.1
        invariant OnTrack(total, audio, headers, Lace(packet, sizes[i..], buffer[cursor..pageEnd]).0)
      {
        var size: nat := sizes[i];
        LaceStep(packet, sizes, i, buffer, cursor, pageEnd);
        packet := packet + buffer[cursor..cursor + size];
        cursor := cursor + size;
        if size < 255 {
          var p := packet;
          packet := [];
          OnTrackStep(total, audio, headers, p, Lace([], sizes[i + 1..], buffer[cursor..pageEnd]).0);
          if headers == 0 {
            if !IsHead(p) { return Unsupported; }
            headers := 1;
          } else if headers == 1 {
            if !(OPUS_TAGS <= p) { return Unsupported; }
            headers := 2;
          } else {
            if !DiscordFrame(p) { return Unsupported; }
            audio := audio + [p];
            packetCount := packetCount + 1;
          }
        }
      }
      assert sizes[|sizes|..] == [];
      SegmentsEnd(total, audio, headers, packet, buffer, cursor, pageEnd);
      return Ok(audio);
    }

    /** One complete page: identity and order checks, its packets, then the buffer moves past it. */
    method ReadPage() returns (output: Result<seq<bytes>>)
      requires Complete(buffer) && !eos
      modifies this
      ensures match TakePage(old(Now()))
              case Unsupported => output == Unsupported
              case Ok((st, audio)) => output == Ok(audio) && Now() == st
      ensures output.Ok? ==> |buffer| < |old(buffer)|
    {
      hide Lace, Accept, Sum;
      var headerEnd := TableEnd(buffer);
      var sizes := buffer[27..headerEnd];
      var pageEnd := PageEnd(buffer);
      var f := FieldsOf(buffer);
      if serial.None? {
        if (f.flags / 2) % 2 != 1 { return Unsupported; }
      } else if f.serial != serial.value || f.sequence != (sequence + 1) % 0x1_0000_0000 {
        return Unsupported;
      }
      if (f.flags % 2 == 1) != (packet != []) { return Unsupported; }
      if serial.None? { serial := Some(f.serial); }
      sequence := f.sequence;
      output := TakeSegments(sizes, headerEnd);
      if output == Unsupported { return Unsupported; }
      buffer := buffer[pageEnd..];
      eos := (f.flags / 4) % 2 == 1;
    }

    method Feed(chunk: bytes) returns (output: Result<seq<bytes>>)
      requires eos ==> buffer == []
      modifies this
      ensures match Consume(old(Now()), chunk)
              case Unsupported => output == Unsupported
              case Ok((st, audio)) => output == Ok(audio) && Now() == st && (eos ==> buffer == [])
    {
      hide TakePage, PageEnd, Sum, FieldsOf;
      if eos && chunk != [] { return Unsupported; }
      buffer := buffer + chunk;
      var audio: seq<bytes> := [];
      ghost var all := Drain(Now());
      PrependNothing(all);
      while !eos
        invariant all == Prepend(audio, Drain(Now()))
        invariant eos ==> buffer == []
        decreases |buffer|, !eos
      {
        if |buffer| < 27 { break; }
        if buffer[..4] != MAGIC || buffer[4] != 0 { return Unsupported; }
        if |buffer| < TableEnd(buffer) || |buffer| < PageEnd(buffer) { break; }
        ghost var st := Now();
        assert FrontOf(buffer) == WholePage;
        var page := ReadPage();
        if page == Unsupported { return Unsupported; }
        if eos && buffer != [] { return Unsupported; }
        PrependTwice(audio, page.value, Drain(Now()));
        assert eos ==> Drain(Now()) == Ok((Now(), []));
        assert page.value + [] == page.value;
        audio := audio + page.value;
      }
      assert audio + [] == audio;
      return Ok(audio);
    }

    method Finish() returns (accepted: bool)
      ensures accepted <==> Finished(Now())
    {
      accepted := !(buffer != [] || packet != [] || headers != 2 || packetCount == 0 || !eos);
    }
  }
}
