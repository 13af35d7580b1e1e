/** The frame cache file (ttsbot/ogg_opus.py): a marker, then each packet after its two-byte length. */
module FrameCache {
  import opened Bytes
  import opened OpusPacket

  /** "DOPUS1" and a zero byte */
  const MAGIC: bytes := [68, 79, 80, 85, 83, 49, 0]

  lemma FrameSize(packet: bytes)
    requires DiscordFrame(packet)
    ensures 0 < |packet| <= MAX_OPUS_PACKET
  {}

  function Record(packet: bytes): bytes
    requires |packet| < 0x1_0000
  {
    [|packet| / 256, |packet| % 256] + packet
  }

  /** What write_frame appends; Unsupported is its exception, before anything is written. */
  function WriteFrame(packet: bytes): (r: Result<bytes>)
    ensures r.Ok? <==> DiscordFrame(packet)
    ensures r.Ok? ==> |r.value| == |packet| + 2 && r.value[2..] == packet
  {
    if DiscordFrame(packet) then FrameSize(packet); Ok(Record(packet)) else Unsupported
  }

  /** What write_frame has appended after these packets. */
  ghost function Body(packets: seq<bytes>): bytes
    requires AllFrames(packets)
  {
    if packets == [] then [] else WriteFrame(packets[0]).value + Body(packets[1..])
  }

  /** The first record of d: its packet and where it ends; Unsupported when cut short or not a 20 ms packet. */
  function FirstRecord(d: bytes): (r: Result<(bytes, nat)>)
    requires d != []
    ensures r.Ok? ==> 2 < r.value.1 <= |d| && r.value.0 == d[2..r.value.1] && DiscordFrame(r.value.0)
  {
    if |d| < 2 then Unsupported
    else
      var high: nat, low: nat := d[0], d[1];
      var size := 256 * high + low;
      if |d| < 2 + size || !DiscordFrame(d[2..2 + size]) then Unsupported
      else
        FrameSize(d[2..2 + size]);
        Ok((d[2..2 + size], 2 + size))
  }

  /** The packets handed out, and whether the end was reached without an exception. */
  function Decode(d: bytes): (seq<bytes>, bool) {
    if d == [] then ([], true)
    else
      match FirstRecord(d)
      case Unsupported => ([], false)
      case Ok((packet, end)) => var (rest, ok) := Decode(d[end..]); ([packet] + rest, ok)
  }

  lemma RecordFirst(packet: bytes, rest: bytes)
    requires DiscordFrame(packet)
    ensures |packet| < 0x1_0000 && FirstRecord(Record(packet) + rest) == Ok((packet, |packet| + 2))
    ensures (Record(packet) + rest)[|packet| + 2..] == rest
  {
    FrameSize(packet);
    hide DiscordFrame;
    var d := Record(packet) + rest;
    var high: nat, low: nat := d[0], d[1];
    assert high == |packet| / 256 && low == |packet| % 256;
    assert d[2..2 + |packet|] == packet;
  }

  lemma {:induction false} DecodesWritten(packets: seq<bytes>)
    requires AllFrames(packets)
    ensures Decode(Body(packets)) == (packets, true)
    decreases |packets|
  {
    hide FirstRecord, DiscordFrame;
    if packets != [] {
      RecordFirst(packets[0], Body(packets[1..]));
      DecodesWritten(packets[1..]);
      assert [packets[0]] + packets[1..] == packets;
    }
  }

  /** Too short for its length, or not a 20 ms packet. */
  predicate BadRecord(d: bytes) {
    d != [] && (|d| < 2 || (var size := 256 * d[0] as int + d[1] as int; |d| - 2 < size || !DiscordFrame(d[2..2 + size])))
  }

  /** Everything before the first bad record is handed out, and then comes the exception. */
  lemma {:induction false} DecodesUpToBad(packets: seq<bytes>, bad: bytes)
    requires AllFrames(packets) && BadRecord(bad)
    ensures Decode(Body(packets) + bad) == (packets, false)
    decreases |packets|
  {
    hide DiscordFrame;
    if packets == [] {
      assert [] + bad == bad;
    } else {
      hide FirstRecord;
      RecordFirst(packets[0], Body(packets[1..]) + bad);
      JoinThree(Record(packets[0]), Body(packets[1..]), bad);
      DecodesUpToBad(packets[1..], bad);
      assert [packets[0]] + packets[1..] == packets;
    }
  }

  lemma FirstIsRecord(d: bytes)
    requires d != [] && FirstRecord(d).Ok?
    ensures var (packet, end) := FirstRecord(d).value;
            |packet| < 0x1_0000 && Record(packet) + d[end..] == d
  {
    var (packet, end) := FirstRecord(d).value;
    FrameSize(packet);
    hide DiscordFrame;
    assert Record(packet) == d[..end];
  }

  /** What is handed out is what the file begins with, up to its end or the first bad record. */
  lemma {:induction false} DecodedIsPrefix(d: bytes)
    ensures var (packets, ok) := Decode(d); AllFrames(packets) && Body(packets) <= d && (ok <==> Body(packets) == d)
    decreases |d|
  {
    hide DiscordFrame;
    if d != [] && FirstRecord(d).Ok? {
      var (packet, end) := FirstRecord(d).value;
      FirstIsRecord(d);
      hide FirstRecord;
      DecodedIsPrefix(d[end..]);
      var rest := Decode(d[end..]).0;
      assert ([packet] + rest)[1..] == rest;
      assert Body([packet] + rest) == Record(packet) + Body(rest);
    }
  }

  /** Marker, then at least one record. */
  ghost predicate CacheOf(file: bytes, packets: seq<bytes>) {
    AllFrames(packets) && packets != [] && file == MAGIC + Body(packets)
  }

  /** read_frame_cache, run to its end: every packet it yields, and whether it ends without an exception. */
  method ReadFrameCache(file: bytes) returns (packets: seq<bytes>, ok: bool)
    ensures ok ==> CacheOf(file, packets)
    ensures !ok ==> forall written: seq<bytes> :: !CacheOf(file, written)
    ensures AllFrames(packets) && (packets == [] || MAGIC + Body(packets) <= file)
  {
    if !(MAGIC <= file) {
      NoMarker(file);
      return [], false;
    }
    hide Decode, Body, CacheOf, AllFrames;
    assert file == MAGIC + file[|MAGIC|..];
    packets, ok := ReadRecords(file[|MAGIC|..]);
    ReadCacheEnds(file, file[|MAGIC|..]);
    ok := ok && packets != [];
  }

  /** The loop over what is left of the file. */
  method ReadRecords(d: bytes) returns (packets: seq<bytes>, ok: bool)
    ensures (packets, ok) == Decode(d)
  {
    hide FirstRecord;
    packets := [];
    var rest := d;
    assert [] + Decode(d).0 == Decode(d).0;
    while rest != []
      invariant Decode(d) == (packets + Decode(rest).0, Decode(rest).1)
      decreases |rest|
    {
      match FirstRecord(rest) {
        case Unsupported =>
          assert packets + [] == packets;
          return packets, false;
        case Ok((packet, end)) =>
          JoinThree(packets, [packet], Decode(rest[end..]).0);
          packets, rest := packets + [packet], rest[end..];
      }
    }
    assert packets + [] == packets;
    return packets, true;
  }

  lemma NoMarker(file: bytes)
    requires !(MAGIC <= file)
    ensures AllFrames([]) && forall written: seq<bytes> :: !CacheOf(file, written)
  {}

  lemma ReadCacheEnds(file: bytes, d: bytes)
    requires file == MAGIC + d
    ensures var (packets, ok) := Decode(d);
            && AllFrames(packets) && MAGIC + Body(packets) <= file
            && if ok && packets != [] then CacheOf(file, packets) else forall written: seq<bytes> :: !CacheOf(file, written)
  {
    DecodedIsPrefix(d);
    forall written: seq<bytes> | CacheOf(file, written) ensures Decode(d) == (written, true) {
      DecodesWritten(written);
      assert file[|MAGIC|..] == d && (MAGIC + Body(written))[|MAGIC|..] == Body(written);
    }
  }
}
