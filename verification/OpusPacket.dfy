/** Opus packet durations from the TOC byte (ttsbot/ogg_opus.py). */
module OpusPacket {
  import opened Bytes

  const MAX_OPUS_PACKET := 1275
  const OPUS_SILENCE: bytes := [0xF8, 0xFF, 0xFE]

  /** 48 kHz samples of one frame. */
  function FrameSamples(toc: byte): nat {
    var sizeCode := (toc / 8) % 4;
    if toc / 128 == 1 then
      (if sizeCode == 0 then 48000 else if sizeCode == 1 then 96000 else if sizeCode == 2 then 192000 else 384000) / 400
    else if (toc / 32) % 4 == 3 then
      48000 / (if (toc / 8) % 2 == 1 then 50 else 100)
    else if sizeCode == 3 then 2880
    else (if sizeCode == 0 then 48000 else if sizeCode == 1 then 96000 else 192000) / 100
  }

  /** Frames in the packet: count codes 0 to 2 are fixed, code 3 takes six bits of the next byte. */
  function FrameCount(packet: bytes): Result<nat>
    requires packet != []
  {
    var code := packet[0] % 4;
    if code == 0 then Ok(1)
    else if code == 1 || code == 2 then Ok(2)
    else if |packet| < 2 || packet[1] % 64 == 0 then Unsupported
    else Ok(packet[1] % 64)
  }

  function OpusPacketSamples(packet: bytes): Result<nat> {
    if packet == [] || |packet| > MAX_OPUS_PACKET then Unsupported
    else
      match FrameCount(packet)
      case Unsupported => Unsupported
      case Ok(count) =>
        var samples := FrameSamples(packet[0]) * count;
        if samples > 5760 then Unsupported else Ok(samples)
  }

  /** Exactly 20 ms, as one Discord read sends. */
  predicate DiscordFrame(packet: bytes) { OpusPacketSamples(packet) == Ok(960) }

  predicate AllFrames(packets: seq<bytes>) { forall p <- packets :: DiscordFrame(p) }

  /** A packet the container code accepts at all. */
  predicate Playable(packet: bytes) { OpusPacketSamples(packet).Ok? }

  function Samples(packet: bytes): nat
    requires Playable(packet)
  {
    OpusPacketSamples(packet).value
  }

  /** Frame lengths in tenths of a millisecond by configuration number (RFC 6716, section 3.1, table 2). */
  function Rfc6716FrameTenths(config: nat): nat
    requires config < 32
  {
    if config < 12 then [100, 200, 400, 600][config % 4]
    else if config < 16 then [100, 200][config % 2]
    else [25, 50, 100, 200][config % 4]
  }

  /** The bit arithmetic on the TOC byte gives the standard's table for all 32 configurations. */
  lemma FrameSamplesMatchTable(toc: byte)
    ensures 10 * FrameSamples(toc) == 48 * Rfc6716FrameTenths(toc / 8)
  {
    var config := toc / 8;
    assert toc / 128 == config / 16 && toc / 32 == config / 4;
    assert config % 2 == (config % 4) % 2;
  }

  /** What is accepted as a Discord frame: up to 1275 bytes whose frames last 20 ms together (RFC 6716, section 3.2). */
  lemma DiscordFrameIff(packet: bytes)
    ensures DiscordFrame(packet) <==>
      && 0 < |packet| <= 1275
      && var tenths := Rfc6716FrameTenths(packet[0] / 8);
         match packet[0] % 4
         case 0 => tenths == 200
         case 3 => |packet| >= 2 && tenths * (packet[1] % 64) == 200
         case _ => tenths == 100
  {
    if packet != [] {
      FrameSamplesMatchTable(packet[0]);
      hide FrameSamples;
      PlayableIff(packet);
    }
  }

  /** Every packet has 1 frame, 2 frames or as many as its second byte says, and lasts at most 120 ms. */
  lemma PlayableIff(packet: bytes)
    ensures Playable(packet) <==> exists frames: nat :: Lasts(packet, frames)
    ensures forall frames: nat :: Lasts(packet, frames) ==>
      Playable(packet) && 10 * Samples(packet) == 48 * Rfc6716FrameTenths(packet[0] / 8) * frames
  {
    if packet != [] {
      FrameSamplesMatchTable(packet[0]);
      var tenths, per := Rfc6716FrameTenths(packet[0] / 8), FrameSamples(packet[0]);
      hide FrameSamples, Rfc6716FrameTenths;
      forall frames: nat | Lasts(packet, frames)
        ensures Playable(packet) && 10 * Samples(packet) == 48 * tenths * frames
      {
        TimesFrames(per, tenths, frames);
      }
      if Playable(packet) {
        var frames := FrameCount(packet).value;
        TimesFrames(per, tenths, frames);
        assert Lasts(packet, frames);
      }
    }
  }

  lemma TimesFrames(per: nat, tenths: nat, frames: nat)
    requires 10 * per == 48 * tenths
    ensures 10 * (per * frames) == 48 * tenths * frames
    ensures per * frames <= 5760 <==> tenths * frames <= 1200
  {
    assert 10 * (per * frames) == (10 * per) * frames == 48 * (tenths * frames);
  }

  /** The packet holds this many frames, of at most 120 ms together. */
  predicate Lasts(packet: bytes, frames: nat) {
    && 0 < |packet| <= 1275 && Rfc6716FrameTenths(packet[0] / 8) * frames <= 1200
    && match packet[0] % 4
       case 0 => frames == 1
       case 3 => |packet| >= 2 && frames == packet[1] % 64 > 0
       case _ => frames == 2
  }

  /** A playable packet lasts between 2.5 and 120 ms, in whole 2.5 ms steps. */
  lemma PlayableBounds(packet: bytes)
    requires Playable(packet)
    ensures 120 <= Samples(packet) <= 5760 && Samples(packet) % 120 == 0
    ensures 0 < |packet| <= MAX_OPUS_PACKET
  {
    FrameSamplesMatchTable(packet[0]);
    hide FrameSamples;
    var per, count := FrameSamples(packet[0]), FrameCount(packet).value;
    assert 10 * per == 48 * Rfc6716FrameTenths(packet[0] / 8) && count >= 1;
    var tenths := Rfc6716FrameTenths(packet[0] / 8);
    assert tenths >= 25 && tenths % 25 == 0;
    hide Rfc6716FrameTenths;
    StepsTimes(per, tenths, count);
  }

  lemma StepsTimes(per: nat, tenths: nat, count: nat)
    requires 10 * per == 48 * tenths && tenths >= 25 && tenths % 25 == 0 && count >= 1
    ensures per * count >= 120 && (per * count) % 120 == 0
  {
    var k := tenths / 25;
    assert per == 120 * k && k >= 1;
    assert per * count == 120 * (k * count) && k * count >= 1;
  }

  lemma SilenceIsDiscordFrame()
    ensures DiscordFrame(OPUS_SILENCE)
  {}
}
