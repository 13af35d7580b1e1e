/** OggPacketIndex and ogg_duration (ttsbot/recording/ogg.py): reading a file back, damaged or cut short. */
module OggIndex {
  import opened Bytes
  import opened OpusPacket
  import opened OggPage
  import opened OggDemuxer
  import opened OggWriter
  import Bisect

  /** What a scan finds: header packets seen, audio packets, and whether it stopped at damage. */
  datatype Found = Found(headers: nat, packets: seq<bytes>, damaged: bool)

  /** The packets ending on one page: two headers first, then every non-empty packet. */
  function Keep(headers: nat, packets: seq<bytes>): Result<(nat, seq<bytes>)>
    decreases |packets|
  {
    if packets == [] then Ok((headers, []))
    else if headers < 2 then
      if (if headers == 0 then OPUS_HEAD else OPUS_TAGS) <= packets[0] then Keep(headers + 1, packets[1..])
      else Unsupported
    else
      match Keep(headers, packets[1..])
      case Unsupported => Unsupported
      case Ok((h, kept)) => Ok((h, (if packets[0] == [] then [] else [packets[0]]) + kept))
  }

  /** A page the scan accepts: marker, whole, and its checksum right. */
  predicate SoundPage(d: bytes) {
    Complete(d) && d[..4] == MAGIC && CrcMatches(d[..PageEnd(d)])
  }

  function ScanFrom(d: bytes, headers: nat, open: bytes): Result<Found>
    decreases |d|
  {
    if !SoundPage(d) then Ok(Found(headers, [], d != []))
    else
      var (packets, left) := Lace(open, FieldsOf(d).table, d[TableEnd(d)..PageEnd(d)]);
      match Keep(headers, packets)
      case Unsupported => Unsupported
      case Ok((h, kept)) => After(kept, ScanFrom(d[PageEnd(d)..], h, left))
  }

  function After(kept: seq<bytes>, r: Result<Found>): Result<Found> {
    match r
    case Unsupported => Unsupported
    case Ok(f) => Ok(f.(packets := kept + f.packets))
  }

  /** A file needs both header packets; anything later may be missing. */
  function ScanFile(d: bytes): Result<Found> {
    match ScanFrom(d, 0, [])
    case Unsupported => Unsupported
    case Ok(f) => if f.headers < 2 then Unsupported else Ok(f)
  }

  /** Samples the index counts for a packet: an undecodable one plays as nothing. */
  function IndexSamples(packet: bytes): nat {
    if Playable(packet) then Samples(packet) else 0
  }

  function IndexTotal(packets: seq<bytes>): nat {
    if packets == [] then 0 else IndexTotal(packets[..|packets| - 1]) + IndexSamples(packets[|packets| - 1])
  }

  // ---- ogg_duration

  /** Little-endian signed 64-bit. */
  function SignedLE(b: bytes): int
    requires |b| == 8
  {
    var v: int := FromLE(b);
    if v >= 0x8000_0000_0000_0000 then v - 0x1_0000_0000_0000_0000 else v
  }

  function DurationFrom(d: bytes, granule: int): int
    decreases |d|
  {
    if Complete(d) && d[..4] == MAGIC then
      var g := SignedLE(d[6..14]);
      DurationFrom(d[PageEnd(d)..], if g > granule then g else granule)
    else granule
  }

  lemma TooFew(d: bytes)
    requires |d| < 27
    ensures !Complete(d)
  {}

  /** Whether a whole page is at a position of the file, and where it ends. */
  lemma CompleteAt(data: bytes, pos: nat)
    requires pos + 27 <= |data|
    ensures var d, table := data[pos..], pos + 27 + data[pos + 26];
            && d[..4] == data[pos..pos + 4]
            && (table > |data| ==> !Complete(d))
            && (table <= |data| ==>
                  var end := table + Sum(data[pos + 27..table]);
                  && (Complete(d) <==> end <= |data|)
                  && (end <= |data| ==> PageEnd(d) <= |d| && d[PageEnd(d)..] == data[end..]))
  {
    PageAt(data, pos);
  }

  /** The loop of ogg_duration, in samples. */
  method OggDuration(data: bytes) returns (granule: int)
    ensures granule == DurationFrom(data, 0)
  {
    hide Sum, SignedLE, PageEnd, TableEnd;
    var pos: nat := 0;
    granule := 0;
    assert data[0..] == data;
    while pos + 27 <= |data| && data[pos..pos + 4] == MAGIC
      invariant pos <= |data| && DurationFrom(data[pos..], granule) == DurationFrom(data, 0)
      decreases |data| - pos
    {
      ghost var d := data[pos..];
      CompleteAt(data, pos);
      assert d[6..14] == data[pos + 6..pos + 14];
      var segments: nat := data[pos + 26];
      if pos + 27 + segments > |data| { break; }
      var sizes := data[pos + 27..pos + 27 + segments];
      var end := pos + 27 + segments + Sum(sizes);
      if end > |data| { break; }
      var g := SignedLE(data[pos + 6..pos + 14]);
      granule := if g > granule then g else granule;
      pos := end;
    }
    if pos + 27 <= |data| { CompleteAt(data, pos); } else { TooFew(data[pos..]); }
  }

  // ---- The class

  lemma KeepStep(total: Result<(nat, seq<bytes>)>, kept: seq<bytes>, headers: nat, p: bytes, rest: seq<bytes>)
    requires total == AddAudio(kept, Keep(headers, [p] + rest))
    ensures headers < 2 ==>
      if (if headers == 0 then OPUS_HEAD else OPUS_TAGS) <= p then total == AddAudio(kept, Keep(headers + 1, rest))
      else total == Unsupported
    ensures headers >= 2 ==> total == AddAudio(if p == [] then kept else kept + [p], Keep(headers, rest))
  {
    assert ([p] + rest)[1..] == rest;
    var r := Keep(headers, rest);
    if headers >= 2 && r.Ok? {
      var one := if p == [] then [] else [p];
      JoinThree(kept, one, r.value.1);
      assert kept + one == if p == [] then kept else kept + [p];
    }
  }

  /** Every packet is where the arrays say it is. */
  ghost predicate Located(data: bytes, starts: seq<nat>, sizes: seq<nat>, split: map<nat, bytes>, packets: seq<bytes>) {
    && |starts| == |sizes| == |packets|
    && (forall i :: 0 <= i < |packets| ==>
          if i in split then split[i] == packets[i]
          else starts[i] + sizes[i] <= |data| && data[starts[i]..starts[i] + sizes[i]] == packets[i])
    && forall i <- split :: i < |packets|
  }

  lemma LocatedExtends(data: bytes, starts: seq<nat>, sizes: seq<nat>, split: map<nat, bytes>, packets: seq<bytes>,
                       joined: Option<bytes>, start: nat, cursor: nat)
    requires Located(data, starts, sizes, split, packets) && start <= cursor <= |data|
    ensures |sizes| == |packets|
    ensures var packet := if joined.Some? then joined.value else data[start..cursor];
            Located(data, starts + [if joined.Some? then 0 else start], sizes + [|packet|],
                    if joined.Some? then split[|sizes| := packet] else split, packets + [packet])
  {}

  /** Sample i is the total of the packets before i. */
  ghost predicate Timed(samples: seq<nat>, packets: seq<bytes>) {
    |samples| == |packets| + 1 && forall i :: 0 <= i <= |packets| ==> samples[i] == IndexTotal(packets[..i])
  }

  lemma TimedExtends(samples: seq<nat>, packets: seq<bytes>, packet: bytes)
    requires Timed(samples, packets)
    ensures |samples| > 0
    ensures Timed(samples + [samples[|samples| - 1] + IndexSamples(packet)], packets + [packet])
  {
    hide IndexSamples;
    var grown, n := packets + [packet], |packets|;
    var more := samples + [samples[n] + IndexSamples(packet)];
    assert grown[..n] == packets && packets[..n] == packets && grown[..n + 1] == grown;
    assert IndexTotal(grown) == IndexTotal(packets) + IndexSamples(packet);
    hide IndexTotal;
    forall i | 0 <= i <= |grown| ensures more[i] == IndexTotal(grown[..i]) {
      if i <= n { assert grown[..i] == packets[..i] && more[i] == samples[i]; }
    }
  }

  /** A page seen at a position of the file is the page at the front of what is left. */
  lemma PageAt(data: bytes, pos: nat)
    requires pos + 27 <= |data|
    ensures var d, table := data[pos..], pos + 27 + data[pos + 26];
            && d[..4] == data[pos..pos + 4] && TableEnd(d) == table - pos
            && (table <= |data| ==>
                  var end := table + Sum(data[pos + 27..table]);
                  && PageEnd(d) == end - pos && FieldsOf(d).table == data[pos + 27..table]
                  && (end <= |data| ==>
                        && d[..PageEnd(d)] == data[pos..end] && d[PageEnd(d)..] == data[end..]
                        && d[TableEnd(d)..PageEnd(d)] == data[table..end]))
  {
    var d, table := data[pos..], pos + 27 + data[pos + 26];
    if table <= |data| {
      assert d[27..TableEnd(d)] == data[pos + 27..table];
    }
  }

  /** The scan's checks at a position, and where the page's parts are when they pass. */
  lemma SoundAt(data: bytes, pos: nat)
    requires pos + 27 <= |data|
    ensures var d, body := data[pos..], pos + 27 + data[pos + 26];
            if data[pos..pos + 4] != MAGIC || body > |data| then !SoundPage(d)
            else
              var end := body + Sum(data[pos + 27..body]);
              && (SoundPage(d) <==> end <= |data| && CrcMatches(data[pos..end]))
              && (SoundPage(d) ==>
                    && FieldsOf(d).table == data[pos + 27..body] && TableEnd(d) <= PageEnd(d) <= |d|
                    && d[TableEnd(d)..PageEnd(d)] == data[body..end] && d[PageEnd(d)..] == data[end..])
  {
    hide CrcMatches, Sum;
    PageAt(data, pos);
  }

  lemma TooShort(d: bytes)
    ensures |d| < 27 ==> !SoundPage(d)
  {}

  lemma NothingLeft(open: bytes, headers: nat)
    ensures Sum([]) == 0 && Lace(open, [], []) == ([], open) && Keep(headers, []) == Ok((headers, []))
  {}

  lemma AfterTwice(a: seq<bytes>, b: seq<bytes>, r: Result<Found>)
    ensures After(a, After(b, r)) == After(a + b, r)
  {
    if r.Ok? { JoinThree(a, b, r.value.packets); }
  }

  class OggPacketIndex {
    const data: bytes
    var starts: seq<nat>
    var sizes: seq<nat>
    var samples: seq<nat> // where each packet starts, and where the last one ends
    var split: map<nat, bytes> // packets that began on an earlier page
    var damaged: bool
    ghost var packets: seq<bytes>

    ghost predicate Valid()
      reads this
    {
      Located(data, starts, sizes, split, packets) && Timed(samples, packets)
    }

    constructor (file: bytes)
      ensures Valid() && packets == [] && !damaged && data == file
    {
      data := file;
      starts, sizes, samples, split, damaged, packets := [], [], [0], map[], false, [];
    }

    function Packet(i: nat): bytes
      requires Valid() && i < |sizes|
      reads this
      ensures Packet(i) == packets[i]
    {
      if i in split then split[i] else data[starts[i]..starts[i] + sizes[i]]
    }

    /** Append the packet data[start..cursor], or the joined one when it began on an earlier page. */
    method Add(joined: Option<bytes>, start: nat, cursor: nat)
      requires Valid() && start <= cursor <= |data|
      modifies this
      ensures Valid() && damaged == old(damaged)
      ensures packets == old(packets) + [if joined.Some? then joined.value else data[start..cursor]]
    {
      hide IndexSamples, Located, Timed, IndexTotal;
      var packet := if joined.Some? then joined.value else data[start..cursor];
      LocatedExtends(data, starts, sizes, split, packets, joined, start, cursor);
      TimedExtends(samples, packets, packet);
      if joined.Some? { split := split[|sizes| := packet]; }
      starts := starts + [if joined.Some? then 0 else start];
      sizes := sizes + [|packet|];
      samples := samples + [samples[|samples| - 1] + IndexSamples(packet)];
      packets := packets + [packet];
    }

    /** The segments of one page whose body starts at body; partial holds a packet begun on earlier pages. */
    method TakePage(lacing: bytes, body: nat, partial0: bytes, headers0: nat)
      returns (ok: bool, headers: nat, partial: bytes)
      requires Valid() && body + Sum(lacing) <= |data|
      modifies this
      ensures Valid() && damaged == old(damaged)
      ensures var (whole, left) := Lace(partial0, lacing, data[body..body + Sum(lacing)]);
              match Keep(headers0, whole)
              case Unsupported => !ok
              case Ok((h, kept)) => ok && headers == h && partial == left && packets == old(packets) + kept
    {
      hide Located, Timed, Sum, Lace, Keep, OPUS_HEAD, OPUS_TAGS;
      headers, partial := headers0, partial0;
      var cursor: nat, start: nat := body, body;
      var end := body + Sum(lacing);
      ghost var all := Lace(partial, lacing, data[body..end]);
      ghost var total := Keep(headers, all.0);
      ghost var kept: seq<bytes> := [];
      assert lacing[0..] == lacing && partial + data[start..cursor] == partial;
      if total.Ok? { assert [] + total.value.1 == total.value.1; }
      for i := 0 to |lacing|
        invariant Valid() && damaged == old(damaged) && packets == old(packets) + kept
        invariant start <= cursor && cursor + Sum(lacing[i..]) == end
        invariant Lace(partial + data[start..cursor], lacing[i..], data[cursor..end]).1 == all.1
        invariant total == AddAudio(kept, Keep(headers, Lace(partial + data[start..cursor], lacing[i..], data[cursor..end]).0))
      {
        LaceStep(partial + data[start..cursor], lacing, i, data, cursor, end);
        assert partial + data[start..cursor] + data[cursor..cursor + lacing[i]] == partial + data[start..cursor + lacing[i]];
        cursor := cursor + lacing[i];
        if lacing[i] == 255 { continue; }
        ghost var grown := partial + data[start..cursor];
        assert partial == [] ==> grown == data[start..cursor];
        var joined: Option<bytes> := None;
        if partial != [] {
          joined := Some(partial + data[start..cursor]);
          partial := [];
        }
        var head := if joined.Some? then joined.value else data[start..cursor];
        assert head == grown;
        KeepStep(total, kept, headers, head, Lace([], lacing[i + 1..], data[cursor..end]).0);
        if headers < 2 {
          if !((if headers == 0 then OPUS_HEAD else OPUS_TAGS) <= head) { return false, headers, partial; }
          headers := headers + 1;
        } else if |head| > 0 {
          Add(joined, start, cursor);
          kept := kept + [head];
        }
        start := cursor;
        assert [] + data[start..cursor] == [];
      }
      assert lacing[|lacing|..] == [];
      NothingLeft(partial + data[start..cursor], headers);
      assert cursor == end && data[cursor..end] == [];
      if start < end { partial := partial + data[start..end]; }
      assert partial == all.1;
      assert kept + [] == kept;
      return true, headers, partial;
    }

    /** False is the exception for a file without both header packets. */
    method Scan() returns (ok: bool)
      requires Valid() && packets == [] && !damaged
      modifies this
      ensures Valid()
      ensures match ScanFile(data)
              case Unsupported => !ok
              case Ok(f) => ok && packets == f.packets && damaged == f.damaged
    {
      hide CrcMatches, Keep, Lace, Sum, Located, Timed, FieldsOf, SoundPage, TableEnd, PageEnd;
      var pos: nat, headers: nat := 0, 0;
      var partial: bytes := [];
      ghost var total := ScanFrom(data, 0, []);
      assert data[0..] == data;
      if total.Ok? { assert [] + total.value.packets == total.value.packets; }
      while pos + 27 <= |data|
        invariant Valid() && !damaged && pos <= |data|
        invariant total == After(packets, ScanFrom(data[pos..], headers, partial))
        decreases |data| - pos
      {
        SoundAt(data, pos);
        if data[pos..pos + 4] != MAGIC { damaged := true; break; }
        var segments: nat := data[pos + 26];
        var body := pos + 27 + segments;
        if body > |data| { damaged := true; break; }
        var lacing := data[pos + 27..body];
        var end := body + Sum(lacing);
        if end > |data| { damaged := true; break; }
        if !CrcMatches(data[pos..end]) { damaged := true; break; }
        ghost var before, keep := packets, Keep(headers, Lace(partial, lacing, data[body..end]).0);
        var good;
        good, headers, partial := TakePage(lacing, body, partial, headers);
        if !good { return false; }
        AfterTwice(before, keep.value.1, ScanFrom(data[end..], headers, partial));
        pos := end;
      }
      assert packets + [] == packets;
      TooShort(data[pos..]);
      if !damaged { damaged := pos != |data|; }
      return headers >= 2;
    }

    /** index_at: the lookup by time, to the nearest sample. */
    function IndexAt(seconds: real): nat
      requires Valid()
      reads this
      ensures IndexAt(seconds) == FirstAt(packets, NearestSample(seconds))
      ensures forall k :: 0 <= k < IndexAt(seconds) && k < |packets| ==> IndexTotal(packets[..k]) < NearestSample(seconds)
      ensures forall k :: IndexAt(seconds) <= k < |packets| ==> IndexTotal(packets[..k]) >= NearestSample(seconds)
    {
      FirstAtFinds(packets, NearestSample(seconds));
      assert samples == Starts(packets);
      Bisect.BisectLeft(samples, NearestSample(seconds), 0, |sizes|)
    }
  }

  // ---- Looking packets up by time

  /** The samples before each packet, then before the end. */
  function Starts(packets: seq<bytes>): (r: seq<nat>)
    ensures |r| == |packets| + 1
  {
    seq(|packets| + 1, i requires 0 <= i <= |packets| => IndexTotal(packets[..i]))
  }

  /** round(seconds * 48000) */
  function NearestSample(seconds: real): int { (seconds * 48000.0 + 0.5).Floor }

  /** Every millisecond is a sample: times read from books and plans lose nothing. */
  lemma SampleOfMs(ms: int)
    ensures NearestSample(ms as real / 1000.0) == 48 * ms
  {
    var m := ms as real;
    assert m / 1000.0 * 48000.0 == 48.0 * m == (48 * ms) as real;
    HalfFloors(48 * ms);
  }

  lemma HalfFloors(k: int)
    ensures (k as real + 0.5).Floor == k
  {}

  function FirstAt(packets: seq<bytes>, sample: int): (i: nat)
    ensures i <= |packets|
  {
    Bisect.BisectLeft(Starts(packets), sample, 0, |packets|)
  }

  lemma {:induction false} IndexTotalGrows(packets: seq<bytes>, i: nat, j: nat)
    requires i <= j <= |packets|
    ensures IndexTotal(packets[..i]) <= IndexTotal(packets[..j])
    decreases j
  {
    if i < j {
      assert packets[..j][..j - 1] == packets[..j - 1];
      IndexTotalGrows(packets, i, j - 1);
    }
  }

  /** The lookup agrees with a linear search over the start samples. */
  lemma FirstAtFinds(packets: seq<bytes>, sample: int)
    ensures var i := FirstAt(packets, sample);
            && (forall k :: 0 <= k < i ==> IndexTotal(packets[..k]) < sample)
            && forall k :: i <= k < |packets| ==> IndexTotal(packets[..k]) >= sample
  {
    hide IndexTotal;
    var s := Starts(packets);
    forall i, j | 0 <= i <= j < |s| ensures s[i] <= s[j] { IndexTotalGrows(packets, i, j); }
    Bisect.BisectLeftFinds(s, sample, 0, |packets|);
    forall k | 0 <= k < |packets| ensures s[k] == IndexTotal(packets[..k]) {}
  }

  /** A sample after the start of packet i - 1 and not after the start of packet i finds packet i. */
  lemma FirstAtBetween(packets: seq<bytes>, i: nat, sample: int)
    requires i <= |packets|
    requires i > 0 ==> IndexTotal(packets[..i - 1]) < sample
    requires i < |packets| ==> sample <= IndexTotal(packets[..i])
    ensures FirstAt(packets, sample) == i
  {
    hide IndexTotal, FirstAt;
    FirstAtFinds(packets, sample);
  }

  /** A packet that lasts some time starts at a sample of its own. */
  lemma StartsApart(packets: seq<bytes>, i: nat)
    requires i < |packets| && AllPlayable(packets)
    ensures IndexTotal(packets[..i + 1]) >= IndexTotal(packets[..i]) + 120
  {
    assert packets[..i + 1][..i] == packets[..i] && packets[i] in packets;
    PlayableBounds(packets[i]);
  }

  /** So its start finds it. */
  lemma FirstAtExact(packets: seq<bytes>, i: nat)
    requires i < |packets| && AllPlayable(packets)
    ensures FirstAt(packets, IndexTotal(packets[..i])) == i
  {
    hide IndexTotal, FirstAt;
    if i > 0 { StartsApart(packets, i - 1); }
    FirstAtBetween(packets, i, IndexTotal(packets[..i]));
  }
}
