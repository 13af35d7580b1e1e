/** What OggPacketIndex and ogg_duration make of a written file that was cut short or damaged. */
module OggCrash {
  import opened Bytes
  import opened OpusPacket
  import opened OggPage
  import opened OggDemuxer
  import opened OggWriter
  import opened OggIndex

  // ---- Sound pages, and what follows the last of them

  lemma WrittenPageSound(p: PageSpec, rest: bytes)
    requires p.Valid()
    ensures var d := PageBytes(p) + rest;
            && SoundPage(d) && PageEnd(d) == |PageBytes(p)| && d[PageEnd(d)..] == rest
            && FieldsOf(d).table == LacingAll(p.packets) && d[TableEnd(d)..PageEnd(d)] == Concat(p.packets)
            && SignedLE(d[6..14]) == p.granule
  {
    hide Page, FieldsOf, Complete, PageEnd, TableEnd, LacingAll, Concat, CrcMatches;
    PageFields(p.flags, p.granule, p.serial, p.sequence, p.packets, rest);
    WrittenPageChecks(p.flags, p.granule, p.serial, p.sequence, p.packets);
    var d := PageBytes(p) + rest;
    FieldsGranule(d);
  }

  lemma FieldsGranule(d: bytes)
    requires |d| >= 27 && |d| >= TableEnd(d)
    ensures FieldsOf(d).granule == FromLE(d[6..14])
  {}

  /** A page that lost its end is not complete. */
  lemma CutPageIncomplete(p: PageSpec, n: nat)
    requires p.Valid() && n < |PageBytes(p)|
    ensures !Complete(PageBytes(p)[..n])
  {
    hide Page, Fits, LacingAll, Concat;
    PageFields(p.flags, p.granule, p.serial, p.sequence, p.packets, []);
    var page := PageBytes(p);
    var cut := page[..n];
    assert page + [] == page;
    if |cut| >= 27 && |cut| >= TableEnd(cut) {
      assert cut[27..TableEnd(cut)] == page[27..TableEnd(page)];
    }
  }

  lemma {:induction false} KeepAudio(packets: seq<bytes>)
    requires AllPlayable(packets)
    ensures Keep(2, packets) == Ok((2, packets))
    decreases |packets|
  {
    if packets != [] {
      PlayableBounds(packets[0]);
      hide Playable;
      KeepAudio(packets[1..]);
      assert packets == [packets[0]] + packets[1..];
    }
  }

  lemma ScanOnePage(p: PageSpec, rest: bytes, headers: nat)
    requires p.Valid() && Keep(headers, p.packets).Ok?
    ensures ScanFrom(PageBytes(p) + rest, headers, [])
         == After(Keep(headers, p.packets).value.1, ScanFrom(rest, Keep(headers, p.packets).value.0, []))
  {
    hide PageBytes, SoundPage, FieldsOf, PageEnd, TableEnd, Lace, Keep, LacingAll, Concat;
    WrittenPageSound(p, rest);
    LaceRoundTrip(p.packets);
  }

  lemma {:induction false} ScanAudioPages(serial: nat, pages: seq<PageSpec>, k: nat, j: nat, tail: bytes)
    requires Stream(serial, pages) && 2 <= k <= j <= |pages| && !SoundPage(tail)
    ensures ScanFrom(FileBytes(pages[k..j]) + tail, 2, [])
         == Ok(Found(2, PacketsOf(pages[k..j]), tail != []))
    decreases j - k
  {
    hide PageBytes, SoundPage, Keep, Fits, HeadPage, TagsPage, Playable, Total;
    if k == j {
      assert pages[k..j] == [] && [] + tail == tail;
    } else {
      var p, rest := pages[k], pages[k + 1..j];
      assert pages[k..j][0] == p && pages[k..j][1..] == rest;
      JoinThree(PageBytes(p), FileBytes(rest), tail);
      KeepAudio(p.packets);
      ScanOnePage(p, FileBytes(rest) + tail, 2);
      ScanAudioPages(serial, pages, k + 1, j, tail);
    }
  }

  lemma HeaderPacketsKept()
    ensures Keep(0, [HeadPacket()]) == Ok((1, [])) && Keep(1, [TagsPacket()]) == Ok((2, []))
  {
    assert [HeadPacket()][1..] == [] && [TagsPacket()][1..] == [];
  }

  lemma AfterNothing(r: Result<Found>)
    ensures After([], r) == r
  {
    if r.Ok? { assert [] + r.value.packets == r.value.packets; }
  }

  /** Both header pages and any number of audio pages survive: the scan finds exactly those packets. */
  lemma ScanWrittenPages(serial: nat, pages: seq<PageSpec>, j: nat, tail: bytes)
    requires Stream(serial, pages) && 2 <= j <= |pages| && !SoundPage(tail)
    ensures ScanFile(FileBytes(pages[..j]) + tail) == Ok(Found(2, Audio(pages[..j]), tail != []))
  {
    HeaderPacketsKept();
    hide PageBytes, SoundPage, Keep, Fits, Total, Playable, HeadPacket, TagsPacket, ScanFrom, PacketsOf;
    var head, tags, rest := pages[0], pages[1], pages[2..j];
    assert pages[..j][0] == head && pages[..j][1..] == pages[1..j];
    assert pages[1..j][0] == tags && pages[1..j][1..] == rest && pages[..j][2..] == rest;
    var after := FileBytes(rest) + tail;
    JoinThree(PageBytes(head), FileBytes(pages[1..j]), tail);
    JoinThree(PageBytes(tags), FileBytes(rest), tail);
    ScanOnePage(head, PageBytes(tags) + after, 0);
    ScanOnePage(tags, after, 1);
    ScanAudioPages(serial, pages, 2, j, tail);
    AfterNothing(ScanFrom(after, 2, []));
  }

  // ---- Cutting a file at any byte

  /** How many whole pages the first n bytes hold. */
  function WholePages(pages: seq<PageSpec>, n: nat): (j: nat)
    requires forall p <- pages :: p.Valid()
    ensures j <= |pages|
  {
    if pages == [] || n < |PageBytes(pages[0])| then 0
    else 1 + WholePages(pages[1..], n - |PageBytes(pages[0])|)
  }

  lemma {:induction false} CutFile(pages: seq<PageSpec>, n: nat) returns (tail: bytes)
    requires (forall p <- pages :: p.Valid()) && n <= |FileBytes(pages)|
    ensures var j := WholePages(pages, n);
            && FileBytes(pages)[..n] == FileBytes(pages[..j]) + tail
            && |tail| == n - |FileBytes(pages[..j])|
            && (tail != [] ==> j < |pages| && |tail| < |PageBytes(pages[j])| && tail == PageBytes(pages[j])[..|tail|])
            && (j < |pages| ==> n < |FileBytes(pages[..j])| + |PageBytes(pages[j])|)
  {
    hide PageBytes, Fits;
    var j := WholePages(pages, n);
    if pages == [] {
      tail := [];
    } else {
      var page, rest := PageBytes(pages[0]), FileBytes(pages[1..]);
      if n < |page| {
        tail := page[..n];
        assert (page + rest)[..n] == tail && pages[..0] == [] && [] + tail == tail;
      } else {
        tail := CutFile(pages[1..], n - |page|);
        assert pages[..j][0] == pages[0] && pages[..j][1..] == pages[1..][..j - 1];
        assert (page + rest)[..n] == page + rest[..n - |page|];
        JoinThree(page, FileBytes(pages[1..][..j - 1]), tail);
      }
    }
  }

  lemma StreamPrefix(serial: nat, pages: seq<PageSpec>, j: nat)
    requires Stream(serial, pages) && 2 <= j <= |pages|
    ensures Stream(serial, pages[..j])
  {
    hide Fits, Total, Playable, HeadPacket, TagsPacket;
    var front := pages[..j];
    assert forall i :: 0 <= i < j ==> front[i] == pages[i];
  }

  lemma {:induction false} TotalIsIndexTotal(packets: seq<bytes>)
    requires AllPlayable(packets)
    ensures Total(packets) == IndexTotal(packets)
    decreases |packets|
  {
    if packets != [] {
      var front: seq<bytes>, last: bytes := packets[..|packets| - 1], packets[|packets| - 1];
      hide Playable, Samples;
      TotalIsIndexTotal(front);
      TotalAppend(front, [last]);
      assert packets == front + [last];
      var one: seq<bytes> := [last];
      assert one[1..] == [];
    }
  }

  lemma DurationOnePage(p: PageSpec, rest: bytes, granule: nat)
    requires p.Valid()
    ensures DurationFrom(PageBytes(p) + rest, granule) == DurationFrom(rest, if p.granule > granule then p.granule else granule)
  {
    hide PageBytes, Fits, Complete, PageEnd, SignedLE;
    WrittenPageSound(p, rest);
  }

  lemma GranuleUp(serial: nat, pages: seq<PageSpec>, k: nat)
    requires Stream(serial, pages) && k < |pages|
    ensures (forall p <- pages :: p.Valid()) && pages[k].granule >= if k == 0 then 0 else pages[k - 1].granule
  {
    hide Fits, HeadPacket, TagsPacket, Playable, Total;
  }

  lemma FileFrom(pages: seq<PageSpec>, k: nat, j: nat, tail: bytes)
    requires k < j <= |pages| && forall p <- pages :: p.Valid()
    ensures FileBytes(pages[k..j]) + tail == PageBytes(pages[k]) + (FileBytes(pages[k + 1..j]) + tail)
  {
    hide PageBytes, Fits;
    assert pages[k..j][0] == pages[k] && pages[k..j][1..] == pages[k + 1..j];
    JoinThree(PageBytes(pages[k]), FileBytes(pages[k + 1..j]), tail);
  }

  lemma TailOnly(tail: bytes)
    ensures FileBytes([]) + tail == tail
  {}

  lemma {:induction false} DurationOfPages(serial: nat, pages: seq<PageSpec>, k: nat, j: nat, tail: bytes)
    requires Stream(serial, pages) && k < j <= |pages| && !Complete(tail)
    ensures DurationFrom(FileBytes(pages[k..j]) + tail, if k == 0 then 0 else pages[k - 1].granule) == pages[j - 1].granule
    decreases j - k
  {
    hide PageBytes, Complete, FileBytes, PageSpec.Valid;
    GranuleUp(serial, pages, k);
    hide Stream;
    var p, rest := pages[k], pages[k + 1..j];
    FileFrom(pages, k, j, tail);
    DurationOnePage(p, FileBytes(rest) + tail, if k == 0 then 0 else pages[k - 1].granule);
    if k + 1 == j {
      TailOnly(tail);
      assert rest == [];
    } else {
      hide DurationFrom;
      DurationOfPages(serial, pages, k + 1, j, tail);
    }
  }

  /** The first n bytes end in or right after the first j pages. */
  ghost predicate EndsAfter(pages: seq<PageSpec>, j: nat, n: nat)
    requires j <= |pages| && forall p <- pages :: p.Valid()
  {
    |FileBytes(pages[..j])| <= n && (j < |pages| ==> n < |FileBytes(pages[..j])| + |PageBytes(pages[j])|)
  }

  /** The index finds exactly these packets, and damage or not; ogg_duration agrees with it. */
  ghost predicate Recovers(cut: bytes, packets: seq<bytes>, damaged: bool) {
    ScanFile(cut) == Ok(Found(2, packets, damaged)) && DurationFrom(cut, 0) == IndexTotal(packets)
  }

  /**
   A written file cut at any byte. With both header pages whole, the index holds exactly the audio packets of
   the whole pages, reports damage exactly when the cut is inside a page, and ogg_duration agrees with it;
   with less the file is refused.
   */
  lemma CrashPrefix(serial: nat, pages: seq<PageSpec>, n: nat)
    requires Stream(serial, pages) && n <= |FileBytes(pages)|
    ensures EndsAfter(pages, WholePages(pages, n), n)
    ensures WholePages(pages, n) < 2 ==> ScanFile(FileBytes(pages)[..n]) == Unsupported
    ensures WholePages(pages, n) >= 2 ==>
      var kept := pages[..WholePages(pages, n)];
      Recovers(FileBytes(pages)[..n], Audio(kept), n != |FileBytes(kept)|)
  {
    hide PageBytes, Fits, SoundPage, Complete, ScanFile, DurationFrom, PacketsOf, Total, Playable, HeadPacket, TagsPacket;
    var j := WholePages(pages, n);
    var tail := CutFile(pages, n);
    TailNotSound(pages, j, tail);
    if j >= 2 {
      ScanWrittenPages(serial, pages, j, tail);
      DurationOfPages(serial, pages, 0, j, tail);
      assert pages[0..j] == pages[..j];
      StreamPrefix(serial, pages, j);
      GranuleIsTotal(serial, pages[..j]);
      TotalIsIndexTotal(Audio(pages[..j]));
    } else {
      ScanCutHeaders(serial, pages, j, tail);
    }
  }

  lemma TailNotSound(pages: seq<PageSpec>, j: nat, tail: bytes)
    requires (forall p <- pages :: p.Valid()) && j <= |pages|
    requires tail != [] ==> j < |pages| && |tail| < |PageBytes(pages[j])| && tail == PageBytes(pages[j])[..|tail|]
    ensures !Complete(tail) && !SoundPage(tail)
  {
    hide PageBytes, Fits, CrcMatches, PageEnd, TableEnd;
    if tail != [] { CutPageIncomplete(pages[j], |tail|); }
  }

  lemma ScanNothing(tail: bytes, headers: nat)
    requires !SoundPage(tail)
    ensures ScanFrom(tail, headers, []) == Ok(Found(headers, [], tail != []))
  {}

  lemma ScanCutHeaders(serial: nat, pages: seq<PageSpec>, j: nat, tail: bytes)
    requires Stream(serial, pages) && j < 2 && !SoundPage(tail)
    ensures ScanFile(FileBytes(pages[..j]) + tail) == Unsupported
  {
    HeaderPacketsKept();
    hide PageBytes, SoundPage, Keep, Fits, Total, Playable, HeadPacket, TagsPacket, AllPlayable;
    if j == 0 {
      assert pages[..0] == [];
      TailOnly(tail);
    } else {
      hide Stream, FileBytes, ScanFrom, PageSpec.Valid;
      assert pages[..1] == [pages[0]];
      FileOfOne(pages[0]);
      ScanOnePage(pages[0], tail, 0);
      ScanNothing(tail, 1);
      AfterNothing(ScanFrom(tail, 1, []));
    }
  }

  // ---- Damage inside a page

  /** A burst of up to four damaged bytes that leaves the segment table alone. */
  predicate Burst(page: bytes, damaged: bytes, at: nat, n: nat)
    requires |page| >= 27
  {
    && |damaged| == |page| >= TableEnd(page) && page != damaged && n <= 4 && at + n <= |page|
    && page[..at] == damaged[..at] && page[at + n..] == damaged[at + n..]
    && (at + n <= 22 || (22 <= at && at + n <= 26) || at >= TableEnd(page))
  }

  /** The page is refused wherever such damage falls: marker, counters, checksum or audio. */
  lemma DamagedPageNotSound(page: bytes, damaged: bytes, at: nat, n: nat, rest: bytes)
    requires SoundPage(page) && PageEnd(page) == |page| && Burst(page, damaged, at, n)
    ensures !SoundPage(damaged + rest)
  {
    hide CrcMatches, Sum;
    var d := damaged + rest;
    BurstKeepsTable(page, damaged, at, n);
    assert d[27..TableEnd(d)] == damaged[27..TableEnd(damaged)];
    assert d[..|page|] == damaged && page[..|page|] == page;
    if 22 <= at && at + n <= 26 {
      ChecksumDamageFails(page, damaged, at, n);
    } else {
      DamagedPageFails(page, damaged, at, n);
    }
  }

  lemma BurstKeepsTable(page: bytes, damaged: bytes, at: nat, n: nat)
    requires |page| >= 27 && Burst(page, damaged, at, n)
    ensures TableEnd(damaged) == TableEnd(page) && damaged[27..TableEnd(page)] == page[27..TableEnd(page)]
  {
    forall i | 0 <= i < |page| && (i < at || i >= at + n) ensures page[i] == damaged[i] {
      if i < at {
        assert page[..at][i] == damaged[..at][i];
      } else {
        assert page[at + n..][i - at - n] == damaged[at + n..][i - at - n];
      }
    }
  }

  /** Damage to the stored checksum itself: the computed one no longer agrees. */
  lemma ChecksumDamageFails(page: bytes, damaged: bytes, at: nat, n: nat)
    requires |page| == |damaged| >= 27 && CrcMatches(page) && page != damaged
    requires 22 <= at && at + n <= 26
    requires page[..at] == damaged[..at] && page[at + n..] == damaged[at + n..]
    ensures !CrcMatches(damaged)
  {
    AgreeOutside(page, damaged, at, n);
    ZeroedSame(page, damaged);
    hide Zeroed;
    FieldDiffers(page, damaged);
    if CrcMatches(damaged) { LEInjective(page[22..26], damaged[22..26]); }
  }

  lemma AgreeOutside(page: bytes, damaged: bytes, at: nat, n: nat)
    requires |page| == |damaged| >= 27 && 22 <= at && at + n <= 26
    requires page[..at] == damaged[..at] && page[at + n..] == damaged[at + n..]
    ensures page[..22] == damaged[..22] && page[26..] == damaged[26..]
  {
    assert page[..22] == page[..at][..22] && damaged[..22] == damaged[..at][..22];
    assert page[26..] == page[at + n..][26 - at - n..] && damaged[26..] == damaged[at + n..][26 - at - n..];
  }

  lemma ZeroedSame(page: bytes, damaged: bytes)
    requires |page| == |damaged| >= 27 && page[..22] == damaged[..22] && page[26..] == damaged[26..]
    ensures Zeroed(page) == Zeroed(damaged)
  {}

  lemma FieldDiffers(page: bytes, damaged: bytes)
    requires |page| == |damaged| >= 27 && page[..22] == damaged[..22] && page[26..] == damaged[26..] && page != damaged
    ensures page[22..26] != damaged[22..26]
  {
    assert page == page[..22] + page[22..26] + page[26..];
    assert damaged == damaged[..22] + damaged[22..26] + damaged[26..];
  }

  /** The index keeps everything before a damaged audio page, nothing from it on, and says so. */
  lemma DamageStopsIndex(serial: nat, pages: seq<PageSpec>, k: nat, damaged: bytes, at: nat, n: nat, rest: bytes)
    requires Stream(serial, pages) && 2 <= k < |pages| && Burst(PageBytes(pages[k]), damaged, at, n)
    ensures ScanFile(FileBytes(pages[..k]) + (damaged + rest)) == Ok(Found(2, Audio(pages[..k]), true))
  {
    hide PageBytes, Fits, SoundPage, ScanFile, Total, Playable, HeadPacket, TagsPacket;
    WrittenPageSound(pages[k], []);
    var page := PageBytes(pages[k]);
    assert page + [] == page;
    DamagedPageNotSound(page, damaged, at, n, rest);
    ScanWrittenPages(serial, pages, k, damaged + rest);
  }
}
