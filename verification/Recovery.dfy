/** What a crash leaves of a recording, once its books are closed (recover_session in ttsbot/recording/recorder.py). */
module Recovery {
  import opened Bytes
  import opened OpusPacket
  import opened OggPage
  import opened OggWriter
  import opened OggFiles
  import opened OggIndex
  import opened OggCrash
  import opened Recorder
  import opened Mix
  import opened Conservation

  /** A file of whole pages of 50 packets, cut so that this many audio pages are still whole. */
  ghost predicate CutFile(file: bytes, packets: seq<bytes>, kept: nat) {
    exists serial, pages, cut :: CutAt(file, packets, kept, serial, pages, cut)
  }

  ghost predicate CutAt(file: bytes, packets: seq<bytes>, kept: nat, serial: nat, pages: seq<PageSpec>, cut: nat) {
    && Stream(serial, pages) && IsOpen(FileBytes(pages), packets, serial, pages)
    && cut <= |FileBytes(pages)| && file == FileBytes(pages)[..cut] && WholePages(pages, cut) == kept + 2
  }

  lemma {:induction false} FirstPages(pages: seq<PageSpec>, m: nat)
    requires m <= |pages| && forall p <- pages :: |p.packets| == PACKETS_PER_PAGE
    ensures PACKETS_PER_PAGE * m <= |PacketsOf(pages)| && PacketsOf(pages[..m]) == PacketsOf(pages)[..PACKETS_PER_PAGE * m]
  {
    PacketsAppend(pages[..m], pages[m..]);
    assert pages[..m] + pages[m..] == pages;
    FullPageCount(pages[..m]);
  }

  /** The index keeps exactly the packets of the whole pages. */
  lemma CutFileIndexed(file: bytes, packets: seq<bytes>, kept: nat)
    requires CutFile(file, packets, kept)
    ensures PACKETS_PER_PAGE * kept <= |packets|
    ensures ScanFile(file).Ok? && ScanFile(file).value.packets == packets[..PACKETS_PER_PAGE * kept]
  {
    hide ScanFile, FileBytes, WholePages, DurationFrom, Audio, Total, HeadPage, TagsPage;
    var serial: nat, pages: seq<PageSpec>, cut: nat :| CutAt(file, packets, kept, serial, pages, cut);
    CutScanned(serial, pages, cut, kept);
    FirstAudio(pages, kept);
    hide Stream;
    assert packets[..PACKETS_PER_PAGE * (|pages| - 2)][..PACKETS_PER_PAGE * kept] == packets[..PACKETS_PER_PAGE * kept];
  }

  lemma CutScanned(serial: nat, pages: seq<PageSpec>, cut: nat, kept: nat)
    requires Stream(serial, pages) && cut <= |FileBytes(pages)| && WholePages(pages, cut) == kept + 2
    ensures kept + 2 <= |pages|
    ensures ScanFile(FileBytes(pages)[..cut]).Ok? && ScanFile(FileBytes(pages)[..cut]).value.packets == Audio(pages[..kept + 2])
  {
    hide ScanFile, FileBytes, WholePages, DurationFrom, Audio, Total, HeadPage, TagsPage;
    CrashPrefix(serial, pages, cut);
  }

  lemma FirstAudio(pages: seq<PageSpec>, kept: nat)
    requires kept + 2 <= |pages| && FullPages(pages)
    ensures |Audio(pages)| == PACKETS_PER_PAGE * (|pages| - 2)
    ensures Audio(pages[..kept + 2]) == Audio(pages)[..PACKETS_PER_PAGE * kept]
  {
    hide PacketsOf;
    assert pages[..kept + 2][2..] == pages[2..][..kept];
    FirstPages(pages[2..], kept);
    FullPageCount(pages[2..]);
  }

  /** A file whose chunk was open at the crash, listed with the pieces of its sidecar. */
  ghost predicate Crashed(c: Source, files: map<nat, bytes>, f: Layout, pause: nat, kept: nat) {
    && Laid(f, pause) && Measured(f.log) && c.hasAudio && c.pieces == f.pieces
    && c.file in files && CutFile(files[c.file], FilePackets(f.slots), kept)
  }

  lemma OpenLaid(f: Layout, pause: nat, n: nat)
    requires Laid(f, pause) && Measured(f.log) && n < |f.log|
    ensures |f.at| == |f.log| && f.at[n] < |f.slots| && FilePackets(f.slots)[f.at[n]] == f.log[n].opus
    ensures Playable(f.log[n].opus) && f.pieces != [] && f.pieces[0].offset == 0
  {
    hide Playable, FillerBetween, StartsPiece, SlotsTotal, RoundMs, RoundWall;
    assert f.slots[..0] == [];
    EmptyTotal();
  }

  /**
   After a crash: a packet that was heard is in the mix exactly once if its page had reached the disk whole, and not
   at all otherwise (unless it is the silence packet).
   */
  lemma RecoveredIsMixedOnce(sources: seq<Source>, i: nat, files: map<nat, bytes>, gapMs: nat, f: Layout, pause: nat, kept: nat,
                             n: nat)
    requires DistinctFiles(sources) && i < |sources| && Crashed(sources[i], files, f, pause, kept)
    requires n < |f.log| && f.log[n].opus != OPUS_SILENCE
    ensures n < |f.at|
    ensures multiset(MixOf(SortItems(AllItems(sources)), Indexed(files), gapMs).slots)[Copied(sources[i].file, f.at[n])]
         == if f.at[n] < PACKETS_PER_PAGE * kept then 1 else 0
  {
    hide MixOf, SortItems, AllItems, DistinctFiles, Laid, Playable, ScanFile, CutFile, Measured;
    var c, packets := sources[i], FilePackets(f.slots);
    OpenLaid(f, pause, n);
    CutFileIndexed(files[c.file], packets, kept);
    var lib := Indexed(files);
    assert c.file in lib && lib[c.file] == packets[..PACKETS_PER_PAGE * kept];
    hide Indexed;
    if f.at[n] < PACKETS_PER_PAGE * kept {
      assert c.pieces[0] in c.pieces;
      MixConserves(sources, i, lib, gapMs, f.at[n]);
    } else {
      MixBeyondEnd(sources, lib, gapMs, c.file, f.at[n]);
    }
  }

  lemma OpenWritable(f: Layout, pause: nat)
    requires Laid(f, pause) && Measured(f.log)
    ensures AllPlayable(FilePackets(f.slots))
  {
    hide Placed, Marks, Measured, SlotsTotal, RoundMs, RoundWall;
    assert f.log != [] by { OpenLogged(f, pause); }
    var last, pad := f.log[|f.log| - 1], |f.slots| % PACKETS_PER_PAGE == 0;
    var slots := if pad then f.slots + [Filler] else f.slots;
    var closed := Chunk(slots, f.pieces, RoundWall(f.log[0].wall), RoundWall(last.wall + last.samples as real / 48000.0),
                        RoundMs(SlotsTotal(slots)), |f.log|);
    ChunkWritable(f, closed, pause);
  }

  lemma OpenLogged(f: Layout, pause: nat)
    requires Laid(f, pause)
    ensures f.log != []
  {
    hide FillerBetween, StartsPiece;
  }

  /** What has reached the disk of an open chunk, whatever was refused. */
  method WriteOpenChunk(serial: int, f: Layout, pause: nat) returns (file: bytes)
    requires Laid(f, pause) && Measured(f.log)
    ensures OpenFile(file, FilePackets(f.slots))
  {
    hide Laid, OpenFile, WroteTo, Measured, Playable, PagesWritten;
    OpenWritable(f, pause);
    var w, whole := WritePackets(serial, FilePackets(f.slots));
    WrittenIsOpen(w, FilePackets(f.slots));
    file := w.file;
  }

  /** Cut anywhere after its headers, such a file is one the recovery reads. */
  lemma OpenFileCut(file: bytes, packets: seq<bytes>, cut: nat)
    requires OpenFile(file, packets) && cut <= |file| && ScanFile(file[..cut]).Ok?
    ensures exists kept: nat :: CutFile(file[..cut], packets, kept)
  {
    hide ScanFile, WholePages, FileBytes, DurationFrom, Total, HeadPage, TagsPage;
    var serial: nat, pages: seq<PageSpec> :| IsOpen(file, packets, serial, pages);
    CrashPrefix(serial, pages, cut);
    var kept: nat := WholePages(pages, cut) - 2;
    assert CutAt(file[..cut], packets, kept, serial, pages, cut);
    assert CutFile(file[..cut], packets, kept);
  }
}
