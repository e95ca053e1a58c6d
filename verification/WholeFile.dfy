/** From the bytes of a regular file to the samples a reader of its fragments gets (core/src/media/mp4_parser.rs,
    `parse` followed by `create_fragments_from_regular_mp4`). */
module WholeFile {
  import opened Bytes
  import opened Outcomes
  import opened Boxes
  import opened BoxParsers
  import opened SampleTables
  import opened Demux
  import opened Fragments
  import opened Codecs
  import opened Utf8
  import opened MoovTracks
  import opened TrackMeaning
  import opened Mp4Parsers
  import opened SegmentLabels
  import opened InitSegments

  /** The conditions under which the groups of a track become fragments: the size limits of the format, a timescale,
      and no group whose first sample outside the mdat straddles its edge. */
  predicate Runnable(groups: seq<seq<SampleEntry>>, job: Job) {
    && job.timescale > 0 && NoStraddle(groups, job)
    && |Flatten(InRange(groups, job))| < TWO32 && GroupsFit(InRange(groups, job))
  }

  /** The entries the table of a track resolves to, when there is one. */
  ghost predicate TableResolves(track: Option<Track>, entries: seq<SampleEntry>) {
    match TableOf(track)
    case None => entries == []
    case Some(t) => Resolvable(t) && Resolved(t, entries)
  }

  function AudioJob(tracks: seq<Track>, mdat: bytes, mdatOffset: u64): Job
    requires AudioTrack(tracks).Some?
  {
    var t := AudioTrack(tracks).value;
    Job(mdat, mdatOffset, false, t.trackId, t.timescale)
  }

  function AudioChunks(entries: seq<SampleEntry>, timescale: u32): seq<seq<SampleEntry>> {
    if entries == [] then [] else Chunks(entries, SamplesPerChunk(timescale, entries[0].duration))
  }

  /** What the mdat holds is a window of the file. */
  lemma {:induction false} JobOnFile(data: bytes, bs: seq<Mp4Box>, default: u64, video: bool, trackId: u32, timescale: u32)
    requires |data| < 0x8000_0000_0000_0000 && ParseFrom(data, 0) == Done(bs) && MdatData(bs) != []
    ensures OnFile(Job(MdatData(bs), MdatOffset(bs, default), video, trackId, timescale), data)
  {
    hide ParseFrom, MdatData, MdatOffset;
    ContentIsWindow(data, 0);
    MdatIsWindow(data, bs, default);
  }

  /** The video half: reading its fragments gives the samples of the GOPs that lie in the mdat, with the bytes the file
      has at the offsets of the table. */
  lemma {:induction false} VideoOfFile(data: bytes, bs: seq<Mp4Box>, default: u64, tracks: seq<Track>, entries: seq<SampleEntry>, d: Defaults)
    requires |data| < 0x8000_0000_0000_0000 && ParseFrom(data, 0) == Done(bs) && MdatData(bs) != []
    requires TableOf(FindTrack(tracks, VIDE)).Some? && TableResolves(FindTrack(tracks, VIDE), entries) && entries != []
    requires Runnable(Gops(entries), VideoJob(tracks, MdatData(bs), MdatOffset(bs, default)))
    ensures var job := VideoJob(tracks, MdatData(bs), MdatOffset(bs, default));
            var samples := Flatten(InRange(Gops(entries), job));
            var r := VideoPart(TableOf(FindTrack(tracks, VIDE)), entries, job, FRESH);
            r.Done? && AllInFile(samples, data) && DemuxAll(r.value, d) == Some(SourceSamples(samples, data, 0, true))
  {
    hide ParseFrom, MdatData, MdatOffset, Gops, InRange, RunGroups, DemuxAll, SourceSamples, Flatten, GroupsFit, NoStraddle, AllInFile, OnFile, Resolved, RunsInOrder;
    var job := VideoJob(tracks, MdatData(bs), MdatOffset(bs, default));
    JobOnFile(data, bs, default, true, job.trackId, job.timescale);
    InRangeDemuxed(Gops(entries), data, job, d);
  }

  /** The audio half, for a file with or without an audio track. */
  lemma {:induction false} AudioOfFile(data: bytes, bs: seq<Mp4Box>, default: u64, tracks: seq<Track>, entries: seq<SampleEntry>, d: Defaults)
    requires |data| < 0x8000_0000_0000_0000 && ParseFrom(data, 0) == Done(bs) && MdatData(bs) != []
    requires TableResolves(AudioTrack(tracks), entries)
    requires entries != [] ==>
      var job := AudioJob(tracks, MdatData(bs), MdatOffset(bs, default));
      Runnable(AudioChunks(entries, job.timescale), job)
    ensures var r := AudioPart(AudioTrack(tracks), entries, MdatData(bs), MdatOffset(bs, default));
            && r.Done?
            && (entries == [] ==> r.value == [])
            && (entries != [] ==>
                  var job := AudioJob(tracks, MdatData(bs), MdatOffset(bs, default));
                  var samples := Flatten(InRange(AudioChunks(entries, job.timescale), job));
                  AllInFile(samples, data) && DemuxAll(r.value, d) == Some(SourceSamples(samples, data, 0, false)))
  {
    hide ParseFrom, MdatData, MdatOffset, Chunks, SamplesPerChunk, InRange, RunGroups, DemuxAll, SourceSamples, Flatten, GroupsFit, NoStraddle, AllInFile, OnFile, Resolved, RunsInOrder;
    if entries != [] {
      var job := AudioJob(tracks, MdatData(bs), MdatOffset(bs, default));
      JobOnFile(data, bs, default, false, job.trackId, job.timescale);
      InRangeDemuxed(AudioChunks(entries, job.timescale), data, job, d);
    }
  }

  /** Whatever tracks were read: the segments are an initialization segment, then video, then audio, and reading the
      two tracks back gives the samples of their groups that lie in the mdat, on timelines without gaps. */
  lemma {:induction false} TracksPreserved(
      data: bytes, bs: seq<Mp4Box>, default: u64, tracks: seq<Track>, video: seq<SampleEntry>, audio: seq<SampleEntry>, d: Defaults)
    requires |data| < 0x8000_0000_0000_0000 && ParseFrom(data, 0) == Done(bs) && MdatData(bs) != []
    requires TableOf(FindTrack(tracks, VIDE)).Some? && TableResolves(FindTrack(tracks, VIDE), video) && video != []
    requires TableResolves(AudioTrack(tracks), audio)
    requires Runnable(Gops(video), VideoJob(tracks, MdatData(bs), MdatOffset(bs, default)))
    requires audio != [] ==>
      var job := AudioJob(tracks, MdatData(bs), MdatOffset(bs, default));
      Runnable(AudioChunks(audio, job.timescale), job)
    ensures var mdat, offset := MdatData(bs), MdatOffset(bs, default);
            var vjob := VideoJob(tracks, mdat, offset);
            var v := VideoPart(TableOf(FindTrack(tracks, VIDE)), video, vjob, FRESH);
            var a := AudioPart(AudioTrack(tracks), audio, mdat, offset);
            var samples := Flatten(InRange(Gops(video), vjob));
            && v.Done? && a.Done?
            && Regular(InitData(bs, tracks), v, a) == Done([Initialization(InitData(bs, tracks))] + v.value + a.value)
            && AllInFile(samples, data) && DemuxAll(v.value, d) == Some(SourceSamples(samples, data, 0, true))
            && (audio == [] ==> a.value == [])
            && (audio != [] ==>
                  var ajob := AudioJob(tracks, mdat, offset);
                  var heard := Flatten(InRange(AudioChunks(audio, ajob.timescale), ajob));
                  AllInFile(heard, data) && DemuxAll(a.value, d) == Some(SourceSamples(heard, data, 0, false)))
  {
    hide ParseFrom, MdatData, MdatOffset, VideoPart, AudioPart, Gops, AudioChunks, InRange, DemuxAll, SourceSamples, Flatten, Runnable, AllInFile, TableResolves, InitData;
    VideoOfFile(data, bs, default, tracks, video, d);
    AudioOfFile(data, bs, default, tracks, audio, d);
  }

  // ---------------------------------------------------------------- from the boxes of the file

  predicate NoMoov(bs: seq<Mp4Box>) {
    bs == [] || (bs[|bs| - 1].header.boxType != MOOV && NoMoov(bs[..|bs| - 1]))
  }

  /** There is one moov, with this content. */
  predicate OneMoov(bs: seq<Mp4Box>, content: bytes) {
    if bs == [] then false
    else if bs[|bs| - 1].header.boxType == MOOV then bs[|bs| - 1].content == content && NoMoov(bs[..|bs| - 1])
    else OneMoov(bs[..|bs| - 1], content)
  }

  lemma {:induction false} NoMoovNoTracks(bs: seq<Mp4Box>, stuck: Stuck)
    requires NoMoov(bs)
    ensures TracksOf(bs, stuck) == Done([])
  {
    hide MoovWalk;
    if bs != [] {
      NoMoovNoTracks(bs[..|bs| - 1], stuck);
    }
  }

  lemma {:induction false} OneMoovTracks(bs: seq<Mp4Box>, content: bytes, stuck: Stuck)
    requires OneMoov(bs, content) && MoovWalk(content, 0, stuck).Done?
    ensures TracksOf(bs, stuck) == MoovWalk(content, 0, stuck)
  {
    hide MoovWalk;
    var init := bs[..|bs| - 1];
    if bs[|bs| - 1].header.boxType == MOOV {
      NoMoovNoTracks(init, stuck);
      var tracks := MoovWalk(content, 0, stuck).value;
      assert [] + tracks == tracks;
    } else {
      OneMoovTracks(init, content, stuck);
    }
  }

  function FindSpec(specs: seq<TrackSpec>, kind: bytes): Option<TrackSpec> {
    if specs == [] then None else if specs[0].handler == kind then Some(specs[0]) else FindSpec(specs[1..], kind)
  }

  predicate SameFound(track: Option<Track>, spec: Option<TrackSpec>) {
    (track.Some? <==> spec.Some?) && (track.Some? ==> SameTrack(track.value, spec.value))
  }

  lemma {:induction false} FoundSame(tracks: seq<Track>, specs: seq<TrackSpec>, kind: bytes)
    requires SameTracks(tracks, specs) && Ascii(kind)
    ensures SameFound(FindTrack(tracks, kind), FindSpec(specs, kind))
    decreases |tracks|
  {
    hide Lossy, Ascii;
    if tracks != [] {
      assert SameTrack(tracks[0], specs[0]);
      AsciiTest(specs[0].handler, kind);
      FoundSame(tracks[1..], specs[1..], kind);
    }
  }

  lemma {:induction false} HandlersAreAscii()
    ensures Ascii(VIDE) && Ascii(SOUN)
  {
  }

  /** What the moov of the file describes is what is read: the tracks of a well-formed moov with its words in place. */
  lemma {:induction false} TracksOfFile(
      bs: seq<Mp4Box>, moov: seq<Box>, trees: seq<TrakTree>, specs: seq<TrackSpec>, stuck: Stuck) returns (tracks: seq<Track>)
    requires OneMoov(bs, PrintBoxes(moov)) && AllLegal(moov) && AreTraksOf(moov, trees, specs) && AllInPlace(trees)
    ensures TracksOf(bs, stuck) == Done(tracks) && !HasAc3(tracks)
    ensures SameFound(FindTrack(tracks, VIDE), FindSpec(specs, VIDE)) && SameFound(AudioTrack(tracks), FindSpec(specs, SOUN))
  {
    hide PrintBoxes, MoovWalk, OneMoov, AreTraksOf, AllInPlace, AllLegal, SameTracks, SameFound, FindTrack, FindSpec, TracksOf, HasAc3, Ascii, VIDE, SOUN;
    TracksReadIff(moov, trees, specs, stuck);
    OneMoovTracks(bs, PrintBoxes(moov), stuck);
    tracks := TracksOf(bs, stuck).value;
    VideoOnlyNeverUsed(bs, tracks, [], stuck);
    HandlersAreAscii();
    FoundSame(tracks, specs, VIDE);
    FoundSame(tracks, specs, SOUN);
  }

  /** The entries of a described track. */
  ghost predicate SpecResolves(spec: Option<TrackSpec>, entries: seq<SampleEntry>) {
    match spec
    case None => entries == []
    case Some(s) => Resolvable(s.table) && Resolved(s.table, entries)
  }

  function SpecJob(s: TrackSpec, mdat: bytes, mdatOffset: u64, video: bool): Job {
    Job(mdat, mdatOffset, video, s.trackId, s.timescale)
  }

  lemma {:induction false} SpecTrack(
      tracks: seq<Track>, specs: seq<TrackSpec>, video: seq<SampleEntry>, audio: seq<SampleEntry>, mdat: bytes, mdatOffset: u64)
    requires SameFound(FindTrack(tracks, VIDE), FindSpec(specs, VIDE)) && SameFound(AudioTrack(tracks), FindSpec(specs, SOUN))
    requires FindSpec(specs, VIDE).Some? && SpecResolves(FindSpec(specs, VIDE), video) && SpecResolves(FindSpec(specs, SOUN), audio)
    ensures TableOf(FindTrack(tracks, VIDE)).Some?
    ensures TableResolves(FindTrack(tracks, VIDE), video) && TableResolves(AudioTrack(tracks), audio)
    ensures VideoJob(tracks, mdat, mdatOffset) == SpecJob(FindSpec(specs, VIDE).value, mdat, mdatOffset, true)
    ensures audio != [] ==>
      AudioTrack(tracks).Some? && AudioJob(tracks, mdat, mdatOffset) == SpecJob(FindSpec(specs, SOUN).value, mdat, mdatOffset, false)
  {
    hide Resolved, RunsInOrder, FindTrack, FindSpec, AudioTrack, Lossy;
  }

  // ---------------------------------------------------------------- what a reader of all segments gets

  /** A reader that takes the defaults of a track from the initialization segment finds that track announced there, and
      gets these samples from the media segments, each of which names the track. */
  predicate PlaysAs(init: bytes, segments: seq<MseSegment>, job: Job, samples: seq<TimedSample>)
    requires job.timescale > 0
  {
    ReadInit(init).Some? && DefaultsFor(ReadInit(init).value, job.trackId).Some? &&
    var d := DefaultsFor(ReadInit(init).value, job.trackId).value;
    && DemuxAll(segments, d) == Some(samples)
    && AllLabelled(segments, job.trackId, job.timescale, d)
  }

  lemma {:induction false} OneMoovIsLast(bs: seq<Mp4Box>, content: bytes)
    requires OneMoov(bs, content)
    ensures LastMoov(bs) == Some(content)
  {
    if bs[|bs| - 1].header.boxType != MOOV {
      OneMoovIsLast(bs[..|bs| - 1], content);
    }
  }

  /** The labels of the segments of a track. */
  lemma {:induction false} RunOnFileLabelled(data: bytes, bs: seq<Mp4Box>, default: u64, groups: seq<seq<SampleEntry>>, job: Job, d: Defaults)
    requires |data| < 0x8000_0000_0000_0000 && ParseFrom(data, 0) == Done(bs) && MdatData(bs) != []
    requires job.mdat == MdatData(bs) && job.mdatOffset == MdatOffset(bs, default) && Runnable(groups, job)
    ensures var r := RunGroups(groups, job, FRESH);
            r.Done? ==> AllLabelled(r.value.segments, job.trackId, job.timescale, d)
  {
    hide ParseFrom, MdatData, MdatOffset, RunGroups, GroupsFit, NoStraddle, InRange, AllLabelled, Flatten;
    JobOnFile(data, bs, default, job.video, job.trackId, job.timescale);
    RunLabelled(groups, job, d);
  }

  lemma {:induction false} VideoPlays(data: bytes, bs: seq<Mp4Box>, default: u64, tracks: seq<Track>, entries: seq<SampleEntry>, init: bytes)
    requires |data| < 0x8000_0000_0000_0000 && ParseFrom(data, 0) == Done(bs) && MdatData(bs) != []
    requires TableOf(FindTrack(tracks, VIDE)).Some? && TableResolves(FindTrack(tracks, VIDE), entries) && entries != []
    requires Runnable(Gops(entries), VideoJob(tracks, MdatData(bs), MdatOffset(bs, default)))
    requires ReadInit(init) == Some(Announced(tracks))
    ensures var job := VideoJob(tracks, MdatData(bs), MdatOffset(bs, default));
            var samples := Flatten(InRange(Gops(entries), job));
            var r := VideoPart(TableOf(FindTrack(tracks, VIDE)), entries, job, FRESH);
            r.Done? && AllInFile(samples, data) && PlaysAs(init, r.value, job, SourceSamples(samples, data, 0, true))
  {
    hide ParseFrom, MdatData, MdatOffset, Gops, InRange, RunGroups, DemuxAll, SourceSamples, Flatten, GroupsFit, NoStraddle, AllInFile, AllLabelled,
      Resolved, RunsInOrder, ReadInit, DefaultsFor, FindTrack;
    var job := VideoJob(tracks, MdatData(bs), MdatOffset(bs, default));
    VideoOfFile(data, bs, default, tracks, entries, Defaults(0, 0, 0));
    DefaultsOfTrack(tracks, VIDE);
    RunOnFileLabelled(data, bs, default, Gops(entries), job, Defaults(0, 0, 0));
  }

  lemma {:induction false} AudioPlays(data: bytes, bs: seq<Mp4Box>, default: u64, tracks: seq<Track>, entries: seq<SampleEntry>, init: bytes)
    requires |data| < 0x8000_0000_0000_0000 && ParseFrom(data, 0) == Done(bs) && MdatData(bs) != []
    requires TableResolves(AudioTrack(tracks), entries) && entries != []
    requires var job := AudioJob(tracks, MdatData(bs), MdatOffset(bs, default));
             Runnable(AudioChunks(entries, job.timescale), job)
    requires ReadInit(init) == Some(Announced(tracks))
    ensures var job := AudioJob(tracks, MdatData(bs), MdatOffset(bs, default));
            var r := AudioPart(AudioTrack(tracks), entries, MdatData(bs), MdatOffset(bs, default));
            var samples := Flatten(InRange(AudioChunks(entries, job.timescale), job));
            r.Done? && AllInFile(samples, data) && PlaysAs(init, r.value, job, SourceSamples(samples, data, 0, false))
  {
    hide ParseFrom, MdatData, MdatOffset, Chunks, SamplesPerChunk, InRange, RunGroups, DemuxAll, SourceSamples, Flatten, GroupsFit, NoStraddle,
      AllInFile, AllLabelled, Resolved, RunsInOrder, ReadInit, DefaultsFor, FindTrack;
    var job := AudioJob(tracks, MdatData(bs), MdatOffset(bs, default));
    AudioOfFile(data, bs, default, tracks, entries, Defaults(0, 0, 0));
    DefaultsOfTrack(tracks, SOUN);
    RunOnFileLabelled(data, bs, default, AudioChunks(entries, job.timescale), job, Defaults(0, 0, 0));
  }

  lemma {:induction false} SameCount(tracks: seq<Track>, bs: seq<Mp4Box>, moov: seq<Box>, trees: seq<TrakTree>, specs: seq<TrackSpec>, stuck: Stuck)
    requires OneMoov(bs, PrintBoxes(moov)) && AllLegal(moov) && AreTraksOf(moov, trees, specs) && AllInPlace(trees)
    requires TracksOf(bs, stuck) == Done(tracks)
    ensures |tracks| == |specs|
  {
    hide PrintBoxes, MoovWalk, OneMoov, AreTraksOf, AllInPlace, AllLegal, TracksOf;
    TracksReadIff(moov, trees, specs, stuck);
    OneMoovTracks(bs, PrintBoxes(moov), stuck);
  }

  /** From the boxes of the file to the samples of its two tracks, nothing assumed about what is read on the way: when the
      file has one well-formed moov that describes `specs`, with the words of its tkhd and mdhd boxes in place, then parsing
      it and cutting it gives an initialization segment, video and audio; the initialization segment announces both
      tracks; and with the defaults read there the fragments give back the samples that the described tables place in the
      mdat, with the bytes of the file, on timelines without gaps. */
  lemma {:induction false} FileMeaningPreserved(
      data: bytes, bs: seq<Mp4Box>, default: u64, moov: seq<Box>, trees: seq<TrakTree>, specs: seq<TrackSpec>, stuck: Stuck,
      video: seq<SampleEntry>, audio: seq<SampleEntry>) returns (tracks: seq<Track>)
    requires |data| < 0x8000_0000_0000_0000 && ParseFrom(data, 0) == Done(bs) && MdatData(bs) != []
    requires OneMoov(bs, PrintBoxes(moov)) && AllLegal(moov) && AreTraksOf(moov, trees, specs) && AllInPlace(trees)
    requires 16 + |PrintBoxes(moov)| + 32 * |specs| < TWO32
    requires FindSpec(specs, VIDE).Some? && SpecResolves(FindSpec(specs, VIDE), video) && video != []
    requires SpecResolves(FindSpec(specs, SOUN), audio)
    requires Runnable(Gops(video), SpecJob(FindSpec(specs, VIDE).value, MdatData(bs), MdatOffset(bs, default), true))
    requires audio != [] ==>
      var job := SpecJob(FindSpec(specs, SOUN).value, MdatData(bs), MdatOffset(bs, default), false);
      Runnable(AudioChunks(audio, job.timescale), job)
    ensures var mdat, offset := MdatData(bs), MdatOffset(bs, default);
            var vjob := SpecJob(FindSpec(specs, VIDE).value, mdat, offset, true);
            var v := VideoPart(TableOf(FindTrack(tracks, VIDE)), video, vjob, FRESH);
            var a := AudioPart(AudioTrack(tracks), audio, mdat, offset);
            var init := InitData(bs, tracks);
            var samples := Flatten(InRange(Gops(video), vjob));
            && TracksOf(bs, stuck) == Done(tracks) && v.Done? && a.Done?
            && Regular(init, v, a) == Done([Initialization(init)] + v.value + a.value)
            && ReadInit(init) == Some(Announced(tracks))
            && AllInFile(samples, data) && PlaysAs(init, v.value, vjob, SourceSamples(samples, data, 0, true))
            && (audio == [] ==> a.value == [])
            && (audio != [] ==>
                  var ajob := SpecJob(FindSpec(specs, SOUN).value, mdat, offset, false);
                  var heard := Flatten(InRange(AudioChunks(audio, ajob.timescale), ajob));
                  AllInFile(heard, data) && PlaysAs(init, a.value, ajob, SourceSamples(heard, data, 0, false)))
  {
    hide ParseFrom, MdatData, MdatOffset, VideoPart, AudioPart, Gops, AudioChunks, InRange, DemuxAll, SourceSamples, Flatten, AllInFile,
      TableResolves, InitData, PrintBoxes, OneMoov, AllLegal, AreTraksOf, AllInPlace, FindSpec, FindTrack, SpecResolves, TracksOf, AudioTrack,
      TableOf, VideoJob, AudioJob, SameFound, Regular, HasAc3, VIDE, SOUN, GroupsFit, NoStraddle, PlaysAs, ReadInit;
    tracks := TracksOfFile(bs, moov, trees, specs, stuck);
    var mdat, offset := MdatData(bs), MdatOffset(bs, default);
    SpecTrack(tracks, specs, video, audio, mdat, offset);
    TracksPreserved(data, bs, default, tracks, video, audio, Defaults(0, 0, 0));
    SameCount(tracks, bs, moov, trees, specs, stuck);
    OneMoovIsLast(bs, PrintBoxes(moov));
    InitReads(bs, tracks, moov);
    VideoPlays(data, bs, default, tracks, video, InitData(bs, tracks));
    if audio != [] {
      AudioPlays(data, bs, default, tracks, audio, InitData(bs, tracks));
    }
  }

  // ---------------------------------------------------------------- without a sample table

  /** Without a video track, or with one that has no sample table, the segments carry every byte of the mdat, one sample
      each, numbered from 1 and a second apart; without a track they name track 1 and count 1000 ticks a second. */
  lemma {:induction false} TablelessFile(tracks: seq<Track>, mdat: bytes, mdatOffset: u64, d: Defaults)
    requires TableOf(FindTrack(tracks, VIDE)).None?
    ensures var track := FindTrack(tracks, VIDE);
            var id: u32, ticks: u32 := if track.Some? then track.value.trackId else 1, if track.Some? then track.value.timescale else 1000;
            var r := VideoPart(None, [], VideoJob(tracks, mdat, mdatOffset), FRESH);
            && r.Done? && DemuxAll(r.value, d).Some? && SampleBytes(DemuxAll(r.value, d).value) == mdat
            && forall k :: 0 <= k < |r.value| ==> OneSecond(r.value[k], k, id, ticks, d)
  {
    hide LegacyChunks, LegacySegments, DemuxAll, SampleBytes, FindTrack, OneSecond;
    var job := VideoJob(tracks, mdat, mdatOffset);
    LegacyBytesKept(mdat, 0, job.trackId, job.timescale, 1, 0, d);
    var segments := LegacySegments(LegacyChunks(mdat), 0, job.trackId, job.timescale, 1, 0);
    forall k | 0 <= k < |segments|
      ensures OneSecond(segments[k], k, job.trackId, job.timescale, d)
    {
      SecondLabelled(mdat, job.trackId, job.timescale, d, k);
    }
  }

  /** Segment `k` of such a file. */
  predicate OneSecond(s: MseSegment, k: nat, trackId: u32, ticks: u32, d: Defaults) {
    && s.Media? && DemuxFragment(s.data, d).Some?
    && var f := DemuxFragment(s.data, d).value;
    && f.sequence == Wrap32(1 + k) && s.trackId == f.trackId == trackId
    && |f.samples| == 1 && s.duration == f.samples[0].duration == ticks
    && f.baseTime == Wrap32(k * ticks) && s.timestamp == Wrap64(k * 1000)
    && (s.isKeyframe <==> k == 0)
  }

  lemma {:induction false} SecondLabelled(mdat: bytes, trackId: u32, ticks: u32, d: Defaults, k: nat)
    requires k < |LegacySegments(LegacyChunks(mdat), 0, trackId, ticks, 1, 0)|
    ensures OneSecond(LegacySegments(LegacyChunks(mdat), 0, trackId, ticks, 1, 0)[k], k, trackId, ticks, d)
  {
    hide LegacyChunks, LegacySegments, DemuxFragment;
    LegacyLabelled(mdat, 0, trackId, ticks, 1, 0, d, k);
    WrapWrap(k * ticks);
  }

  /** Wrapping to 64 bits first makes no difference to 32 bits. */
  lemma {:induction false} WrapWrap(n: nat)
    ensures Wrap32(Wrap64(n)) == Wrap32(n)
  {
    var q := n / 0x1_0000_0000_0000_0000;
    assert n == q * 0x1_0000_0000_0000_0000 + Wrap64(n);
    AddsWords(Wrap64(n), q * 0x1_0000_0000);
  }
}
