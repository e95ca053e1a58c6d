/** The parser object (core/src/media/mp4_parser.rs, `Mp4Parser`): boxes, tracks and the regular-file path. */
module Mp4Parsers {
  import opened Bytes
  import opened Outcomes
  import opened Boxes
  import opened BoxParsers
  import opened Utf8
  import opened SampleTables
  import opened Codecs
  import opened Converter
  import opened Fragments
  import opened MoovTracks
  import TableParsers
  import VideoOnly

  // ---------------------------------------------------------------- what the boxes of a file say

  /** Content start and content of the last mdat. */
  function MdatOffset(bs: seq<Mp4Box>, default: u64): u64 {
    if bs == [] then default
    else if bs[|bs| - 1].header.boxType == MDAT then bs[|bs| - 1].header.contentStart
    else MdatOffset(bs[..|bs| - 1], default)
  }

  function MdatData(bs: seq<Mp4Box>): bytes {
    if bs == [] then []
    else if bs[|bs| - 1].header.boxType == MDAT then bs[|bs| - 1].content
    else MdatData(bs[..|bs| - 1])
  }

  function LastMoov(bs: seq<Mp4Box>): Option<bytes> {
    if bs == [] then None
    else if bs[|bs| - 1].header.boxType == MOOV then Some(bs[|bs| - 1].content)
    else LastMoov(bs[..|bs| - 1])
  }

  function FtypBytes(bs: seq<Mp4Box>): bytes {
    if bs == [] then []
    else if bs[|bs| - 1].header.boxType == FTYP then FtypBytes(bs[..|bs| - 1]) + Serialize(bs[|bs| - 1])
    else FtypBytes(bs[..|bs| - 1])
  }

  /** The tracks of all moovs, unless reading one panics. */
  function TracksOf(bs: seq<Mp4Box>, stuck: Stuck): Outcome<seq<Track>> {
    if bs == [] then Done([]) else
      var last := bs[|bs| - 1];
      match TracksOf(bs[..|bs| - 1], stuck)
      case Done(before) =>
        if last.header.boxType != MOOV then Done(before) else
          (match MoovWalk(last.content, 0, stuck)
           case Done(more) => Done(before + more)
           case _ => Panicked)
      case _ => Panicked
  }

  predicate HasMoof(bs: seq<Mp4Box>) {
    exists i :: 0 <= i < |bs| && bs[i].header.boxType == MOOF
  }

  /** The mdat bytes are the window of the file at the recorded offset, so sample offsets of the file can
      be looked up in them. */
  lemma {:induction false} MdatIsWindow(data: bytes, bs: seq<Mp4Box>, default: u64)
    requires |data| < 0x8000_0000_0000_0000
    requires forall i :: 0 <= i < |bs| ==>
      bs[i].header.contentStart + |bs[i].content| <= |data|
      && data[bs[i].header.contentStart..bs[i].header.contentStart + |bs[i].content|] == bs[i].content
    ensures MdatData(bs) != [] ==>
      MdatOffset(bs, default) + |MdatData(bs)| <= |data|
      && data[MdatOffset(bs, default)..MdatOffset(bs, default) + |MdatData(bs)|] == MdatData(bs)
  {
    if bs != [] && bs[|bs| - 1].header.boxType != MDAT {
      MdatIsWindow(data, bs[..|bs| - 1], default);
    }
  }

  function FindTrack(tracks: seq<Track>, kind: bytes): Option<Track> {
    if tracks == [] then None else if tracks[0].mediaType == kind then Some(tracks[0]) else FindTrack(tracks[1..], kind)
  }

  function Trex(trackId: u32): Box {
    Box(TREX, [0, 0, 0, 0] + BE32(trackId) + BE32(1) + BE32(0) + BE32(0) + BE32(0))
  }

  function Trexes(tracks: seq<Track>): seq<Box> {
    if tracks == [] then [] else Trexes(tracks[..|tracks| - 1]) + [Trex(tracks[|tracks| - 1].trackId)]
  }

  /** Audio is left out when some track is marked AC-3. */
  function AudioTrack(tracks: seq<Track>): Option<Track> {
    if HasAc3(tracks) then None else FindTrack(tracks, SOUN)
  }

  /** The moov of the initialization segment: the original content, or that for video only when some track is marked
      AC-3, and an mvex with one trex per track. */
  function MseMoov(content: bytes, tracks: seq<Track>): Box {
    Box(MOOV, (if HasAc3(tracks) then VideoOnly.Kept(content, 0) else content) + PrintBox(Box(MVEX, PrintBoxes(Trexes(tracks)))))
  }

  function InitData(bs: seq<Mp4Box>, tracks: seq<Track>): bytes {
    match LastMoov(bs)
    case None => FtypBytes(bs)
    case Some(content) => FtypBytes(bs) + PrintBox(MseMoov(content, tracks))
  }

  function TableOf(t: Option<Track>): Option<SampleTable> {
    if t.None? then None else t.value.sampleTable
  }

  /** Without a video track the timescale is 1000 and the track id 1. */
  function VideoJob(tracks: seq<Track>, mdat: bytes, mdatOffset: u64): Job {
    match FindTrack(tracks, VIDE)
    case None => Job(mdat, mdatOffset, true, 1, 1000)
    case Some(t) => Job(mdat, mdatOffset, true, t.trackId, t.timescale)
  }

  function SegmentsOf(r: Outcome<Ran>): Outcome<seq<MseSegment>> {
    match r
    case Done(ran) => Done(ran.segments)
    case Failed => Failed
    case Panicked => Panicked
  }

  /** The media segments of the video track, given the entries its table resolves to. A table without
      samples is an error. */
  function VideoPart(table: Option<SampleTable>, entries: seq<SampleEntry>, job: Job, c: Clock): Outcome<seq<MseSegment>> {
    match table
    case None => Done(LegacySegments(LegacyChunks(job.mdat), 0, job.trackId, job.timescale, c.sequence, c.baseTime))
    case Some(t) =>
      if !Resolvable(t) then Panicked
      else if entries == [] then Failed
      else SegmentsOf(RunGroups(Gops(entries), job, c))
  }

  function AudioPart(track: Option<Track>, entries: seq<SampleEntry>, mdat: bytes, mdatOffset: u64): Outcome<seq<MseSegment>> {
    if track.None? || track.value.sampleTable.None? then Done([])
    else if !Resolvable(track.value.sampleTable.value) then Panicked
    else if entries == [] then Done([])
    else
      var job := Job(mdat, mdatOffset, false, track.value.trackId, track.value.timescale);
      SegmentsOf(RunGroups(Chunks(entries, SamplesPerChunk(job.timescale, entries[0].duration)), job, FRESH))
  }

  /** The whole regular-file path: initialization segment, then video, then audio. */
  function Regular(init: bytes, video: Outcome<seq<MseSegment>>, audio: Outcome<seq<MseSegment>>): Outcome<seq<MseSegment>> {
    match video
    case Failed => Failed
    case Panicked => Panicked
    case Done(v) =>
      match audio
      case Failed => Failed
      case Panicked => Panicked
      case Done(a) => Done([Initialization(init)] + v + a)
  }

  /** `entries` is what the table, if there is one that resolves, resolves to. */
  ghost predicate ResolvedBy(table: Option<SampleTable>, entries: seq<SampleEntry>) {
    table.Some? && Resolvable(table.value) ==> Resolved(table.value, entries)
  }

  predicate Resolvable(t: SampleTable) {
    t.sampleSizes == [] || RunsInOrder(t.sampleToChunk, |t.chunkOffsets|)
  }

  function JoinFrames(frames: seq<FrameData>, r: Outcome<seq<FrameData>>): Outcome<seq<FrameData>> {
    match r
    case Done(rest) => Done(frames + rest)
    case Failed => Failed
    case Panicked => Panicked
  }

  class Mp4Parser {
    var boxes: seq<Mp4Box>
    var tracks: seq<Track>
    var isFragmented: bool
    var mdatPayloadOffset: u64
    var pendingSampleTable: Option<SampleTable>
    const fmp4Converter: FragmentedMp4Converter

    constructor ()
      ensures boxes == [] && tracks == [] && !isFragmented && mdatPayloadOffset == 0 && pendingSampleTable == None
      ensures fresh(fmp4Converter)
      ensures fmp4Converter.sequenceNumber == 1 && fmp4Converter.baseMediaDecodeTime == 0
    {
      boxes, tracks, isFragmented, mdatPayloadOffset, pendingSampleTable := [], [], false, 0, None;
      fmp4Converter := new FragmentedMp4Converter();
    }

    /** `parse`: the boxes of the file, and the tracks of every moov among them. */
    method Parse(data: bytes, stuck: Stuck) returns (r: Outcome<()>)
      requires |data| < 0x8000_0000_0000_0000
      modifies this
      ensures r.Panicked? <==> ParseFrom(data, 0).Panicked? || TracksOf(ParseFrom(data, 0).value, stuck).Panicked?
      ensures !r.Failed?
      ensures r.Done? ==> ParseFrom(data, 0) == Done(boxes)
      ensures r.Done? ==> TracksOf(boxes, stuck) == Done(tracks)
      ensures r.Done? ==> isFragmented == (old(isFragmented) || HasMoof(boxes))
      ensures r.Done? ==> mdatPayloadOffset == MdatOffset(boxes, old(mdatPayloadOffset))
    {
      hide ParseBox, ParseFrom, TracksOf, MoovWalk, HasMoof, MdatOffset;
      boxes := [];
      tracks := [];
      NoTracks(stuck);
      NoMdat(mdatPayloadOffset);
      NothingParsed(boxes, ParseFrom(data, 0));
      var position := 0;
      while position < |data|
        invariant position <= |data|
        invariant ParseFrom(data, 0) == Behind(boxes, ParseFrom(data, position))
        invariant TracksOf(boxes, stuck) == Done(tracks)
        invariant isFragmented == (old(isFragmented) || HasMoof(boxes))
        invariant mdatPayloadOffset == MdatOffset(boxes, old(mdatPayloadOffset))
        decreases |data| - position
      {
        var p := ParseBoxAt(data, position);
        ParseStep(data, position, boxes);
        if p.Panicked? {
          return Panicked;
        }
        if p.Failed? {
          break;
        }
        var b := p.value.0;
        BoxEnd(data, position);
        TracksSnoc(boxes, b, stuck);
        MdatSnoc(boxes, b, old(mdatPayloadOffset));
        if b.header.boxType == MOOV {
          var moov := ParseMoovBox(b.content, stuck);
          if moov.Panicked? {
            if ParseFrom(data, p.value.1).Done? {
              TracksStayPanicked(boxes + [b], ParseFrom(data, p.value.1).value, stuck);
            }
            return Panicked;
          }
        }
        if b.header.boxType == MOOF {
          isFragmented := true;
        }
        if b.header.boxType == MDAT {
          mdatPayloadOffset := b.header.contentStart;
        }
        ghost var before := boxes;
        boxes := boxes + [b];
        HasMoofSnoc(before, b);
        position := p.value.1;
      }
      ParseEnds(data, position);
      assert boxes + [] == boxes;
      r := Done(());
    }

    /** `parse_moov_box`: every trak that can be read, in order. */
    method ParseMoovBox(data: bytes, stuck: Stuck) returns (r: Outcome<()>)
      modifies this`tracks, this`pendingSampleTable
      ensures r.Panicked? <==> MoovWalk(data, 0, stuck).Panicked?
      ensures !r.Failed? && !MoovWalk(data, 0, stuck).Failed?
      ensures r.Done? ==> tracks == old(tracks) + MoovWalk(data, 0, stuck).value
    {
      hide Read32, Left, TrakWalk, MoovWalk, AsTrack, NO_TRAK;
      var cursor := 0;
      TracksUnmarked(data, 0, stuck);
      while cursor < |data|
        invariant JoinTracks(old(tracks), MoovWalk(data, 0, stuck)) == JoinTracks(tracks, MoovWalk(data, cursor, stuck))
        decreases if cursor <= |data| then |data| - cursor else 0
      {
        MoovStep(data, cursor, tracks, stuck);
        if cursor + 8 > |data| {
          break;
        }
        var boxSize, boxType := Read32(data, cursor), data[cursor + 4..cursor + 8];
        if boxSize < 8 {
          break;
        }
        if boxType == TRAK {
          if cursor + boxSize <= |data| {
            var trak := ParseTrakBox(data[cursor + 8..cursor + boxSize], stuck);
            if trak.Panicked? {
              return Panicked;
            }
            cursor := cursor + boxSize;
          } else {
            cursor := Left(stuck, cursor + 8, |data|);
          }
        } else {
          cursor := cursor + boxSize;
        }
      }
      MoovEnds(data, cursor, tracks, stuck);
      r := Done(());
    }

    /** `parse_trak_box`: a track is kept when it has an id and a media type. */
    method ParseTrakBox(data: bytes, stuck: Stuck) returns (r: Outcome<()>)
      modifies this`tracks, this`pendingSampleTable
      ensures r.Panicked? <==> TrakWalk(data, 0, NO_TRAK, stuck).Panicked?
      ensures !r.Failed? && !TrakWalk(data, 0, NO_TRAK, stuck).Failed?
      ensures r.Done? ==> tracks == old(tracks) + AsTrack(TrakWalk(data, 0, NO_TRAK, stuck).value)
    {
      hide Read32, Left, MdiaWalk, NO_FIELDS, TrakWalk;
      var f := TrakFields(0, NO_FIELDS);
      pendingSampleTable := None;
      var cursor := 0;
      NoTrakMarked();
      TrakUnmarked(data, 0, NO_TRAK, stuck);
      while cursor < |data|
        invariant TrakWalk(data, cursor, Read(f, pendingSampleTable), stuck) == TrakWalk(data, 0, NO_TRAK, stuck)
        invariant tracks == old(tracks)
        decreases if cursor <= |data| then |data| - cursor else 0
      {
        TrakStep(data, cursor, Read(f, pendingSampleTable), stuck);
        if cursor + 8 > |data| {
          break;
        }
        var boxSize, boxType := Read32(data, cursor), data[cursor + 4..cursor + 8];
        if boxSize < 8 {
          break;
        }
        var next := cursor + boxSize;
        if boxType == TKHD {
          // A tkhd of less than 12 bytes is skipped, a longer one read and, below 16 bytes, skipped once more.
          if boxSize - 8 < 12 {
            cursor := next;
          } else if next > |data| {
            cursor := Left(stuck, cursor + 8, |data|) + (boxSize - 8);
          } else if boxSize - 8 >= 16 {
            f := f.(trackId := Read32(data, cursor + 20));
            cursor := next;
          } else {
            cursor := next + (boxSize - 8);
          }
        } else if boxType == MDIA {
          if next <= |data| {
            var mdia := ParseMdiaBox(data[cursor + 8..next], stuck);
            if mdia.Panicked? {
              return Panicked;
            }
            f := f.(fields := mdia.value);
            cursor := next;
          } else {
            cursor := Left(stuck, cursor + 8, |data|);
          }
        } else {
          cursor := next;
        }
      }
      TrakEnds(data, cursor, Read(f, pendingSampleTable), stuck);
      assert tracks + [] == tracks;
      if f.trackId > 0 && f.fields.mediaType != [] {
        tracks := tracks + [Track(f.trackId, f.fields.mediaType, f.fields.timescale, f.fields.codec, pendingSampleTable)];
      }
      r := Done(());
    }

    /** `parse_mdia_box`: timescale, media type and codec; a sample table is left pending. */
    method ParseMdiaBox(data: bytes, stuck: Stuck) returns (r: Outcome<Fields>)
      modifies this`pendingSampleTable
      ensures var q := MdiaWalk(data, 0, Read(NO_FIELDS, old(pendingSampleTable)), stuck);
              && !q.Failed? && !r.Failed? && (r.Panicked? <==> q.Panicked?)
              && (r.Done? ==> q.value == Read(r.value, pendingSampleTable))
    {
      hide Read32, Left, MinfWalk, MdiaWalk, Lossy;
      var f := NO_FIELDS;
      var cursor := 0;
      NothingMarked();
      MdiaUnmarked(data, 0, Read(NO_FIELDS, pendingSampleTable), stuck);
      ghost var goal := MdiaWalk(data, 0, Read(NO_FIELDS, pendingSampleTable), stuck);
      while cursor < |data|
        invariant MdiaWalk(data, cursor, Read(f, pendingSampleTable), stuck) == goal
        decreases if cursor <= |data| then |data| - cursor else 0
      {
        MdiaStep(data, cursor, Read(f, pendingSampleTable), stuck);
        if cursor + 8 > |data| {
          break;
        }
        var boxSize, boxType := Read32(data, cursor), data[cursor + 4..cursor + 8];
        if boxSize < 8 {
          break;
        }
        var next := cursor + boxSize;
        if boxType == MDHD && boxSize - 8 >= 20 {
          if next <= |data| {
            f := f.(timescale := Read32(data, cursor + 20));
            cursor := next;
          } else {
            cursor := Left(stuck, cursor + 8, |data|) + (boxSize - 8);
          }
        } else if boxType == HDLR && boxSize - 8 >= 12 {
          if next <= |data| {
            f := f.(mediaType := Lossy(data[cursor + 16..cursor + 20]));
            cursor := next;
          } else {
            cursor := Left(stuck, cursor + 8, |data|) + (boxSize - 8);
          }
        } else if boxType == MINF {
          if next <= |data| {
            var codec := ParseMinfBox(data[cursor + 8..next], f.mediaType, stuck);
            if codec.Panicked? {
              return Panicked;
            }
            if codec.Done? {
              f := f.(codec := codec.value);
            }
            cursor := next;
          } else {
            cursor := Left(stuck, cursor + 8, |data|);
          }
        } else {
          cursor := next;
        }
      }
      MdiaEnds(data, cursor, Read(f, pendingSampleTable), stuck);
      r := Done(f);
    }

    /** `parse_minf_box`: codec and table of the first stbl, or a guess. */
    method ParseMinfBox(data: bytes, media: bytes, stuck: Stuck) returns (r: Outcome<Codec>)
      modifies this`pendingSampleTable
      ensures var q := MinfWalk(data, 0, media, old(pendingSampleTable), stuck);
              && !q.Failed? && (r.Panicked? <==> q.Panicked?)
              && (q.Done? ==> q.value == Read(if r.Done? then Some(r.value) else None, pendingSampleTable))
    {
      hide Read32, Left, StblRead, MinfWalk, Guess;
      var cursor := 0;
      MinfUnmarked(data, 0, media, pendingSampleTable, stuck);
      while cursor < |data|
        invariant MinfWalk(data, cursor, media, pendingSampleTable, stuck) == MinfWalk(data, 0, media, old(pendingSampleTable), stuck)
        invariant pendingSampleTable == old(pendingSampleTable)
        decreases if cursor <= |data| then |data| - cursor else 0
      {
        MinfStep(data, cursor, media, pendingSampleTable, stuck);
        if cursor + 8 > |data| {
          break;
        }
        var boxSize, boxType := Read32(data, cursor), data[cursor + 4..cursor + 8];
        if boxSize < 8 {
          break;
        }
        if boxType == STBL {
          if cursor + boxSize <= |data| {
            var content := data[cursor + 8..cursor + boxSize];
            StblIs(content, media, pendingSampleTable, stuck);
            var table;
            r, table := TableParsers.ParseStbl(content, media, stuck);
            if table.Some? {
              pendingSampleTable := table;
            }
            return;
          }
          cursor := Left(stuck, cursor + 8, |data|);
        } else {
          cursor := cursor + boxSize;
        }
      }
      MinfEnds(data, cursor, media, pendingSampleTable, stuck);
      r := Done(Guess(media));
    }

    method HasAc3Audio() returns (found: bool)
      ensures found <==> HasAc3(tracks)
    {
      found := false;
      for i := 0 to |tracks|
        invariant found <==> exists k :: 0 <= k < i && tracks[k].mediaType == SOUN && MarkedAc3(tracks[k].codec)
      {
        found := found || (tracks[i].mediaType == SOUN && tracks[i].codec.params == Some("AC-3"));
      }
    }

    /** `parse_box`, step by step. */
    method ParseBoxAt(data: bytes, start: nat) returns (r: Outcome<(Mp4Box, nat)>)
      requires |data| < 0x8000_0000_0000_0000
      ensures r == ParseBox(data, start)
    {
      hide Wrap64, Lossy, Read32, Read64;
      var position := start;
      if position + 8 > |data| {
        return Failed;
      }
      var boxSize: u64 := Read32(data, position);
      var boxType := Lossy(data[position + 4..position + 8]);
      position := position + 8;
      var actualSize, contentStart := boxSize, start + 8;
      if boxSize == 1 {
        if position + 8 > |data| {
          return Failed;
        }
        actualSize := Read64(data, position);
        position := position + 8;
        contentStart := start + 16;
      }
      // The subtraction wraps on a size smaller than the header.
      WrapBack64(actualSize, contentStart - start);
      var contentSize := Wrap64(actualSize - (contentStart - start));
      if contentSize > 0x7FFF_FFFF_FFFF_FFFF {
        return Panicked;   // capacity overflow
      }
      if position + contentSize > |data| {
        return Failed;
      }
      r := Done((Mp4Box(BoxHeader(boxType, actualSize, contentStart), data[position..position + contentSize]), position + contentSize));
    }

    /** The extraction loop shared by the video and the audio path. */
    static method ExtractFrames(group: seq<SampleEntry>, mdat: bytes, mdatOffset: u64, video: bool) returns (r: Outcome<seq<FrameData>>)
      ensures r == FramesOf(group, mdat, mdatOffset, video)
    {
      hide FramesOf, JoinFrames, Wrap64, FrameOf;
      var frames: seq<FrameData> := [];
      assert group[0..] == group;
      JoinNothing(FramesOf(group, mdat, mdatOffset, video));
      for i := 0 to |group|
        invariant JoinFrames(frames, FramesOf(group[i..], mdat, mdatOffset, video)) == FramesOf(group, mdat, mdatOffset, video)
      {
        var se := group[i];
        JoinStep(frames, group, i, mdat, mdatOffset, video);
        var local := Wrap64(se.offset - mdatOffset as int);
        var end := Wrap64(local + se.size as int);
        if end > |mdat| {
          return Failed;
        }
        if local > end {
          return Panicked;   // slice index starts after its end
        }
        frames := frames + [FrameOf(se, mdat[local..end], video)];
      }
      JoinEnd(frames, group, mdat, mdatOffset, video);
      r := Done(frames);
    }

    method CreateMvexBox() returns (mvex: bytes)
      ensures mvex == PrintBox(Box(MVEX, PrintBoxes(Trexes(tracks))))
    {
      hide PrintBox, Trex;
      var content: bytes := [];
      for i := 0 to |tracks|
        invariant content == PrintBoxes(Trexes(tracks[..i]))
      {
        assert tracks[..i + 1][..i] == tracks[..i];
        PrintSnoc(Trexes(tracks[..i]), Trex(tracks[i].trackId));
        content := content + PrintBox(Trex(tracks[i].trackId));
      }
      assert tracks[..|tracks|] == tracks;
      mvex := FragmentedMp4Converter.WrapBox(MVEX, content);
    }

    method CreateMseCompatibleMoov(originalContent: bytes) returns (moov: bytes)
      ensures moov == PrintBox(MseMoov(originalContent, tracks))
    {
      hide PrintBox, HasAc3;
      var ac3 := HasAc3Audio();
      var content := originalContent;
      if ac3 {
        content := VideoOnly.CreateVideoOnlyMoov(originalContent);
      }
      var mvex := CreateMvexBox();
      moov := FragmentedMp4Converter.WrapBox(MOOV, content + mvex);
    }

    /** `create_fragments_from_regular_mp4`. The ghost results are the entries the two sample tables
        resolve to. */
    method CreateFragmentsFromRegularMp4() returns (r: Outcome<seq<MseSegment>>, ghost video: seq<SampleEntry>, ghost audio: seq<SampleEntry>)
      modifies fmp4Converter
      ensures LastMoov(boxes).None? ==> r.Failed?
      ensures LastMoov(boxes).Some? && MdatData(boxes) == [] ==> r == Done([Initialization(InitData(boxes, tracks))])
      ensures LastMoov(boxes).Some? && MdatData(boxes) != [] ==>
        && ResolvedBy(TableOf(FindTrack(tracks, VIDE)), video)
        && (r.Done? ==> ResolvedBy(TableOf(AudioTrack(tracks)), audio))
        && r == Regular(InitData(boxes, tracks),
                        VideoPart(TableOf(FindTrack(tracks, VIDE)), video, VideoJob(tracks, MdatData(boxes), mdatPayloadOffset),
                                  Clock(old(fmp4Converter.sequenceNumber), old(fmp4Converter.baseMediaDecodeTime), 0)),
                        AudioPart(AudioTrack(tracks), audio, MdatData(boxes), mdatPayloadOffset))
    {
      hide HasAc3, Serialize, PrintBox, Resolved, RunGroups, Gops, Chunks, SamplesPerChunk, LegacySegments, LegacyChunks, RunsInOrder;
      video, audio := [], [];
      var initData: bytes, mdatData: bytes, originalMoov: Option<bytes> := [], [], None;
      for i := 0 to |boxes|
        invariant unchanged(fmp4Converter)
        invariant initData == FtypBytes(boxes[..i]) && mdatData == MdatData(boxes[..i]) && originalMoov == LastMoov(boxes[..i])
      {
        assert boxes[..i + 1][..i] == boxes[..i];
        KindsDiffer();
        var kind := boxes[i].header.boxType;
        if kind == FTYP {
          initData := initData + Serialize(boxes[i]);
        } else if kind == MOOV {
          originalMoov := Some(boxes[i].content);
        } else if kind == MDAT {
          mdatData := boxes[i].content;
        }
      }
      assert boxes[..|boxes|] == boxes;
      if originalMoov.None? {
        return Failed, [], [];
      }
      var moov := CreateMseCompatibleMoov(originalMoov.value);
      var segments := [Initialization(initData + moov)];
      if mdatData == [] {
        return Done(segments), [], [];
      }
      var videoPart, audioPart;
      var ac3 := HasAc3Audio();
      var videoTrack, audioTrack := FindTrack(tracks, VIDE), if ac3 then None else FindTrack(tracks, SOUN);
      videoPart, video := FragmentVideo(TableOf(videoTrack), VideoJob(tracks, mdatData, mdatPayloadOffset));
      if !videoPart.Done? {
        return videoPart, video, [];
      }
      segments := segments + videoPart.value;
      audioPart, audio := FragmentAudioTrack(audioTrack, mdatData);
      if !audioPart.Done? {
        return audioPart, video, audio;
      }
      segments := segments + audioPart.value;
      r := Done(segments);
    }

    method FragmentVideo(table: Option<SampleTable>, job: Job) returns (r: Outcome<seq<MseSegment>>, ghost entries: seq<SampleEntry>)
      modifies fmp4Converter
      ensures ResolvedBy(table, entries)
      ensures r == VideoPart(table, entries, job, Clock(old(fmp4Converter.sequenceNumber), old(fmp4Converter.baseMediaDecodeTime), 0))
    {
      hide Resolved, RunGroups, Gops, LegacySegments, LegacyChunks, RunsInOrder;
      entries := [];
      match table
      case None =>
        var segments := FragmentLegacy(job.mdat, job.trackId, job.timescale);
        r := Done(segments);
      case Some(t) =>
        var resolved := Resolve(t);
        if resolved.Panicked? {
          return Panicked, [];
        }
        entries := resolved.value;
        if resolved.value == [] {
          return Failed, [];
        }
        r := FragmentGops(resolved.value, job);
    }

    method FragmentAudioTrack(track: Option<Track>, mdat: bytes) returns (r: Outcome<seq<MseSegment>>, ghost entries: seq<SampleEntry>)
      ensures ResolvedBy(TableOf(track), entries)
      ensures r == AudioPart(track, entries, mdat, mdatPayloadOffset)
    {
      hide Resolved, RunGroups, Chunks, SamplesPerChunk, RunsInOrder;
      if track.None? || track.value.sampleTable.None? {
        return Done([]), [];
      }
      var resolved := Resolve(track.value.sampleTable.value);
      if resolved.Panicked? {
        return Panicked, [];
      }
      entries := resolved.value;
      if resolved.value == [] {
        return Done([]), [];
      }
      r := FragmentAudio(resolved.value, Job(mdat, mdatPayloadOffset, false, track.value.trackId, track.value.timescale));
    }

    /** One group of either loop: its fragment, if its samples all lie in the mdat. */
    static method EmitGroup(converter: FragmentedMp4Converter, group: seq<SampleEntry>, job: Job, decodeTime: u64)
      returns (r: Outcome<seq<MseSegment>>, newDecodeTime: u64)
      modifies converter
      ensures var run := RunGroup(group, job, Clock(old(converter.sequenceNumber), old(converter.baseMediaDecodeTime), decodeTime));
              && (run.Panicked? <==> r.Panicked?) && !r.Failed?
              && (run.Done? ==>
                    r == Done(run.value.segments)
                    && Clock(converter.sequenceNumber, converter.baseMediaDecodeTime, newDecodeTime) == run.value.clock)
    {
      hide FragmentV2, Millis, TotalDuration, Wrap32, Wrap64;
      newDecodeTime := decodeTime;
      var frames := ExtractFrames(group, job.mdat, job.mdatOffset, job.video);
      if frames.Panicked? {
        return Panicked, decodeTime;
      }
      if frames.Failed? || frames.value == [] {
        return Done([]), decodeTime;
      }
      var duration := Wrap64(TotalDuration(frames.value));
      if job.timescale == 0 {
        return Panicked, decodeTime;   // division by zero
      }
      var timestamp := Millis(decodeTime, job.timescale);
      var fragment := converter.CreateFragmentV2(frames.value, job.trackId);
      WrapTotal(decodeTime, TotalDuration(frames.value));
      newDecodeTime := Wrap64(decodeTime + duration);
      r := Done([Media(fragment, timestamp, duration, true, job.trackId)]);
    }

    /** The GOP loop. The local decode time runs beside the converter's base time. */
    method FragmentGops(entries: seq<SampleEntry>, job: Job) returns (r: Outcome<seq<MseSegment>>)
      modifies fmp4Converter
      ensures var run := RunGroups(Gops(entries), job,
                                   Clock(old(fmp4Converter.sequenceNumber), old(fmp4Converter.baseMediaDecodeTime), 0));
              && (run.Panicked? <==> r.Panicked?) && !r.Failed?
              && (run.Done? ==>
                    r == Done(run.value.segments)
                    && fmp4Converter.sequenceNumber == run.value.clock.sequence
                    && fmp4Converter.baseMediaDecodeTime == run.value.clock.baseTime)
    {
      hide RunGroup, Gops, RunGroups, Prepend;
      var segments: seq<MseSegment> := [];
      var gopStart := 0;
      var decodeTime: u64 := 0;
      ghost var clock := Clock(fmp4Converter.sequenceNumber, fmp4Converter.baseMediaDecodeTime, 0);
      ghost var goal := RunGroups(Gops(entries), job, clock);
      assert entries[0..] == entries;
      PrependNothing(goal);
      for i := 0 to |entries| + 1
        invariant gopStart <= |entries| && gopStart <= i
        invariant i == |entries| + 1 ==> gopStart == |entries|
        invariant forall j :: gopStart < j < i && j < |entries| ==> !entries[j].isKeyframe
        invariant clock == Clock(fmp4Converter.sequenceNumber, fmp4Converter.baseMediaDecodeTime, decodeTime)
        invariant goal == Prepend(segments, RunGroups(Gops(entries[gopStart..]), job, clock))
      {
        var isBoundary := if i == |entries| then true else if i == 0 then false else entries[i].isKeyframe;
        if isBoundary && i > gopStart {
          GopCut(entries, gopStart, i);
          FirstGroup(entries[gopStart..i], Gops(entries[i..]), job, clock, segments);
          var emitted;
          emitted, decodeTime := EmitGroup(fmp4Converter, entries[gopStart..i], job, decodeTime);
          if emitted.Panicked? {
            return Panicked;
          }
          clock := Clock(fmp4Converter.sequenceNumber, fmp4Converter.baseMediaDecodeTime, decodeTime);
          segments := segments + emitted.value;
          gopStart := i;
        }
      }
      assert entries[|entries|..] == [];
      RunNothing(job, clock, segments);
      r := Done(segments);
    }

    /** The audio loop, with a converter of its own. */
    method FragmentAudio(samples: seq<SampleEntry>, job: Job) returns (r: Outcome<seq<MseSegment>>)
      requires samples != []
      ensures var run := RunGroups(Chunks(samples, SamplesPerChunk(job.timescale, samples[0].duration)), job, FRESH);
              && (run.Panicked? <==> r.Panicked?) && !r.Failed?
              && (run.Done? ==> r == Done(run.value.segments))
    {
      hide RunGroup, SamplesPerChunk, RunGroups, Prepend;
      var converter := new FragmentedMp4Converter();
      var size := SamplesPerChunk(job.timescale, samples[0].duration);
      var segments: seq<MseSegment> := [];
      var chunkStart := 0;
      var decodeTime: u64 := 0;
      ghost var clock := FRESH;
      ghost var goal := RunGroups(Chunks(samples, size), job, clock);
      assert samples[0..] == samples;
      PrependNothing(goal);
      while chunkStart < |samples|
        invariant chunkStart <= |samples|
        invariant clock == Clock(converter.sequenceNumber, converter.baseMediaDecodeTime, decodeTime)
        invariant goal == Prepend(segments, RunGroups(Chunks(samples[chunkStart..], size), job, clock))
      {
        var chunkEnd := Least(chunkStart + size, |samples|);
        ChunkCut(samples, chunkStart, size);
        FirstGroup(samples[chunkStart..chunkEnd], Chunks(samples[chunkEnd..], size), job, clock, segments);
        var emitted;
        emitted, decodeTime := EmitGroup(converter, samples[chunkStart..chunkEnd], job, decodeTime);
        if emitted.Panicked? {
          return Panicked;
        }
        clock := Clock(converter.sequenceNumber, converter.baseMediaDecodeTime, decodeTime);
        segments := segments + emitted.value;
        chunkStart := chunkEnd;
      }
      assert samples[chunkStart..] == [];
      RunNothing(job, clock, segments);
      r := Done(segments);
    }

    /** The fallback when the video track has no sample table. */
    method FragmentLegacy(mdat: bytes, trackId: u32, timescale: u32) returns (segments: seq<MseSegment>)
      modifies fmp4Converter
      ensures segments == LegacySegments(LegacyChunks(mdat), 0, trackId, timescale,
                                         old(fmp4Converter.sequenceNumber), old(fmp4Converter.baseMediaDecodeTime))
    {
      hide FragmentV1, Wrap32, Wrap64, NewFrame, LegacySegments, LegacyChunks, TotalDuration, Least;
      segments := [];
      var index, at := 0, 0;
      ghost var goal := LegacySegments(LegacyChunks(mdat), 0, trackId, timescale,
                                       fmp4Converter.sequenceNumber, fmp4Converter.baseMediaDecodeTime);
      assert mdat[0..] == mdat && [] + goal == goal;
      while at < |mdat|
        invariant at <= |mdat|
        invariant goal == segments + LegacySegments(LegacyChunks(mdat[at..]), index, trackId, timescale,
                                                    fmp4Converter.sequenceNumber, fmp4Converter.baseMediaDecodeTime)
      {
        var end := Least(at + LEGACY_CHUNK, |mdat|);
        LeastBounds(at, LEGACY_CHUNK, |mdat|);
        var chunk := mdat[at..end];
        LegacyCut(mdat, at);
        var frame := NewFrame(chunk, timescale, index == 0, 0);
        ghost var rest := LegacyChunks(mdat[end..]);
        LegacyFirst(chunk, rest, index, trackId, timescale, fmp4Converter.sequenceNumber, fmp4Converter.baseMediaDecodeTime);
        OneDuration(frame, fmp4Converter.baseMediaDecodeTime, timescale, chunk, index == 0);
        var fragment := fmp4Converter.CreateFragment([frame], trackId);
        var segment := Media(fragment, Wrap64(index * 1000), timescale, index == 0, trackId);
        ghost var tail := LegacySegments(rest, index + 1, trackId, timescale, fmp4Converter.sequenceNumber, fmp4Converter.baseMediaDecodeTime);
        Reassociate(segments, [segment], tail);
        segments := segments + [segment];
        index, at := index + 1, end;
      }
      assert mdat[at..] == [];
      NoLegacyChunks(index, trackId, timescale, fmp4Converter.sequenceNumber, fmp4Converter.baseMediaDecodeTime);
      assert segments + [] == segments;
    }
  }

  // ---------------------------------------------------------------- steps of the loops

  lemma {:induction false} FramesFirst(group: seq<SampleEntry>, mdat: bytes, mdatOffset: u64, video: bool)
    requires group != []
    ensures var data := Extract(group[0], mdat, mdatOffset);
            var rest := FramesOf(group[1..], mdat, mdatOffset, video);
            && (data.Failed? ==> FramesOf(group, mdat, mdatOffset, video) == Failed)
            && (data.Panicked? ==> FramesOf(group, mdat, mdatOffset, video) == Panicked)
            && (data.Done? ==> FramesOf(group, mdat, mdatOffset, video) == JoinFrames([FrameOf(group[0], data.value, video)], rest))
  {
    hide Extract, FrameOf;
  }

  lemma {:induction false} JoinNothing(r: Outcome<seq<FrameData>>)
    ensures JoinFrames([], r) == r
  {
    if r.Done? {
      assert [] + r.value == r.value;
    }
  }

  /** One step of the extraction loop, and its end. */
  lemma {:induction false} JoinStep(frames: seq<FrameData>, group: seq<SampleEntry>, i: nat, mdat: bytes, mdatOffset: u64, video: bool)
    requires i < |group|
    ensures var data := Extract(group[i], mdat, mdatOffset);
            var all := JoinFrames(frames, FramesOf(group[i..], mdat, mdatOffset, video));
            && (data.Failed? ==> all == Failed)
            && (data.Panicked? ==> all == Panicked)
            && (data.Done? ==>
                  all == JoinFrames(frames + [FrameOf(group[i], data.value, video)], FramesOf(group[i + 1..], mdat, mdatOffset, video)))
  {
    hide FramesOf, Extract, FrameOf;
    assert group[i..][0] == group[i] && group[i..][1..] == group[i + 1..];
    FramesFirst(group[i..], mdat, mdatOffset, video);
    var rest := FramesOf(group[i + 1..], mdat, mdatOffset, video);
    var data := Extract(group[i], mdat, mdatOffset);
    if data.Done? && rest.Done? {
      var frame := FrameOf(group[i], data.value, video);
      Reassociate(frames, [frame], rest.value);
    }
  }

  lemma {:induction false} JoinEnd(frames: seq<FrameData>, group: seq<SampleEntry>, mdat: bytes, mdatOffset: u64, video: bool)
    ensures JoinFrames(frames, FramesOf(group[|group|..], mdat, mdatOffset, video)) == Done(frames)
  {
    assert group[|group|..] == [] && frames + [] == frames;
  }

  /** Running the first group and then the others, behind what is already there. */
  lemma {:induction false} FirstGroup(group: seq<SampleEntry>, rest: seq<seq<SampleEntry>>, job: Job, c: Clock, done: seq<MseSegment>)
    ensures var run := RunGroup(group, job, c);
            var all := Prepend(done, RunGroups([group] + rest, job, c));
            if run.Done? then all == Prepend(done + run.value.segments, RunGroups(rest, job, run.value.clock)) else all.Panicked?
  {
    hide RunGroup;
    assert ([group] + rest)[1..] == rest;
    var run := RunGroup(group, job, c);
    if run.Done? {
      PrependTwice(done, run.value.segments, RunGroups(rest, job, run.value.clock));
    }
  }

  lemma {:induction false} RunNothing(job: Job, c: Clock, done: seq<MseSegment>)
    ensures Gops([]) == []
    ensures Prepend(done, RunGroups([], job, c)) == Done(Ran(done, c))
  {
    assert done + [] == done;
  }

  /** What was parsed before and what is parsed from here. */
  function Behind(done: seq<Mp4Box>, r: Outcome<seq<Mp4Box>>): Outcome<seq<Mp4Box>> {
    match r
    case Done(rest) => Done(done + rest)
    case Failed => Failed
    case Panicked => Panicked
  }

  lemma {:induction false} NothingParsed(done: seq<Mp4Box>, r: Outcome<seq<Mp4Box>>)
    requires done == []
    ensures Behind(done, r) == r
  {
    if r.Done? {
      assert [] + r.value == r.value;
    }
  }

  lemma {:induction false} ParseStep(data: bytes, at: nat, done: seq<Mp4Box>)
    requires |data| < 0x8000_0000_0000_0000 && at < |data|
    ensures var p := ParseBox(data, at);
            && (p.Panicked? ==> ParseFrom(data, at) == Panicked)
            && (p.Failed? ==> ParseFrom(data, at) == Done([]))
            && (p.Done? ==> Behind(done, ParseFrom(data, at)) == Behind(done + [p.value.0], ParseFrom(data, p.value.1)))
  {
    hide ParseBox;
    var p := ParseBox(data, at);
    if p.Done? {
      BoxEnd(data, at);
      var rest := ParseFrom(data, p.value.1);
      if rest.Done? {
        Reassociate(done, [p.value.0], rest.value);
      }
    }
  }

  lemma {:induction false} ParseEnds(data: bytes, at: nat)
    requires |data| < 0x8000_0000_0000_0000
    ensures at >= |data| || ParseBox(data, at).Failed? ==> ParseFrom(data, at) == Done([])
  {
    hide ParseBox;
  }

  lemma {:induction false} NoTracks(stuck: Stuck)
    ensures TracksOf([], stuck) == Done([])
  {
  }

  lemma {:induction false} NoMdat(default: u64)
    ensures MdatOffset([], default) == default && !HasMoof([])
  {
  }

  lemma {:induction false} MdatSnoc(bs: seq<Mp4Box>, b: Mp4Box, default: u64)
    ensures MdatOffset(bs + [b], default) == if b.header.boxType == MDAT then b.header.contentStart else MdatOffset(bs, default)
  {
    assert (bs + [b])[..|bs|] == bs;
  }

  lemma {:induction false} TracksSnoc(bs: seq<Mp4Box>, b: Mp4Box, stuck: Stuck)
    requires TracksOf(bs, stuck).Done?
    ensures TracksOf(bs + [b], stuck) ==
      if b.header.boxType != MOOV then TracksOf(bs, stuck)
      else if MoovWalk(b.content, 0, stuck).Done? then Done(TracksOf(bs, stuck).value + MoovWalk(b.content, 0, stuck).value)
      else Panicked
  {
    hide MoovWalk;
    assert (bs + [b])[..|bs|] == bs;
  }

  lemma {:induction false} TracksStayPanicked(a: seq<Mp4Box>, b: seq<Mp4Box>, stuck: Stuck)
    requires TracksOf(a, stuck).Panicked?
    ensures TracksOf(a + b, stuck).Panicked?
    decreases |b|
  {
    hide MoovWalk;
    if b == [] {
      assert a + b == a;
    } else {
      TracksStayPanicked(a, b[..|b| - 1], stuck);
      assert (a + b)[..|a + b| - 1] == a + b[..|b| - 1];
    }
  }

  /** Tracks read before and tracks read from here. */
  function JoinTracks(tracks: seq<Track>, r: Outcome<seq<Track>>): Outcome<seq<Track>> {
    match r
    case Done(rest) => Done(tracks + rest)
    case Failed => Failed
    case Panicked => Panicked
  }

  lemma {:induction false} MoovStep(data: bytes, at: nat, tracks: seq<Track>, stuck: Stuck)
    requires at < |data|
    ensures at + 8 <= |data| && Read32(data, at) >= 8 ==>
      var next := at + Read32(data, at);
      var here := JoinTracks(tracks, MoovWalk(data, at, stuck));
      if data[at + 4..at + 8] != TRAK then here == JoinTracks(tracks, MoovWalk(data, next, stuck))
      else if next > |data| then here == JoinTracks(tracks, MoovWalk(data, Left(stuck, at + 8, |data|), stuck))
      else
        var r := TrakWalk(data[at + 8..next], 0, NO_TRAK, stuck);
        if r.Done? then here == JoinTracks(tracks + AsTrack(r.value), MoovWalk(data, next, stuck)) else here.Panicked?
  {
    hide Read32, Left, TrakWalk, AsTrack, NO_TRAK;
    if at + 8 <= |data| && Read32(data, at) >= 8 {
      var next := at + Read32(data, at);
      TracksUnmarked(data, next, stuck);
      if data[at + 4..at + 8] == TRAK && next <= |data| {
        var r, rest := TrakWalk(data[at + 8..next], 0, NO_TRAK, stuck), MoovWalk(data, next, stuck);
        if r.Done? && rest.Done? {
          Reassociate(tracks, AsTrack(r.value), rest.value);
        }
      }
    }
  }

  lemma {:induction false} MoovEnds(data: bytes, at: nat, tracks: seq<Track>, stuck: Stuck)
    requires at + 8 > |data| || Read32(data, at) < 8
    ensures JoinTracks(tracks, MoovWalk(data, at, stuck)) == Done(tracks)
  {
    assert tracks + [] == tracks;
  }

  // One unfolding of each walk.

  lemma {:induction false} TrakEnds(data: bytes, at: nat, r: Read<TrakFields>, stuck: Stuck)
    requires at + 8 > |data| || Read32(data, at) < 8
    ensures TrakWalk(data, at, r, stuck) == Done(r)
  {
  }

  lemma {:induction false} TrakStep(data: bytes, at: nat, r: Read<TrakFields>, stuck: Stuck)
    ensures at + 8 <= |data| && Read32(data, at) >= 8 ==>
      var size, kind := Read32(data, at), data[at + 4..at + 8];
      var next := at + size;
      TrakWalk(data, at, r, stuck) ==
        if kind == TKHD && size >= 20 then
          if next > |data| then TrakWalk(data, Left(stuck, at + 8, |data|) + (size - 8), r, stuck)
          else if size >= 24 then TrakWalk(data, next, r.(value := r.value.(trackId := Read32(data, at + 20))), stuck)
          else TrakWalk(data, next + (size - 8), r, stuck)
        else if kind == MDIA then
          if next > |data| then TrakWalk(data, Left(stuck, at + 8, |data|), r, stuck)
          else
            match MdiaWalk(data[at + 8..next], 0, Read(NO_FIELDS, r.table), stuck)
            case Done(m) => TrakWalk(data, next, Read(r.value.(fields := m.value), m.table), stuck)
            case _ => Panicked
        else TrakWalk(data, next, r, stuck)
  {
    hide Read32, Left, MdiaWalk, NO_FIELDS;
  }

  lemma {:induction false} MdiaEnds(data: bytes, at: nat, r: Read<Fields>, stuck: Stuck)
    requires at + 8 > |data| || Read32(data, at) < 8
    ensures MdiaWalk(data, at, r, stuck) == Done(r)
  {
  }

  lemma {:induction false} MdiaStep(data: bytes, at: nat, r: Read<Fields>, stuck: Stuck)
    ensures at + 8 <= |data| && Read32(data, at) >= 8 ==>
      var size, kind := Read32(data, at), data[at + 4..at + 8];
      var next := at + size;
      MdiaWalk(data, at, r, stuck) ==
        if kind == MDHD && size >= 28 then
          if next <= |data| then MdiaWalk(data, next, r.(value := r.value.(timescale := Read32(data, at + 20))), stuck)
          else MdiaWalk(data, Left(stuck, at + 8, |data|) + (size - 8), r, stuck)
        else if kind == HDLR && size >= 20 then
          if next <= |data| then MdiaWalk(data, next, r.(value := r.value.(mediaType := Lossy(data[at + 16..at + 20]))), stuck)
          else MdiaWalk(data, Left(stuck, at + 8, |data|) + (size - 8), r, stuck)
        else if kind == MINF then
          if next > |data| then MdiaWalk(data, Left(stuck, at + 8, |data|), r, stuck)
          else
            match MinfWalk(data[at + 8..next], 0, r.value.mediaType, r.table, stuck)
            case Done(m) =>
              MdiaWalk(data, next, Read(if m.value.Some? then r.value.(codec := m.value.value) else r.value, m.table), stuck)
            case _ => Panicked
        else MdiaWalk(data, next, r, stuck)
  {
    hide Read32, Left, MinfWalk, Lossy;
  }

  lemma {:induction false} MinfEnds(data: bytes, at: nat, media: bytes, table: Option<SampleTable>, stuck: Stuck)
    requires at + 8 > |data| || Read32(data, at) < 8
    ensures MinfWalk(data, at, media, table, stuck) == Done(Read(Some(Guess(media)), table))
  {
  }

  lemma {:induction false} MinfStep(data: bytes, at: nat, media: bytes, table: Option<SampleTable>, stuck: Stuck)
    ensures at + 8 <= |data| && Read32(data, at) >= 8 ==>
      var next := at + Read32(data, at);
      MinfWalk(data, at, media, table, stuck) ==
        if data[at + 4..at + 8] != STBL then MinfWalk(data, next, media, table, stuck)
        else if next > |data| then MinfWalk(data, Left(stuck, at + 8, |data|), media, table, stuck)
        else StblRead(data[at + 8..next], media, table, stuck)
  {
    hide Read32, Left, StblRead, Guess;
  }

  lemma {:induction false} StblIs(content: bytes, media: bytes, table: Option<SampleTable>, stuck: Stuck)
    ensures var bs := ScanAll(content);
            var codec, kept := TableParsers.StsdOf(bs, media, stuck), TableParsers.KeptTable(bs);
            StblRead(content, media, table, stuck) ==
              if codec.Panicked? then Panicked
              else Done(Read(if codec.Done? then Some(codec.value) else None, if kept.Some? then kept else table))
  {
    hide ScanAll, TableParsers.StsdOf, TableParsers.KeptTable;
  }

  // ---------------------------------------------------------------- video-only mode

  lemma {:induction false} UnmarkedConcat(a: seq<Track>, b: seq<Track>)
    requires NoneMarked(a) && NoneMarked(b)
    ensures NoneMarked(a + b)
  {
  }

  lemma {:induction false} ParsedUnmarked(bs: seq<Mp4Box>, stuck: Stuck)
    ensures TracksOf(bs, stuck).Done? ==> NoneMarked(TracksOf(bs, stuck).value)
  {
    hide MoovWalk, MarkedAc3;
    if bs != [] {
      var before, last := bs[..|bs| - 1], bs[|bs| - 1];
      ParsedUnmarked(before, stuck);
      TracksUnmarked(last.content, 0, stuck);
      if TracksOf(before, stuck).Done? && MoovWalk(last.content, 0, stuck).Done? {
        UnmarkedConcat(TracksOf(before, stuck).value, MoovWalk(last.content, 0, stuck).value);
      }
    }
  }

  /** Whatever file was parsed: video-only mode is never entered, not even for AC-3 audio. The moov is used as it is and
      the audio track is cut into segments like any other. */
  lemma {:induction false} VideoOnlyNeverUsed(bs: seq<Mp4Box>, tracks: seq<Track>, content: bytes, stuck: Stuck)
    requires TracksOf(bs, stuck) == Done(tracks)
    ensures !HasAc3(tracks) && AudioTrack(tracks) == FindTrack(tracks, SOUN)
    ensures MseMoov(content, tracks) == Box(MOOV, content + PrintBox(Box(MVEX, PrintBoxes(Trexes(tracks)))))
  {
    hide TracksOf, PrintBox, PrintBoxes, Trexes, FindTrack;
    ParsedUnmarked(bs, stuck);
  }

  lemma {:induction false} BoxEnd(data: bytes, at: nat)
    requires |data| < 0x8000_0000_0000_0000
    ensures ParseBox(data, at).Done? ==> at < ParseBox(data, at).value.1 <= |data|
  {
  }

  lemma {:induction false} HasMoofSnoc(bs: seq<Mp4Box>, b: Mp4Box)
    ensures HasMoof(bs + [b]) <==> HasMoof(bs) || b.header.boxType == MOOF
  {
    assert (bs + [b])[|bs|] == b;
    if HasMoof(bs) {
      var i :| 0 <= i < |bs| && bs[i].header.boxType == MOOF;
      assert (bs + [b])[i] == bs[i];
    }
  }

  lemma {:induction false} WrapTotal(time: u64, duration: nat)
    ensures Wrap64(time + Wrap64(duration)) == Wrap64(time + duration)
  {
    WrapAdd64(duration, time);
  }

  /** Between two boundaries lies exactly the first GOP of what is left. */
  lemma {:induction false} GopCut(entries: seq<SampleEntry>, start: nat, i: nat)
    requires start < i <= |entries|
    requires forall j :: start < j < i ==> !entries[j].isKeyframe
    requires i < |entries| ==> entries[i].isKeyframe
    ensures Gops(entries[start..]) == [entries[start..i]] + Gops(entries[i..])
  {
    var rest := entries[start..];
    var n := NextKeyframe(rest, 1);
    assert forall j :: 0 <= j < |rest| ==> rest[j] == entries[start + j];
    assert n == i - start;
    assert rest[..n] == entries[start..i] && rest[n..] == entries[i..];
  }

  lemma {:induction false} ChunkCut(samples: seq<SampleEntry>, start: nat, size: nat)
    requires start < |samples| && size > 0
    ensures var end := Least(start + size, |samples|);
            Chunks(samples[start..], size) == [samples[start..end]] + Chunks(samples[end..], size)
  {
    var rest := samples[start..];
    var n := Least(size, |rest|);
    assert rest[..n] == samples[start..start + n] && rest[n..] == samples[start + n..];
  }

  lemma {:induction false} LegacyCut(mdat: bytes, at: nat)
    requires at < |mdat|
    ensures var end := Least(at + LEGACY_CHUNK, |mdat|);
            LegacyChunks(mdat[at..]) == [mdat[at..end]] + LegacyChunks(mdat[end..])
  {
    var rest := mdat[at..];
    var n := Least(LEGACY_CHUNK, |rest|);
    assert rest[..n] == mdat[at..at + n] && rest[n..] == mdat[at + n..];
  }

  lemma {:induction false} LeastBounds(at: nat, n: nat, end: nat)
    requires at < end
    ensures at < Least(at + n, end) || n == 0
    ensures Least(at + n, end) <= end
  {
  }

  lemma {:induction false} NoLegacyChunks(index: nat, trackId: u32, timescale: u32, sequence: u32, baseTime: u64)
    ensures LegacySegments(LegacyChunks([]), index, trackId, timescale, sequence, baseTime) == []
  {
  }

  lemma {:induction false} LegacyFirst(chunk: bytes, rest: seq<bytes>, index: nat, trackId: u32, timescale: u32, sequence: u32, baseTime: u64)
    ensures LegacySegments([chunk] + rest, index, trackId, timescale, sequence, baseTime)
      == [Media(FragmentV1(sequence, baseTime, trackId, [NewFrame(chunk, timescale, index == 0, 0)]), Wrap64(index * 1000), timescale, index == 0, trackId)]
         + LegacySegments(rest, index + 1, trackId, timescale, Wrap32(sequence + 1), Wrap64(baseTime + timescale))
  {
    hide FragmentV1, Wrap32, Wrap64, NewFrame;
    assert ([chunk] + rest)[1..] == rest;
  }

  lemma {:induction false} OneDuration(frame: FrameData, time: u64, timescale: u32, chunk: bytes, key: bool)
    requires frame == NewFrame(chunk, timescale, key, 0)
    ensures TotalDuration([frame]) == timescale
  {
    assert [frame][..0] == [];
  }
}
