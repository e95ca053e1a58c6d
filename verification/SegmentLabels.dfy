/** What a media segment says about itself -- track, duration, start, keyframe -- compared with what its own bytes
    demux to. */
module SegmentLabels {
  import opened Bytes
  import opened Outcomes
  import opened SampleTables
  import opened Converter
  import opened Demux
  import opened Fragments

  function Span(samples: seq<TimedSample>): nat {
    if samples == [] then 0 else samples[0].duration + Span(samples[1..])
  }

  /** Number, track, duration and start in milliseconds are those of the fragment in the segment's bytes. */
  predicate Labelled(s: MseSegment, sequence: u32, trackId: u32, timescale: u32, d: Defaults)
    requires timescale > 0
  {
    s.Media? && DemuxFragment(s.data, d).Some? &&
    var f := DemuxFragment(s.data, d).value;
    && f.sequence == sequence
    && s.trackId == f.trackId == trackId
    && s.duration == Span(f.samples)
    && s.timestamp == Wrap64(f.baseTime * 1000) / timescale
  }

  /** The same for all segments of a track, numbered from 1. */
  predicate AllLabelled(segments: seq<MseSegment>, trackId: u32, timescale: u32, d: Defaults)
    requires timescale > 0
  {
    forall k :: 0 <= k < |segments| ==> Labelled(segments[k], Wrap32(1 + k), trackId, timescale, d)
  }

  /** The keyframe flag of a segment is the sync flag of the first sample in its bytes. */
  predicate FlagTrue(s: MseSegment, d: Defaults) {
    s.Media? && DemuxFragment(s.data, d).Some? &&
    var f := DemuxFragment(s.data, d).value;
    f.samples != [] && s.isKeyframe == f.samples[0].sync
  }

  lemma {:induction false} TimedSpan(frames: seq<FrameData>, time: nat)
    ensures Span(Timed(frames, time)) == FrontDuration(frames)
    decreases frames
  {
    if frames != [] {
      TimedCons(frames, time);
      TimedSpan(frames[1..], time + frames[0].duration);
      assert Timed(frames, time)[1..] == Timed(frames[1..], time + frames[0].duration);
    }
  }

  /** The 32-bit durations of one fragment add up to less than 64 bits. */
  lemma {:induction false} SpanFits(frames: seq<FrameData>)
    requires FitsV2(frames, TWO64 - 1)
    ensures TotalDuration(frames) < TWO64
  {
    hide TotalDuration;
    DurationBound(frames);
    ProductMonotone(|frames|, TWO32 - 1, TWO32 - 1, TWO32 - 1);
  }

  lemma {:induction false} SegmentLabelled(frames: seq<FrameData>, trackId: u32, timescale: u32, c: Clock, d: Defaults)
    requires timescale > 0 && FitsV2(frames, TWO64 - 1) && c.baseTime == c.decodeTime
    ensures Labelled(SegmentOf(frames, trackId, timescale, c), c.sequence, trackId, timescale, d)
    ensures frames != [] ==>
      (FlagTrue(SegmentOf(frames, trackId, timescale, c), d) <==> frames[0].isKeyframe)
  {
    hide FragmentV2, DemuxFragment, TotalDuration, FitsV2, Span;
    SegmentDemuxed(frames, trackId, timescale, c, d);
    TimedSpan(frames, c.baseTime);
    DurationsAgree(frames);
    SpanFits(frames);
    NoWrap64(TotalDuration(frames));
    if frames != [] {
      TimedCons(frames, c.baseTime);
    }
    hide Timed, Wrap64;
  }

  lemma {:induction false} SegmentsLabelled(lists: seq<seq<FrameData>>, trackId: u32, timescale: u32, c: Clock, d: Defaults, k: nat)
    requires timescale > 0 && AllFit(lists) && c.baseTime == c.decodeTime && k < |lists|
    ensures var s := Segments(lists, trackId, timescale, c)[k];
            && Labelled(s, Wrap32(c.sequence + k), trackId, timescale, d)
            && (lists[k] != [] ==> (FlagTrue(s, d) <==> lists[k][0].isKeyframe))
    decreases |lists|
  {
    hide SegmentOf, TotalDuration, FitsV2, Labelled, FlagTrue, Wrap64, Wrap32;
    if k == 0 {
      SegmentLabelled(lists[0], trackId, timescale, c, d);
      NoWrap32(c.sequence);
    } else {
      WrapAdd32(c.sequence + 1, k - 1);
      SegmentsLabelled(lists[1..], trackId, timescale, Tick(c, TotalDuration(lists[0])), d, k - 1);
    }
  }

  /** Every segment of a run carries the track, duration and start of the fragment in its own bytes, and the fragments
      are numbered from 1. */
  lemma {:induction false} RunLabelled(groups: seq<seq<SampleEntry>>, job: Job, d: Defaults)
    requires job.mdatOffset + |job.mdat| < TWO64 && job.timescale > 0 && GroupsFit(InRange(groups, job))
    ensures var r := RunGroups(groups, job, FRESH);
            r.Done? ==>
              |r.value.segments| == |InRange(groups, job)| && AllLabelled(r.value.segments, job.trackId, job.timescale, d)
  {
    hide Kept, AllFit, Segments, GroupsFit, RunGroups, InRange, Labelled;
    var lists := Kept(groups, job);
    KeptInRange(groups, job);
    KeptFits(InRange(groups, job), job);
    RunIsOverKept(groups, job, FRESH);
    forall k | 0 <= k < |lists|
      ensures Labelled(Segments(lists, job.trackId, job.timescale, FRESH)[k], Wrap32(1 + k), job.trackId, job.timescale, d)
    {
      SegmentsLabelled(lists, job.trackId, job.timescale, FRESH, d, k);
    }
  }

  // ---------------------------------------------------------------- keyframe flags

  predicate Leads(group: seq<SampleEntry>, frames: seq<FrameData>, video: bool) {
    group != [] && frames != [] && frames[0].isKeyframe == (!video || group[0].isKeyframe)
  }

  lemma {:induction false} FirstFrame(group: seq<SampleEntry>, job: Job)
    requires group != [] && FramesFor(group, job).Done?
    ensures Leads(group, FramesFor(group, job).value, job.video)
  {
    hide Extract;
  }

  /** The frames kept of a group start as the group does. */
  lemma {:induction false} KeptLeads(groups: seq<seq<SampleEntry>>, job: Job, k: nat)
    requires job.mdatOffset + |job.mdat| < TWO64 && k < |InRange(groups, job)|
    ensures |Kept(groups, job)| == |InRange(groups, job)|
    ensures Leads(InRange(groups, job)[k], Kept(groups, job)[k], job.video)
    decreases |groups|
  {
    hide FramesOf, AllInMdat, Leads;
    KeptInRange(groups, job);
    var g, rest, kept := groups[0], InRange(groups[1..], job), Kept(groups[1..], job);
    KeptInRange(groups[1..], job);
    FramesIff(g, job.mdat, job.mdatOffset, job.video);
    FramesCount(g, job);
    hide HitsStraddle;
    if g != [] && AllInMdat(g, job.mdat, job.mdatOffset) {
      assert InRange(groups, job) == [g] + rest;
      assert Kept(groups, job) == [FramesFor(g, job).value] + kept;
      if k == 0 {
        FirstFrame(g, job);
      } else {
        KeptLeads(groups[1..], job, k - 1);
      }
    } else {
      assert InRange(groups, job) == rest;
      KeptLeads(groups[1..], job, k);
    }
  }

  predicate StartsKey(groups: seq<seq<SampleEntry>>) {
    forall k :: 0 <= k < |groups| ==> groups[k] != [] && groups[k][0].isKeyframe
  }

  lemma {:induction false} InRangeStartsKey(groups: seq<seq<SampleEntry>>, job: Job)
    requires StartsKey(groups)
    ensures StartsKey(InRange(groups, job))
  {
    hide AllInMdat;
    if groups != [] {
      assert forall k :: 0 <= k < |groups[1..]| ==> groups[1..][k] == groups[k + 1];
      InRangeStartsKey(groups[1..], job);
    }
  }

  /** The first group of pictures starts with the first sample, every later one with a keyframe. */
  lemma {:induction false} GopHeads(entries: seq<SampleEntry>)
    requires entries != []
    ensures var gops := Gops(entries);
            gops != [] && gops[0] != [] && gops[0][0] == entries[0] && StartsKey(gops[1..])
  {
    GopsPartition(entries);
    assert Gops(entries)[0] == entries[..NextKeyframe(entries, 1)];
    hide Gops;
    assert forall k :: 0 <= k < |Gops(entries)[1..]| ==> Gops(entries)[1..][k] == Gops(entries)[k + 1];
  }

  lemma {:induction false} GopsInRange(entries: seq<SampleEntry>, job: Job)
    requires entries != []
    ensures var used := InRange(Gops(entries), job);
            StartsKey(used) <==> entries[0].isKeyframe || !AllInMdat(Gops(entries)[0], job.mdat, job.mdatOffset)
  {
    hide Gops, AllInMdat;
    GopHeads(entries);
    var gops := Gops(entries);
    InRangeStartsKey(gops[1..], job);
    var rest := InRange(gops[1..], job);
    if AllInMdat(gops[0], job.mdat, job.mdatOffset) {
      assert InRange(gops, job) == [gops[0]] + rest;
      assert ([gops[0]] + rest)[0] == gops[0];
      assert forall k :: 0 < k < |[gops[0]] + rest| ==> ([gops[0]] + rest)[k] == rest[k - 1];
    } else {
      assert InRange(gops, job) == rest;
    }
  }

  lemma {:induction false} FlagsOfRun(groups: seq<seq<SampleEntry>>, job: Job, d: Defaults)
    requires job.mdatOffset + |job.mdat| < TWO64 && job.timescale > 0 && GroupsFit(InRange(groups, job))
    ensures var r := RunGroups(groups, job, FRESH);
            r.Done? ==>
              && |r.value.segments| == |InRange(groups, job)|
              && forall k :: 0 <= k < |r.value.segments| ==>
                   InRange(groups, job)[k] != []
                   && (FlagTrue(r.value.segments[k], d) <==> !job.video || InRange(groups, job)[k][0].isKeyframe)
  {
    hide Kept, AllFit, Segments, GroupsFit, RunGroups, InRange, Labelled, FlagTrue;
    var lists := Kept(groups, job);
    KeptInRange(groups, job);
    KeptFits(InRange(groups, job), job);
    RunIsOverKept(groups, job, FRESH);
    forall k | 0 <= k < |lists|
      ensures InRange(groups, job)[k] != []
      ensures FlagTrue(Segments(lists, job.trackId, job.timescale, FRESH)[k], d)
          <==> !job.video || InRange(groups, job)[k][0].isKeyframe
    {
      KeptLeads(groups, job, k);
      SegmentsLabelled(lists, job.trackId, job.timescale, FRESH, d, k);
    }
  }

  /** Every segment claims to start with a keyframe. For video that is true of all of them exactly when the first
      sample is one, or the group it leads is left out. */
  lemma {:induction false} VideoFlagsIff(entries: seq<SampleEntry>, job: Job, d: Defaults)
    requires job.video && job.timescale > 0 && job.mdatOffset + |job.mdat| < TWO64
    requires entries != [] && GroupsFit(InRange(Gops(entries), job))
    ensures var r := RunGroups(Gops(entries), job, FRESH);
            r.Done? ==>
              && (forall k :: 0 <= k < |r.value.segments| ==> r.value.segments[k].Media? && r.value.segments[k].isKeyframe)
              && ((forall k :: 0 <= k < |r.value.segments| ==> FlagTrue(r.value.segments[k], d))
                  <==> entries[0].isKeyframe || !AllInMdat(Gops(entries)[0], job.mdat, job.mdatOffset))
  {
    hide Gops, RunGroups, InRange, FlagTrue, GroupsFit, AllInMdat;
    GopHeads(entries);
    GopsInRange(entries, job);
    FlagsOfRun(Gops(entries), job, d);
    AllKey(Gops(entries), job, FRESH);
  }

  lemma {:induction false} AllKey(groups: seq<seq<SampleEntry>>, job: Job, c: Clock)
    ensures var r := RunGroups(groups, job, c);
            r.Done? ==> forall k :: 0 <= k < |r.value.segments| ==> r.value.segments[k].Media? && r.value.segments[k].isKeyframe
  {
    hide FramesFor, Tick, TotalDuration, FragmentV2;
    if groups != [] {
      var ran := RunGroup(groups[0], job, c);
      if ran.Done? {
        AllKey(groups[1..], job, ran.value.clock);
      }
    }
  }

  /** The failing input: one sample of one byte that is not a sync sample. */
  function LoneSample(): SampleEntry { SampleEntry(0, 1, 1, false, 0) }

  function LoneJob(): Job { Job([0], 0, true, 1, 1) }

  lemma {:induction false} OneGop(e: SampleEntry)
    ensures Gops([e]) == [[e]]
  {
    var entries := [e];
    assert NextKeyframe(entries, 1) == 1;
    assert entries[..1] == [e] && entries[1..] == [];
    assert Gops(entries) == [entries[..1]] + Gops(entries[1..]);
  }

  lemma {:induction false} OneGroup(g: seq<SampleEntry>, job: Job)
    requires g != [] && AllInMdat(g, job.mdat, job.mdatOffset) && !HitsStraddle(g, job.mdat, job.mdatOffset)
    ensures InRange([g], job) == [g] && NoStraddle([g], job)
  {
    hide AllInMdat, HitsStraddle;
    assert [g][1..] == [];
  }

  lemma {:induction false} LoneFits()
    ensures AllInMdat([LoneSample()], [0], 0) && GroupsFit([[LoneSample()]])
  {
    var g := [LoneSample()];
    assert g[1..] == [];
    assert TotalSize(g) == 1 + TotalSize([]);
  }

  lemma {:induction false} FlagWrong(d: Defaults)
    ensures var r := RunGroups(Gops([LoneSample()]), LoneJob(), FRESH);
            r.Done? && |r.value.segments| == 1 && r.value.segments[0].Media? && r.value.segments[0].isKeyframe
            && !FlagTrue(r.value.segments[0], d)
  {
    hide Gops, RunGroups, FlagTrue, InRange, NoStraddle, FramesOf, HitsStraddle, AllInMdat, GroupsFit;
    var e, job := LoneSample(), LoneJob();
    OneGop(e);
    LoneFits();
    FramesIff([e], job.mdat, job.mdatOffset, true);
    OneGroup([e], job);
    RunDoneIff(Gops([e]), job, FRESH);
    VideoFlagsIff([e], job, d);
    FlagsOfRun(Gops([e]), job, d);
  }

  /** For audio it is always true. */
  lemma {:induction false} AudioFlags(groups: seq<seq<SampleEntry>>, job: Job, d: Defaults)
    requires !job.video && job.timescale > 0 && job.mdatOffset + |job.mdat| < TWO64
    requires GroupsFit(InRange(groups, job))
    ensures var r := RunGroups(groups, job, FRESH);
            r.Done? ==> forall k :: 0 <= k < |r.value.segments| ==> FlagTrue(r.value.segments[k], d)
  {
    hide RunGroups, InRange, FlagTrue, GroupsFit;
    FlagsOfRun(groups, job, d);
  }

  // ---------------------------------------------------------------- the fallback

  /** Segment `k` of the fallback holds one sample that lasts the second the segment claims, is numbered `k` above the
      first and stamped `k` seconds; only the first one is marked as a keyframe. */
  lemma {:induction false} LegacyLabelled(mdat: bytes, index: nat, trackId: u32, timescale: u32, sequence: u32, baseTime: u64, d: Defaults, k: nat)
    requires k < |LegacySegments(LegacyChunks(mdat), index, trackId, timescale, sequence, baseTime)|
    ensures var s := LegacySegments(LegacyChunks(mdat), index, trackId, timescale, sequence, baseTime)[k];
            && s.Media? && DemuxFragment(s.data, d).Some?
            && var f := DemuxFragment(s.data, d).value;
            && f.sequence == Wrap32(sequence + k) && f.baseTime == Wrap32(Wrap64(baseTime + k * timescale))
            && s.trackId == f.trackId == trackId
            && |f.samples| == 1 && s.duration == f.samples[0].duration == timescale
            && s.timestamp == Wrap64((index + k) * 1000)
            && (s.isKeyframe <==> index + k == 0)
    decreases |mdat|
  {
    hide LegacyChunks, FragmentV1, DemuxFragment, Wrap32, Wrap64;
    if mdat == [] {
      NoChunks();
    } else {
      var n := Least(LEGACY_CHUNK, |mdat|);
      ChunksCons(mdat);
      if k == 0 {
        FirstLegacy(mdat[..n], index == 0, trackId, timescale, sequence, baseTime, d);
        NoWrap32(sequence);
        NoWrap64(baseTime);
      } else {
        WrapAdd32(sequence + 1, k - 1);
        WrapAdd64(baseTime + timescale, (k - 1) * timescale);
        assert timescale + (k - 1) * timescale == k * timescale;
        LegacyLabelled(mdat[n..], index + 1, trackId, timescale, Wrap32(sequence + 1), Wrap64(baseTime + timescale), d, k - 1);
      }
    }
  }

  lemma {:induction false} NoChunks()
    ensures LegacyChunks([]) == []
  {
  }

  lemma {:induction false} ChunksCons(mdat: bytes)
    requires mdat != []
    ensures var n := Least(LEGACY_CHUNK, |mdat|);
            LegacyChunks(mdat) == [mdat[..n]] + LegacyChunks(mdat[n..]) && n > 0
  {
  }

  lemma {:induction false} FirstLegacy(data: bytes, key: bool, trackId: u32, timescale: u32, sequence: u32, baseTime: u64, d: Defaults)
    requires 0 < |data| <= LEGACY_CHUNK
    ensures var r := DemuxFragment(FragmentV1(sequence, baseTime, trackId, [NewFrame(data, timescale, key, 0)]), d);
            && r.Some? && r.value.sequence == sequence && r.value.trackId == trackId && r.value.baseTime == Wrap32(baseTime)
            && |r.value.samples| == 1 && r.value.samples[0].duration == timescale
  {
    var frames := [NewFrame(data, timescale, key, 0)];
    PayloadFront(frames);
    EmptyPayload();
    assert frames[1..] == [];
    hide FragmentV1, DemuxFragment, Payload;
    FragmentV1RoundTrip(sequence, baseTime, trackId, frames, d);
  }
}
