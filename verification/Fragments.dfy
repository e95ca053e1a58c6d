/** What fragmenting a regular file means: samples are cut into GOPs or audio chunks, each group whose
    samples all lie in the mdat becomes one fragment, and the fragments demux to those samples. */
module Fragments {
  import opened Bytes
  import opened Outcomes
  import opened SampleTables
  import opened Converter
  import opened Demux

  datatype MseSegment =
    | Initialization(data: bytes)
    | Media(data: bytes, timestamp: u64, duration: u64, isKeyframe: bool, trackId: u32)

  // ---------------------------------------------------------------- cutting

  /** The first index at or after `i` that holds a keyframe, or the end. */
  function NextKeyframe(entries: seq<SampleEntry>, i: nat): (n: nat)
    requires i <= |entries|
    ensures i <= n <= |entries|
    ensures forall j :: i <= j < n ==> !entries[j].isKeyframe
    ensures n < |entries| ==> entries[n].isKeyframe
    decreases |entries| - i
  {
    if i == |entries| || entries[i].isKeyframe then i else NextKeyframe(entries, i + 1)
  }

  /** Groups of pictures: from one keyframe up to the next. */
  function Gops(entries: seq<SampleEntry>): seq<seq<SampleEntry>>
    decreases |entries|
  {
    if entries == [] then [] else
      var n := NextKeyframe(entries, 1);
      [entries[..n]] + Gops(entries[n..])
  }

  /** Runs of `size` samples, the last one possibly shorter. */
  function Chunks(entries: seq<SampleEntry>, size: nat): seq<seq<SampleEntry>>
    requires size > 0
    decreases |entries|
  {
    if entries == [] then [] else
      var n := Least(size, |entries|);
      [entries[..n]] + Chunks(entries[n..], size)
  }

  function Flatten<T>(groups: seq<seq<T>>): seq<T> {
    if groups == [] then [] else groups[0] + Flatten(groups[1..])
  }

  /** The cut loses nothing, and every GOP after the first starts with its only keyframe. */
  lemma {:induction false} GopsPartition(entries: seq<SampleEntry>)
    ensures Flatten(Gops(entries)) == entries
    ensures forall k :: 0 <= k < |Gops(entries)| ==> Gops(entries)[k] != []
    ensures forall k, j :: 0 <= k < |Gops(entries)| && 0 < j < |Gops(entries)[k]| ==> !Gops(entries)[k][j].isKeyframe
    ensures forall k :: 0 < k < |Gops(entries)| ==> Gops(entries)[k][0].isKeyframe
    decreases |entries|
  {
    if entries != [] {
      var n := NextKeyframe(entries, 1);
      GopsPartition(entries[n..]);
      var rest := Gops(entries[n..]);
      assert Gops(entries) == [entries[..n]] + rest;
      if rest != [] {
        assert rest[0] == entries[n..][..NextKeyframe(entries[n..], 1)];
        assert rest[0][0] == entries[n];
      }
    }
  }

  lemma {:induction false} ChunksPartition(entries: seq<SampleEntry>, size: nat)
    requires size > 0
    ensures Flatten(Chunks(entries, size)) == entries
    ensures forall k :: 0 <= k < |Chunks(entries, size)| ==> 0 < |Chunks(entries, size)[k]| <= size
    ensures forall k :: 0 <= k < |Chunks(entries, size)| - 1 ==> |Chunks(entries, size)[k]| == size
    decreases |entries|
  {
    if entries != [] {
      var n := Least(size, |entries|);
      var first, rest := entries[..n], Chunks(entries[n..], size);
      ChunksPartition(entries[n..], size);
      assert Chunks(entries, size) == [first] + rest;
      assert rest != [] ==> n == size;
      hide Chunks;
      assert Flatten([first] + rest) == first + Flatten(rest) by {
        assert ([first] + rest)[1..] == rest;
      }
    }
  }

  /** About half a second of audio, measured by the first sample. */
  function SamplesPerChunk(timescale: u32, firstDuration: u32): (n: nat)
    ensures n >= 1
  {
    var d := if firstDuration == 0 then 1 else firstDuration;
    var n := timescale / 2 / d;
    if n < 1 then 1 else n
  }

  function Durations(entries: seq<SampleEntry>): nat {
    if entries == [] then 0 else entries[0].duration + Durations(entries[1..])
  }

  lemma {:induction false} ConstantDurations(entries: seq<SampleEntry>, d: u32)
    requires forall i :: 0 <= i < |entries| ==> entries[i].duration == d
    ensures Durations(entries) == |entries| * d
  {
    if entries != [] {
      ConstantDurations(entries[1..], d);
      assert |entries| * d == d + (|entries| - 1) * d;
    }
  }

  /** With a constant sample duration every audio chunk spans at most half a second, or is one sample; and but
      for the last one, no chunk could take one more sample. */
  lemma {:induction false} AudioChunkSpan(entries: seq<SampleEntry>, timescale: u32, d: u32, k: nat)
    requires entries != [] && forall i :: 0 <= i < |entries| ==> entries[i].duration == d
    requires k < |Chunks(entries, SamplesPerChunk(timescale, d))|
    ensures var chunk := Chunks(entries, SamplesPerChunk(timescale, d))[k];
            && (|chunk| == 1 || 2 * Durations(chunk) <= timescale)
            && (k + 1 < |Chunks(entries, SamplesPerChunk(timescale, d))| && d > 0 ==> 2 * (Durations(chunk) + d) > timescale)
  {
    var n := SamplesPerChunk(timescale, d);
    var chunks := Chunks(entries, n);
    ChunksPartition(entries, n);
    hide Chunks, SamplesPerChunk, Durations;
    FlattenMember(chunks, k);
    assert forall i :: 0 <= i < |chunks[k]| ==> chunks[k][i] in Flatten(chunks);
    ConstantDurations(chunks[k], d);
    SpanOf(timescale, d, n, |chunks[k]|);
  }

  /** The span of `m` samples, up to a full chunk. */
  lemma {:induction false} SpanOf(timescale: u32, d: u32, n: nat, m: nat)
    requires n == SamplesPerChunk(timescale, d) && 1 <= m <= n
    ensures m == 1 || 2 * (m * d) <= timescale
    ensures m == n && d > 0 ==> 2 * (m * d + d) > timescale
  {
    if m > 1 {
      ChunkFits(timescale, d, n, m);
    }
    if d > 0 && m == n {
      ChunkIsFull(timescale, d, n);
      NextProduct(n, d);
    }
  }

  lemma {:induction false} NextProduct(n: nat, d: nat)
    ensures (n + 1) * d == n * d + d
  {
  }

  lemma {:induction false} ChunkFits(timescale: u32, d: u32, n: nat, m: nat)
    requires n == SamplesPerChunk(timescale, d) && 1 < m <= n
    ensures 2 * (m * d) <= timescale
  {
    var w, half := if d == 0 then 1 else d, timescale / 2;
    assert n == half / w;
    hide SamplesPerChunk;
    ProductMonotone(m, n, d, w);
    QuotientTimes(half, w);
  }

  lemma {:induction false} ChunkIsFull(timescale: u32, d: u32, n: nat)
    requires d > 0 && n == SamplesPerChunk(timescale, d)
    ensures 2 * ((n + 1) * d) > timescale
  {
    var half := timescale / 2;
    var q := half / d;
    assert half == q * d + half % d;
    assert (q + 1) * d == q * d + d;
    ProductMonotone(q + 1, n + 1, d, d);
  }

  lemma {:induction false} ProductMonotone(a: nat, b: nat, c: nat, e: nat)
    requires a <= b && c <= e
    ensures a * c <= b * e
  {
    assert a * c <= b * c;
    assert b * c <= b * e;
  }

  lemma {:induction false} QuotientTimes(a: nat, w: nat)
    requires w > 0
    ensures a / w * w <= a
  {
    assert a == a / w * w + a % w;
  }

  lemma {:induction false} FlattenMember<T>(groups: seq<seq<T>>, k: nat)
    requires k < |groups|
    ensures forall x :: x in groups[k] ==> x in Flatten(groups)
  {
    if k > 0 {
      FlattenMember(groups[1..], k - 1);
    }
  }

  // ---------------------------------------------------------------- extraction

  /** The 64-bit arithmetic of the extraction loop: past the end skips the group, a sample that starts in
      front of the mdat and ends in it makes the slice panic. */
  function Extract(e: SampleEntry, mdat: bytes, mdatOffset: u64): Outcome<bytes> {
    var local := Wrap64(e.offset - mdatOffset as int);
    var end := Wrap64(local + e.size as int);
    if end > |mdat| then Failed else if local > end then Panicked else Done(mdat[local..end])
  }

  predicate InMdat(e: SampleEntry, mdat: bytes, mdatOffset: u64) {
    mdatOffset <= e.offset && e.offset + e.size <= mdatOffset + |mdat|
  }

  function FrameOf(e: SampleEntry, data: bytes, video: bool): FrameData {
    if video then NewFrame(data, e.duration, e.isKeyframe, e.compositionOffset)
    else NewFrame(data, e.duration, true, 0)
  }

  /** The frames of a group, unless a sample ends outside the mdat. */
  function FramesOf(group: seq<SampleEntry>, mdat: bytes, mdatOffset: u64, video: bool): Outcome<seq<FrameData>> {
    if group == [] then Done([]) else
      match Extract(group[0], mdat, mdatOffset)
      case Failed => Failed
      case Panicked => Panicked
      case Done(data) =>
        match FramesOf(group[1..], mdat, mdatOffset, video)
        case Failed => Failed
        case Panicked => Panicked
        case Done(frames) => Done([FrameOf(group[0], data, video)] + frames)
  }

  /** The sample starts in front of the mdat payload and ends in it, or its end wraps around into it. */
  predicate Straddles(e: SampleEntry, mdat: bytes, mdatOffset: u64) {
    || (e.offset < mdatOffset <= e.offset + e.size <= mdatOffset + |mdat|)
    || (mdatOffset <= e.offset && TWO64 <= e.offset - mdatOffset + e.size <= TWO64 + |mdat|)
  }

  /** Extraction succeeds on a sample exactly when the sample lies in the mdat, and panics exactly when the
      wrapped end passes the bounds test behind the start. */
  lemma {:induction false} ExtractIff(e: SampleEntry, mdat: bytes, mdatOffset: u64)
    requires mdatOffset + |mdat| < TWO64
    ensures Extract(e, mdat, mdatOffset).Done? <==> InMdat(e, mdat, mdatOffset)
    ensures InMdat(e, mdat, mdatOffset) ==>
      Extract(e, mdat, mdatOffset).value == mdat[e.offset - mdatOffset..e.offset - mdatOffset + e.size]
    ensures Extract(e, mdat, mdatOffset).Panicked? <==> Straddles(e, mdat, mdatOffset)
  {
    hide Wrap64;
    WrapBack64(e.offset, mdatOffset);
    WrapOnce64(Wrap64(e.offset - mdatOffset as int), e.size);
  }

  predicate AllInMdat(entries: seq<SampleEntry>, mdat: bytes, mdatOffset: u64) {
    forall i :: 0 <= i < |entries| ==> InMdat(entries[i], mdat, mdatOffset)
  }

  /** The first sample of the group that is not in the mdat straddles. */
  predicate HitsStraddle(group: seq<SampleEntry>, mdat: bytes, mdatOffset: u64) {
    group != [] && (
      || Straddles(group[0], mdat, mdatOffset)
      || (InMdat(group[0], mdat, mdatOffset) && HitsStraddle(group[1..], mdat, mdatOffset)))
  }

  /** A group gives frames exactly when all of it lies in the mdat, and panics exactly when its first sample that
      does not straddles. */
  lemma {:induction false} FramesIff(group: seq<SampleEntry>, mdat: bytes, mdatOffset: u64, video: bool)
    requires mdatOffset + |mdat| < TWO64
    ensures FramesOf(group, mdat, mdatOffset, video).Done? <==> AllInMdat(group, mdat, mdatOffset)
    ensures FramesOf(group, mdat, mdatOffset, video).Panicked? <==> HitsStraddle(group, mdat, mdatOffset)
  {
    hide Extract, InMdat, Straddles, FrameOf;
    if group != [] {
      ExtractIff(group[0], mdat, mdatOffset);
      FramesIff(group[1..], mdat, mdatOffset, video);
      AllInMdatCons(group[0], group[1..], mdat, mdatOffset);
      assert [group[0]] + group[1..] == group;
    }
  }

  lemma {:induction false} AllInMdatCons(e: SampleEntry, rest: seq<SampleEntry>, mdat: bytes, mdatOffset: u64)
    ensures AllInMdat([e] + rest, mdat, mdatOffset) <==> InMdat(e, mdat, mdatOffset) && AllInMdat(rest, mdat, mdatOffset)
  {
    hide InMdat;
    var all := [e] + rest;
    assert all[0] == e && forall i :: 0 < i < |all| ==> all[i] == rest[i - 1];
    assert forall i :: 0 <= i < |rest| ==> rest[i] == all[i + 1];
  }

  // ---------------------------------------------------------------- a run over the groups

  /** What the video or the audio loop works on. */
  datatype Job = Job(mdat: bytes, mdatOffset: u64, video: bool, trackId: u32, timescale: u32)

  /** The converter's counters and the local decode time that runs beside them. */
  datatype Clock = Clock(sequence: u32, baseTime: u64, decodeTime: u64)

  const FRESH: Clock := Clock(1, 0, 0)

  datatype Ran = Ran(segments: seq<MseSegment>, clock: Clock)

  function Tick(c: Clock, duration: nat): Clock {
    Clock(Wrap32(c.sequence + 1), Wrap64(c.baseTime + duration), Wrap64(c.decodeTime + duration))
  }

  function Millis(decodeTime: u64, timescale: u32): u64
    requires timescale > 0
  {
    Wrap64(decodeTime * 1000) / timescale
  }

  function SegmentOf(frames: seq<FrameData>, trackId: u32, timescale: u32, c: Clock): MseSegment
    requires timescale > 0
  {
    Media(FragmentV2(c.sequence, c.baseTime, trackId, frames), Millis(c.decodeTime, timescale),
          Wrap64(TotalDuration(frames)), true, trackId)
  }

  function FramesFor(group: seq<SampleEntry>, job: Job): Outcome<seq<FrameData>> {
    FramesOf(group, job.mdat, job.mdatOffset, job.video)
  }

  /** One group: skipped whole when a sample ends past the mdat; a zero timescale panics. */
  function RunGroup(group: seq<SampleEntry>, job: Job, c: Clock): (r: Outcome<Ran>)
    ensures !r.Failed?
  {
    match FramesFor(group, job)
    case Panicked => Panicked
    case Failed => Done(Ran([], c))
    case Done(frames) =>
      if frames == [] then Done(Ran([], c))
      else if job.timescale == 0 then Panicked
      else Done(Ran([SegmentOf(frames, job.trackId, job.timescale, c)], Tick(c, TotalDuration(frames))))
  }

  function Prepend(segments: seq<MseSegment>, r: Outcome<Ran>): Outcome<Ran> {
    match r
    case Done(ran) => Done(ran.(segments := segments + ran.segments))
    case Failed => Failed
    case Panicked => Panicked
  }

  function RunGroups(groups: seq<seq<SampleEntry>>, job: Job, c: Clock): (r: Outcome<Ran>)
    ensures !r.Failed?
  {
    if groups == [] then Done(Ran([], c)) else
      match RunGroup(groups[0], job, c)
      case Done(ran) => Prepend(ran.segments, RunGroups(groups[1..], job, ran.clock))
      case _ => Panicked
  }

  lemma {:induction false} PrependTwice(a: seq<MseSegment>, b: seq<MseSegment>, r: Outcome<Ran>)
    ensures Prepend(a, Prepend(b, r)) == Prepend(a + b, r)
  {
    if r.Done? {
      Reassociate(a, b, r.value.segments);
    }
  }

  lemma {:induction false} PrependNothing(r: Outcome<Ran>)
    ensures Prepend([], r) == r
  {
    if r.Done? {
      assert [] + r.value.segments == r.value.segments;
    }
  }

  /** The frame lists of the groups that survive extraction, in order. */
  function Kept(groups: seq<seq<SampleEntry>>, job: Job): seq<seq<FrameData>> {
    if groups == [] then [] else
      var rest := Kept(groups[1..], job);
      match FramesFor(groups[0], job)
      case Done(frames) => if frames == [] then rest else [frames] + rest
      case _ => rest
  }

  /** The run over the surviving lists. */
  function Segments(lists: seq<seq<FrameData>>, trackId: u32, timescale: u32, c: Clock): (s: seq<MseSegment>)
    requires timescale > 0
    ensures |s| == |lists|
  {
    if lists == [] then [] else
      [SegmentOf(lists[0], trackId, timescale, c)]
      + Segments(lists[1..], trackId, timescale, Tick(c, TotalDuration(lists[0])))
  }

  /** Dropping groups leaves the run over the others: neither the sequence numbers nor the timeline see
      the dropped ones. */
  lemma {:induction false} RunIsOverKept(groups: seq<seq<SampleEntry>>, job: Job, c: Clock)
    requires job.timescale > 0
    ensures var r := RunGroups(groups, job, c);
            r.Done? ==> r.value.segments == Segments(Kept(groups, job), job.trackId, job.timescale, c)
  {
    hide FramesFor, SegmentOf, TotalDuration, Tick;
    if groups != [] {
      var ran := RunGroup(groups[0], job, c);
      if ran.Done? {
        RunIsOverKept(groups[1..], job, ran.value.clock);
        PrependNothing(RunGroups(groups[1..], job, c));
        var rest := Kept(groups[1..], job);
        match FramesFor(groups[0], job)
        case Done(frames) => assert ([frames] + rest)[1..] == rest && ([frames] + rest)[0] == frames;
        case _ =>
      }
    }
  }

  /** The groups that have samples and lie in the mdat with all of them. */
  function InRange(groups: seq<seq<SampleEntry>>, job: Job): seq<seq<SampleEntry>> {
    if groups == [] then [] else
      (if groups[0] != [] && AllInMdat(groups[0], job.mdat, job.mdatOffset) then [groups[0]] else []) + InRange(groups[1..], job)
  }

  predicate NoStraddle(groups: seq<seq<SampleEntry>>, job: Job) {
    groups == [] || (!HitsStraddle(groups[0], job.mdat, job.mdatOffset) && NoStraddle(groups[1..], job))
  }

  /** A run panics exactly when some group hits a straddling sample, or a zero timescale meets a group in range. */
  lemma {:induction false} RunDoneIff(groups: seq<seq<SampleEntry>>, job: Job, c: Clock)
    requires job.mdatOffset + |job.mdat| < TWO64
    ensures RunGroups(groups, job, c).Done? <==> NoStraddle(groups, job) && (job.timescale > 0 || InRange(groups, job) == [])
    decreases |groups|
  {
    hide SegmentOf, Tick, FramesOf, AllInMdat, HitsStraddle;
    if groups != [] {
      var g := groups[0];
      FramesIff(g, job.mdat, job.mdatOffset, job.video);
      FramesCount(g, job);
      var ran := RunGroup(g, job, c);
      if ran.Done? {
        RunDoneIff(groups[1..], job, ran.value.clock);
      }
    }
  }

  lemma {:induction false} FramesCount(group: seq<SampleEntry>, job: Job)
    ensures FramesFor(group, job).Done? ==> |FramesFor(group, job).value| == |group|
  {
    hide Extract, FrameOf;
    if group != [] {
      FramesCount(group[1..], job);
    }
  }

  /** What is kept of the groups is what is kept of those in range: a group with a sample out of range is dropped
      whole, and no other is. */
  lemma {:induction false} KeptInRange(groups: seq<seq<SampleEntry>>, job: Job)
    requires job.mdatOffset + |job.mdat| < TWO64
    ensures Kept(groups, job) == Kept(InRange(groups, job), job)
    ensures |Kept(groups, job)| == |InRange(groups, job)|
    decreases |groups|
  {
    hide FramesOf, AllInMdat, HitsStraddle;
    if groups != [] {
      var g, rest := groups[0], InRange(groups[1..], job);
      FramesIff(g, job.mdat, job.mdatOffset, job.video);
      FramesCount(g, job);
      KeptInRange(groups[1..], job);
      assert [] + rest == rest;
      assert ([g] + rest)[0] == g && ([g] + rest)[1..] == rest;
    }
  }

  // ---------------------------------------------------------------- size limits

  function TotalSize(group: seq<SampleEntry>): nat {
    if group == [] then 0 else group[0].size + TotalSize(group[1..])
  }

  /** Every group fits the 32-bit size of an mdat and the signed 32-bit data offset of a run. */
  predicate GroupsFit(groups: seq<seq<SampleEntry>>) {
    forall k :: 0 <= k < |groups| ==>
      8 + TotalSize(groups[k]) < TWO32 && MoofSizeV2(|groups[k]|, TWO64 - 1) + 8 < 0x8000_0000
  }

  predicate AllFit(lists: seq<seq<FrameData>>) {
    forall k :: 0 <= k < |lists| ==> FitsV2(lists[k], TWO64 - 1)
  }

  lemma {:induction false} ExtractedSize(e: SampleEntry, mdat: bytes, mdatOffset: u64)
    ensures Extract(e, mdat, mdatOffset).Done? ==> |Extract(e, mdat, mdatOffset).value| == e.size
  {
  }

  lemma {:induction false} FramesSized(group: seq<SampleEntry>, mdat: bytes, mdatOffset: u64, video: bool)
    requires FramesOf(group, mdat, mdatOffset, video).Done?
    ensures var frames := FramesOf(group, mdat, mdatOffset, video).value;
            Sized(frames) && |frames| == |group| && |Payload(frames)| == TotalSize(group)
  {
    hide Extract, Wrap32, Payload;
    if group == [] {
      EmptyPayload();
    } else {
      var e := group[0];
      ExtractedSize(e, mdat, mdatOffset);
      NoWrap32(e.size);
      FramesSized(group[1..], mdat, mdatOffset, video);
      var frames := FramesOf(group, mdat, mdatOffset, video).value;
      var rest := FramesOf(group[1..], mdat, mdatOffset, video).value;
      assert frames[1..] == rest;
      PayloadFront(frames);
    }
  }

  lemma {:induction false} KeptFits(groups: seq<seq<SampleEntry>>, job: Job)
    requires GroupsFit(groups)
    ensures AllFit(Kept(groups, job))
  {
    hide FramesOf, Payload, Sized;
    if groups != [] {
      KeptFits(groups[1..], job);
      var rest := Kept(groups[1..], job);
      match FramesFor(groups[0], job)
      case Done(frames) =>
        FramesSized(groups[0], job.mdat, job.mdatOffset, job.video);
        assert FitsV2(frames, TWO64 - 1);
        assert forall k :: 0 < k < |[frames] + rest| ==> ([frames] + rest)[k] == rest[k - 1];
      case _ =>
    }
  }

  lemma {:induction false} KeptLength(groups: seq<seq<SampleEntry>>, job: Job)
    ensures |Flatten(Kept(groups, job))| <= |Flatten(groups)|
  {
    hide FramesOf;
    if groups != [] {
      KeptLength(groups[1..], job);
      var rest := Kept(groups[1..], job);
      match FramesFor(groups[0], job)
      case Done(frames) =>
        FramesSized(groups[0], job.mdat, job.mdatOffset, job.video);
        assert ([frames] + rest)[1..] == rest;
      case _ =>
    }
  }

  /** Durations are 32-bit and samples are counted in 32 bits, so a timeline from 0 never overflows. */
  lemma {:induction false} ElapsedBound(lists: seq<seq<FrameData>>)
    ensures Elapsed(lists) <= |Flatten(lists)| * (TWO32 - 1)
  {
    if lists != [] {
      ElapsedBound(lists[1..]);
      DurationBound(lists[0]);
      assert |Flatten(lists)| * (TWO32 - 1) == |lists[0]| * (TWO32 - 1) + |Flatten(lists[1..])| * (TWO32 - 1);
    }
  }

  lemma {:induction false} DurationBound(frames: seq<FrameData>)
    ensures TotalDuration(frames) <= |frames| * (TWO32 - 1)
  {
    if frames != [] {
      DurationBound(frames[..|frames| - 1]);
      assert |frames| * (TWO32 - 1) == (|frames| - 1) * (TWO32 - 1) + (TWO32 - 1);
    }
  }

  // ---------------------------------------------------------------- meaning preserved

  /** Demux a list of segments one after the other. */
  function DemuxAll(segments: seq<MseSegment>, d: Defaults): Option<seq<TimedSample>> {
    if segments == [] then Some([]) else
      match (DemuxFragment(segments[0].data, d), DemuxAll(segments[1..], d))
      case (Some(f), Some(rest)) => Some(f.samples + rest)
      case _ => None
  }

  function FrontDuration(frames: seq<FrameData>): nat {
    if frames == [] then 0 else frames[0].duration + FrontDuration(frames[1..])
  }

  lemma {:induction false} TimedCons(frames: seq<FrameData>, time: nat)
    requires frames != []
    ensures var f := frames[0];
            Timed(frames, time)
            == [TimedSample(time, f.duration, f.isKeyframe, if f.isKeyframe then 2 else 1, f.compositionOffset, f.data)]
               + Timed(frames[1..], time + f.duration)
  {
  }

  lemma {:induction false} TimedConcat(a: seq<FrameData>, b: seq<FrameData>, time: nat)
    ensures Timed(a + b, time) == Timed(a, time) + Timed(b, time + FrontDuration(a))
    decreases |a|
  {
    if a == [] {
      assert a + b == b;
    } else {
      TimedConcat(a[1..], b, time + a[0].duration);
      assert (a + b)[1..] == a[1..] + b && (a + b)[0] == a[0];
      TimedCons(a, time);
      TimedCons(a + b, time);
      hide Timed;
    }
  }

  lemma {:induction false} DurationsAgree(frames: seq<FrameData>)
    ensures FrontDuration(frames) == TotalDuration(frames)
  {
    if frames != [] {
      var init := frames[..|frames| - 1];
      if init == [] {
        assert frames[1..] == [];
      } else {
        DurationsAgree(frames[1..]);
        DurationsAgree(init);
        assert frames[1..][..|frames| - 2] == init[1..];
        DurationsAgree(init[1..]);
      }
    }
  }

  lemma {:induction false} SegmentDemuxed(frames: seq<FrameData>, trackId: u32, timescale: u32, c: Clock, d: Defaults)
    requires timescale > 0 && FitsV2(frames, TWO64 - 1)
    ensures DemuxFragment(SegmentOf(frames, trackId, timescale, c).data, d)
         == Some(Fragment(c.sequence, trackId, c.baseTime, Timed(frames, c.baseTime)))
  {
    hide FragmentV2, DemuxFragment, Timed;
    assert FitsV2(frames, c.baseTime);
    FragmentV2RoundTrip(c.sequence, c.baseTime, trackId, frames, d);
  }

  lemma {:induction false} TimedNothing(time: nat)
    ensures Timed([], time) == []
  {
  }

  /** Demuxing a run gives its frames on one continuous timeline. */
  lemma {:induction false} SegmentsDemuxed(lists: seq<seq<FrameData>>, trackId: u32, timescale: u32, c: Clock, d: Defaults)
    requires timescale > 0 && AllFit(lists) && c.baseTime + Elapsed(lists) < TWO64
    ensures DemuxAll(Segments(lists, trackId, timescale, c), d) == Some(Timed(Flatten(lists), c.baseTime))
    decreases |lists|
  {
    hide DemuxFragment, SegmentOf, TotalDuration, FitsV2, Timed, Wrap32, Wrap64;
    if lists == [] {
      TimedNothing(c.baseTime);
    } else {
      var frames, rest := lists[0], lists[1..];
      NoWrap64(c.baseTime + TotalDuration(frames));
      SegmentDemuxed(frames, trackId, timescale, c, d);
      SegmentsDemuxed(rest, trackId, timescale, Tick(c, TotalDuration(frames)), d);
      TimedConcat(frames, Flatten(rest), c.baseTime);
      DurationsAgree(frames);
    }
  }

  lemma {:induction false} KeptGroupsDemuxed(groups: seq<seq<SampleEntry>>, job: Job, d: Defaults)
    requires job.mdatOffset + |job.mdat| < TWO64 && job.timescale > 0
    requires |Flatten(InRange(groups, job))| < TWO32 && GroupsFit(InRange(groups, job))
    ensures var r := RunGroups(groups, job, FRESH);
            r.Done? ==> DemuxAll(r.value.segments, d) == Some(Timed(Flatten(Kept(groups, job)), 0))
  {
    hide Kept, AllFit, Segments, DemuxAll, Timed, GroupsFit, RunGroups, InRange;
    var lists := Kept(groups, job);
    KeptInRange(groups, job);
    KeptFits(InRange(groups, job), job);
    RunIsOverKept(groups, job, FRESH);
    KeptLength(InRange(groups, job), job);
    ElapsedBound(lists);
    assert |Flatten(lists)| * (TWO32 - 1) < TWO64 by {
      ProductMonotone(|Flatten(lists)|, TWO32 - 1, TWO32 - 1, TWO32 - 1);
    }
    SegmentsDemuxed(lists, job.trackId, job.timescale, FRESH, d);
  }

  /** A source sample with the bytes the table points at in the file; audio samples are all sync samples without a
      composition offset. */
  function SourceSample(e: SampleEntry, file: bytes, time: nat, video: bool): TimedSample
    requires e.offset + e.size <= |file|
  {
    var independent := !video || e.isKeyframe;
    TimedSample(time, e.duration, independent, if independent then 2 else 1, if video then e.compositionOffset else 0,
                file[e.offset..e.offset + e.size])
  }

  predicate AllInFile(entries: seq<SampleEntry>, file: bytes) {
    forall i :: 0 <= i < |entries| ==> entries[i].offset + entries[i].size <= |file|
  }

  /** The source samples on their own timeline. */
  function SourceSamples(entries: seq<SampleEntry>, file: bytes, time: nat, video: bool): seq<TimedSample>
    requires AllInFile(entries, file)
  {
    if entries == [] then [] else
      [SourceSample(entries[0], file, time, video)] + SourceSamples(entries[1..], file, time + entries[0].duration, video)
  }

  /** The job works on a window of the file. */
  predicate OnFile(job: Job, file: bytes) {
    job.mdatOffset + |job.mdat| <= |file| < TWO64 && file[job.mdatOffset..job.mdatOffset + |job.mdat|] == job.mdat
  }

  lemma {:induction false} InMdatInFile(entries: seq<SampleEntry>, job: Job, file: bytes)
    requires OnFile(job, file) && AllInMdat(entries, job.mdat, job.mdatOffset)
    ensures AllInFile(entries, file)
  {
    assert forall i :: 0 <= i < |entries| ==> InMdat(entries[i], job.mdat, job.mdatOffset);
  }

  lemma {:induction false} SampleExtracted(e: SampleEntry, file: bytes, job: Job)
    requires OnFile(job, file) && InMdat(e, job.mdat, job.mdatOffset)
    ensures e.offset + e.size <= |file|
    ensures Extract(e, job.mdat, job.mdatOffset) == Done(file[e.offset..e.offset + e.size])
  {
    ExtractIff(e, job.mdat, job.mdatOffset);
    SubWindow(file, job.mdatOffset, job.mdatOffset + |job.mdat|, e.offset - job.mdatOffset, e.offset - job.mdatOffset + e.size);
  }

  /** The frames extracted from samples that lie in the mdat are those samples. */
  lemma {:induction false} FramesAreSamples(group: seq<SampleEntry>, file: bytes, job: Job, time: nat)
    requires OnFile(job, file) && AllInMdat(group, job.mdat, job.mdatOffset)
    ensures AllInFile(group, file) && FramesFor(group, job).Done?
    ensures Timed(FramesFor(group, job).value, time) == SourceSamples(group, file, time, job.video)
  {
    hide Extract, Wrap32, InMdat, OnFile;
    InMdatInFile(group, job, file);
    if group != [] {
      var e := group[0];
      NoWrap32(e.size);
      SampleExtracted(e, file, job);
      FramesAreSamples(group[1..], file, job, time + e.duration);
      var rest := FramesFor(group[1..], job).value;
      var f := FrameOf(e, file[e.offset..e.offset + e.size], job.video);
      assert ([f] + rest)[1..] == rest;
    }
  }

  lemma {:induction false} FramesConcat(a: seq<SampleEntry>, b: seq<SampleEntry>, job: Job)
    requires FramesFor(a, job).Done? && FramesFor(b, job).Done?
    ensures FramesFor(a + b, job) == Done(FramesFor(a, job).value + FramesFor(b, job).value)
    decreases |a|
  {
    hide Extract, FrameOf;
    var frames := FramesFor(b, job).value;
    if a == [] {
      assert a + b == b && [] + frames == frames;
    } else {
      FramesConcat(a[1..], b, job);
      assert (a + b)[1..] == a[1..] + b && (a + b)[0] == a[0];
      var f := FrameOf(a[0], Extract(a[0], job.mdat, job.mdatOffset).value, job.video);
      var rest := FramesFor(a[1..], job).value;
      Reassociate([f], rest, frames);
    }
  }

  lemma {:induction false} AllInMdatConcat(a: seq<SampleEntry>, b: seq<SampleEntry>, mdat: bytes, mdatOffset: u64)
    ensures AllInMdat(a + b, mdat, mdatOffset) <==> AllInMdat(a, mdat, mdatOffset) && AllInMdat(b, mdat, mdatOffset)
  {
    hide InMdat;
    assert forall i :: 0 <= i < |a| ==> a[i] == (a + b)[i];
    assert forall i :: 0 <= i < |b| ==> b[i] == (a + b)[|a| + i];
  }

  /** What is kept are the frames of the samples in range. */
  lemma {:induction false} KeptFrames(groups: seq<seq<SampleEntry>>, job: Job)
    requires job.mdatOffset + |job.mdat| < TWO64
    ensures AllInMdat(Flatten(InRange(groups, job)), job.mdat, job.mdatOffset)
    ensures FramesFor(Flatten(InRange(groups, job)), job) == Done(Flatten(Kept(groups, job)))
    decreases |groups|
  {
    hide AllInMdat, HitsStraddle, FramesOf;
    if groups == [] {
      NoFrames(job);
    } else {
      var g, rest := groups[0], InRange(groups[1..], job);
      FramesIff(g, job.mdat, job.mdatOffset, job.video);
      FramesCount(g, job);
      KeptFrames(groups[1..], job);
      assert [] + rest == rest;
      if g != [] && AllInMdat(g, job.mdat, job.mdatOffset) {
        AllInMdatConcat(g, Flatten(rest), job.mdat, job.mdatOffset);
        FramesConcat(g, Flatten(rest), job);
        assert ([g] + rest)[1..] == rest;
        var kept := Kept(groups[1..], job);
        assert ([FramesFor(g, job).value] + kept)[1..] == kept;
      }
    }
  }

  lemma {:induction false} NoFrames(job: Job)
    ensures AllInMdat([], job.mdat, job.mdatOffset) && FramesFor([], job) == Done([])
  {
  }

  /** For any groups and any mdat: unless a group hits a straddling sample, the fragments of a fresh converter
      demux to exactly the source samples of the groups that lie in the mdat, in order, with their bytes, on a
      timeline from 0 without gaps. */
  lemma {:induction false} InRangeDemuxed(groups: seq<seq<SampleEntry>>, file: bytes, job: Job, d: Defaults)
    requires OnFile(job, file) && job.timescale > 0 && NoStraddle(groups, job)
    requires |Flatten(InRange(groups, job))| < TWO32 && GroupsFit(InRange(groups, job))
    ensures var r := RunGroups(groups, job, FRESH);
            var samples := Flatten(InRange(groups, job));
            && r.Done? && AllInFile(samples, file)
            && DemuxAll(r.value.segments, d) == Some(SourceSamples(samples, file, 0, job.video))
  {
    assert job.mdatOffset + |job.mdat| < TWO64;
    hide Kept, RunGroups, DemuxAll, SourceSamples, Timed, FramesOf, GroupsFit, InRange, AllInMdat, NoStraddle, OnFile;
    RunDoneIff(groups, job, FRESH);
    KeptFrames(groups, job);
    FramesAreSamples(Flatten(InRange(groups, job)), file, job, 0);
    KeptGroupsDemuxed(groups, job, d);
  }

  /** When everything lies in the mdat, nothing is out of range and nothing straddles. */
  lemma {:induction false} EverythingInRange(groups: seq<seq<SampleEntry>>, job: Job)
    requires job.mdatOffset + |job.mdat| < TWO64
    requires AllInMdat(Flatten(groups), job.mdat, job.mdatOffset)
    requires forall k :: 0 <= k < |groups| ==> groups[k] != []
    ensures InRange(groups, job) == groups && NoStraddle(groups, job)
    decreases |groups|
  {
    hide AllInMdat, HitsStraddle, FramesOf;
    if groups != [] {
      AllInMdatConcat(groups[0], Flatten(groups[1..]), job.mdat, job.mdatOffset);
      EverythingInRange(groups[1..], job);
      FramesIff(groups[0], job.mdat, job.mdatOffset, job.video);
      assert [groups[0]] + groups[1..] == groups;
    }
  }

  /** End to end: when every sample lies in the mdat, the video fragments of a fresh converter
      demux to exactly the source samples, in order, with the bytes the table points at in the file, their
      decode times, durations, sync flags and composition offsets. */
  lemma {:induction false} VideoMeaningPreserved(entries: seq<SampleEntry>, file: bytes, job: Job, d: Defaults)
    requires |entries| < TWO32 && job.video && job.timescale > 0 && OnFile(job, file)
    requires AllInMdat(entries, job.mdat, job.mdatOffset) && GroupsFit(Gops(entries))
    ensures AllInFile(entries, file)
    ensures var r := RunGroups(Gops(entries), job, FRESH);
            r.Done? && DemuxAll(r.value.segments, d) == Some(SourceSamples(entries, file, 0, true))
  {
    assert job.mdatOffset + |job.mdat| < TWO64;
    hide Gops, RunGroups, DemuxAll, SourceSamples, GroupsFit, OnFile, InRange, NoStraddle, AllInMdat;
    GopsPartition(entries);
    EverythingInRange(Gops(entries), job);
    InRangeDemuxed(Gops(entries), file, job, d);
  }

  /** The same for audio, cut into chunks: every sample is a sync sample without a composition offset. */
  lemma {:induction false} AudioMeaningPreserved(entries: seq<SampleEntry>, file: bytes, job: Job, d: Defaults)
    requires 0 < |entries| < TWO32 && !job.video && job.timescale > 0 && OnFile(job, file)
    requires AllInMdat(entries, job.mdat, job.mdatOffset)
    requires GroupsFit(Chunks(entries, SamplesPerChunk(job.timescale, entries[0].duration)))
    ensures AllInFile(entries, file)
    ensures var r := RunGroups(Chunks(entries, SamplesPerChunk(job.timescale, entries[0].duration)), job, FRESH);
            r.Done? && DemuxAll(r.value.segments, d) == Some(SourceSamples(entries, file, 0, false))
  {
    assert job.mdatOffset + |job.mdat| < TWO64;
    hide Chunks, SamplesPerChunk, RunGroups, DemuxAll, SourceSamples, GroupsFit, OnFile, InRange, NoStraddle, AllInMdat;
    var size := SamplesPerChunk(job.timescale, entries[0].duration);
    ChunksPartition(entries, size);
    EverythingInRange(Chunks(entries, size), job);
    InRangeDemuxed(Chunks(entries, size), file, job, d);
  }

  // ---------------------------------------------------------------- the two clocks, and timestamps

  /** How far the converter's base time is ahead of the local decode time. */
  function Lead(c: Clock): u64 { Wrap64(c.baseTime - c.decodeTime as int) }

  /** The local decode time always differs from the converter's base time by what it started with. */
  lemma {:induction false} ClocksAgree(groups: seq<seq<SampleEntry>>, job: Job, c: Clock)
    ensures RunGroups(groups, job, c).Done? ==> Lead(RunGroups(groups, job, c).value.clock) == Lead(c)
  {
    hide FramesFor, SegmentOf, RunGroup, Lead;
    if groups != [] {
      var ran := RunGroup(groups[0], job, c);
      if ran.Done? {
        ClockStep(groups[0], job, c);
        ClocksAgree(groups[1..], job, ran.value.clock);
      }
    }
  }

  lemma {:induction false} ClockStep(group: seq<SampleEntry>, job: Job, c: Clock)
    ensures RunGroup(group, job, c).Done? ==> Lead(RunGroup(group, job, c).value.clock) == Lead(c)
  {
    hide SegmentOf;
    var frames := FramesFor(group, job);
    if frames.Done? {
      WrapDifference(c.baseTime, c.decodeTime, TotalDuration(frames.value));
    }
    hide FramesFor, Wrap64, TotalDuration;
  }

  lemma {:induction false} WrapDifference(a: nat, b: nat, n: nat)
    ensures Wrap64(Wrap64(a + n) - Wrap64(b + n) as int) == Wrap64(a - b)
  {
    var x, y := a + n, b + n;
    var p, q := x / 0x1_0000_0000_0000_0000, y / 0x1_0000_0000_0000_0000;
    assert a - b == (p - q) * 0x1_0000_0000_0000_0000 + (Wrap64(x) - Wrap64(y) as int);
    WrapMultiple(Wrap64(x) - Wrap64(y) as int, p - q);
  }

  lemma {:induction false} WrapMultiple(a: int, k: int)
    ensures Wrap64(a + k * 0x1_0000_0000_0000_0000) == Wrap64(a)
  {
  }

  /** Wrapping early makes no difference to a product with 1000 either. */
  lemma {:induction false} WrapThousand(x: nat, y: nat)
    ensures Wrap64((Wrap64(x) + y) * 1000) == Wrap64((x + y) * 1000)
  {
    var q := x / 0x1_0000_0000_0000_0000;
    assert x == q * 0x1_0000_0000_0000_0000 + Wrap64(x);
    assert (x + y) * 1000 == (Wrap64(x) + y) * 1000 + (1000 * q) * 0x1_0000_0000_0000_0000;
    WrapMultiple((Wrap64(x) + y) * 1000, 1000 * q);
  }

  /** The exact start of segment `k`, in thousandths of a tick. */
  function StartOf(lists: seq<seq<FrameData>>, c: Clock, k: nat): nat
    requires k <= |lists|
  {
    (c.decodeTime + ElapsedBefore(lists, k)) * 1000
  }

  lemma {:induction false} SegmentStamp(lists: seq<seq<FrameData>>, trackId: u32, timescale: u32, c: Clock, k: nat)
    requires timescale > 0 && k < |lists|
    ensures var s := Segments(lists, trackId, timescale, c)[k];
            s.Media? && s.timestamp == Wrap64(StartOf(lists, c, k)) / timescale
    decreases |lists|
  {
    hide FragmentV2, TotalDuration, Wrap32, Wrap64;
    if k > 0 {
      WrapThousand(c.decodeTime + TotalDuration(lists[0]), ElapsedBefore(lists[1..], k - 1));
      SegmentStamp(lists[1..], trackId, timescale, Tick(c, TotalDuration(lists[0])), k - 1);
    }
  }

  lemma {:induction false} QuotientBounds(a: nat, w: nat)
    requires w > 0
    ensures a / w * w <= a < (a / w + 1) * w
  {
    var q := a / w;
    assert a == q * w + a % w;
    assert (q + 1) * w == q * w + w;
  }

  /** A stamp that is the exact start, rounded down to a millisecond. */
  predicate ToTheMillisecond(stamp: nat, timescale: u32, start: nat) {
    stamp * timescale <= start < (stamp + 1) * timescale
  }

  lemma {:induction false} WrappedStampIff(start: nat, timescale: u32)
    requires timescale > 0
    ensures ToTheMillisecond(Wrap64(start) / timescale, timescale, start) <==> start < TWO64
  {
    var w := Wrap64(start);
    assert start >= TWO64 ==> w <= start - TWO64;
    if start < TWO64 {
      NoWrap64(start);
    }
    hide Wrap64;
    QuotientBounds(w, timescale);
    var q := w / timescale;
    assert (q + 1) * timescale == q * timescale + timescale;
  }

  /** Segment `k` is stamped with its own start, to the millisecond -- no drift builds up, however many segments came
      before -- exactly as long as a thousand times that start fits 64 bits. */
  lemma {:induction false} SegmentTimestamps(lists: seq<seq<FrameData>>, trackId: u32, timescale: u32, c: Clock, k: nat)
    requires timescale > 0 && k < |lists|
    ensures var s := Segments(lists, trackId, timescale, c)[k];
            && s.Media? && s.timestamp == Wrap64(StartOf(lists, c, k)) / timescale
            && (ToTheMillisecond(s.timestamp, timescale, StartOf(lists, c, k)) <==> StartOf(lists, c, k) < TWO64)
  {
    hide Segments, StartOf, ToTheMillisecond, Wrap64;
    SegmentStamp(lists, trackId, timescale, c, k);
    WrappedStampIff(StartOf(lists, c, k), timescale);
  }

  lemma {:induction false} QuotientMonotone(a: nat, b: nat, w: nat)
    requires w > 0 && a <= b
    ensures a / w <= b / w
  {
    QuotientBounds(a, w);
    QuotientBounds(b, w);
    if b / w < a / w {
      ProductMonotone(b / w + 1, a / w, w, w);
    }
  }

  /** Up to there the stamps never go back. */
  lemma {:induction false} TimestampsMonotone(lists: seq<seq<FrameData>>, trackId: u32, timescale: u32, c: Clock, j: nat, k: nat)
    requires timescale > 0 && j <= k < |lists| && StartOf(lists, c, k) < TWO64
    ensures var s := Segments(lists, trackId, timescale, c);
            s[j].Media? && s[k].Media? && s[j].timestamp <= s[k].timestamp
  {
    ElapsedMonotone(lists, j, k);
    SegmentStamp(lists, trackId, timescale, c, j);
    SegmentStamp(lists, trackId, timescale, c, k);
    var x, y := StartOf(lists, c, j), StartOf(lists, c, k);
    assert x <= y;
    hide Segments, StartOf;
    NoWrap64(x);
    NoWrap64(y);
    hide Wrap64;
    QuotientMonotone(x, y, timescale);
  }

  /** One-byte frames of the greatest duration, one in each list, as a file of sync samples with a single stts run of
      delta 0xFFFFFFFF has them. */
  function LongFrames(n: nat): (lists: seq<seq<FrameData>>)
    ensures |lists| == n
  {
    seq(n, i => [NewFrame([0], 0xFFFF_FFFF, true, 0)])
  }

  /** The stamp of segment `k` is wrong, and lies before that of the segment in front of it. */
  predicate GoesBackAt(lists: seq<seq<FrameData>>, trackId: u32, timescale: u32, c: Clock, k: nat)
    requires timescale > 0 && 0 < k < |lists|
  {
    var s := Segments(lists, trackId, timescale, c);
    && StartOf(lists, c, k - 1) < TWO64 <= StartOf(lists, c, k)
    && s[k - 1].Media? && s[k].Media? && s[k].timestamp < s[k - 1].timestamp
    && !ToTheMillisecond(s[k].timestamp, timescale, StartOf(lists, c, k))
  }

  lemma {:induction false} LongElapsed(n: nat, k: nat)
    requires k <= n
    ensures ElapsedBefore(LongFrames(n), k) == k * 0xFFFF_FFFF
  {
    if k > 0 {
      LongElapsed(n - 1, k - 1);
      assert LongFrames(n)[1..] == LongFrames(n - 1);
      var one := LongFrames(n)[0];
      assert one[..0] == [];
    }
  }

  /** The failing run: 4,294,969 such samples at one tick per second. The last but one is the first whose stamp is
      wrong, and there the stamps go back. */
  lemma {:induction false} StampsGoBack(trackId: u32)
    ensures GoesBackAt(LongFrames(4_294_969), trackId, 1, FRESH, 4_294_968)
  {
    hide Segments, LongFrames, ElapsedBefore;
    var n := 4_294_969;
    LongElapsed(n, 4_294_967);
    LongElapsed(n, 4_294_968);
    SegmentTimestamps(LongFrames(n), trackId, 1, FRESH, 4_294_967);
    SegmentTimestamps(LongFrames(n), trackId, 1, FRESH, 4_294_968);
  }

  lemma {:induction false} ElapsedMonotone(lists: seq<seq<FrameData>>, j: nat, k: nat)
    requires j <= k <= |lists|
    ensures ElapsedBefore(lists, j) <= ElapsedBefore(lists, k)
    decreases j
  {
    if j > 0 {
      ElapsedMonotone(lists[1..], j - 1, k - 1);
    }
  }

  // ---------------------------------------------------------------- the fallback without a sample table

  const LEGACY_CHUNK: nat := 64 * 1024

  function LegacyChunks(mdat: bytes): seq<bytes>
    decreases |mdat|
  {
    if mdat == [] then [] else
      var n := Least(LEGACY_CHUNK, |mdat|);
      [mdat[..n]] + LegacyChunks(mdat[n..])
  }

  /** One version 1 fragment per 64 KiB of mdat, each claimed to last one second. */
  function LegacySegments(chunks: seq<bytes>, index: nat, trackId: u32, timescale: u32, sequence: u32, baseTime: u64): seq<MseSegment> {
    if chunks == [] then [] else
      var frame := NewFrame(chunks[0], timescale, index == 0, 0);
      [Media(FragmentV1(sequence, baseTime, trackId, [frame]), Wrap64(index * 1000), timescale, index == 0, trackId)]
      + LegacySegments(chunks[1..], index + 1, trackId, timescale, Wrap32(sequence + 1), Wrap64(baseTime + timescale))
  }

  function SampleBytes(samples: seq<TimedSample>): bytes {
    if samples == [] then [] else samples[0].data + SampleBytes(samples[1..])
  }

  lemma {:induction false} LegacyChunkDemuxed(data: bytes, key: bool, trackId: u32, timescale: u32, sequence: u32, baseTime: u64, d: Defaults)
    requires 0 < |data| <= LEGACY_CHUNK
    ensures var r := DemuxFragment(FragmentV1(sequence, baseTime, trackId, [NewFrame(data, timescale, key, 0)]), d);
            r.Some? && |r.value.samples| == 1 && r.value.samples[0].data == data
  {
    var frames := [NewFrame(data, timescale, key, 0)];
    PayloadFront(frames);
    EmptyPayload();
    assert frames[1..] == [];
    hide FragmentV1, DemuxFragment, Payload;
    FragmentV1RoundTrip(sequence, baseTime, trackId, frames, d);
  }

  lemma {:induction false} OneMore(first: bytes, rest: bytes, segments: seq<MseSegment>, d: Defaults)
    requires segments != []
    requires var r := DemuxFragment(segments[0].data, d);
             r.Some? && |r.value.samples| == 1 && r.value.samples[0].data == first
    requires var r := DemuxAll(segments[1..], d);
             r.Some? && SampleBytes(r.value) == rest
    ensures var r := DemuxAll(segments, d);
            r.Some? && SampleBytes(r.value) == first + rest
  {
    hide DemuxFragment;
    var samples, others := DemuxFragment(segments[0].data, d).value.samples, DemuxAll(segments[1..], d).value;
    assert (samples + others)[1..] == others;
  }

  lemma {:induction false} LegacyNothing(index: nat, trackId: u32, timescale: u32, sequence: u32, baseTime: u64, d: Defaults)
    ensures var r := DemuxAll(LegacySegments(LegacyChunks([]), index, trackId, timescale, sequence, baseTime), d);
            r.Some? && SampleBytes(r.value) == []
  {
  }

  lemma {:induction false} LegacyUnfold(mdat: bytes, index: nat, trackId: u32, timescale: u32, sequence: u32, baseTime: u64)
    requires mdat != []
    ensures var n := Least(LEGACY_CHUNK, |mdat|);
            var s := LegacySegments(LegacyChunks(mdat), index, trackId, timescale, sequence, baseTime);
            s != [] && s[0].data == FragmentV1(sequence, baseTime, trackId, [NewFrame(mdat[..n], timescale, index == 0, 0)])
            && s[1..] == LegacySegments(LegacyChunks(mdat[n..]), index + 1, trackId, timescale,
                                        Wrap32(sequence + 1), Wrap64(baseTime + timescale))
  {
    hide FragmentV1, NewFrame, Wrap32, Wrap64;
    var rest := LegacyChunks(mdat[Least(LEGACY_CHUNK, |mdat|)..]);
    assert LegacyChunks(mdat)[1..] == rest;
  }

  /** The fallback loses no byte of the mdat. */
  lemma {:induction false} LegacyBytesKept(mdat: bytes, index: nat, trackId: u32, timescale: u32, sequence: u32, baseTime: u64, d: Defaults)
    ensures var r := DemuxAll(LegacySegments(LegacyChunks(mdat), index, trackId, timescale, sequence, baseTime), d);
            r.Some? && SampleBytes(r.value) == mdat
    decreases |mdat|
  {
    hide LegacyChunks, LegacySegments, DemuxFragment, DemuxAll, SampleBytes, FragmentV1, Wrap32, Wrap64, NewFrame;
    if mdat == [] {
      LegacyNothing(index, trackId, timescale, sequence, baseTime, d);
    } else {
      var n := Least(LEGACY_CHUNK, |mdat|);
      assert mdat[..n] + mdat[n..] == mdat;
      LegacyChunkDemuxed(mdat[..n], index == 0, trackId, timescale, sequence, baseTime, d);
      LegacyBytesKept(mdat[n..], index + 1, trackId, timescale, Wrap32(sequence + 1), Wrap64(baseTime + timescale), d);
      LegacyUnfold(mdat, index, trackId, timescale, sequence, baseTime);
      OneMore(mdat[..n], mdat[n..], LegacySegments(LegacyChunks(mdat), index, trackId, timescale, sequence, baseTime), d);
    }
  }
}
