/** An independent reading of a movie fragment, after ISO/IEC 14496-12 (sections 8.8.7, 8.8.8 and 8.8.12),
    and the round trips through the fragment writer. */
module Demux {
  import opened Bytes
  import opened Outcomes
  import opened Boxes
  import opened Converter

  /** `dependsOn` is sample_depends_on: 1 for a sample that depends on others, 2 for one that does not. */
  datatype TimedSample = TimedSample(
    decodeTime: nat, duration: u32, sync: bool, dependsOn: nat, compositionOffset: int, data: bytes)

  datatype Fragment = Fragment(sequence: u32, trackId: u32, baseTime: u64, samples: seq<TimedSample>)

  /** The trex defaults a track run falls back to. */
  datatype Defaults = Defaults(duration: u32, size: u32, flags: u32)

  function Find(bs: seq<Box>, kind: bytes): Option<Box> {
    if bs == [] then None else if bs[0].kind == kind then Some(bs[0]) else Find(bs[1..], kind)
  }

  /** The three flag bytes behind the version byte of a full box. */
  function Flags(payload: bytes): nat
    requires |payload| >= 4
  {
    var a: int, b: int, c: int := payload[1], payload[2], payload[3];
    a * 0x1_0000 + b * 0x100 + c
  }

  predicate Has(flags: nat, bit: nat)
    requires bit > 0
  {
    flags / bit % 2 == 1
  }

  /** The sample_depends_on field of sample flags (section 8.8.3.1). */
  function DependsOn(flags: u32): nat { flags / 0x100_0000 % 4 }

  datatype Row = Row(duration: u32, size: u32, flags: u32, compositionOffset: int)

  function Field(present: bool): nat { if present then 4 else 0 }

  /** The rows of a track run; each row holds the fields the flags announce. Composition offsets are unsigned in
      version 0. */
  function ReadRows(p: bytes, at: nat, n: nat, version: byte, flags: nat, d: Defaults): Option<seq<Row>>
    decreases n
  {
    if n == 0 then Some([]) else
      var hasDuration, hasSize, hasFlags, hasOffset := Has(flags, 0x100), Has(flags, 0x200), Has(flags, 0x400), Has(flags, 0x800);
      var sizeAt := at + Field(hasDuration);
      var flagsAt := sizeAt + Field(hasSize);
      var offsetAt := flagsAt + Field(hasFlags);
      var next := offsetAt + Field(hasOffset);
      if next > |p| then None else
        var row := Row(
          if hasDuration then Read32(p, at) else d.duration,
          if hasSize then Read32(p, sizeAt) else d.size,
          if hasFlags then Read32(p, flagsAt) else d.flags,
          if !hasOffset then 0 else if version == 0 then Read32(p, offsetAt) else Signed(Read32(p, offsetAt)));
        match ReadRows(p, next, n - 1, version, flags, d)
        case None => None
        case Some(rows) => Some([row] + rows)
  }

  /** Samples lie back to back from `at`; each is decoded when the earlier ones are over. */
  function CutSamples(rows: seq<Row>, s: bytes, at: int, time: nat): Option<seq<TimedSample>> {
    if rows == [] then Some([]) else
      var row := rows[0];
      if at < 0 || at + row.size > |s| then None else
        match CutSamples(rows[1..], s, at + row.size, time + row.duration)
        case None => None
        case Some(rest) =>
          Some([TimedSample(time, row.duration, !Has(row.flags, 0x1_0000), DependsOn(row.flags), row.compositionOffset,
                            s[at..at + row.size])] + rest)
  }

  function ReadTime(tfdt: bytes): Option<u64> {
    if |tfdt| >= 8 && tfdt[0] == 0 then Some(Read32(tfdt, 4))
    else if |tfdt| >= 12 && tfdt[0] == 1 then Some(Read64(tfdt, 4))
    else None
  }

  /** Demux a segment that starts with a moof holding one track fragment with one run. The data offset
      counts from the start of the moof. */
  function DemuxFragment(s: bytes, d: Defaults): Option<Fragment> {
    var top := ScanAll(s);
    if PrintBoxes(top) != s || top == [] || top[0].kind != MOOF then None else
      var moof := ScanAll(top[0].payload);
      if PrintBoxes(moof) != top[0].payload then None else
        match (Find(moof, MFHD), Find(moof, TRAF))
        case (Some(mfhd), Some(traf)) =>
          if |mfhd.payload| < 8 then None else DemuxTraf(Read32(mfhd.payload, 4), traf.payload, s, d)
        case _ => None
  }

  function DemuxTraf(sequence: u32, traf: bytes, s: bytes, d: Defaults): Option<Fragment> {
    var children := ScanAll(traf);
    if PrintBoxes(children) != traf then None else
      match (Find(children, TFHD), Find(children, TFDT), Find(children, TRUN))
      case (Some(tfhd), Some(tfdt), Some(trun)) => DemuxRun(sequence, tfhd.payload, tfdt.payload, trun.payload, s, d)
      case _ => None
  }

  /** tfhd must carry no optional field and no absolute base; trun must carry a data offset. */
  function DemuxRun(sequence: u32, tfhd: bytes, tfdt: bytes, trun: bytes, s: bytes, d: Defaults): Option<Fragment> {
    if |tfhd| != 8 || Flags(tfhd) != 0x02_0000 then None
    else if |trun| < 12 || !Has(Flags(trun), 1) || Has(Flags(trun), 4) then None
    else
      match (ReadTime(tfdt), ReadRows(trun, 12, Read32(trun, 4), trun[0], Flags(trun), d))
      case (Some(time), Some(rows)) =>
        (match CutSamples(rows, s, Signed(Read32(trun, 8)), time)
         case None => None
         case Some(samples) => Some(Fragment(sequence, Read32(tfhd, 4), time, samples)))
      case _ => None
  }

  // ---------------------------------------------------------------- what the frames mean

  /** The frames on a timeline that starts at `time`. */
  function Timed(frames: seq<FrameData>, time: nat): (samples: seq<TimedSample>)
    ensures |samples| == |frames|
  {
    if frames == [] then [] else
      var f := frames[0];
      [TimedSample(time, f.duration, f.isKeyframe, if f.isKeyframe then 2 else 1, f.compositionOffset, f.data)]
      + Timed(frames[1..], time + f.duration)
  }

  /** The same with every field that a version 1 fragment does not carry at its default. */
  function TimedV1(frames: seq<FrameData>, time: nat, d: Defaults): (samples: seq<TimedSample>) {
    if frames == [] then [] else
      var f := frames[0];
      [TimedSample(time, f.duration, !Has(d.flags, 0x1_0000), DependsOn(d.flags), 0, f.data)]
      + TimedV1(frames[1..], time + f.duration, d)
  }

  predicate Sized(frames: seq<FrameData>) {
    forall i :: 0 <= i < |frames| ==> frames[i].size == |frames[i].data|
  }

  /** The frames fit the 32-bit size of the mdat and the signed 32-bit data offset. */
  predicate FitsV2(frames: seq<FrameData>, time: u64) {
    Sized(frames) && 8 + |Payload(frames)| < TWO32 && MoofSizeV2(|frames|, time) + 8 < 0x8000_0000
  }

  predicate FitsV1(frames: seq<FrameData>) {
    Sized(frames) && 8 + |Payload(frames)| < TWO32 && MoofSizeV1(|frames|) + 8 < 0x8000_0000
  }

  lemma {:induction false} SizesAreLengths(frames: seq<FrameData>)
    requires Sized(frames)
    ensures SumSizes(frames) == |Payload(frames)|
  {
    if frames != [] {
      SizesAreLengths(frames[..|frames| - 1]);
    }
  }

  // The builders grow at the end, the demuxer reads from the front.

  lemma {:induction false} RowsV2Front(frames: seq<FrameData>)
    requires frames != []
    ensures RowsV2(frames) == RowV2(frames[0]) + RowsV2(frames[1..])
  {
    var init, last := frames[..|frames| - 1], frames[|frames| - 1];
    if init == [] {
      assert frames[1..] == [];
      assert [] + RowV2(frames[0]) + [] == RowV2(frames[0]);
    } else {
      RowsV2Front(init);
      assert frames[1..][..|frames| - 2] == init[1..];
    }
  }

  lemma {:induction false} RowsV1Front(frames: seq<FrameData>)
    requires frames != []
    ensures RowsV1(frames) == RowV1(frames[0]) + RowsV1(frames[1..])
  {
    var init, last := frames[..|frames| - 1], frames[|frames| - 1];
    if init == [] {
      assert frames[1..] == [];
    } else {
      RowsV1Front(init);
      assert frames[1..][..|frames| - 2] == init[1..];
    }
  }

  lemma {:induction false} PayloadFront(frames: seq<FrameData>)
    requires frames != []
    ensures Payload(frames) == frames[0].data + Payload(frames[1..])
  {
    var init, last := frames[..|frames| - 1], frames[|frames| - 1];
    if init == [] {
      assert frames[1..] == [];
      EmptyPayload();
      assert Payload(frames) == Payload(init) + last.data;
    } else {
      PayloadFront(init);
      assert frames[1..][..|frames| - 2] == init[1..];
      Regroup(frames[0].data, Payload(init[1..]), last.data);
    }
  }

  lemma {:induction false} Regroup(a: bytes, b: bytes, c: bytes)
    ensures (a + b) + c == a + (b + c)
  {
  }

  lemma {:induction false} EmptyPayload()
    ensures Payload([]) == []
  {
  }

  function RowOfV2(f: FrameData): Row { Row(f.duration, f.size, SampleFlags(f), f.compositionOffset) }

  function RowOfV1(f: FrameData, d: Defaults): Row { Row(f.duration, f.size, d.flags, 0) }

  function RowsOfV2(frames: seq<FrameData>): seq<Row> {
    if frames == [] then [] else [RowOfV2(frames[0])] + RowsOfV2(frames[1..])
  }

  function RowsOfV1(frames: seq<FrameData>, d: Defaults): seq<Row> {
    if frames == [] then [] else [RowOfV1(frames[0], d)] + RowsOfV1(frames[1..], d)
  }

  lemma {:induction false} ReadWord(p: bytes, at: nat, n: nat, w: nat, k: u32)
    requires at + n <= |p| && w + 4 <= n
    requires p[at..at + n][w..w + 4] == BE32(k)
    ensures Read32(p, at + w) == k
  {
    SubWindow(p, at, at + n, w, w + 4);
    Read32Printed(p, at + w, k);
  }

  /** One printed row, read back. */
  lemma {:induction false} RowV2Read(p: bytes, at: nat, f: FrameData)
    requires at + 16 <= |p| && p[at..at + 16] == RowV2(f)
    ensures Read32(p, at) == f.duration && Read32(p, at + 4) == f.size
    ensures Read32(p, at + 8) == SampleFlags(f) && Signed(Read32(p, at + 12)) == f.compositionOffset
  {
    var r := RowV2(f);
    assert r[0..4] == BE32(f.duration) && r[4..8] == BE32(f.size);
    assert r[8..12] == BE32(SampleFlags(f)) && r[12..16] == BE32(Unsigned(f.compositionOffset));
    ReadWord(p, at, 16, 0, f.duration);
    ReadWord(p, at, 16, 4, f.size);
    ReadWord(p, at, 16, 8, SampleFlags(f));
    ReadWord(p, at, 16, 12, Unsigned(f.compositionOffset));
  }

  lemma {:induction false} FlagBits()
    ensures Has(0xF01, 1) && !Has(0xF01, 4) && Has(0xF01, 0x100) && Has(0xF01, 0x200) && Has(0xF01, 0x400) && Has(0xF01, 0x800)
    ensures Has(0x301, 1) && !Has(0x301, 4) && Has(0x301, 0x100) && Has(0x301, 0x200) && !Has(0x301, 0x400) && !Has(0x301, 0x800)
    ensures !Has(0x0200_0000, 0x1_0000) && Has(0x0101_0000, 0x1_0000)
    ensures DependsOn(0x0200_0000) == 2 && DependsOn(0x0101_0000) == 1
  {
  }

  lemma {:induction false} RowV2Length(f: FrameData)
    ensures |RowV2(f)| == 16
  {
  }

  lemma {:induction false} RowsV2Split(p: bytes, at: nat, frames: seq<FrameData>)
    requires frames != []
    requires at + 16 * |frames| <= |p| && p[at..at + 16 * |frames|] == RowsV2(frames)
    ensures p[at..at + 16] == RowV2(frames[0]) && p[at + 16..at + 16 * |frames|] == RowsV2(frames[1..])
  {
    hide RowsV2, RowV2;
    RowsV2Front(frames);
    RowV2Length(frames[0]);
    var a, b := RowV2(frames[0]), RowsV2(frames[1..]);
    assert |a| + |b| == 16 * |frames|;
    SplitWindow(p, at, a, b);
  }

  lemma {:induction false} RowsV2Read(p: bytes, at: nat, frames: seq<FrameData>, d: Defaults)
    requires at + 16 * |frames| <= |p| && p[at..at + 16 * |frames|] == RowsV2(frames)
    ensures ReadRows(p, at, |frames|, 1, 0xF01, d) == Some(RowsOfV2(frames))
    decreases |frames|
  {
    hide RowV2, RowsV2, BE32, Read32, SampleFlags, Signed;
    if frames != [] {
      FlagBits();
      RowsV2Split(p, at, frames);
      RowV2Read(p, at, frames[0]);
      RowsV2Read(p, at + 16, frames[1..], d);
    }
  }

  lemma {:induction false} RowV1Read(p: bytes, at: nat, f: FrameData)
    requires at + 8 <= |p| && p[at..at + 8] == RowV1(f)
    ensures Read32(p, at) == f.duration && Read32(p, at + 4) == f.size
  {
    var r := RowV1(f);
    assert r[0..4] == BE32(f.duration) && r[4..8] == BE32(f.size);
    ReadWord(p, at, 8, 0, f.duration);
    ReadWord(p, at, 8, 4, f.size);
  }

  lemma {:induction false} RowV1Length(f: FrameData)
    ensures |RowV1(f)| == 8
  {
  }

  lemma {:induction false} RowsV1Split(p: bytes, at: nat, frames: seq<FrameData>)
    requires frames != []
    requires at + 8 * |frames| <= |p| && p[at..at + 8 * |frames|] == RowsV1(frames)
    ensures p[at..at + 8] == RowV1(frames[0]) && p[at + 8..at + 8 * |frames|] == RowsV1(frames[1..])
  {
    hide RowsV1, RowV1;
    RowsV1Front(frames);
    RowV1Length(frames[0]);
    var a, b := RowV1(frames[0]), RowsV1(frames[1..]);
    assert |a| + |b| == 8 * |frames|;
    SplitWindow(p, at, a, b);
  }

  lemma {:induction false} RowsV1Read(p: bytes, at: nat, frames: seq<FrameData>, d: Defaults)
    requires at + 8 * |frames| <= |p| && p[at..at + 8 * |frames|] == RowsV1(frames)
    ensures ReadRows(p, at, |frames|, 1, 0x301, d) == Some(RowsOfV1(frames, d))
    decreases |frames|
  {
    hide RowV1, RowsV1, BE32, Read32, Signed;
    if frames != [] {
      FlagBits();
      RowsV1Split(p, at, frames);
      RowV1Read(p, at, frames[0]);
      RowsV1Read(p, at + 8, frames[1..], d);
    }
  }

  /** Cutting at `at` gives the frames exactly when their payload stands there. */
  lemma {:induction false} SamplesV2CutIff(s: bytes, at: nat, frames: seq<FrameData>, time: nat)
    requires Sized(frames) && at + |Payload(frames)| <= |s|
    ensures CutSamples(RowsOfV2(frames), s, at, time).Some?
    ensures CutSamples(RowsOfV2(frames), s, at, time) == Some(Timed(frames, time)) <==> s[at..at + |Payload(frames)|] == Payload(frames)
    decreases |frames|
  {
    hide Payload, CutSamples, RowsOfV2, Timed, SampleAt;
    if frames == [] {
      EmptyPayload();
      CutNothing(s, at, time);
    } else {
      var f, rest := frames[0], frames[1..];
      PayloadFront(frames);
      var mid, end := at + |f.data|, at + |Payload(frames)|;
      JoinWindow(s, at, mid, end);
      SamplesV2CutIff(s, mid, rest, time + f.duration);
      CutStep(s, at, frames, time);
      var cut := CutSamples(RowsOfV2(rest), s, mid, time + f.duration).value;
      SameHeadAndTail(SampleAt(f, s[at..mid], time), cut, SampleAt(f, f.data, time), Timed(rest, time + f.duration));
      SameHalves(s[at..mid], s[mid..end], f.data, Payload(rest));
      SameSampleIff(f, s[at..mid], time);
    }
  }

  lemma {:induction false} SameSampleIff(f: FrameData, data: bytes, time: nat)
    ensures SampleAt(f, data, time) == SampleAt(f, f.data, time) <==> data == f.data
  {
  }

  lemma {:induction false} CutNothing(s: bytes, at: nat, time: nat)
    ensures CutSamples(RowsOfV2([]), s, at, time) == Some([]) && Timed([], time) == []
  {
  }

  function SampleAt(f: FrameData, data: bytes, time: nat): TimedSample {
    TimedSample(time, f.duration, f.isKeyframe, if f.isKeyframe then 2 else 1, f.compositionOffset, data)
  }

  lemma {:induction false} CutStep(s: bytes, at: nat, frames: seq<FrameData>, time: nat)
    requires frames != [] && Sized(frames) && at + |frames[0].data| <= |s|
    ensures var f, rest := frames[0], frames[1..];
            var mid := at + |f.data|;
            var tail := CutSamples(RowsOfV2(rest), s, mid, time + f.duration);
            && Timed(frames, time) == [SampleAt(f, f.data, time)] + Timed(rest, time + f.duration)
            && CutSamples(RowsOfV2(frames), s, at, time) == if tail.None? then None else Some([SampleAt(f, s[at..mid], time)] + tail.value)
  {
    FlagBits();
    var rows := RowsOfV2(frames);
    assert rows[0] == RowOfV2(frames[0]) && rows[1..] == RowsOfV2(frames[1..]);
  }

  lemma {:induction false} SameHeadAndTail<T>(x: T, xs: seq<T>, y: T, ys: seq<T>)
    ensures [x] + xs == [y] + ys <==> x == y && xs == ys
  {
    if [x] + xs == [y] + ys {
      assert ([x] + xs)[0] == ([y] + ys)[0] && ([x] + xs)[1..] == ([y] + ys)[1..];
    }
  }

  lemma {:induction false} SameHalves(a: bytes, b: bytes, c: bytes, e: bytes)
    requires |a| == |c|
    ensures a + b == c + e <==> a == c && b == e
  {
    if a + b == c + e {
      assert (a + b)[..|a|] == (c + e)[..|c|] && (a + b)[|a|..] == (c + e)[|c|..];
    }
  }

  lemma {:induction false} SamplesV1Cut(s: bytes, at: nat, frames: seq<FrameData>, time: nat, d: Defaults)
    requires Sized(frames)
    requires at + |Payload(frames)| <= |s| && s[at..at + |Payload(frames)|] == Payload(frames)
    ensures CutSamples(RowsOfV1(frames, d), s, at, time) == Some(TimedV1(frames, time, d))
    decreases |frames|
  {
    hide Payload;
    if frames == [] {
      EmptyPayload();
    } else {
      PayloadFront(frames);
      var f, rest := frames[0], frames[1..];
      SplitWindow(s, at, f.data, Payload(rest));
      SamplesV1Cut(s, at + |f.data|, rest, time + f.duration, d);
    }
  }

  // ---------------------------------------------------------------- the boxes, found again

  /** A printed list of boxes is scanned back and its members are found by kind. */
  lemma {:induction false} FindInMoof(mfhd: Box, traf: Box)
    requires Legal(mfhd) && Legal(traf) && mfhd.kind == MFHD && traf.kind == TRAF
    ensures ScanAll(PrintBoxes([mfhd, traf])) == [mfhd, traf]
    ensures Find([mfhd, traf], MFHD) == Some(mfhd) && Find([mfhd, traf], TRAF) == Some(traf)
  {
    KindsDiffer();
    ScanAllPrinted([mfhd, traf]);
    assert [mfhd, traf][1..] == [traf];
    assert Find([traf], TRAF) == Some(traf);
  }

  lemma {:induction false} FindInTraf(tfhd: Box, tfdt: Box, trun: Box)
    requires Legal(tfhd) && Legal(tfdt) && Legal(trun) && tfhd.kind == TFHD && tfdt.kind == TFDT && trun.kind == TRUN
    ensures var c := [tfhd, tfdt, trun];
            ScanAll(PrintBoxes(c)) == c
            && Find(c, TFHD) == Some(tfhd) && Find(c, TFDT) == Some(tfdt) && Find(c, TRUN) == Some(trun)
  {
    KindsDiffer();
    var c := [tfhd, tfdt, trun];
    ScanAllPrinted(c);
    assert c[1..] == [tfdt, trun] && [tfdt, trun][1..] == [trun];
    assert Find([tfdt, trun], TFDT) == Some(tfdt);
    assert Find([trun], TRUN) == Some(trun);
  }

  /** The mdat of a segment: its boxes tile it and its payload follows the moof and a header. */
  lemma {:induction false} SegmentTiled(moof: Box, frames: seq<FrameData>)
    requires Legal(moof) && Sized(frames) && 8 + |Payload(frames)| < TWO32
    ensures var s := PrintBox(moof) + MdatBytes(frames);
            |s| == |PrintBox(moof)| + 8 + |Payload(frames)|
            && s[|PrintBox(moof)| + 8..|s|] == Payload(frames)
            && ScanAll(s) == [moof, Box(MDAT, Payload(frames))] && PrintBoxes(ScanAll(s)) == s
  {
    var mdat := Box(MDAT, Payload(frames));
    SizesAreLengths(frames);
    assert MdatBytes(frames) == PrintBox(mdat);
    PrintTwo(moof, mdat);
    ScanAllPrinted([moof, mdat]);
  }

  /** A segment made of a moof and an mdat demuxes to what its single run demuxes to. */
  lemma {:induction false} SegmentOpened(tfhd: Box, tfdt: Box, trun: Box, frames: seq<FrameData>, sequence: u32, d: Defaults)
    requires Legal(tfhd) && Legal(tfdt) && Legal(trun) && tfhd.kind == TFHD && tfdt.kind == TFDT && trun.kind == TRUN
    requires Legal(Traf(tfhd, tfdt, trun)) && Legal(Moof(Mfhd(sequence), Traf(tfhd, tfdt, trun)))
    requires Sized(frames) && 8 + |Payload(frames)| < TWO32
    ensures var s := PrintBox(Moof(Mfhd(sequence), Traf(tfhd, tfdt, trun))) + MdatBytes(frames);
            DemuxFragment(s, d) == DemuxRun(sequence, tfhd.payload, tfdt.payload, trun.payload, s, d)
  {
    var traf := Traf(tfhd, tfdt, trun);
    var moof := Moof(Mfhd(sequence), traf);
    var s := PrintBox(moof) + MdatBytes(frames);
    SegmentTiled(moof, frames);
    MfhdRead(sequence);
    FindInMoof(Mfhd(sequence), traf);
    hide PrintBox, PrintBoxes, MdatBytes, BE32, Payload, Scan, ScanAll, DemuxRun, Find;
    assert DemuxFragment(s, d) == DemuxTraf(sequence, traf.payload, s, d);
    FindInTraf(tfhd, tfdt, trun);
  }

  lemma {:induction false} MfhdRead(sequence: u32)
    ensures var p := Mfhd(sequence).payload;
            |p| == 8 && Read32(p, 4) == sequence
  {
    var p := Mfhd(sequence).payload;
    assert p[4..8] == BE32(sequence);
    Read32Printed(p, 4, sequence);
  }

  lemma {:induction false} TfhdRead(trackId: u32)
    ensures var p := Tfhd(trackId).payload;
            |p| == 8 && Flags(p) == 0x02_0000 && Read32(p, 4) == trackId
  {
    var p := Tfhd(trackId).payload;
    assert p[4..8] == BE32(trackId);
    Read32Printed(p, 4, trackId);
  }

  lemma {:induction false} TfdtV1Read(time: u64)
    ensures ReadTime(TfdtV1(time).payload) == Some(time)
  {
    hide BE64;
    var p := TfdtV1(time).payload;
    assert p[4..12] == BE64(time);
    Read64Printed(p, 4, time);
  }

  lemma {:induction false} TfdtV0Read(time: u64)
    ensures ReadTime(TfdtV0(time).payload) == Some(Wrap32(time))
  {
    hide BE32;
    var p := TfdtV0(time).payload;
    assert p[4..8] == BE32(time);
    Read32Printed(p, 4, time);
  }

  lemma {:induction false} TrunHead(trun: bytes, head: bytes, n: nat, offset: nat, rows: bytes)
    requires trun == head + BE32(n) + BE32(offset) + rows && |head| == 4
    requires n < TWO32 && offset < 0x8000_0000
    ensures Read32(trun, 4) == n && Signed(Read32(trun, 8)) == offset && trun[12..] == rows
    ensures trun[..4] == head
  {
    assert trun[4..8] == BE32(n) && trun[8..12] == BE32(offset);
    Read32Printed(trun, 4, n);
    Read32Printed(trun, 8, offset);
  }

  /** The fields in front of the rows of a run, read back. */
  lemma {:induction false} TrunV2Read(frames: seq<FrameData>, offset: nat)
    requires |frames| < TWO32 && offset < 0x8000_0000
    ensures var p := TrunV2(frames, offset).payload;
            |p| == 12 + 16 * |frames| && p[0] == 1 && Flags(p) == 0xF01 && Read32(p, 4) == |frames| && Signed(Read32(p, 8)) == offset
            && p[12..12 + 16 * |frames|] == RowsV2(frames)
  {
    hide RowsV2;
    TrunHead(TrunV2(frames, offset).payload, [1, 0, 0x0F, 1], |frames|, offset, RowsV2(frames));
  }

  lemma {:induction false} TrunV1Read(frames: seq<FrameData>, offset: nat)
    requires |frames| < TWO32 && offset < 0x8000_0000
    ensures var p := TrunV1(frames, offset).payload;
            |p| == 12 + 8 * |frames| && p[0] == 1 && Flags(p) == 0x301 && Read32(p, 4) == |frames| && Signed(Read32(p, 8)) == offset
            && p[12..12 + 8 * |frames|] == RowsV1(frames)
  {
    hide RowsV1;
    TrunHead(TrunV1(frames, offset).payload, [1, 0, 3, 1], |frames|, offset, RowsV1(frames));
  }

  /** The single run of a version 2 fragment, demuxed from any segment with any tfdt: the frames come back exactly
      when the segment has their payload at the data offset. */
  lemma {:induction false} RunDemuxedV2(sequence: u32, tfdt: bytes, time: u64, trackId: u32, frames: seq<FrameData>, s: bytes, offset: nat, d: Defaults)
    requires Sized(frames) && |frames| < TWO32 && offset < 0x8000_0000 && ReadTime(tfdt) == Some(time)
    requires offset + |Payload(frames)| <= |s|
    ensures DemuxRun(sequence, Tfhd(trackId).payload, tfdt, TrunV2(frames, offset).payload, s, d)
              == Some(Fragment(sequence, trackId, time, Timed(frames, time)))
            <==> s[offset..offset + |Payload(frames)|] == Payload(frames)
  {
    hide ReadRows, CutSamples, Timed, Payload, RowsV2, RowsOfV2, Read32, Tfhd, TrunV2, ReadTime, Flags;
    var trun := TrunV2(frames, offset).payload;
    TfhdRead(trackId);
    TrunV2Read(frames, offset);
    FlagBits();
    RowsV2Read(trun, 12, frames, d);
    SamplesV2CutIff(s, offset, frames, time);
  }

  lemma {:induction false} TfdtAutoRead(time: u64)
    ensures ReadTime(TfdtAuto(time).payload) == Some(time)
  {
    hide ReadTime, Wrap32, BE32, BE64;
    TfdtV0Read(time);
    TfdtV1Read(time);
    if time < TWO32 {
      NoWrap32(time);
    }
  }

  lemma {:induction false} RunDemuxedV1(sequence: u32, time: u64, trackId: u32, frames: seq<FrameData>, s: bytes, offset: nat, d: Defaults)
    requires Sized(frames) && |frames| < TWO32 && offset < 0x8000_0000
    requires offset + |Payload(frames)| <= |s| && s[offset..offset + |Payload(frames)|] == Payload(frames)
    ensures DemuxRun(sequence, Tfhd(trackId).payload, TfdtV0(time).payload, TrunV1(frames, offset).payload, s, d)
         == Some(Fragment(sequence, trackId, Wrap32(time), TimedV1(frames, Wrap32(time), d)))
  {
    hide ReadRows, CutSamples, TimedV1, Payload, RowsV1, RowsOfV1, Read32, Tfhd, TfdtV0, TrunV1, ReadTime, Flags;
    var trun := TrunV1(frames, offset).payload;
    TfhdRead(trackId);
    TfdtV0Read(time);
    TrunV1Read(frames, offset);
    FlagBits();
    RowsV1Read(trun, 12, frames, d);
    SamplesV1Cut(s, offset, frames, Wrap32(time), d);
  }

  /** A version 2 fragment demuxes to its frames, on the timeline that starts at its decode time. The data
      offset therefore lands on the first mdat payload byte. */
  lemma {:induction false} FragmentV2RoundTrip(sequence: u32, time: u64, trackId: u32, frames: seq<FrameData>, d: Defaults)
    requires FitsV2(frames, time)
    ensures DemuxFragment(FragmentV2(sequence, time, trackId, frames), d)
         == Some(Fragment(sequence, trackId, time, Timed(frames, time)))
  {
    hide PrintBox, PrintBoxes, MdatBytes, DemuxFragment, DemuxRun, RowsV2, Payload, BE32, BE64, Timed;
    var offset := MoofSizeV2(|frames|, time) + 8;
    MoofSizePredicted(sequence, time, trackId, frames);
    LegalV2(sequence, time, trackId, frames);
    SegmentOpened(Tfhd(trackId), TfdtAuto(time), TrunV2(frames, offset), frames, sequence, d);
    SegmentTiled(MoofV2(sequence, time, trackId, frames), frames);
    TfdtAutoRead(time);
    RunDemuxedV2(sequence, TfdtAuto(time).payload, time, trackId, frames, FragmentV2(sequence, time, trackId, frames), offset, d);
  }

  lemma {:induction false} LegalV2(sequence: u32, time: u64, trackId: u32, frames: seq<FrameData>)
    requires FitsV2(frames, time)
    ensures var trun := TrunV2(frames, MoofSizeV2(|frames|, time) + 8);
            Legal(Tfhd(trackId)) && Legal(TfdtAuto(time)) && Legal(trun) && Legal(Traf(Tfhd(trackId), TfdtAuto(time), trun))
            && Legal(MoofV2(sequence, time, trackId, frames))
  {
    var trun := TrunV2(frames, MoofSizeV2(|frames|, time) + 8);
    MoofSizePredicted(sequence, time, trackId, frames);
    PrintTwo(Mfhd(sequence), Traf(Tfhd(trackId), TfdtAuto(time), trun));
    PrintThree(Tfhd(trackId), TfdtAuto(time), trun);
  }

  lemma {:induction false} LegalV1(sequence: u32, time: u64, trackId: u32, frames: seq<FrameData>)
    requires FitsV1(frames)
    ensures var trun := TrunV1(frames, MoofSizeV1(|frames|) + 8);
            Legal(Tfhd(trackId)) && Legal(TfdtV0(time)) && Legal(trun) && Legal(Traf(Tfhd(trackId), TfdtV0(time), trun))
            && Legal(MoofV1(sequence, time, trackId, frames))
  {
    var trun := TrunV1(frames, MoofSizeV1(|frames|) + 8);
    MoofSizePredicted(sequence, time, trackId, frames);
    PrintTwo(Mfhd(sequence), Traf(Tfhd(trackId), TfdtV0(time), trun));
    PrintThree(Tfhd(trackId), TfdtV0(time), trun);
  }

  /** A version 1 fragment keeps bytes and durations, drops flags and composition offsets, and
      truncates its decode time to 32 bits. */
  lemma {:induction false} FragmentV1RoundTrip(sequence: u32, time: u64, trackId: u32, frames: seq<FrameData>, d: Defaults)
    requires FitsV1(frames)
    ensures DemuxFragment(FragmentV1(sequence, time, trackId, frames), d)
         == Some(Fragment(sequence, trackId, Wrap32(time), TimedV1(frames, Wrap32(time), d)))
  {
    hide PrintBox, PrintBoxes, MdatBytes, DemuxFragment, DemuxRun, RowsV1, Payload, BE32, BE64, TimedV1;
    var offset := MoofSizeV1(|frames|) + 8;
    MoofSizePredicted(sequence, time, trackId, frames);
    LegalV1(sequence, time, trackId, frames);
    SegmentOpened(Tfhd(trackId), TfdtV0(time), TrunV1(frames, offset), frames, sequence, d);
    SegmentTiled(MoofV1(sequence, time, trackId, frames), frames);
    RunDemuxedV1(sequence, time, trackId, frames, FragmentV1(sequence, time, trackId, frames), offset, d);
  }

  /** The version 1 writer keeps the decode time exactly when it fits 32 bits. */
  lemma {:induction false} V1KeepsTimeIff(sequence: u32, time: u64, trackId: u32, frames: seq<FrameData>, d: Defaults)
    requires FitsV1(frames)
    ensures (DemuxFragment(FragmentV1(sequence, time, trackId, frames), d)
             == Some(Fragment(sequence, trackId, time, TimedV1(frames, time, d)))) <==> time < TWO32
  {
    hide FragmentV1, DemuxFragment, TimedV1;
    FragmentV1RoundTrip(sequence, time, trackId, frames, d);
  }

  // ---------------------------------------------------------------- runs of the converter

  /** The fragments of a run of `create_fragment_v2` calls from a converter state. */
  function RunV2(lists: seq<seq<FrameData>>, sequence: u32, time: u64, trackId: u32): (fs: seq<bytes>)
    ensures |fs| == |lists|
  {
    if lists == [] then [] else
      [FragmentV2(sequence, time, trackId, lists[0])]
      + RunV2(lists[1..], Wrap32(sequence + 1), Wrap64(time + TotalDuration(lists[0])), trackId)
  }

  function Elapsed(lists: seq<seq<FrameData>>): nat {
    if lists == [] then 0 else TotalDuration(lists[0]) + Elapsed(lists[1..])
  }

  /** The summed durations of the first `k` lists. */
  function ElapsedBefore(lists: seq<seq<FrameData>>, k: nat): (n: nat)
    requires k <= |lists|
    ensures n <= Elapsed(lists)
  {
    if k == 0 then 0 else TotalDuration(lists[0]) + ElapsedBefore(lists[1..], k - 1)
  }

  lemma {:induction false} RunV2At(lists: seq<seq<FrameData>>, first: u32, start: u64, trackId: u32, k: nat)
    requires k < |lists| && first + |lists| <= TWO32 && start + Elapsed(lists) < TWO64
    ensures RunV2(lists, first, start, trackId)[k] == FragmentV2(first + k, start + ElapsedBefore(lists, k), trackId, lists[k])
    decreases |lists|
  {
    hide FragmentV2, TotalDuration, Wrap32, Wrap64;
    if k > 0 {
      NoWrap32(first + 1);
      NoWrap64(start + TotalDuration(lists[0]));
      RunV2At(lists[1..], first + 1, start + TotalDuration(lists[0]), trackId, k - 1);
    }
  }

  /** Over any run, fragment `k` carries sequence number first + k and the sum of all earlier durations,
      and gives back its own frames. */
  lemma {:induction false} RunV2Continuous(lists: seq<seq<FrameData>>, first: u32, start: u64, trackId: u32, k: nat, d: Defaults)
    requires k < |lists| && first + |lists| <= TWO32 && start + Elapsed(lists) < TWO64
    requires forall i :: 0 <= i < |lists| ==> FitsV2(lists[i], TWO64 - 1)
    ensures DemuxFragment(RunV2(lists, first, start, trackId)[k], d)
         == Some(Fragment(first + k, trackId, start + ElapsedBefore(lists, k), Timed(lists[k], start + ElapsedBefore(lists, k))))
  {
    hide RunV2, FragmentV2, DemuxFragment, Timed;
    RunV2At(lists, first, start, trackId, k);
    var time := start + ElapsedBefore(lists, k);
    assert FitsV2(lists[k], time);
    FragmentV2RoundTrip(first + k, time, trackId, lists[k], d);
  }
}
