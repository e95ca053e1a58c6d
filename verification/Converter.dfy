/** The fragment writer (core/src/media/fmp4_converter.rs). Each box builder appends to a byte vector and
    is proved to print the box the functions of the first half describe. */
module Converter {
  import opened Bytes
  import opened Boxes

  datatype FrameData = FrameData(
    data: bytes, duration: u32, size: u32, isKeyframe: bool, compositionOffset: i32)

  /** `FrameData::new` derives the size from the bytes. */
  function NewFrame(data: bytes, duration: u32, isKeyframe: bool, compositionOffset: i32): FrameData {
    FrameData(data, duration, Wrap32(|data|), isKeyframe, compositionOffset)
  }

  // ---------------------------------------------------------------- the boxes of a fragment

  function Mfhd(sequence: u32): Box { Box(MFHD, [0, 0, 0, 0] + BE32(sequence)) }

  /** Flags 0x020000: default-base-is-moof. */
  function Tfhd(trackId: u32): Box { Box(TFHD, [0, 2, 0, 0] + BE32(trackId)) }

  function TfdtV0(time: u64): Box { Box(TFDT, [0, 0, 0, 0] + BE32(time)) }

  function TfdtV1(time: u64): Box { Box(TFDT, [1, 0, 0, 0] + BE64(time)) }

  function TfdtAuto(time: u64): Box { if time < TWO32 then TfdtV0(time) else TfdtV1(time) }

  function SampleFlags(f: FrameData): u32 { if f.isKeyframe then 0x0200_0000 else 0x0101_0000 }

  function RowV1(f: FrameData): bytes { BE32(f.duration) + BE32(f.size) }

  function RowV2(f: FrameData): bytes {
    BE32(f.duration) + BE32(f.size) + BE32(SampleFlags(f)) + BE32(Unsigned(f.compositionOffset))
  }

  function RowsV1(frames: seq<FrameData>): (s: bytes)
    ensures |s| == 8 * |frames|
  {
    if frames == [] then [] else RowsV1(frames[..|frames| - 1]) + RowV1(frames[|frames| - 1])
  }

  function RowsV2(frames: seq<FrameData>): (s: bytes)
    ensures |s| == 16 * |frames|
  {
    if frames == [] then [] else RowsV2(frames[..|frames| - 1]) + RowV2(frames[|frames| - 1])
  }

  function TrunV1(frames: seq<FrameData>, dataOffset: nat): Box {
    Box(TRUN, [1, 0, 3, 1] + BE32(|frames|) + BE32(dataOffset) + RowsV1(frames))
  }

  function TrunV2(frames: seq<FrameData>, dataOffset: nat): Box {
    Box(TRUN, [1, 0, 0x0F, 1] + BE32(|frames|) + BE32(dataOffset) + RowsV2(frames))
  }

  function Traf(tfhd: Box, tfdt: Box, trun: Box): Box { Box(TRAF, PrintBoxes([tfhd, tfdt, trun])) }

  function Moof(mfhd: Box, traf: Box): Box { Box(MOOF, PrintBoxes([mfhd, traf])) }

  /** The size the converter predicts for a moof before it exists. */
  function MoofSizeV1(frames: nat): nat { 84 + 8 * frames }

  function MoofSizeV2(frames: nat, time: u64): nat {
    68 + (if time < TWO32 then 16 else 20) + 16 * frames
  }

  function MoofV1(sequence: u32, time: u64, trackId: u32, frames: seq<FrameData>): Box {
    Moof(Mfhd(sequence), Traf(Tfhd(trackId), TfdtV0(time), TrunV1(frames, MoofSizeV1(|frames|) + 8)))
  }

  function MoofV2(sequence: u32, time: u64, trackId: u32, frames: seq<FrameData>): Box {
    Moof(Mfhd(sequence), Traf(Tfhd(trackId), TfdtAuto(time), TrunV2(frames, MoofSizeV2(|frames|, time) + 8)))
  }

  function SumSizes(frames: seq<FrameData>): nat {
    if frames == [] then 0 else SumSizes(frames[..|frames| - 1]) + frames[|frames| - 1].size
  }

  function TotalDuration(frames: seq<FrameData>): nat {
    if frames == [] then 0 else TotalDuration(frames[..|frames| - 1]) + frames[|frames| - 1].duration
  }

  function Payload(frames: seq<FrameData>): bytes {
    if frames == [] then [] else Payload(frames[..|frames| - 1]) + frames[|frames| - 1].data
  }

  /** The mdat header announces the declared sizes, its content is the actual bytes. */
  function MdatBytes(frames: seq<FrameData>): bytes {
    BE32(8 + SumSizes(frames)) + MDAT + Payload(frames)
  }

  function FragmentV1(sequence: u32, time: u64, trackId: u32, frames: seq<FrameData>): bytes {
    PrintBox(MoofV1(sequence, time, trackId, frames)) + MdatBytes(frames)
  }

  function FragmentV2(sequence: u32, time: u64, trackId: u32, frames: seq<FrameData>): bytes {
    PrintBox(MoofV2(sequence, time, trackId, frames)) + MdatBytes(frames)
  }

  lemma {:induction false} PrintTwo(a: Box, b: Box)
    ensures PrintBoxes([a, b]) == PrintBox(a) + PrintBox(b)
  {
    assert [a, b] == [a] + [b];
    PrintConcat([a], [b]);
    PrintOne(a);
    PrintOne(b);
  }

  lemma {:induction false} PrintThree(a: Box, b: Box, c: Box)
    ensures PrintBoxes([a, b, c]) == PrintBox(a) + PrintBox(b) + PrintBox(c)
  {
    assert [a, b, c] == [a, b] + [c];
    PrintConcat([a, b], [c]);
    PrintTwo(a, b);
    PrintOne(c);
  }

  /** The predicted moof sizes are the serialized lengths, for either tfdt width. */
  lemma {:induction false} MoofSizePredicted(sequence: u32, time: u64, trackId: u32, frames: seq<FrameData>)
    ensures |PrintBox(MoofV1(sequence, time, trackId, frames))| == MoofSizeV1(|frames|)
    ensures |PrintBox(MoofV2(sequence, time, trackId, frames))| == MoofSizeV2(|frames|, time)
  {
    var trun1 := TrunV1(frames, MoofSizeV1(|frames|) + 8);
    var trun2 := TrunV2(frames, MoofSizeV2(|frames|, time) + 8);
    PrintThree(Tfhd(trackId), TfdtV0(time), trun1);
    PrintThree(Tfhd(trackId), TfdtAuto(time), trun2);
    PrintTwo(Mfhd(sequence), Traf(Tfhd(trackId), TfdtV0(time), trun1));
    PrintTwo(Mfhd(sequence), Traf(Tfhd(trackId), TfdtAuto(time), trun2));
  }

  // ---------------------------------------------------------------- the converter

  /** Printing 32 bits of a sum does not notice that an operand wrapped. */
  lemma {:induction false} WrappedWord(a: int, b: int)
    ensures BE32(Wrap32(a) + b) == BE32(a + b)
  {
    WrapAdd32(a, b);
  }

  lemma {:induction false} RowsSnoc(frames: seq<FrameData>, i: nat)
    requires i < |frames|
    ensures RowsV2(frames[..i + 1]) == RowsV2(frames[..i]) + RowV2(frames[i])
  {
    hide RowV2;
    assert frames[..i + 1][..i] == frames[..i];
  }

  lemma {:induction false} SizesSnoc(frames: seq<FrameData>, i: nat)
    requires i < |frames|
    ensures SumSizes(frames[..i + 1]) == SumSizes(frames[..i]) + frames[i].size
    ensures Payload(frames[..i + 1]) == Payload(frames[..i]) + frames[i].data
  {
    assert frames[..i + 1][..i] == frames[..i];
  }

  lemma {:induction false} NoFrames()
    ensures SumSizes([]) == 0 && Payload([]) == [] && RowsV2([]) == []
  {
  }

  lemma {:induction false} JoinFour(s: bytes, a: bytes, b: bytes, c: bytes, d: bytes)
    ensures s + a + b + c + d == s + (a + b + c + d)
  {
  }

  class FragmentedMp4Converter {
    var sequenceNumber: u32
    var baseMediaDecodeTime: u64
    var trackId: u32

    constructor ()
      ensures sequenceNumber == 1 && baseMediaDecodeTime == 0 && trackId == 1
    {
      sequenceNumber := 1;
      baseMediaDecodeTime := 0;
      trackId := 1;
    }

    method CreateMfhd() returns (mfhd: bytes)
      ensures mfhd == PrintBox(Mfhd(sequenceNumber))
    {
      mfhd := [];
      mfhd := mfhd + BE32(16);
      mfhd := mfhd + MFHD;
      mfhd := mfhd + [0];
      mfhd := mfhd + [0, 0, 0];
      mfhd := mfhd + BE32(sequenceNumber);
    }

    method CreateTfhd(track: u32) returns (tfhd: bytes)
      ensures tfhd == PrintBox(Tfhd(track))
    {
      tfhd := [];
      tfhd := tfhd + BE32(16);
      tfhd := tfhd + TFHD;
      tfhd := tfhd + [0];
      tfhd := tfhd + [0x02, 0x00, 0x00];
      tfhd := tfhd + BE32(track);
    }

    method CreateTfdt() returns (tfdt: bytes)
      ensures tfdt == PrintBox(TfdtV0(baseMediaDecodeTime))
    {
      tfdt := [];
      tfdt := tfdt + BE32(16);
      tfdt := tfdt + TFDT;
      tfdt := tfdt + [0];
      tfdt := tfdt + [0, 0, 0];
      tfdt := tfdt + BE32(baseMediaDecodeTime);
    }

    method CreateTfdtAuto() returns (tfdt: bytes)
      ensures tfdt == PrintBox(TfdtAuto(baseMediaDecodeTime))
    {
      if baseMediaDecodeTime > 0xFFFF_FFFF {
        tfdt := [];
        tfdt := tfdt + BE32(20);
        tfdt := tfdt + TFDT;
        tfdt := tfdt + [1];
        tfdt := tfdt + [0, 0, 0];
        tfdt := tfdt + BE64(baseMediaDecodeTime);
      } else {
        tfdt := CreateTfdt();
      }
    }

    method CalculateMoofSize(frames: seq<FrameData>) returns (size: u32)
      ensures size == Wrap32(MoofSizeV1(|frames|))
    {
      WrapItems32(84, |frames|, 8);
      hide Wrap32;
      size := Wrap32(8 + 16 + 8 + 16 + 16 + 8 + 12 + Wrap32(|frames|) * 8);
    }

    method CalculateMoofSizeV2(frames: seq<FrameData>) returns (size: u32)
      ensures size == Wrap32(MoofSizeV2(|frames|, baseMediaDecodeTime))
    {
      var tfdtSize := if baseMediaDecodeTime > 0xFFFF_FFFF then 20 else 16;
      WrapItems32(68 + tfdtSize, |frames|, 16);
      hide Wrap32;
      size := Wrap32(8 + 16 + 8 + 16 + tfdtSize + 8 + 12 + Wrap32(|frames|) * 16);
    }

    /** The header every builder puts before its finished content. */
    static method WrapBox(kind: bytes, content: bytes) returns (box: bytes)
      ensures box == PrintBox(Box(kind, content))
    {
      box := BE32(8 + |content|);
      box := box + kind;
      box := box + content;
    }

    method CreateTrun(frames: seq<FrameData>) returns (trun: bytes)
      ensures trun == PrintBox(TrunV1(frames, MoofSizeV1(|frames|) + 8))
    {
      hide BE32, PrintBox;
      var content: bytes := [];
      content := content + [1];
      content := content + [0x00, 0x03, 0x01];
      content := content + BE32(|frames|);
      var moofSize: int := CalculateMoofSize(frames);
      WrappedWord(MoofSizeV1(|frames|), 8);
      content := content + BE32(moofSize + 8);
      ghost var head := content;
      for i := 0 to |frames|
        invariant content == head + RowsV1(frames[..i])
      {
        content := content + BE32(frames[i].duration);
        content := content + BE32(frames[i].size);
        assert frames[..i + 1][..i] == frames[..i];
      }
      assert frames[..|frames|] == frames;
      assert content == TrunV1(frames, MoofSizeV1(|frames|) + 8).payload;
      trun := WrapBox(TRUN, content);
    }

    method CreateTrunV2(frames: seq<FrameData>) returns (trun: bytes)
      ensures trun == PrintBox(TrunV2(frames, MoofSizeV2(|frames|, baseMediaDecodeTime) + 8))
    {
      hide BE32, PrintBox, RowsV2, MoofSizeV2, Unsigned;
      var content: bytes := [];
      content := content + [1];
      content := content + [0x00, 0x0F, 0x01];
      content := content + BE32(|frames|);
      var moofSize: int := CalculateMoofSizeV2(frames);
      WrappedWord(MoofSizeV2(|frames|, baseMediaDecodeTime), 8);
      content := content + BE32(moofSize + 8);
      ghost var head := content;
      NoFrames();
      assert head == [1, 0, 0x0F, 1] + BE32(|frames|) + BE32(MoofSizeV2(|frames|, baseMediaDecodeTime) + 8);
      assert head + [] == head;
      for i := 0 to |frames|
        invariant content == head + RowsV2(frames[..i])
      {
        ghost var before, f := content, frames[i];
        content := content + BE32(frames[i].duration);
        content := content + BE32(frames[i].size);
        var flags: u32 := if frames[i].isKeyframe then 0x0200_0000 else 0x0101_0000;
        content := content + BE32(flags);
        content := content + BE32(Unsigned(frames[i].compositionOffset));
        JoinFour(before, BE32(f.duration), BE32(f.size), BE32(flags), BE32(Unsigned(f.compositionOffset)));
        RowsSnoc(frames, i);
        hide RowV2;
        Reassociate(head, RowsV2(frames[..i]), RowV2(f));
      }
      assert frames[..|frames|] == frames;
      assert content == TrunV2(frames, MoofSizeV2(|frames|, baseMediaDecodeTime) + 8).payload;
      trun := WrapBox(TRUN, content);
    }

    method CreateTraf(frames: seq<FrameData>, track: u32) returns (traf: bytes)
      ensures traf == PrintBox(Traf(Tfhd(track), TfdtV0(baseMediaDecodeTime), TrunV1(frames, MoofSizeV1(|frames|) + 8)))
    {
      hide PrintBox, PrintBoxes, BE32, Tfhd, TfdtV0, TfdtAuto, TrunV1, TrunV2;
      var tfhd := CreateTfhd(track);
      var content := tfhd;
      var tfdt := CreateTfdt();
      content := content + tfdt;
      var trun := CreateTrun(frames);
      content := content + trun;
      PrintThree(Tfhd(track), TfdtV0(baseMediaDecodeTime), TrunV1(frames, MoofSizeV1(|frames|) + 8));
      traf := WrapBox(TRAF, content);
    }

    method CreateTrafV2(frames: seq<FrameData>, track: u32) returns (traf: bytes)
      ensures traf == PrintBox(Traf(Tfhd(track), TfdtAuto(baseMediaDecodeTime),
                                    TrunV2(frames, MoofSizeV2(|frames|, baseMediaDecodeTime) + 8)))
    {
      hide PrintBox, PrintBoxes, BE32, Tfhd, TfdtV0, TfdtAuto, TrunV1, TrunV2;
      var tfhd := CreateTfhd(track);
      var content := tfhd;
      var tfdt := CreateTfdtAuto();
      content := content + tfdt;
      var trun := CreateTrunV2(frames);
      content := content + trun;
      PrintThree(Tfhd(track), TfdtAuto(baseMediaDecodeTime), TrunV2(frames, MoofSizeV2(|frames|, baseMediaDecodeTime) + 8));
      traf := WrapBox(TRAF, content);
    }

    method CreateMoof(frames: seq<FrameData>, track: u32) returns (moof: bytes)
      ensures moof == PrintBox(MoofV1(sequenceNumber, baseMediaDecodeTime, track, frames))
    {
      hide PrintBox, PrintBoxes, BE32, Mfhd, Tfhd, TfdtV0, TfdtAuto, TrunV1, TrunV2, Traf;
      var mfhd := CreateMfhd();
      var content := mfhd;
      var traf := CreateTraf(frames, track);
      content := content + traf;
      PrintTwo(Mfhd(sequenceNumber), Traf(Tfhd(track), TfdtV0(baseMediaDecodeTime), TrunV1(frames, MoofSizeV1(|frames|) + 8)));
      moof := WrapBox(MOOF, content);
    }

    method CreateMoofV2(frames: seq<FrameData>, track: u32) returns (moof: bytes)
      ensures moof == PrintBox(MoofV2(sequenceNumber, baseMediaDecodeTime, track, frames))
    {
      hide PrintBox, PrintBoxes, BE32, Mfhd, Tfhd, TfdtV0, TfdtAuto, TrunV1, TrunV2, Traf;
      var mfhd := CreateMfhd();
      var content := mfhd;
      var traf := CreateTrafV2(frames, track);
      content := content + traf;
      PrintTwo(Mfhd(sequenceNumber), Traf(Tfhd(track), TfdtAuto(baseMediaDecodeTime),
                                          TrunV2(frames, MoofSizeV2(|frames|, baseMediaDecodeTime) + 8)));
      moof := WrapBox(MOOF, content);
    }

    /** `create_mdat` and `create_mdat_v2` have the same body. */
    method CreateMdat(frames: seq<FrameData>) returns (mdat: bytes)
      ensures mdat == MdatBytes(frames)
    {
      hide BE32, Wrap32, SumSizes, Payload;
      var dataSize: u32 := 0;
      NoWrap32(0);
      NoFrames();
      for i := 0 to |frames|
        invariant dataSize == Wrap32(SumSizes(frames[..i]))
      {
        WrapAdd32(SumSizes(frames[..i]), frames[i].size);
        dataSize := Wrap32(dataSize + frames[i].size);
        SizesSnoc(frames, i);
      }
      assert frames[..|frames|] == frames;
      mdat := [];
      WrappedWord(SumSizes(frames), 8);
      mdat := mdat + BE32(8 + dataSize);
      mdat := mdat + MDAT;
      assert mdat + [] == mdat;
      for i := 0 to |frames|
        invariant mdat == BE32(8 + SumSizes(frames)) + MDAT + Payload(frames[..i])
      {
        mdat := mdat + frames[i].data;
        SizesSnoc(frames, i);
        assert (BE32(8 + SumSizes(frames)) + MDAT + Payload(frames[..i])) + frames[i].data
            == BE32(8 + SumSizes(frames)) + MDAT + (Payload(frames[..i]) + frames[i].data);
      }
    }

    method CreateFragment(frames: seq<FrameData>, track: u32) returns (fragment: bytes)
      modifies this
      ensures fragment == FragmentV1(old(sequenceNumber), old(baseMediaDecodeTime), track, frames)
      ensures sequenceNumber == Wrap32(old(sequenceNumber) + 1)
      ensures baseMediaDecodeTime == Wrap64(old(baseMediaDecodeTime) + TotalDuration(frames))
      ensures trackId == old(trackId)
    {
      var moof := CreateMoof(frames, track);
      fragment := moof;
      var mdat := CreateMdat(frames);
      fragment := fragment + mdat;
      sequenceNumber := Wrap32(sequenceNumber + 1);
      baseMediaDecodeTime := Wrap64(baseMediaDecodeTime + TotalDuration(frames));
    }

    method CreateFragmentV2(frames: seq<FrameData>, track: u32) returns (fragment: bytes)
      modifies this
      ensures fragment == FragmentV2(old(sequenceNumber), old(baseMediaDecodeTime), track, frames)
      ensures sequenceNumber == Wrap32(old(sequenceNumber) + 1)
      ensures baseMediaDecodeTime == Wrap64(old(baseMediaDecodeTime) + TotalDuration(frames))
      ensures trackId == old(trackId)
    {
      var moof := CreateMoofV2(frames, track);
      fragment := moof;
      var mdat := CreateMdat(frames);
      fragment := fragment + mdat;
      sequenceNumber := Wrap32(sequenceNumber + 1);
      baseMediaDecodeTime := Wrap64(baseMediaDecodeTime + TotalDuration(frames));
    }
  }
}
