/** What renewing a tfdt does to where samples are found (core/src/media/mp4_parser.rs, `ensure_moof_has_tfdt`):
    the data offset of a trun is left as it was, so it still points at the same bytes of the following mdat only
    when the moof has kept its length. */
module SampleLocations {
  import opened Bytes
  import opened Outcomes
  import opened Boxes
  import opened TfdtInsertion
  import Converter
  import Demux

  /** Whatever follows the moof, offset `o` from its start reads the same byte behind either version of it. */
  ghost predicate SameByteRead(moof: bytes, renewed: bytes, o: nat) {
    forall tail: bytes :: o < |moof + tail| && o < |renewed + tail| ==> (moof + tail)[o] == (renewed + tail)[o]
  }

  lemma {:induction false} ReadsSameIff(moof: bytes, renewed: bytes, o: nat)
    requires o >= |moof|
    ensures SameByteRead(moof, renewed, o) <==> |moof| == |renewed|
  {
    if |moof| != |renewed| {
      var i := o - |moof|;
      var x: byte := if o < |renewed| && renewed[o] == 1 then 2 else 1;
      var tail: bytes := seq(o + 1, k => if k == i then x else 0);
      assert (moof + tail)[o] == x;
      assert (renewed + tail)[o] == if o < |renewed| then renewed[o] else 0;
      assert !SameByteRead(moof, renewed, o);
    }
  }

  /** The exact condition for any moof: what its trafs gain and lose adds up to nothing. */
  lemma {:induction false} LocationsKeptIff(cs: seq<Child>, time: u64, o: nat)
    requires o >= |PrintBox(Box(MOOF, PrintBoxes(BoxesOf(cs))))|
    ensures SameByteRead(PrintBox(Box(MOOF, PrintBoxes(BoxesOf(cs)))), PrintBox(Box(MOOF, PrintBoxes(BoxesOf(SetChildren(cs, time))))), o)
            <==> TotalGrowth(cs) == 0
  {
    SetChildrenLength(cs, time);
    hide SameByteRead, PrintBoxes, BoxesOf, SetChildren, TotalGrowth;
    ReadsSameIff(PrintBox(Box(MOOF, PrintBoxes(BoxesOf(cs)))), PrintBox(Box(MOOF, PrintBoxes(BoxesOf(SetChildren(cs, time))))), o);
  }

  /** The children of a fragment this server writes. */
  function Written(sequence: u32, trackId: u32, tfdt: Box, trun: Box): seq<Child> {
    [Plain(Converter.Mfhd(sequence)), Frag([Converter.Tfhd(trackId), tfdt, trun])]
  }

  lemma {:induction false} WrittenBoxes(sequence: u32, trackId: u32, tfdt: Box, trun: Box)
    ensures Box(MOOF, PrintBoxes(BoxesOf(Written(sequence, trackId, tfdt, trun))))
         == Converter.Moof(Converter.Mfhd(sequence), Converter.Traf(Converter.Tfhd(trackId), tfdt, trun))
  {
    hide PrintBoxes;
    var cs := Written(sequence, trackId, tfdt, trun);
    assert cs[1..][1..] == [];
    assert BoxesOf(cs) == [Converter.Mfhd(sequence), Converter.Traf(Converter.Tfhd(trackId), tfdt, trun)];
  }

  /** The payload is the four letters of its own box type over and over, or nothing. */
  predicate RepeatsMdat(payload: bytes) { payload == (MDAT + payload)[..|payload|] }

  /** The renewed moof of a fragment this server writes, behind which the mdat is left as it was. */
  lemma {:induction false} WrittenRenewed(sequence: u32, trackId: u32, tfdt: Box, trun: Box, time: u64)
    requires Legal(tfdt) && tfdt.kind == TFDT && Legal(trun) && trun.kind == TRUN && Legal(Converter.Tfhd(trackId))
    requires Legal(Converter.Traf(Converter.Tfhd(trackId), tfdt, trun))
    requires Legal(Converter.Moof(Converter.Mfhd(sequence), Converter.Traf(Converter.Tfhd(trackId), tfdt, trun)))
    ensures EnsureMoof(PrintBox(Converter.Moof(Converter.Mfhd(sequence), Converter.Traf(Converter.Tfhd(trackId), tfdt, trun))), time)
         == Done(PrintBox(Converter.Moof(Converter.Mfhd(sequence), Converter.Traf(Converter.Tfhd(trackId), Converter.TfdtV1(time), trun))))
  {
    hide PrintBox, PrintBoxes, EnsureMoof;
    var cs := Written(sequence, trackId, tfdt, trun);
    WrittenBoxes(sequence, trackId, tfdt, trun);
    WrittenSet(sequence, trackId, tfdt, trun, time);
    WrittenBoxes(sequence, trackId, Converter.TfdtV1(time), trun);
    WrittenLegal(sequence, trackId, tfdt, trun);
    EnsureMoofPrinted(cs, time);
  }

  lemma {:induction false} WrittenLegal(sequence: u32, trackId: u32, tfdt: Box, trun: Box)
    requires Legal(tfdt) && Legal(trun) && Legal(Converter.Tfhd(trackId)) && Legal(Converter.Traf(Converter.Tfhd(trackId), tfdt, trun))
    ensures LegalChildren(Written(sequence, trackId, tfdt, trun))
  {
    hide PrintBoxes;
    KindsDiffer();
    var bs := [Converter.Tfhd(trackId), tfdt, trun];
    assert AllLegal(bs);
    Demux.MfhdRead(sequence);
  }

  lemma {:induction false} WrittenSet(sequence: u32, trackId: u32, tfdt: Box, trun: Box, time: u64)
    requires tfdt.kind == TFDT && trun.kind == TRUN
    ensures SetChildren(Written(sequence, trackId, tfdt, trun), time) == Written(sequence, trackId, Converter.TfdtV1(time), trun)
  {
    KindsDiffer();
    hide TFHD, TFDT, TRUN;
    var tfhd := Converter.Tfhd(trackId);
    var bs := [tfhd, tfdt, trun];
    var b1, b2 := bs[1..], bs[1..][1..];
    assert b1[0] == tfdt && b2[0] == trun && b2[1..] == [];
    assert Renewed(b2[1..], time) == [] && Renewed(b2, time) == [trun];
    assert Renewed(b1, time) == [Converter.TfdtV1(time), trun] && Renewed(bs, time) == Renewed(b1, time);
    assert HasTfdt(b1) && HasTfdt(bs);
    var i2, i1 := bs[..2], bs[..2][..1];
    assert i2[1] == tfdt && i1[0] == tfhd && bs[..|bs| - 1] == i2 && i2[..|i2| - 1] == i1;
    assert LastTfhd(i1) == Some(tfhd) && LastTfhd(i2) == Some(tfhd) && LastTfhd(bs) == Some(tfhd);
    assert SetTraf(bs, time) == [tfhd, Converter.TfdtV1(time), trun];
    var cs := Written(sequence, trackId, tfdt, trun);
    assert cs[1..] == [Frag(bs)] && cs[1..][1..] == [];
    assert SetChildren(cs[1..], time) == [Frag(SetTraf(bs, time))];
  }

  /** Renewing the time of a fragment this server wrote itself gives the same samples at the new time exactly when its
      tfdt already had 64 bits -- or when reading four bytes too early makes no difference. */
  lemma {:induction false} OwnFragmentRenewedIff(
      sequence: u32, written: u64, trackId: u32, frames: seq<Converter.FrameData>, time: u64, d: Demux.Defaults)
    requires Demux.FitsV2(frames, written)
    ensures var renewed := EnsureMoof(PrintBox(Converter.MoofV2(sequence, written, trackId, frames)), time);
            && renewed.Done?
            && (Demux.DemuxFragment(renewed.value + Converter.MdatBytes(frames), d)
                  == Some(Demux.Fragment(sequence, trackId, time, Demux.Timed(frames, time)))
                <==> written >= TWO32 || RepeatsMdat(Converter.Payload(frames)))
  {
    hide PrintBox, PrintBoxes, Converter.MdatBytes, Demux.DemuxFragment, Demux.DemuxRun, Converter.RowsV2, Converter.Payload, BE32, BE64,
      Demux.Timed, Demux.ReadTime, EnsureMoof, RepeatsMdat;
    var offset := Converter.MoofSizeV2(|frames|, written) + 8;
    var tfhd, tfdt, trun := Converter.Tfhd(trackId), Converter.TfdtV1(time), Converter.TrunV2(frames, offset);
    var moof := Converter.Moof(Converter.Mfhd(sequence), Converter.Traf(tfhd, tfdt, trun));
    Converter.MoofSizePredicted(sequence, written, trackId, frames);
    Demux.LegalV2(sequence, written, trackId, frames);
    RenewedLegal(sequence, written, trackId, frames, time);
    WrittenRenewed(sequence, trackId, Converter.TfdtAuto(written), trun, time);
    Demux.SegmentOpened(tfhd, tfdt, trun, frames, sequence, d);
    Demux.SegmentTiled(moof, frames);
    Demux.TfdtV1Read(time);
    var s := PrintBox(moof) + Converter.MdatBytes(frames);
    Demux.RunDemuxedV2(sequence, tfdt.payload, time, trackId, frames, s, offset, d);
    ReadEarly(moof, frames, offset);
  }

  /** The renewed moof is as long as it was, or four bytes longer. */
  lemma {:induction false} RenewedLegal(sequence: u32, written: u64, trackId: u32, frames: seq<Converter.FrameData>, time: u64)
    requires Demux.FitsV2(frames, written)
    ensures var trun := Converter.TrunV2(frames, Converter.MoofSizeV2(|frames|, written) + 8);
            var tfhd, tfdt := Converter.Tfhd(trackId), Converter.TfdtV1(time);
            var moof := Converter.Moof(Converter.Mfhd(sequence), Converter.Traf(tfhd, tfdt, trun));
            && Legal(tfhd) && Legal(tfdt) && Legal(Converter.Traf(tfhd, tfdt, trun)) && Legal(moof)
            && |PrintBox(moof)| == Converter.MoofSizeV2(|frames|, written) + if written < TWO32 then 4 else 0
  {
    hide Converter.RowsV2;
    var trun := Converter.TrunV2(frames, Converter.MoofSizeV2(|frames|, written) + 8);
    Converter.MoofSizePredicted(sequence, written, trackId, frames);
    Converter.PrintTwo(Converter.Mfhd(sequence), Converter.Traf(Converter.Tfhd(trackId), Converter.TfdtAuto(written), trun));
    Converter.PrintThree(Converter.Tfhd(trackId), Converter.TfdtAuto(written), trun);
    Converter.PrintTwo(Converter.Mfhd(sequence), Converter.Traf(Converter.Tfhd(trackId), Converter.TfdtV1(time), trun));
    Converter.PrintThree(Converter.Tfhd(trackId), Converter.TfdtV1(time), trun);
  }

  /** What stands at an offset behind the mdat header, or four bytes in front of it. */
  lemma {:induction false} ReadEarly(moof: Box, frames: seq<Converter.FrameData>, offset: nat)
    requires Demux.Sized(frames) && 8 + |Converter.Payload(frames)| < TWO32
    requires offset == |PrintBox(moof)| + 8 || offset == |PrintBox(moof)| + 4
    ensures var s, p := PrintBox(moof) + Converter.MdatBytes(frames), Converter.Payload(frames);
            && offset + |p| <= |s|
            && (offset == |PrintBox(moof)| + 8 ==> s[offset..offset + |p|] == p)
            && (offset == |PrintBox(moof)| + 4 ==> (s[offset..offset + |p|] == p <==> RepeatsMdat(p)))
  {
    hide PrintBox, BE32, Converter.Payload;
    var m, p := PrintBox(moof), Converter.Payload(frames);
    var n := BE32(8 + Converter.SumSizes(frames));
    var s := m + Converter.MdatBytes(frames);
    Demux.SizesAreLengths(frames);
    assert s == (m + n) + (MDAT + p);
    assert s == (m + n + MDAT) + p;
    assert s[|m| + 4..|m| + 4 + |p|] == (MDAT + p)[..|p|];
    assert s[|m| + 8..|m| + 8 + |p|] == p;
  }
}
