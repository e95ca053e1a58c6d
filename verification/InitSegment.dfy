/** An independent reading of an initialization segment, after ISO/IEC 14496-12 (sections 8.8.1 and 8.8.3), and what the
    one written for a regular file says to a reader (core/src/media/mp4_parser.rs, `create_mse_compatible_moov`). */
module InitSegments {
  import opened Bytes
  import opened Outcomes
  import opened Boxes
  import opened BoxParsers
  import opened Codecs
  import opened MoovTracks
  import opened Mp4Parsers
  import Demux
  import MoovFilter

  /** What a trex says about the fragments of one track. */
  datatype TrackDefaults = TrackDefaults(trackId: u32, descriptionIndex: u32, sample: Demux.Defaults)

  function ReadTrex(p: bytes): Option<TrackDefaults> {
    if |p| != 24 || p[..4] != [0, 0, 0, 0] then None
    else Some(TrackDefaults(Read32(p, 4), Read32(p, 8), Demux.Defaults(Read32(p, 12), Read32(p, 16), Read32(p, 20))))
  }

  /** The contents of an mvex, when it holds nothing but trexes. */
  function ReadTrexes(bs: seq<Box>): Option<seq<TrackDefaults>> {
    if bs == [] then Some([])
    else if bs[0].kind != TREX then None
    else
      match (ReadTrex(bs[0].payload), ReadTrexes(bs[1..]))
      case (Some(t), Some(rest)) => Some([t] + rest)
      case _ => None
  }

  function ReadMvex(mvex: Box): Option<seq<TrackDefaults>> {
    var bs := ScanAll(mvex.payload);
    if PrintBoxes(bs) != mvex.payload then None else ReadTrexes(bs)
  }

  /** The trexes of an initialization segment: boxes at the top level, a moov, its last mvex. */
  function ReadInit(s: bytes): Option<seq<TrackDefaults>> {
    var top := ScanAll(s);
    if PrintBoxes(top) != s then None else
      match Demux.Find(top, MOOV)
      case None => None
      case Some(moov) =>
        var inner := ScanAll(moov.payload);
        if PrintBoxes(inner) != moov.payload then None else
          match MoovFilter.LastMvex(inner)
          case None => None
          case Some(mvex) => ReadMvex(mvex)
  }

  /** The defaults a reader uses for the fragments of a track. */
  function DefaultsFor(ts: seq<TrackDefaults>, trackId: u32): Option<Demux.Defaults> {
    if ts == [] then None else if ts[0].trackId == trackId then Some(ts[0].sample) else DefaultsFor(ts[1..], trackId)
  }

  // ---------------------------------------------------------------- one trex

  lemma {:induction false} TrexPayload(id: u32)
    ensures var p := Trex(id).payload;
            && |p| == 24 && p[..4] == [0, 0, 0, 0] && p[4..8] == BE32(id) && p[8..12] == BE32(1)
            && p[12..16] == BE32(0) && p[16..20] == BE32(0) && p[20..24] == BE32(0)
  {
    hide BE32;
  }

  /** A trex names its track, sample description 1, and defaults of zero. */
  lemma {:induction false} TrexRead(id: u32)
    ensures Trex(id).kind == TREX && Legal(Trex(id))
    ensures ReadTrex(Trex(id).payload) == Some(TrackDefaults(id, 1, Demux.Defaults(0, 0, 0)))
    ensures |Trex(id).payload| >= 8 && MoovFilter.TrexId(Trex(id)) == id
  {
    TrexPayload(id);
    var p := Trex(id).payload;
    hide Trex, Read32, BE32;
    Read32Printed(p, 4, id);
    Read32Printed(p, 8, 1);
    Read32Printed(p, 12, 0);
    Read32Printed(p, 16, 0);
    Read32Printed(p, 20, 0);
    TrexKind(id);
  }

  lemma {:induction false} TrexKind(id: u32)
    ensures Trex(id).kind == TREX && |TREX| == 4
  {
  }

  // ---------------------------------------------------------------- the mvex

  /** One entry for each track, in order. */
  function Announced(tracks: seq<Track>): (ts: seq<TrackDefaults>)
    ensures |ts| == |tracks|
    ensures forall i :: 0 <= i < |tracks| ==> ts[i] == TrackDefaults(tracks[i].trackId, 1, Demux.Defaults(0, 0, 0))
  {
    seq(|tracks|, i requires 0 <= i < |tracks| => TrackDefaults(tracks[i].trackId, 1, Demux.Defaults(0, 0, 0)))
  }

  lemma {:induction false} ReadTrexesSnoc(bs: seq<Box>, b: Box, t: TrackDefaults)
    requires ReadTrexes(bs).Some? && b.kind == TREX && ReadTrex(b.payload) == Some(t)
    ensures ReadTrexes(bs + [b]) == Some(ReadTrexes(bs).value + [t])
    decreases |bs|
  {
    hide ReadTrex, TREX;
    if bs == [] {
      assert [] + [b] == [b] && [b][1..] == [];
      assert [] + [t] == [t] && [t] + [] == [t];
    } else {
      ReadTrexesSnoc(bs[1..], b, t);
      assert (bs + [b])[1..] == bs[1..] + [b] && (bs + [b])[0] == bs[0];
      Reassociate([ReadTrex(bs[0].payload).value], ReadTrexes(bs[1..]).value, [t]);
    }
  }

  lemma {:induction false} TrexesRead(tracks: seq<Track>)
    ensures AllLegal(Trexes(tracks)) && |PrintBoxes(Trexes(tracks))| == 32 * |tracks|
    ensures ReadTrexes(Trexes(tracks)) == Some(Announced(tracks))
  {
    hide Trex, ReadTrex, PrintBox, PrintBoxes, ReadTrexes;
    if tracks == [] {
      NoTrexes();
    } else {
      var init, id := tracks[..|tracks| - 1], tracks[|tracks| - 1].trackId;
      TrexesRead(init);
      TrexRead(id);
      TrexPayload(id);
      PrintSnoc(Trexes(init), Trex(id));
      BoxLength(Trex(id));
      ReadTrexesSnoc(Trexes(init), Trex(id), TrackDefaults(id, 1, Demux.Defaults(0, 0, 0)));
      assert Announced(tracks) == Announced(init) + [TrackDefaults(id, 1, Demux.Defaults(0, 0, 0))];
    }
  }

  lemma {:induction false} NoTrexes()
    ensures ReadTrexes([]) == Some([]) && PrintBoxes([]) == []
  {
  }

  lemma {:induction false} BoxLength(b: Box)
    requires Legal(b)
    ensures |PrintBox(b)| == 8 + |b.payload|
  {
  }

  /** The new mvex holds one trex per track, in order, each with the id of its track. */
  lemma {:induction false} MvexRead(tracks: seq<Track>)
    ensures ReadMvex(Box(MVEX, PrintBoxes(Trexes(tracks)))) == Some(Announced(tracks))
    ensures |PrintBoxes(Trexes(tracks))| == 32 * |tracks|
  {
    hide PrintBoxes, Trexes, ReadTrexes, ScanAll;
    TrexesRead(tracks);
    ScanAllPrinted(Trexes(tracks));
  }

  // ---------------------------------------------------------------- the whole segment

  /** The ftyp boxes of a file, as far as they are small enough to be written. */
  function Ftyps(bs: seq<Mp4Box>): seq<Box> {
    if bs == [] then []
    else
      var b := bs[|bs| - 1];
      Ftyps(bs[..|bs| - 1]) + if b.header.boxType == FTYP && 8 + |b.content| <= CAP then [Box(FTYP, b.content)] else []
  }

  lemma {:induction false} FtypSerialized(b: Mp4Box)
    requires b.header.boxType == FTYP
    ensures 8 + |b.content| <= CAP ==> Legal(Box(FTYP, b.content)) && Serialize(b) == PrintBox(Box(FTYP, b.content))
    ensures 8 + |b.content| > CAP ==> Serialize(b) == []
  {
  }

  lemma {:induction false} LegalSnoc(bs: seq<Box>, b: Box)
    requires AllLegal(bs) && Legal(b)
    ensures AllLegal(bs + [b])
  {
  }

  lemma {:induction false} FtypsPrinted(bs: seq<Mp4Box>)
    ensures AllLegal(Ftyps(bs)) && PrintBoxes(Ftyps(bs)) == FtypBytes(bs)
    ensures forall i :: 0 <= i < |Ftyps(bs)| ==> Ftyps(bs)[i].kind == FTYP
  {
    hide Serialize, PrintBox, PrintBoxes, FTYP;
    if bs == [] {
      NoTrexes();
    } else {
      var init, b := bs[..|bs| - 1], bs[|bs| - 1];
      FtypsPrinted(init);
      assert Ftyps(init) + [] == Ftyps(init);
      assert FtypBytes(init) + [] == FtypBytes(init);
      if b.header.boxType == FTYP {
        FtypSerialized(b);
        if 8 + |b.content| <= CAP {
          PrintSnoc(Ftyps(init), Box(FTYP, b.content));
          LegalSnoc(Ftyps(init), Box(FTYP, b.content));
        }
      }
    }
  }

  lemma {:induction false} FindBehind(bs: seq<Box>, b: Box)
    requires forall i :: 0 <= i < |bs| ==> bs[i].kind != b.kind
    ensures Demux.Find(bs + [b], b.kind) == Some(b)
    decreases |bs|
  {
    if bs == [] {
      assert [] + [b] == [b];
    } else {
      FindBehind(bs[1..], b);
      assert (bs + [b])[1..] == bs[1..] + [b] && (bs + [b])[0] == bs[0];
    }
  }

  lemma {:induction false} LastBehind(bs: seq<Box>, mvex: Box)
    requires mvex.kind == MVEX
    ensures MoovFilter.LastMvex(bs + [mvex]) == Some(mvex)
    decreases |bs|
  {
    if bs == [] {
      assert [] + [mvex] == [mvex] && [mvex][1..] == [];
    } else {
      LastBehind(bs[1..], mvex);
      assert (bs + [mvex])[1..] == bs[1..] + [mvex];
    }
  }

  /** The boxes of the initialization segment: the ftyps of the file, then its moov with the new mvex at its end. */
  function InitBoxes(bs: seq<Mp4Box>, moov: seq<Box>, mvex: Box): seq<Box> {
    Ftyps(bs) + [Box(MOOV, PrintBoxes(moov + [mvex]))]
  }

  lemma {:induction false} FtypIsNotMoov()
    ensures FTYP != MOOV && |MOOV| == 4 && |MVEX| == 4
  {
    assert FTYP[0] != MOOV[0];
  }

  lemma {:induction false} InitPrinted(bs: seq<Mp4Box>, tracks: seq<Track>, moov: seq<Box>)
    requires LastMoov(bs) == Some(PrintBoxes(moov)) && AllLegal(moov) && !HasAc3(tracks)
    requires 8 + |PrintBoxes(moov)| + 8 + 32 * |tracks| < TWO32
    ensures var mvex := Box(MVEX, PrintBoxes(Trexes(tracks)));
            && Legal(mvex) && AllLegal(moov + [mvex])
            && AllLegal(InitBoxes(bs, moov, mvex)) && PrintBoxes(InitBoxes(bs, moov, mvex)) == InitData(bs, tracks)
  {
    hide FtypBytes, PrintBox, PrintBoxes, Trexes, HasAc3, LastMoov, Ftyps;
    var mvex := Box(MVEX, PrintBoxes(Trexes(tracks)));
    MvexRead(tracks);
    FtypIsNotMoov();
    hide MOOV, MVEX;
    LegalSnoc(moov, mvex);
    PrintSnoc(moov, mvex);
    BoxLength(mvex);
    FtypsPrinted(bs);
    var all := Box(MOOV, PrintBoxes(moov + [mvex]));
    LegalSnoc(Ftyps(bs), all);
    PrintSnoc(Ftyps(bs), all);
  }

  /** Reading the initialization segment of a regular file: its top level is the ftyps and the moov of the file, the moov
      is the original one with an mvex behind all its boxes, and that mvex announces every track, in order, with its id,
      sample description 1 and defaults of zero. */
  lemma {:induction false} InitReads(bs: seq<Mp4Box>, tracks: seq<Track>, moov: seq<Box>)
    requires LastMoov(bs) == Some(PrintBoxes(moov)) && AllLegal(moov) && !HasAc3(tracks)
    requires 8 + |PrintBoxes(moov)| + 8 + 32 * |tracks| < TWO32
    ensures ReadInit(InitData(bs, tracks)) == Some(Announced(tracks))
    ensures var top := ScanAll(InitData(bs, tracks));
            && PrintBoxes(top) == InitData(bs, tracks)
            && top != [] && top[..|top| - 1] == Ftyps(bs) && top[|top| - 1].kind == MOOV
            && var inner := ScanAll(top[|top| - 1].payload);
            && inner != [] && inner[..|inner| - 1] == moov && inner[|inner| - 1].kind == MVEX
  {
    hide PrintBoxes, Trexes, HasAc3, LastMoov, Ftyps, ScanAll, InitData, ReadMvex;
    var mvex := Box(MVEX, PrintBoxes(Trexes(tracks)));
    InitPrinted(bs, tracks, moov);
    MvexRead(tracks);
    FtypsPrinted(bs);
    FtypIsNotMoov();
    hide MOOV, MVEX, FTYP;
    ScanAllPrinted(InitBoxes(bs, moov, mvex));
    ScanAllPrinted(moov + [mvex]);
    FindBehind(Ftyps(bs), Box(MOOV, PrintBoxes(moov + [mvex])));
    LastBehind(moov, mvex);
  }

  // ---------------------------------------------------------------- the defaults of a track

  lemma {:induction false} DefaultsOfTrack(tracks: seq<Track>, kind: bytes)
    requires FindTrack(tracks, kind).Some?
    ensures DefaultsFor(Announced(tracks), FindTrack(tracks, kind).value.trackId) == Some(Demux.Defaults(0, 0, 0))
    decreases |tracks|
  {
    if tracks[0].mediaType != kind {
      DefaultsOfTrack(tracks[1..], kind);
      assert Announced(tracks)[1..] == Announced(tracks[1..]);
    }
  }
}
