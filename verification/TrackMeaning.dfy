/** What the walks over a moov find in well-formed boxes: the tracks that the standard says the boxes describe, if the
    two words that move with a box version are read where they are. */
module TrackMeaning {
  import opened Bytes
  import opened Outcomes
  import opened Boxes
  import opened Utf8
  import opened SampleTables
  import opened Codecs
  import opened TableParsers
  import opened MoovTracks
  import MoovFilter

  /** There is such a box, and any other of its kind is the same. */
  predicate Only(bs: seq<Box>, kind: bytes, payload: bytes) {
    Has(bs, kind) && AllAre(bs, kind, payload)
  }

  predicate Has(bs: seq<Box>, kind: bytes) {
    exists i :: 0 <= i < |bs| && bs[i].kind == kind
  }

  predicate AllAre(bs: seq<Box>, kind: bytes, payload: bytes) {
    forall i :: 0 <= i < |bs| && bs[i].kind == kind ==> bs[i].payload == payload
  }

  lemma {:induction false} HasTail(bs: seq<Box>, kind: bytes)
    requires bs != []
    ensures Has(bs, kind) <==> bs[0].kind == kind || Has(bs[1..], kind)
  {
    if Has(bs, kind) && bs[0].kind != kind {
      var i :| 0 <= i < |bs| && bs[i].kind == kind;
      assert bs[1..][i - 1].kind == kind;
    }
    if Has(bs[1..], kind) {
      var i :| 0 <= i < |bs| - 1 && bs[1..][i].kind == kind;
      assert bs[i + 1].kind == kind;
    }
  }

  lemma {:induction false} AllAreTail(bs: seq<Box>, kind: bytes, payload: bytes)
    requires bs != [] && AllAre(bs, kind, payload)
    ensures AllAre(bs[1..], kind, payload) && (bs[0].kind == kind ==> bs[0].payload == payload)
  {
  }

  /** The timescale of an mdhd, where its version puts it (section 8.4.2 of ISO/IEC 14496-12). */
  function MdhdTimescale(payload: bytes): Option<u32> {
    var at := if payload != [] && payload[0] == 1 then 20 else 12;
    if at + 4 <= |payload| then Some(Read32(payload, at)) else None
  }

  /** The boxes of a trak, as a tree. */
  datatype TrakTree = TrakTree(
    boxes: seq<Box>, tkhd: bytes, mdia: seq<Box>, mdhd: bytes, hdlr: bytes, minf: seq<Box>, stbl: seq<Box>)

  /** A track as the standard describes it. */
  datatype TrackSpec = TrackSpec(trackId: u32, handler: bytes, timescale: u32, table: SampleTable)

  predicate StandardStsds(bs: seq<Box>) {
    forall i :: 0 <= i < |bs| && bs[i].kind == STSD ==> StandardEntry(bs[i].payload)
  }

  predicate WellFormed(t: TrakTree) {
    && AllLegal(t.boxes) && AllLegal(t.mdia) && AllLegal(t.minf) && AllLegal(t.stbl)
    && Only(t.boxes, TKHD, t.tkhd) && |t.tkhd| >= 16
    && Only(t.boxes, MDIA, PrintBoxes(t.mdia))
    && Only(t.mdia, MDHD, t.mdhd) && |t.mdhd| >= 20
    && Only(t.mdia, HDLR, t.hdlr) && |t.hdlr| >= 12
    && Only(t.mdia, MINF, PrintBoxes(t.minf))
    && Only(t.minf, STBL, PrintBoxes(t.stbl))
    && StandardStsds(t.stbl)
  }

  function Trak(t: TrakTree): Box { Box(TRAK, PrintBoxes(t.boxes)) }

  predicate IsTrakOf(t: TrakTree, s: TrackSpec) {
    && WellFormed(t) && s.trackId > 0 && |s.handler| == 4 && s.table.sampleSizes != []
    && MoovFilter.TkhdTrackId(t.tkhd) == Some(s.trackId)
    && MdhdTimescale(t.mdhd) == Some(s.timescale)
    && t.hdlr[8..12] == s.handler
    && Describes(t.stbl, s.table)
  }

  /** The words at byte 12 of tkhd and mdhd are track_ID and timescale, as they are in version 0. */
  predicate WordsInPlace(t: TrakTree) {
    && |t.tkhd| >= 16 && |t.mdhd| >= 20
    && Some(Read32(t.tkhd, 12)) == MoovFilter.TkhdTrackId(t.tkhd) && Some(Read32(t.mdhd, 12)) == MdhdTimescale(t.mdhd)
  }

  // ---------------------------------------------------------------- one box of a walk

  /** The first of the boxes printed at `at`. */
  lemma {:induction false} HeadSeen(data: bytes, at: nat, bs: seq<Box>)
    requires AllLegal(bs) && bs != [] && at <= |data| && data[at..] == PrintBoxes(bs)
    ensures var b := bs[0];
            var next := at + 8 + |b.payload|;
            && at + 8 <= next <= |data| && Read32(data, at) == 8 + |b.payload| && data[at + 4..at + 8] == b.kind
            && data[at + 8..next] == b.payload && data[next..] == PrintBoxes(bs[1..]) && AllLegal(bs[1..])
  {
    hide PrintBox, PrintBoxes, Read32;
    var b, rest := bs[0], bs[1..];
    var n := 8 + |b.payload|;
    assert bs == [b] + rest && Legal(b);
    PrintCons(b, rest);
    LegalSize(b);
    assert data[at..at + |PrintBox(b)| + |PrintBoxes(rest)|] == PrintBox(b) + PrintBoxes(rest);
    SplitWindow(data, at, PrintBox(b), PrintBoxes(rest));
    BoxFound(data, at, |data|, b);
  }

  lemma {:induction false} LegalSize(b: Box)
    requires Legal(b)
    ensures |PrintBox(b)| == 8 + |b.payload|
  {
  }

  lemma {:induction false} NothingLeft(data: bytes, at: nat)
    requires at <= |data| && data[at..] == PrintBoxes([])
    ensures at == |data|
  {
  }

  /** A word of a payload, read in place. */
  lemma {:induction false} WordSeen(data: bytes, at: nat, payload: bytes, i: nat)
    requires at + |payload| <= |data| && data[at..at + |payload|] == payload && i + 4 <= |payload|
    ensures Read32(data, at + i) == Read32(payload, i) && data[at + i..at + i + 4] == payload[i..i + 4]
  {
    SubWindow(data, at, at + |payload|, i, i + 4);
  }

  // ---------------------------------------------------------------- stbl and minf

  lemma {:induction false} StandardStbl(bs: seq<Box>, media: bytes, stuck: Stuck)
    requires StandardStsds(bs)
    ensures !StsdOf(bs, media, stuck).Panicked?
  {
    hide Stsd, StandardEntry;
    if bs != [] {
      StandardStbl(bs[..|bs| - 1], media, stuck);
      if bs[|bs| - 1].kind == STSD {
        StandardReads(bs[|bs| - 1].payload, media, stuck);
      }
    }
  }

  lemma {:induction false} StblReads(bs: seq<Box>, t: SampleTable, media: bytes, table: Option<SampleTable>, stuck: Stuck)
    requires AllLegal(bs) && StandardStsds(bs) && Describes(bs, t) && t.sampleSizes != []
    ensures var r := StblRead(PrintBoxes(bs), media, table, stuck);
            r.Done? && r.value.table == Some(t)
  {
    hide StandardStsds, Describes, StsdOf, ScanAll, PrintBoxes, TableParsers.TableOf;
    ScanAllPrinted(bs);
    StandardStbl(bs, media, stuck);
    TableRoundTrip(bs, t);
  }

  /** Whatever the media type and the table so far, reading gives this table. */
  ghost predicate MinfGives(payload: bytes, t: SampleTable, stuck: Stuck) {
    forall media, table :: var r := MinfWalk(payload, 0, media, table, stuck); r.Done? && r.value.table == Some(t)
  }

  lemma {:induction false} MinfReads(
      data: bytes, at: nat, bs: seq<Box>, stbl: seq<Box>, t: SampleTable, media: bytes, table: Option<SampleTable>, stuck: Stuck)
    requires AllLegal(bs) && at <= |data| && data[at..] == PrintBoxes(bs) && Has(bs, STBL) && AllAre(bs, STBL, PrintBoxes(stbl))
    requires AllLegal(stbl) && StandardStsds(stbl) && Describes(stbl, t) && t.sampleSizes != []
    ensures var r := MinfWalk(data, at, media, table, stuck);
            r.Done? && r.value.table == Some(t)
    decreases |bs|
  {
    hide Read32, Left, StblRead, PrintBoxes, Describes, StandardStsds, AllLegal, Has, AllAre, STBL;
    if bs == [] {
      NothingHere(STBL);
    } else {
      HeadSeen(data, at, bs);
      AllAreTail(bs, STBL, PrintBoxes(stbl));
      HasTail(bs, STBL);
      if bs[0].kind == STBL {
        StblReads(stbl, t, media, table, stuck);
      } else {
        MinfReads(data, at + 8 + |bs[0].payload|, bs[1..], stbl, t, media, table, stuck);
      }
    }
  }

  lemma {:induction false} NothingHere(kind: bytes)
    ensures !Has([], kind)
  {
  }

  lemma {:induction false} MinfIsRead(t: TrakTree, table: SampleTable, stuck: Stuck)
    requires WellFormed(t) && Describes(t.stbl, table) && table.sampleSizes != []
    ensures MinfGives(PrintBoxes(t.minf), table, stuck)
  {
    hide PrintBoxes, Describes, StandardStsds, AllLegal, Has, AllAre, MinfWalk;
    var data := PrintBoxes(t.minf);
    assert data[0..] == data;
    forall media, before: Option<SampleTable>
      ensures var r := MinfWalk(data, 0, media, before, stuck); r.Done? && r.value.table == Some(table)
    {
      MinfReads(data, 0, t.minf, t.stbl, table, media, before, stuck);
    }
  }

  // ---------------------------------------------------------------- mdia

  lemma {:induction false} MdiaKindsDiffer()
    ensures MDHD != HDLR && MDHD != MINF && HDLR != MINF && TKHD != MDIA && TRAK != MVEX
  {
    assert MDHD[0] != HDLR[0] && MDHD[1] != MINF[1] && HDLR[0] != MINF[0] && TKHD[0] != MDIA[0] && TRAK[0] != MVEX[0];
  }

  lemma {:induction false} MdiaReads(
      data: bytes, at: nat, bs: seq<Box>, tree: TrakTree, minf: bytes, t: SampleTable, r: Read<Fields>, stuck: Stuck)
    requires AllLegal(bs) && at <= |data| && data[at..] == PrintBoxes(bs)
    requires AllAre(bs, MDHD, tree.mdhd) && |tree.mdhd| >= 20 && AllAre(bs, HDLR, tree.hdlr) && |tree.hdlr| >= 12
    requires AllAre(bs, MINF, minf) && MinfGives(minf, t, stuck)
    ensures var q := MdiaWalk(data, at, r, stuck);
            && q.Done?
            && q.value.value.timescale == (if Has(bs, MDHD) then Read32(tree.mdhd, 12) else r.value.timescale)
            && q.value.value.mediaType == (if Has(bs, HDLR) then Lossy(tree.hdlr[8..12]) else r.value.mediaType)
            && q.value.table == (if Has(bs, MINF) then Some(t) else r.table)
    decreases |bs|
  {
    hide Read32, Left, PrintBoxes, AllLegal, Has, AllAre, Lossy, MDHD, HDLR, MINF, MinfWalk;
    if bs == [] {
      NothingLeft(data, at);
      NothingHere(MDHD);
      NothingHere(HDLR);
      NothingHere(MINF);
    } else {
      var b, next := bs[0], at + 8 + |bs[0].payload|;
      HeadSeen(data, at, bs);
      MdiaTails(bs, tree, minf);
      MdiaKindsDiffer();
      if b.kind == MDHD {
        WordSeen(data, at + 8, b.payload, 12);
        MdiaReads(data, next, bs[1..], tree, minf, t, r.(value := r.value.(timescale := Read32(data, at + 20))), stuck);
      } else if b.kind == HDLR {
        WordSeen(data, at + 8, b.payload, 8);
        MdiaReads(data, next, bs[1..], tree, minf, t, r.(value := r.value.(mediaType := Lossy(data[at + 16..at + 20]))), stuck);
      } else if b.kind == MINF {
        var m := MinfWalk(minf, 0, r.value.mediaType, r.table, stuck);
        var r' := Read(if m.value.value.Some? then r.value.(codec := m.value.value.value) else r.value, m.value.table);
        MdiaReads(data, next, bs[1..], tree, minf, t, r', stuck);
      } else {
        MdiaReads(data, next, bs[1..], tree, minf, t, r, stuck);
      }
    }
  }

  lemma {:induction false} MdiaTails(bs: seq<Box>, tree: TrakTree, minf: bytes)
    requires bs != [] && AllAre(bs, MDHD, tree.mdhd) && AllAre(bs, HDLR, tree.hdlr) && AllAre(bs, MINF, minf)
    ensures AllAre(bs[1..], MDHD, tree.mdhd) && AllAre(bs[1..], HDLR, tree.hdlr) && AllAre(bs[1..], MINF, minf)
    ensures bs[0].kind == MDHD ==> bs[0].payload == tree.mdhd
    ensures bs[0].kind == HDLR ==> bs[0].payload == tree.hdlr
    ensures bs[0].kind == MINF ==> bs[0].payload == minf
    ensures Has(bs, MDHD) <==> bs[0].kind == MDHD || Has(bs[1..], MDHD)
    ensures Has(bs, HDLR) <==> bs[0].kind == HDLR || Has(bs[1..], HDLR)
    ensures Has(bs, MINF) <==> bs[0].kind == MINF || Has(bs[1..], MINF)
  {
    hide AllAre, Has, MDHD, HDLR, MINF;
    AllAreTail(bs, MDHD, tree.mdhd);
    AllAreTail(bs, HDLR, tree.hdlr);
    AllAreTail(bs, MINF, minf);
    HasTail(bs, MDHD);
    HasTail(bs, HDLR);
    HasTail(bs, MINF);
  }

  ghost predicate MdiaGives(payload: bytes, tree: TrakTree, t: SampleTable, stuck: Stuck)
    requires |tree.mdhd| >= 20 && |tree.hdlr| >= 12
  {
    forall table ::
      var q := MdiaWalk(payload, 0, Read(NO_FIELDS, table), stuck);
      && q.Done? && q.value.table == Some(t)
      && q.value.value.timescale == Read32(tree.mdhd, 12) && q.value.value.mediaType == Lossy(tree.hdlr[8..12])
  }

  lemma {:induction false} MdiaIsRead(tree: TrakTree, t: SampleTable, stuck: Stuck)
    requires WellFormed(tree) && Describes(tree.stbl, t) && t.sampleSizes != []
    ensures MdiaGives(PrintBoxes(tree.mdia), tree, t, stuck)
  {
    hide PrintBoxes, Describes, StandardStsds, AllLegal, Has, AllAre, MdiaWalk, MinfGives, Lossy, NO_FIELDS;
    var data := PrintBoxes(tree.mdia);
    assert data[0..] == data;
    MinfIsRead(tree, t, stuck);
    forall before: Option<SampleTable>
      ensures var q := MdiaWalk(data, 0, Read(NO_FIELDS, before), stuck);
              && q.Done? && q.value.table == Some(t)
              && q.value.value.timescale == Read32(tree.mdhd, 12) && q.value.value.mediaType == Lossy(tree.hdlr[8..12])
    {
      MdiaReads(data, 0, tree.mdia, tree, PrintBoxes(tree.minf), t, Read(NO_FIELDS, before), stuck);
    }
  }

  // ---------------------------------------------------------------- trak

  lemma {:induction false} TrakReads(
      data: bytes, at: nat, bs: seq<Box>, tree: TrakTree, mdia: bytes, t: SampleTable, r: Read<TrakFields>, stuck: Stuck)
    requires AllLegal(bs) && at <= |data| && data[at..] == PrintBoxes(bs)
    requires AllAre(bs, TKHD, tree.tkhd) && |tree.tkhd| >= 16 && AllAre(bs, MDIA, mdia)
    requires |tree.mdhd| >= 20 && |tree.hdlr| >= 12 && MdiaGives(mdia, tree, t, stuck)
    ensures var q := TrakWalk(data, at, r, stuck);
            && q.Done?
            && q.value.value.trackId == (if Has(bs, TKHD) then Read32(tree.tkhd, 12) else r.value.trackId)
            && (if Has(bs, MDIA) then
                  && q.value.table == Some(t) && q.value.value.fields.timescale == Read32(tree.mdhd, 12)
                  && q.value.value.fields.mediaType == Lossy(tree.hdlr[8..12])
                else q.value.table == r.table && q.value.value.fields == r.value.fields)
    decreases |bs|
  {
    hide Read32, Left, PrintBoxes, AllLegal, Has, AllAre, Lossy, TKHD, MDIA, MdiaWalk, NO_FIELDS;
    if bs == [] {
      NothingLeft(data, at);
      NothingHere(TKHD);
      NothingHere(MDIA);
    } else {
      var b, next := bs[0], at + 8 + |bs[0].payload|;
      HeadSeen(data, at, bs);
      AllAreTail(bs, TKHD, tree.tkhd);
      AllAreTail(bs, MDIA, mdia);
      HasTail(bs, TKHD);
      HasTail(bs, MDIA);
      MdiaKindsDiffer();
      if b.kind == TKHD {
        WordSeen(data, at + 8, b.payload, 12);
        TrakReads(data, next, bs[1..], tree, mdia, t, r.(value := r.value.(trackId := Read32(data, at + 20))), stuck);
      } else if b.kind == MDIA {
        var m := MdiaWalk(mdia, 0, Read(NO_FIELDS, r.table), stuck);
        TrakReads(data, next, bs[1..], tree, mdia, t, Read(r.value.(fields := m.value.value), m.value.table), stuck);
      } else {
        TrakReads(data, next, bs[1..], tree, mdia, t, r, stuck);
      }
    }
  }

  /** What a well-formed trak becomes: the words at byte 12 decide. */
  lemma {:induction false} TrakIsRead(tree: TrakTree, s: TrackSpec, stuck: Stuck)
    requires IsTrakOf(tree, s)
    ensures var q := TrakWalk(PrintBoxes(tree.boxes), 0, NO_TRAK, stuck);
            && q.Done?
            && (Read32(tree.tkhd, 12) == 0 ==> AsTrack(q.value) == [])
            && (Read32(tree.tkhd, 12) > 0 ==>
                  |AsTrack(q.value)| == 1 && var k := AsTrack(q.value)[0];
                  && k.trackId == Read32(tree.tkhd, 12) && k.timescale == Read32(tree.mdhd, 12)
                  && k.mediaType == Lossy(s.handler) && k.sampleTable == Some(s.table))
  {
    hide PrintBoxes, Describes, StandardStsds, AllLegal, Has, AllAre, TrakWalk, MdiaGives, Lossy, MoovFilter.TkhdTrackId, MdhdTimescale, Read32;
    var data := PrintBoxes(tree.boxes);
    assert data[0..] == data;
    MdiaIsRead(tree, s.table, stuck);
    TrakReads(data, 0, tree.boxes, tree, PrintBoxes(tree.mdia), s.table, NO_TRAK, stuck);
    LossyGrows(s.handler);
  }

  // ---------------------------------------------------------------- moov

  function Traks(bs: seq<Box>): seq<Box> {
    if bs == [] then [] else if bs[0].kind == TRAK then [bs[0]] + Traks(bs[1..]) else Traks(bs[1..])
  }

  /** The traks of a moov, in order, are those of the tracks described. */
  predicate AreTraksOf(bs: seq<Box>, trees: seq<TrakTree>, specs: seq<TrackSpec>) {
    && |Traks(bs)| == |trees| == |specs|
    && forall i :: 0 <= i < |trees| ==> Traks(bs)[i] == Trak(trees[i]) && IsTrakOf(trees[i], specs[i])
  }

  predicate SameTrack(k: Track, s: TrackSpec) {
    k.trackId == s.trackId && k.mediaType == Lossy(s.handler) && k.timescale == s.timescale && k.sampleTable == Some(s.table)
  }

  predicate SameTracks(tracks: seq<Track>, specs: seq<TrackSpec>) {
    |tracks| == |specs| && forall i :: 0 <= i < |tracks| ==> SameTrack(tracks[i], specs[i])
  }

  predicate AllInPlace(trees: seq<TrakTree>) {
    trees == [] || (WordsInPlace(trees[0]) && AllInPlace(trees[1..]))
  }

  lemma {:induction false} OneTrakIff(tree: TrakTree, s: TrackSpec, stuck: Stuck)
    requires IsTrakOf(tree, s)
    ensures var q := TrakWalk(PrintBoxes(tree.boxes), 0, NO_TRAK, stuck);
            && q.Done? && |AsTrack(q.value)| <= 1
            && (WordsInPlace(tree) <==> |AsTrack(q.value)| == 1 && SameTrack(AsTrack(q.value)[0], s))
  {
    hide PrintBoxes, Describes, StandardStsds, AllLegal, Has, AllAre, TrakWalk, Lossy, MoovFilter.TkhdTrackId, MdhdTimescale, Read32, AsTrack, NO_TRAK;
    TrakIsRead(tree, s, stuck);
  }

  lemma {:induction false} SameCons(first: seq<Track>, rest: seq<Track>, specs: seq<TrackSpec>)
    requires |first| <= 1 && specs != [] && |rest| < |specs|
    ensures SameTracks(first + rest, specs) <==> |first| == 1 && SameTrack(first[0], specs[0]) && SameTracks(rest, specs[1..])
  {
    hide SameTrack;
    var all := first + rest;
    if |first| == 1 {
      assert all[0] == first[0] && forall i :: 0 <= i < |rest| ==> all[i + 1] == rest[i];
      if SameTracks(all, specs) {
        forall i | 0 <= i < |rest|
          ensures SameTrack(rest[i], specs[1..][i])
        {
          assert SameTrack(all[i + 1], specs[i + 1]);
        }
      }
    }
  }

  lemma {:induction false} TraksTail(bs: seq<Box>, trees: seq<TrakTree>, specs: seq<TrackSpec>)
    requires bs != [] && AreTraksOf(bs, trees, specs)
    ensures bs[0].kind != TRAK ==> AreTraksOf(bs[1..], trees, specs)
    ensures bs[0].kind == TRAK ==>
      && trees != [] && specs != [] && bs[0] == Trak(trees[0]) && IsTrakOf(trees[0], specs[0])
      && AreTraksOf(bs[1..], trees[1..], specs[1..])
  {
    hide Trak, IsTrakOf, TRAK;
    if bs[0].kind == TRAK {
      assert Traks(bs) == [bs[0]] + Traks(bs[1..]);
      assert forall i :: 0 <= i < |trees| - 1 ==> Traks(bs[1..])[i] == Traks(bs)[i + 1];
    }
  }

  lemma {:induction false} InPlaceCons(trees: seq<TrakTree>)
    requires trees != []
    ensures AllInPlace(trees) <==> WordsInPlace(trees[0]) && AllInPlace(trees[1..])
  {
    hide WordsInPlace;
  }

  lemma {:induction false} MoovReads(
      data: bytes, at: nat, bs: seq<Box>, trees: seq<TrakTree>, specs: seq<TrackSpec>, stuck: Stuck)
    requires AllLegal(bs) && at <= |data| && data[at..] == PrintBoxes(bs) && AreTraksOf(bs, trees, specs)
    ensures var r := MoovWalk(data, at, stuck);
            r.Done? && |r.value| <= |specs| && (SameTracks(r.value, specs) <==> AllInPlace(trees))
    decreases |bs|
  {
    hide Read32, Left, PrintBoxes, AllLegal, TRAK, TrakWalk, AsTrack, NO_TRAK, AreTraksOf, SameTracks, SameTrack, WordsInPlace, AllInPlace, IsTrakOf;
    if bs == [] {
      NothingLeft(data, at);
      NoTracks(trees, specs);
    } else {
      var next := at + 8 + |bs[0].payload|;
      HeadSeen(data, at, bs);
      TraksTail(bs, trees, specs);
      if bs[0].kind == TRAK {
        MoovReads(data, next, bs[1..], trees[1..], specs[1..], stuck);
        OneTrakIff(trees[0], specs[0], stuck);
        InPlaceCons(trees);
        var q := TrakWalk(bs[0].payload, 0, NO_TRAK, stuck);
        SameCons(AsTrack(q.value), MoovWalk(data, next, stuck).value, specs);
      } else {
        MoovReads(data, next, bs[1..], trees, specs, stuck);
      }
    }
  }

  lemma {:induction false} NoTracks(trees: seq<TrakTree>, specs: seq<TrackSpec>)
    requires AreTraksOf([], trees, specs)
    ensures SameTracks([], specs) && AllInPlace(trees)
  {
  }

  /** Reading a well-formed moov gives exactly the tracks it describes -- ids, handlers, timescales and sample tables, in
      order -- if and only if in each trak the words at byte 12 of tkhd and mdhd are track_ID and timescale. */
  lemma {:induction false} TracksReadIff(bs: seq<Box>, trees: seq<TrakTree>, specs: seq<TrackSpec>, stuck: Stuck)
    requires AllLegal(bs) && AreTraksOf(bs, trees, specs)
    ensures var r := MoovWalk(PrintBoxes(bs), 0, stuck);
            r.Done? && (SameTracks(r.value, specs) <==> AllInPlace(trees))
  {
    hide PrintBoxes, MoovWalk, AreTraksOf, SameTracks, AllInPlace, AllLegal;
    var data := PrintBoxes(bs);
    assert data[0..] == data;
    MoovReads(data, 0, bs, trees, specs, stuck);
  }

  /** In version 0 they are. */
  lemma {:induction false} Version0InPlace(t: TrakTree)
    requires |t.tkhd| >= 16 && |t.mdhd| >= 20 && t.tkhd[0] != 1 && t.mdhd[0] != 1
    ensures WordsInPlace(t)
  {
  }

  /** In version 1 the word is the high half of a 64-bit modification time, which is 0 until the year 2040: such a trak
      is left out, or is given the timescale 0. */
  lemma {:induction false} Version1Lost(t: TrakTree, s: TrackSpec, stuck: Stuck)
    requires IsTrakOf(t, s)
    ensures var q := TrakWalk(PrintBoxes(t.boxes), 0, NO_TRAK, stuck);
            && q.Done?
            && (t.tkhd[0] == 1 && Read32(t.tkhd, 12) == 0 ==> AsTrack(q.value) == [])
            && (t.mdhd[0] == 1 && Read32(t.mdhd, 12) == 0 && Read32(t.tkhd, 12) > 0 ==>
                  AsTrack(q.value) != [] && AsTrack(q.value)[0].timescale == 0)
  {
    hide PrintBoxes, TrakWalk, Lossy, Read32, AsTrack, NO_TRAK;
    TrakIsRead(t, s, stuck);
  }
}
