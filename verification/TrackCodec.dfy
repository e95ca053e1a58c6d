/** The codec of a track (core/src/media/mp4_parser.rs, `parse_mdia_box`): the handler type must have been read when the
    sample description is. */
module TrackCodecs {
  import opened Bytes
  import opened Outcomes
  import opened Boxes
  import opened Utf8
  import opened SampleTables
  import opened Codecs
  import opened TableParsers
  import opened MoovTracks
  import opened TrackMeaning

  /** What the sample description says of a track with this handler. */
  function CodecIn(stbl: seq<Box>, media: bytes, stuck: Stuck): Option<Codec> {
    match StsdOf(stbl, media, stuck)
    case Done(codec) => Some(codec)
    case _ => None
  }

  lemma {:induction false} NoMediaNoCodec(bs: seq<Box>, stuck: Stuck)
    ensures StsdOf(bs, [], stuck) == Failed
  {
    hide AvcProfile, ObjectType, Lossy;
    if bs != [] {
      NoMediaNoCodec(bs[..|bs| - 1], stuck);
    }
  }

  // ---------------------------------------------------------------- stbl and minf

  lemma {:induction false} StblCodec(bs: seq<Box>, media: bytes, table: Option<SampleTable>, stuck: Stuck)
    requires AllLegal(bs) && StandardStsds(bs)
    ensures var r := StblRead(PrintBoxes(bs), media, table, stuck);
            r.Done? && r.value.value == CodecIn(bs, media, stuck)
  {
    hide StandardStsds, StsdOf, ScanAll, PrintBoxes, KeptTable;
    ScanAllPrinted(bs);
    StandardStbl(bs, media, stuck);
  }

  /** Whatever the media type and the table so far, reading gives the codec of this stbl. */
  ghost predicate MinfSays(payload: bytes, stbl: seq<Box>, stuck: Stuck) {
    forall media, table ::
      var r := MinfWalk(payload, 0, media, table, stuck); r.Done? && r.value.value == CodecIn(stbl, media, stuck)
  }

  lemma {:induction false} MinfCodec(
      data: bytes, at: nat, bs: seq<Box>, stbl: seq<Box>, media: bytes, table: Option<SampleTable>, stuck: Stuck)
    requires AllLegal(bs) && at <= |data| && data[at..] == PrintBoxes(bs)
    requires TrackMeaning.Has(bs, STBL) && AllAre(bs, STBL, PrintBoxes(stbl)) && AllLegal(stbl) && StandardStsds(stbl)
    ensures var r := MinfWalk(data, at, media, table, stuck);
            r.Done? && r.value.value == CodecIn(stbl, media, stuck)
    decreases |bs|
  {
    hide Read32, Left, StblRead, PrintBoxes, StandardStsds, AllLegal, TrackMeaning.Has, AllAre, STBL, CodecIn;
    if bs == [] {
      NothingHere(STBL);
    } else {
      HeadSeen(data, at, bs);
      AllAreTail(bs, STBL, PrintBoxes(stbl));
      HasTail(bs, STBL);
      if bs[0].kind == STBL {
        StblCodec(stbl, media, table, stuck);
      } else {
        MinfCodec(data, at + 8 + |bs[0].payload|, bs[1..], stbl, media, table, stuck);
      }
    }
  }

  lemma {:induction false} MinfIs(t: TrakTree, stuck: Stuck)
    requires WellFormed(t)
    ensures MinfSays(PrintBoxes(t.minf), t.stbl, stuck)
  {
    hide PrintBoxes, StandardStsds, AllLegal, TrackMeaning.Has, AllAre, MinfWalk, CodecIn;
    var data := PrintBoxes(t.minf);
    assert data[0..] == data;
    forall media, before: Option<SampleTable>
      ensures var r := MinfWalk(data, 0, media, before, stuck); r.Done? && r.value.value == CodecIn(t.stbl, media, stuck)
    {
      MinfCodec(data, 0, t.minf, t.stbl, media, before, stuck);
    }
  }

  // ---------------------------------------------------------------- mdia

  /** Some minf has a hdlr in front of it. */
  predicate HandlerFirst(bs: seq<Box>) {
    exists i, j :: 0 <= i < j < |bs| && bs[i].kind == HDLR && bs[j].kind == MINF
  }

  lemma {:induction false} HandlerTail(bs: seq<Box>)
    requires bs != []
    ensures HandlerFirst(bs) <==> (bs[0].kind == HDLR && TrackMeaning.Has(bs[1..], MINF)) || HandlerFirst(bs[1..])
  {
    if HandlerFirst(bs) {
      var i, j :| 0 <= i < j < |bs| && bs[i].kind == HDLR && bs[j].kind == MINF;
      assert bs[1..][j - 1].kind == MINF;
      if i > 0 {
        assert bs[1..][i - 1].kind == HDLR;
      }
    }
    if HandlerFirst(bs[1..]) {
      var i, j :| 0 <= i < j < |bs| - 1 && bs[1..][i].kind == HDLR && bs[1..][j].kind == MINF;
      assert bs[i + 1].kind == HDLR && bs[j + 1].kind == MINF;
    }
    if bs[0].kind == HDLR && TrackMeaning.Has(bs[1..], MINF) {
      var j :| 0 <= j < |bs| - 1 && bs[1..][j].kind == MINF;
      assert bs[j + 1].kind == MINF;
    }
  }

  /** The codec once these boxes have been read, when the media type is known already or not. */
  function CodecAfter(bs: seq<Box>, known: bool, before: Codec, codec: Option<Codec>): Codec {
    if codec.Some? && (HandlerFirst(bs) || (known && TrackMeaning.Has(bs, MINF))) then codec.value else before
  }

  lemma {:induction false} AfterMdhd(bs: seq<Box>, known: bool, before: Codec, codec: Option<Codec>)
    requires bs != [] && bs[0].kind != HDLR && bs[0].kind != MINF
    ensures CodecAfter(bs, known, before, codec) == CodecAfter(bs[1..], known, before, codec)
  {
    hide HandlerFirst, TrackMeaning.Has;
    HandlerTail(bs);
    HasTail(bs, MINF);
  }

  lemma {:induction false} AfterHdlr(bs: seq<Box>, known: bool, before: Codec, codec: Option<Codec>)
    requires bs != [] && bs[0].kind == HDLR
    ensures CodecAfter(bs, known, before, codec) == CodecAfter(bs[1..], true, before, codec)
  {
    hide HandlerFirst, TrackMeaning.Has;
    HandlerTail(bs);
    HasTail(bs, MINF);
    MdiaKindsDiffer();
  }

  lemma {:induction false} AfterMinf(bs: seq<Box>, known: bool, before: Codec, codec: Option<Codec>)
    requires bs != [] && bs[0].kind == MINF
    ensures CodecAfter(bs, known, before, codec)
         == CodecAfter(bs[1..], known, if known && codec.Some? then codec.value else before, codec)
  {
    hide HandlerFirst, TrackMeaning.Has;
    HandlerTail(bs);
    HasTail(bs, MINF);
    MdiaKindsDiffer();
  }

  lemma {:induction false} MdiaCodec(
      data: bytes, at: nat, bs: seq<Box>, tree: TrakTree, minf: bytes, known: bool, r: Read<Fields>, stuck: Stuck)
    requires AllLegal(bs) && at <= |data| && data[at..] == PrintBoxes(bs)
    requires AllAre(bs, MDHD, tree.mdhd) && |tree.mdhd| >= 20 && AllAre(bs, HDLR, tree.hdlr) && |tree.hdlr| >= 12
    requires AllAre(bs, MINF, minf) && MinfSays(minf, tree.stbl, stuck)
    requires r.value.mediaType == if known then Lossy(tree.hdlr[8..12]) else []
    ensures var q := MdiaWalk(data, at, r, stuck);
            q.Done? && q.value.value.codec
                       == CodecAfter(bs, known, r.value.codec, CodecIn(tree.stbl, Lossy(tree.hdlr[8..12]), stuck))
    decreases |bs|
  {
    hide Read32, Left, PrintBoxes, AllLegal, TrackMeaning.Has, AllAre, Lossy, MDHD, HDLR, MINF, MinfWalk, CodecIn, CodecAfter;
    var codec := CodecIn(tree.stbl, Lossy(tree.hdlr[8..12]), stuck);
    if bs == [] {
      NothingLeft(data, at);
      AfterNothing(known, r.value.codec, codec);
    } else {
      var b, next, rest := bs[0], at + 8 + |bs[0].payload|, bs[1..];
      HeadSeen(data, at, bs);
      MdiaTails(bs, tree, minf);
      MdiaKindsDiffer();
      if b.kind == MDHD {
        AfterMdhd(bs, known, r.value.codec, codec);
        MdiaCodec(data, next, rest, tree, minf, known, r.(value := r.value.(timescale := Read32(data, at + 20))), stuck);
      } else if b.kind == HDLR {
        AfterHdlr(bs, known, r.value.codec, codec);
        WordSeen(data, at + 8, b.payload, 8);
        MdiaCodec(data, next, rest, tree, minf, true, r.(value := r.value.(mediaType := Lossy(data[at + 16..at + 20]))), stuck);
      } else if b.kind == MINF {
        AfterMinf(bs, known, r.value.codec, codec);
        UnknownSays(tree.stbl, stuck);
        var m := MinfWalk(minf, 0, r.value.mediaType, r.table, stuck);
        var r' := Read(if m.value.value.Some? then r.value.(codec := m.value.value.value) else r.value, m.value.table);
        MdiaCodec(data, next, rest, tree, minf, known, r', stuck);
      } else {
        AfterMdhd(bs, known, r.value.codec, codec);
        MdiaCodec(data, next, rest, tree, minf, known, r, stuck);
      }
    }
  }

  lemma {:induction false} AfterNothing(known: bool, before: Codec, codec: Option<Codec>)
    ensures CodecAfter([], known, before, codec) == before
  {
  }

  lemma {:induction false} UnknownSays(stbl: seq<Box>, stuck: Stuck)
    ensures CodecIn(stbl, [], stuck).None?
  {
    hide StsdOf;
    NoMediaNoCodec(stbl, stuck);
  }

  ghost predicate MdiaSays(payload: bytes, codec: Codec, stuck: Stuck) {
    forall table :: var q := MdiaWalk(payload, 0, Read(NO_FIELDS, table), stuck); q.Done? && q.value.value.codec == codec
  }

  /** The codec of a well-formed trak. */
  function TrakCodec(t: TrakTree, handler: bytes, stuck: Stuck): Codec {
    CodecAfter(t.mdia, false, NO_CODEC, CodecIn(t.stbl, Lossy(handler), stuck))
  }

  lemma {:induction false} MdiaIs(t: TrakTree, stuck: Stuck)
    requires WellFormed(t)
    ensures MdiaSays(PrintBoxes(t.mdia), TrakCodec(t, t.hdlr[8..12], stuck), stuck)
  {
    hide PrintBoxes, StandardStsds, AllLegal, TrackMeaning.Has, AllAre, MdiaWalk, MinfSays, Lossy, CodecAfter, CodecIn;
    var data := PrintBoxes(t.mdia);
    assert data[0..] == data;
    MinfIs(t, stuck);
    forall before: Option<SampleTable>
      ensures var q := MdiaWalk(data, 0, Read(NO_FIELDS, before), stuck);
              q.Done? && q.value.value.codec == TrakCodec(t, t.hdlr[8..12], stuck)
    {
      MdiaCodec(data, 0, t.mdia, t, PrintBoxes(t.minf), false, Read(NO_FIELDS, before), stuck);
    }
  }

  // ---------------------------------------------------------------- trak

  lemma {:induction false} TrakCodecRead(
      data: bytes, at: nat, bs: seq<Box>, tree: TrakTree, mdia: bytes, codec: Codec, r: Read<TrakFields>, stuck: Stuck)
    requires AllLegal(bs) && at <= |data| && data[at..] == PrintBoxes(bs)
    requires AllAre(bs, TKHD, tree.tkhd) && |tree.tkhd| >= 16 && AllAre(bs, MDIA, mdia) && MdiaSays(mdia, codec, stuck)
    ensures var q := TrakWalk(data, at, r, stuck);
            q.Done? && q.value.value.fields.codec == if TrackMeaning.Has(bs, MDIA) then codec else r.value.fields.codec
    decreases |bs|
  {
    hide Read32, Left, PrintBoxes, AllLegal, TrackMeaning.Has, AllAre, TKHD, MDIA, MdiaWalk, NO_FIELDS;
    if bs == [] {
      NothingLeft(data, at);
      NothingHere(MDIA);
    } else {
      var b, next := bs[0], at + 8 + |bs[0].payload|;
      HeadSeen(data, at, bs);
      AllAreTail(bs, TKHD, tree.tkhd);
      AllAreTail(bs, MDIA, mdia);
      HasTail(bs, MDIA);
      MdiaKindsDiffer();
      if b.kind == TKHD {
        TrakCodecRead(data, next, bs[1..], tree, mdia, codec, r.(value := r.value.(trackId := Read32(data, at + 20))), stuck);
      } else if b.kind == MDIA {
        var m := MdiaWalk(mdia, 0, Read(NO_FIELDS, r.table), stuck);
        TrakCodecRead(data, next, bs[1..], tree, mdia, codec, Read(r.value.(fields := m.value.value), m.value.table), stuck);
      } else {
        TrakCodecRead(data, next, bs[1..], tree, mdia, codec, r, stuck);
      }
    }
  }

  /** The track of a well-formed trak has the codec of its sample description if and only if that has one for the handler and
      some hdlr stands in front of a minf; otherwise it has none. */
  lemma {:induction false} CodecFoundIff(tree: TrakTree, s: TrackSpec, stuck: Stuck)
    requires IsTrakOf(tree, s)
    ensures var q := TrakWalk(PrintBoxes(tree.boxes), 0, NO_TRAK, stuck);
            var codec := CodecIn(tree.stbl, Lossy(s.handler), stuck);
            && q.Done?
            && forall k :: k in AsTrack(q.value) ==>
                 k.codec == if codec.Some? && HandlerFirst(tree.mdia) then codec.value else NO_CODEC
  {
    hide PrintBoxes, Describes, StandardStsds, AllLegal, TrackMeaning.Has, AllAre, TrakWalk, MdiaSays, Lossy, CodecIn,
      MoovFilter.TkhdTrackId, MdhdTimescale, HandlerFirst;
    var data := PrintBoxes(tree.boxes);
    assert data[0..] == data;
    MdiaIs(tree, stuck);
    TrakCodecRead(data, 0, tree.boxes, tree, PrintBoxes(tree.mdia), TrakCodec(tree, s.handler, stuck), NO_TRAK, stuck);
  }

  // ---------------------------------------------------------------- without a sample table box

  predicate NoStbl(bs: seq<Box>) {
    forall i :: 0 <= i < |bs| ==> bs[i].kind != STBL
  }

  lemma {:induction false} GuessIs(media: bytes)
    ensures Guess(media) ==
              if media == VIDE then Codec("H.264", "video/mp4; codecs=\"avc1.42E01E\"", None)
              else if media == SOUN then Codec("AAC", "audio/mp4; codecs=\"mp4a.40.2\"", None)
              else Codec("Unknown", "application/octet-stream", None)
  {
    hide VIDE, SOUN;
    assert "video/mp4; codecs=\"avc1." + DEFAULT_PROFILE + "\"" == "video/mp4; codecs=\"avc1.42E01E\"";
    assert "audio/mp4; codecs=\"" + "mp4a.40.2" + "\"" == "audio/mp4; codecs=\"mp4a.40.2\"";
  }

  /** A minf without an stbl gives a guess by media type, and keeps the table so far. */
  lemma {:induction false} GuessRead(data: bytes, at: nat, bs: seq<Box>, media: bytes, table: Option<SampleTable>, stuck: Stuck)
    requires AllLegal(bs) && NoStbl(bs) && at <= |data| && data[at..] == PrintBoxes(bs)
    ensures MinfWalk(data, at, media, table, stuck) == Done(Read(Some(
              if media == VIDE then Codec("H.264", "video/mp4; codecs=\"avc1.42E01E\"", None)
              else if media == SOUN then Codec("AAC", "audio/mp4; codecs=\"mp4a.40.2\"", None)
              else Codec("Unknown", "application/octet-stream", None)), table))
    decreases |bs|
  {
    hide Read32, Left, StblRead, PrintBoxes, AllLegal, VIDE, SOUN, STBL, Guess;
    GuessIs(media);
    if bs == [] {
      NothingLeft(data, at);
    } else {
      HeadSeen(data, at, bs);
      assert forall i :: 0 <= i < |bs| - 1 ==> bs[1..][i] == bs[i + 1];
      GuessRead(data, at + 8 + |bs[0].payload|, bs[1..], media, table, stuck);
    }
  }
}
