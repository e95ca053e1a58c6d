/** Reading the tracks of a moov (core/src/media/mp4_parser.rs, `parse_moov_box`, `parse_trak_box`, `parse_mdia_box`,
    `parse_minf_box`): the walks on any bytes, and what they find in well-formed boxes. */
module MoovTracks {
  import opened Bytes
  import opened Outcomes
  import opened Boxes
  import opened Utf8
  import opened SampleTables
  import opened Codecs
  import opened TableParsers

  const MDHD: bytes := [0x6d, 0x64, 0x68, 0x64]
  const MINF: bytes := [0x6d, 0x69, 0x6e, 0x66]
  const STBL: bytes := [0x73, 0x74, 0x62, 0x6c]

  datatype Track = Track(trackId: u32, mediaType: bytes, timescale: u32, codec: Codec, sampleTable: Option<SampleTable>)

  /** What an mdia says; the media type is its decoded text. */
  datatype Fields = Fields(mediaType: bytes, timescale: u32, codec: Codec)

  const NO_FIELDS: Fields := Fields([], 1000, NO_CODEC)

  /** Reading goes on with a sample table that belongs to the trak as a whole. */
  datatype Read<T> = Read(value: T, table: Option<SampleTable>)

  // ---------------------------------------------------------------- the walks, on any bytes

  /** Codec and table of an stbl: an error of the codec does not keep the table back. */
  function StblRead(content: bytes, media: bytes, table: Option<SampleTable>, stuck: Stuck): Outcome<Read<Option<Codec>>> {
    var bs := ScanAll(content);
    var kept := if KeptTable(bs).Some? then KeptTable(bs) else table;
    match StsdOf(bs, media, stuck)
    case Panicked => Panicked
    case Failed => Done(Read(None, kept))
    case Done(codec) => Done(Read(Some(codec), kept))
  }

  /** Without an stbl the codec is a guess from the media type. */
  function Guess(media: bytes): Codec {
    if media == VIDE then Avc(DEFAULT_PROFILE, None)
    else if media == SOUN then AacCodec("mp4a.40.2", None)
    else Codec("Unknown", "application/octet-stream", None)
  }

  /** The first stbl that can be read. */
  function MinfWalk(data: bytes, at: nat, media: bytes, table: Option<SampleTable>, stuck: Stuck): Outcome<Read<Option<Codec>>>
    decreases if at <= |data| then |data| - at else 0
  {
    if at + 8 > |data| || Read32(data, at) < 8 then Done(Read(Some(Guess(media)), table)) else
      var next := at + Read32(data, at);
      if data[at + 4..at + 8] != STBL then MinfWalk(data, next, media, table, stuck)
      else if next > |data| then MinfWalk(data, Left(stuck, at + 8, |data|), media, table, stuck)
      else StblRead(data[at + 8..next], media, table, stuck)
  }

  /** A header that is too short is skipped; one that cannot be read is skipped from wherever the cursor stands. */
  function MdiaWalk(data: bytes, at: nat, r: Read<Fields>, stuck: Stuck): Outcome<Read<Fields>>
    decreases if at <= |data| then |data| - at else 0
  {
    if at + 8 > |data| || Read32(data, at) < 8 then Done(r) else
      var size, kind := Read32(data, at), data[at + 4..at + 8];
      var next := at + size;
      if kind == MDHD && size >= 28 then
        if next <= |data| then MdiaWalk(data, next, r.(value := r.value.(timescale := Read32(data, at + 20))), stuck)
        else MdiaWalk(data, Left(stuck, at + 8, |data|) + (size - 8), r, stuck)
      else if kind == HDLR && size >= 20 then
        if next <= |data| then MdiaWalk(data, next, r.(value := r.value.(mediaType := Lossy(data[at + 16..at + 20]))), stuck)
        else MdiaWalk(data, Left(stuck, at + 8, |data|) + (size - 8), r, stuck)
      else if kind == MINF then
        if next > |data| then MdiaWalk(data, Left(stuck, at + 8, |data|), r, stuck)
        else
          match MinfWalk(data[at + 8..next], 0, r.value.mediaType, r.table, stuck)
          case Done(m) =>
            MdiaWalk(data, next, Read(if m.value.Some? then r.value.(codec := m.value.value) else r.value, m.table), stuck)
          case _ => Panicked
      else MdiaWalk(data, next, r, stuck)
  }

  datatype TrakFields = TrakFields(trackId: u32, fields: Fields)

  const NO_TRAK: Read<TrakFields> := Read(TrakFields(0, NO_FIELDS), None)

  /** A tkhd of 12 to 15 bytes is read and then skipped a second time. */
  function TrakWalk(data: bytes, at: nat, r: Read<TrakFields>, stuck: Stuck): Outcome<Read<TrakFields>>
    decreases if at <= |data| then |data| - at else 0
  {
    if at + 8 > |data| || Read32(data, at) < 8 then Done(r) else
      var size, kind := Read32(data, at), data[at + 4..at + 8];
      var next := at + size;
      if kind == TKHD && size >= 20 then
        if next > |data| then TrakWalk(data, Left(stuck, at + 8, |data|) + (size - 8), r, stuck)
        else if size >= 24 then TrakWalk(data, next, r.(value := r.value.(trackId := Read32(data, at + 20))), stuck)
        else TrakWalk(data, next + (size - 8), r, stuck)
      else if kind == MDIA then
        if next > |data| then TrakWalk(data, Left(stuck, at + 8, |data|), r, stuck)
        else
          match MdiaWalk(data[at + 8..next], 0, Read(NO_FIELDS, r.table), stuck)
          case Done(m) => TrakWalk(data, next, Read(r.value.(fields := m.value), m.table), stuck)
          case _ => Panicked
      else TrakWalk(data, next, r, stuck)
  }

  /** A trak becomes a track when it has a non-zero id and a media type. */
  function AsTrack(r: Read<TrakFields>): seq<Track> {
    var f := r.value.fields;
    if r.value.trackId > 0 && f.mediaType != [] then [Track(r.value.trackId, f.mediaType, f.timescale, f.codec, r.table)] else []
  }

  function MoovWalk(data: bytes, at: nat, stuck: Stuck): Outcome<seq<Track>>
    decreases if at <= |data| then |data| - at else 0
  {
    if at + 8 > |data| || Read32(data, at) < 8 then Done([]) else
      var next := at + Read32(data, at);
      if data[at + 4..at + 8] != TRAK then MoovWalk(data, next, stuck)
      else if next > |data| then MoovWalk(data, Left(stuck, at + 8, |data|), stuck)
      else
        match TrakWalk(data[at + 8..next], 0, NO_TRAK, stuck)
        case Done(r) =>
          (match MoovWalk(data, next, stuck)
           case Done(rest) => Done(AsTrack(r) + rest)
           case _ => Panicked)
        case _ => Panicked
  }

  // ---------------------------------------------------------------- no track is ever marked AC-3

  predicate MarkedAc3(c: Codec) { c.params == Some("AC-3") }

  predicate HasAc3(tracks: seq<Track>) {
    exists i :: 0 <= i < |tracks| && tracks[i].mediaType == SOUN && MarkedAc3(tracks[i].codec)
  }

  predicate NoneMarked(tracks: seq<Track>) {
    forall i :: 0 <= i < |tracks| ==> !MarkedAc3(tracks[i].codec)
  }

  lemma {:induction false} StsdUnmarked(bs: seq<Box>, media: bytes, stuck: Stuck)
    ensures StsdOf(bs, media, stuck).Done? ==> !MarkedAc3(StsdOf(bs, media, stuck).value)
  {
    hide Stsd;
    if bs != [] {
      StsdUnmarked(bs[..|bs| - 1], media, stuck);
      NeverAc3(bs[|bs| - 1].payload, media, stuck);
    }
  }

  lemma {:induction false} MinfUnmarked(data: bytes, at: nat, media: bytes, table: Option<SampleTable>, stuck: Stuck)
    ensures var r := MinfWalk(data, at, media, table, stuck);
            !r.Failed? && (r.Done? && r.value.value.Some? ==> !MarkedAc3(r.value.value.value))
    decreases if at <= |data| then |data| - at else 0
  {
    hide Read32, Left, StsdOf, KeptTable, ScanAll;
    if at + 8 <= |data| && Read32(data, at) >= 8 {
      var next := at + Read32(data, at);
      if data[at + 4..at + 8] != STBL {
        MinfUnmarked(data, next, media, table, stuck);
      } else if next > |data| {
        MinfUnmarked(data, Left(stuck, at + 8, |data|), media, table, stuck);
      } else {
        StsdUnmarked(ScanAll(data[at + 8..next]), media, stuck);
      }
    }
  }

  lemma {:induction false} MdiaUnmarked(data: bytes, at: nat, r: Read<Fields>, stuck: Stuck)
    requires !MarkedAc3(r.value.codec)
    ensures var m := MdiaWalk(data, at, r, stuck);
            !m.Failed? && (m.Done? ==> !MarkedAc3(m.value.value.codec))
    decreases if at <= |data| then |data| - at else 0
  {
    hide Read32, Left, MinfWalk, Lossy, MarkedAc3;
    if at + 8 <= |data| && Read32(data, at) >= 8 {
      var size, kind := Read32(data, at), data[at + 4..at + 8];
      var next, past := at + size, Left(stuck, at + 8, |data|);
      if kind == MDHD && size >= 28 {
        if next <= |data| {
          MdiaUnmarked(data, next, r.(value := r.value.(timescale := Read32(data, at + 20))), stuck);
        } else {
          MdiaUnmarked(data, past + (size - 8), r, stuck);
        }
      } else if kind == HDLR && size >= 20 {
        if next <= |data| {
          MdiaUnmarked(data, next, r.(value := r.value.(mediaType := Lossy(data[at + 16..at + 20]))), stuck);
        } else {
          MdiaUnmarked(data, past + (size - 8), r, stuck);
        }
      } else if kind == MINF {
        if next > |data| {
          MdiaUnmarked(data, past, r, stuck);
        } else {
          MinfUnmarked(data[at + 8..next], 0, r.value.mediaType, r.table, stuck);
          var m := MinfWalk(data[at + 8..next], 0, r.value.mediaType, r.table, stuck);
          if m.Done? {
            MdiaUnmarked(data, next, Read(if m.value.value.Some? then r.value.(codec := m.value.value.value) else r.value, m.value.table), stuck);
          }
        }
      } else {
        MdiaUnmarked(data, next, r, stuck);
      }
    }
  }

  lemma {:induction false} NothingMarked()
    ensures !MarkedAc3(NO_FIELDS.codec)
  {
  }

  lemma {:induction false} TrakUnmarked(data: bytes, at: nat, r: Read<TrakFields>, stuck: Stuck)
    requires !MarkedAc3(r.value.fields.codec)
    ensures var t := TrakWalk(data, at, r, stuck);
            !t.Failed? && (t.Done? ==> !MarkedAc3(t.value.value.fields.codec))
    decreases if at <= |data| then |data| - at else 0
  {
    hide Read32, Left, MdiaWalk, MarkedAc3, NO_FIELDS;
    if at + 8 <= |data| && Read32(data, at) >= 8 {
      var size, kind := Read32(data, at), data[at + 4..at + 8];
      var next, past := at + size, Left(stuck, at + 8, |data|);
      if kind == TKHD && size >= 20 {
        if next > |data| {
          TrakUnmarked(data, past + (size - 8), r, stuck);
        } else if size >= 24 {
          TrakUnmarked(data, next, r.(value := r.value.(trackId := Read32(data, at + 20))), stuck);
        } else {
          TrakUnmarked(data, next + (size - 8), r, stuck);
        }
      } else if kind == MDIA {
        if next > |data| {
          TrakUnmarked(data, past, r, stuck);
        } else {
          NothingMarked();
          MdiaUnmarked(data[at + 8..next], 0, Read(NO_FIELDS, r.table), stuck);
          var m := MdiaWalk(data[at + 8..next], 0, Read(NO_FIELDS, r.table), stuck);
          if m.Done? {
            TrakUnmarked(data, next, Read(r.value.(fields := m.value.value), m.value.table), stuck);
          }
        }
      } else {
        TrakUnmarked(data, next, r, stuck);
      }
    }
  }

  /** Whatever the bytes of a moov: none of its tracks has the parameters "AC-3", so the test for them is never met. */
  lemma {:induction false} TracksUnmarked(data: bytes, at: nat, stuck: Stuck)
    ensures var r := MoovWalk(data, at, stuck);
            !r.Failed? && (r.Done? ==> NoneMarked(r.value))
    decreases if at <= |data| then |data| - at else 0
  {
    hide Read32, Left, TrakWalk, MarkedAc3, NO_TRAK;
    if at + 8 <= |data| && Read32(data, at) >= 8 {
      var next := at + Read32(data, at);
      if data[at + 4..at + 8] != TRAK {
        TracksUnmarked(data, next, stuck);
      } else if next > |data| {
        TracksUnmarked(data, Left(stuck, at + 8, |data|), stuck);
      } else {
        NoTrakMarked();
        TrakUnmarked(data[at + 8..next], 0, NO_TRAK, stuck);
        TracksUnmarked(data, next, stuck);
      }
    }
  }

  lemma {:induction false} NoTrakMarked()
    ensures !MarkedAc3(NO_TRAK.value.fields.codec)
  {
  }
}
