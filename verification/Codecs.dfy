/** Codec detection in the stsd box (core/src/media/mp4_parser.rs, `parse_stsd_box`, `extract_avc_profile`,
    `extract_aac_object_type` and `parse_esds_for_aac_object_type`). */
module Codecs {
  import opened Bytes
  import opened Outcomes
  import opened Boxes
  import opened Utf8

  const AVC1: bytes := [0x61, 0x76, 0x63, 0x31]
  const AVCC: bytes := [0x61, 0x76, 0x63, 0x43]
  const MP4A: bytes := [0x6d, 0x70, 0x34, 0x61]
  const ESDS: bytes := [0x65, 0x73, 0x64, 0x73]
  const AC3: bytes := [0x61, 0x63, 0x2d, 0x33]

  const DEFAULT_PROFILE: string := "42E01E"

  /** Name, MIME type and parameters, as they are kept with a track. */
  datatype Codec = Codec(name: string, mime: string, params: Option<string>)

  const NO_CODEC: Codec := Codec("", "", None)

  /** Where a cursor stands after a read that failed at `at`: not specified, but never further back. */
  type Stuck = (nat, nat) -> nat

  function Left(stuck: Stuck, at: nat, end: nat): (r: nat)
    ensures r >= at
  {
    if stuck(at, end) >= at then stuck(at, end) else at
  }

  function Upper(n: nat): char
    requires n < 16
  {
    "0123456789ABCDEF"[n]
  }

  function Lower(n: nat): char
    requires n < 16
  {
    "0123456789abcdef"[n]
  }

  function UpperHex(b: byte): string { [Upper(b / 16), Upper(b % 16)] }

  function LowerHex(b: byte): string { [Lower(b / 16), Lower(b % 16)] }

  // ---------------------------------------------------------------- what is searched for

  /** Profile, compatibility and level of the first avcC that can be read. One with three bytes of content panics: the
      fourth is read without a test. */
  function AvcProfile(data: bytes, at: nat, stuck: Stuck): Outcome<string>
    decreases if at <= |data| then |data| - at else 0
  {
    if at + 8 > |data| then Done(DEFAULT_PROFILE) else
      var size := Read32(data, at);
      if data[at + 4..at + 8] == AVCC && size >= 11 then
        if at + size > |data| then AvcProfile(data, Left(stuck, at + 8, |data|), stuck)
        else if size == 11 then Panicked
        else Done(UpperHex(data[at + 9]) + UpperHex(data[at + 10]) + UpperHex(data[at + 11]))
      else if size >= 8 then AvcProfile(data, at + size, stuck)
      else Done(DEFAULT_PROFILE)
  }

  /** Behind the length of a descriptor, which goes on as long as its bytes have the high bit. */
  function BehindLength(esds: bytes, at: nat): (r: nat)
    ensures r >= at
    decreases if at <= |esds| then |esds| - at else 0
  {
    if at >= |esds| then at else if esds[at] >= 0x80 then BehindLength(esds, at + 1) else at + 1
  }

  /** The object type of the first DecoderConfigDescriptor, or 2. */
  function ConfigType(esds: bytes, at: nat): byte
    decreases if at <= |esds| then |esds| - at else 0
  {
    if at + 5 >= |esds| then 2
    else if esds[at] == 4 then
      var o := BehindLength(esds, at + 1);
      if o < |esds| then esds[o] else 2
    else ConfigType(esds, at + 1)
  }

  function EsdsType(esds: bytes): byte { if |esds| < 20 then 2 else ConfigType(esds, 4) }

  function ObjectType(data: bytes, at: nat, stuck: Stuck): byte
    decreases if at <= |data| then |data| - at else 0
  {
    if at + 8 > |data| then 2 else
      var size := Read32(data, at);
      if data[at + 4..at + 8] == ESDS && size >= 20 then
        if at + size > |data| then ObjectType(data, Left(stuck, at + 8, |data|), stuck)
        else EsdsType(data[at + 8..at + size])
      else if size >= 8 then ObjectType(data, at + size, stuck)
      else 2
  }

  function Aac(objectType: byte): string {
    if objectType == 0x05 then "mp4a.40.5" else if objectType == 0x1d then "mp4a.40.29" else "mp4a.40.2"
  }

  function Avc(profile: string, params: Option<string>): Codec {
    Codec("H.264", "video/mp4; codecs=\"avc1." + profile + "\"", params)
  }

  function AacCodec(codec: string, params: Option<string>): Codec {
    Codec("AAC", "audio/mp4; codecs=\"" + codec + "\"", params)
  }

  /** What the first entry of an stsd says, for a track of a media type. */
  function Stsd(data: bytes, media: bytes, stuck: Stuck): Outcome<Codec> {
    if |data| < 16 then Failed else
      var format := Lossy(data[12..16]);
      if media == VIDE && format == AVC1 then
        match AvcProfile(data[16..], 0, stuck)
        case Done(profile) => Done(Avc(profile, Some(profile)))
        case _ => Panicked
      else if media == VIDE then Done(Avc(DEFAULT_PROFILE, None))
      else if media == SOUN && format == MP4A then
        var t := ObjectType(data[if |data| > 44 then 44 else 16..], 0, stuck);
        Done(AacCodec(Aac(t), Some(LowerHex(t))))
      else if media == SOUN && MP4A <= format then Done(AacCodec("mp4a.40.2", Some("2")))
      else if media == SOUN && format == AC3 then Done(Codec("AC-3", "audio/mp4; codecs=\"ac-3\"", None))
      else if media == SOUN then Done(AacCodec("mp4a.40.2", None))
      else Failed
  }

  // ---------------------------------------------------------------- the loops

  method ExtractAvcProfile(data: bytes, stuck: Stuck) returns (r: Outcome<string>)
    ensures r == AvcProfile(data, 0, stuck)
  {
    hide Read32, UpperHex, Left;
    var cursor := 0;
    while cursor + 8 <= |data|
      invariant AvcProfile(data, cursor, stuck) == AvcProfile(data, 0, stuck)
      decreases if cursor <= |data| then |data| - cursor else 0
    {
      var boxSize, boxType := Read32(data, cursor), data[cursor + 4..cursor + 8];
      if boxType == AVCC && boxSize >= 11 {
        if cursor + boxSize <= |data| {
          var config := data[cursor + 8..cursor + boxSize];
          if |config| < 4 {
            return Panicked;   // index past the configuration
          }
          return Done(UpperHex(config[1]) + UpperHex(config[2]) + UpperHex(config[3]));
        }
        cursor := Left(stuck, cursor + 8, |data|);
      } else if boxSize >= 8 {
        cursor := cursor + boxSize;
      } else {
        break;
      }
    }
    r := Done(DEFAULT_PROFILE);
  }

  method ParseEsdsForAacObjectType(esds: bytes) returns (objectType: byte)
    ensures objectType == EsdsType(esds)
  {
    if |esds| < 20 {
      return 2;
    }
    var offset := 4;
    while offset + 5 < |esds|
      invariant 4 <= offset && ConfigType(esds, offset) == ConfigType(esds, 4)
      decreases if offset <= |esds| then |esds| - offset else 0
    {
      if esds[offset] == 0x04 {
        ghost var start := offset + 1;
        offset := offset + 1;
        while offset < |esds| && esds[offset] >= 0x80
          invariant start <= offset && BehindLength(esds, offset) == BehindLength(esds, start)
          decreases if offset <= |esds| then |esds| - offset else 0
        {
          offset := offset + 1;
        }
        if offset < |esds| {
          offset := offset + 1;
        }
        if offset < |esds| {
          return esds[offset];
        }
        return 2;
      }
      offset := offset + 1;
    }
    objectType := 2;
  }

  method ExtractAacObjectType(data: bytes, stuck: Stuck) returns (objectType: byte)
    ensures objectType == ObjectType(data, 0, stuck)
  {
    hide Read32, EsdsType, Left;
    var cursor := 0;
    while cursor + 8 <= |data|
      invariant ObjectType(data, cursor, stuck) == ObjectType(data, 0, stuck)
      decreases if cursor <= |data| then |data| - cursor else 0
    {
      var boxSize, boxType := Read32(data, cursor), data[cursor + 4..cursor + 8];
      if boxType == ESDS && boxSize >= 20 {
        if cursor + boxSize <= |data| {
          objectType := ParseEsdsForAacObjectType(data[cursor + 8..cursor + boxSize]);
          return;
        }
        cursor := Left(stuck, cursor + 8, |data|);
      } else if boxSize >= 8 {
        cursor := cursor + boxSize;
      } else {
        break;
      }
    }
    objectType := 2;
  }

  method ParseStsdBox(data: bytes, media: bytes, stuck: Stuck) returns (r: Outcome<Codec>)
    ensures r == Stsd(data, media, stuck)
  {
    hide AvcProfile, ObjectType, Lossy;
    if |data| < 8 {
      return Failed;
    }
    var remaining := data[8..];
    if |remaining| < 8 {
      return Failed;
    }
    assert remaining[4..8] == data[12..16] && remaining[8..] == data[16..];
    var format := Lossy(remaining[4..8]);
    FormatsDiffer();
    hide AVC1, MP4A, AC3, VIDE, SOUN;
    if media == VIDE && format == AVC1 {
      var profile := ExtractAvcProfile(remaining[8..], stuck);
      NeverFails(remaining[8..], 0, stuck);
      if !profile.Done? {
        return Panicked;
      }
      return Done(Avc(profile.value, Some(profile.value)));
    }
    if media == SOUN && format == MP4A {
      var esdsOffset := if |remaining| > 36 then 36 else 8;
      assert remaining[esdsOffset..] == data[if |data| > 44 then 44 else 16..];
      var objectType := ExtractAacObjectType(remaining[esdsOffset..], stuck);
      return Done(AacCodec(Aac(objectType), Some(LowerHex(objectType))));
    }
    if media == SOUN && MP4A <= format {
      return Done(AacCodec("mp4a.40.2", Some("2")));
    }
    if media == SOUN && format == AC3 {
      return Done(Codec("AC-3", "audio/mp4; codecs=\"ac-3\"", None));
    }
    if media == VIDE {
      return Done(Avc(DEFAULT_PROFILE, None));
    }
    if media == SOUN {
      return Done(AacCodec("mp4a.40.2", None));
    }
    r := Failed;
  }

  lemma {:induction false} FormatsDiffer()
    ensures VIDE != SOUN
  {
    assert VIDE[0] != SOUN[0];
  }

  lemma {:induction false} NeverFails(data: bytes, at: nat, stuck: Stuck)
    ensures !AvcProfile(data, at, stuck).Failed?
    decreases if at <= |data| then |data| - at else 0
  {
    hide Read32, UpperHex, Left;
    if at + 8 <= |data| {
      var size := Read32(data, at);
      if data[at + 4..at + 8] == AVCC && size >= 11 {
        NeverFails(data, Left(stuck, at + 8, |data|), stuck);
      } else if size >= 8 {
        NeverFails(data, at + size, stuck);
      }
    }
  }

  // ---------------------------------------------------------------- what the parameters can be

  lemma {:induction false} ProfileLength(data: bytes, at: nat, stuck: Stuck)
    ensures AvcProfile(data, at, stuck).Done? ==> |AvcProfile(data, at, stuck).value| == 6
    decreases if at <= |data| then |data| - at else 0
  {
    hide Read32, Left;
    if at + 8 <= |data| {
      var size := Read32(data, at);
      if data[at + 4..at + 8] == AVCC && size >= 11 {
        ProfileLength(data, Left(stuck, at + 8, |data|), stuck);
      } else if size >= 8 {
        ProfileLength(data, at + size, stuck);
      }
    }
  }

  /** The parameters of a codec are a profile of six characters, an object type of two, or "2": never "AC-3", not even
      for the codec AC-3. */
  lemma {:induction false} NeverAc3(data: bytes, media: bytes, stuck: Stuck)
    ensures Stsd(data, media, stuck).Done? ==> Stsd(data, media, stuck).value.params != Some("AC-3")
  {
    hide AvcProfile, ObjectType, Lossy, AVC1, MP4A, AC3, VIDE, SOUN;
    if |data| >= 16 {
      ProfileLength(data[16..], 0, stuck);
    }
  }

  /** A sample entry as the standard has it: six reserved zero bytes come first (section 8.5.2 of ISO/IEC 14496-12). */
  predicate StandardEntry(data: bytes) {
    |data| >= 24 && data[16..22] == [0, 0, 0, 0, 0, 0]
  }

  /** Those zero bytes are taken for the size of a box, which ends the search for the avcC: of a standard entry the
      profile is the default one, whatever its avcC says. */
  lemma {:induction false} ProfileLost(data: bytes, stuck: Stuck)
    requires StandardEntry(data) && data[12..16] == AVC1
    ensures Stsd(data, VIDE, stuck) == Done(Avc(DEFAULT_PROFILE, Some(DEFAULT_PROFILE)))
  {
    AvcIsText();
    EntryStops(data, stuck);
  }

  lemma {:induction false} AvcIsText()
    ensures Lossy(AVC1) == AVC1
  {
    assert Ascii(AVC1);
    AsciiTest(AVC1, AVC1);
  }

  lemma {:induction false} EntryStops(data: bytes, stuck: Stuck)
    requires StandardEntry(data)
    ensures AvcProfile(data[16..], 0, stuck) == Done(DEFAULT_PROFILE)
  {
    var entry := data[16..];
    assert entry[0..4] == data[16..22][0..4];
    ZeroValue(entry[0..4]);
  }

  /** So reading a standard entry never panics. */
  lemma {:induction false} StandardReads(data: bytes, media: bytes, stuck: Stuck)
    requires StandardEntry(data)
    ensures !Stsd(data, media, stuck).Panicked?
  {
    hide ObjectType, Lossy;
    EntryStops(data, stuck);
  }
}
