/** What codec detection makes of sample entries whose boxes are in place (core/src/media/mp4_parser.rs): the bytes it
    takes from an avcC (ISO/IEC 14496-15) and from an esds (ISO/IEC 14496-1), and the text it writes them in. */
module CodecMeaning {
  import opened Bytes
  import opened Outcomes
  import opened Boxes
  import opened Utf8
  import opened Codecs

  // ---------------------------------------------------------------- hexadecimal text

  function DigitValue(c: char): int {
    if '0' <= c <= '9' then c as int - '0' as int
    else if 'A' <= c <= 'F' then 10 + c as int - 'A' as int
    else if 'a' <= c <= 'f' then 10 + c as int - 'a' as int
    else -1
  }

  /** Two digits that read as `b`, with letters in capitals or not. */
  predicate IsHex(s: string, b: byte, capitals: bool) {
    && |s| == 2
    && 0 <= DigitValue(s[0]) < 16 && 0 <= DigitValue(s[1]) < 16
    && DigitValue(s[0]) * 16 + DigitValue(s[1]) == b
    && forall c :: c in s && c > '9' ==> (capitals <==> c <= 'F')
  }

  lemma {:induction false} UpperIs(n: nat)
    requires n < 16
    ensures DigitValue(Upper(n)) == n && (Upper(n) > '9' ==> Upper(n) <= 'F')
  {
  }

  lemma {:induction false} LowerIs(n: nat)
    requires n < 16
    ensures DigitValue(Lower(n)) == n && (Lower(n) > '9' ==> Lower(n) > 'F')
  {
  }

  lemma {:induction false} HexRead(b: byte)
    ensures IsHex(UpperHex(b), b, true) && IsHex(LowerHex(b), b, false)
  {
    hide Upper, Lower, DigitValue;
    UpperIs(b / 16);
    UpperIs(b % 16);
    LowerIs(b / 16);
    LowerIs(b % 16);
  }

  // ---------------------------------------------------------------- an avcC among boxes

  /** From `at` on, `s` holds these boxes and then more. */
  predicate BoxesAt(s: bytes, at: nat, bs: seq<Box>) {
    at + |PrintBoxes(bs)| <= |s| && s[at..at + |PrintBoxes(bs)|] == PrintBoxes(bs)
  }

  lemma {:induction false} FirstBox(s: bytes, at: nat, bs: seq<Box>)
    requires bs != [] && AllLegal(bs) && BoxesAt(s, at, bs)
    ensures var n := 8 + |bs[0].payload|;
            && at + n <= |s| && Read32(s, at) == n && s[at + 4..at + 8] == bs[0].kind && s[at + 8..at + n] == bs[0].payload
            && BoxesAt(s, at + n, bs[1..])
  {
    hide PrintBox, Read32;
    var b, rest := bs[0], bs[1..];
    assert Legal(b);
    assert PrintBoxes(bs) == PrintBox(b) + PrintBoxes(rest);
    SplitWindow(s, at, PrintBox(b), PrintBoxes(rest));
    BoxFound(s, at, |s|, b);
  }

  predicate Without(bs: seq<Box>, kind: bytes) {
    forall i :: 0 <= i < |bs| ==> bs[i].kind != kind
  }

  /** The fields of a decoder configuration record: profile, compatibility and level, as six hexadecimal digits. */
  predicate IsProfile(profile: string, avcc: bytes)
    requires |avcc| >= 4
  {
    && |profile| == 6
    && IsHex(profile[..2], avcc[1], true) && IsHex(profile[2..4], avcc[2], true) && IsHex(profile[4..], avcc[3], true)
  }

  lemma {:induction false} AvcSkips(s: bytes, at: nat, stuck: Stuck)
    requires at + 8 <= |s| && s[at + 4..at + 8] != AVCC && Read32(s, at) >= 8
    ensures AvcProfile(s, at, stuck) == AvcProfile(s, at + Read32(s, at), stuck)
  {
    hide Read32, AVCC;
  }

  lemma {:induction false} AvcHits(s: bytes, at: nat, size: nat, stuck: Stuck)
    requires at + 8 <= |s| && s[at + 4..at + 8] == AVCC && Read32(s, at) == size && size >= 12 && at + size <= |s|
    ensures AvcProfile(s, at, stuck) == Done(UpperHex(s[at + 9]) + UpperHex(s[at + 10]) + UpperHex(s[at + 11]))
  {
    hide Read32, AVCC, UpperHex;
  }

  lemma {:induction false} ProfileWritten(avcc: bytes)
    requires |avcc| >= 4
    ensures IsProfile(UpperHex(avcc[1]) + UpperHex(avcc[2]) + UpperHex(avcc[3]), avcc)
  {
    hide IsHex, UpperHex;
    HexRead(avcc[1]);
    HexRead(avcc[2]);
    HexRead(avcc[3]);
    HexLength(avcc[1]);
    HexLength(avcc[2]);
    HexLength(avcc[3]);
    Triple(UpperHex(avcc[1]), UpperHex(avcc[2]), UpperHex(avcc[3]));
  }

  /** The first avcC in a list of boxes gives the profile. */
  lemma {:induction false} ProfileRead(s: bytes, at: nat, before: seq<Box>, avcc: bytes, stuck: Stuck)
    requires AllLegal(before + [Box(AVCC, avcc)]) && BoxesAt(s, at, before + [Box(AVCC, avcc)])
    requires Without(before, AVCC) && |avcc| >= 4
    ensures AvcProfile(s, at, stuck).Done? && IsProfile(AvcProfile(s, at, stuck).value, avcc)
    decreases |before|
  {
    hide AvcProfile, Read32, BoxesAt, AVCC, IsProfile, UpperHex;
    var bs := before + [Box(AVCC, avcc)];
    FirstBox(s, at, bs);
    if before == [] {
      AvcHits(s, at, 8 + |avcc|, stuck);
      assert s[at + 8..at + 8 + |avcc|] == avcc;
      assert s[at + 9] == avcc[1] && s[at + 10] == avcc[2] && s[at + 11] == avcc[3];
      ProfileWritten(avcc);
    } else {
      assert bs[0] == before[0] && bs[1..] == before[1..] + [Box(AVCC, avcc)];
      TailLegal(bs);
      assert forall i :: 0 <= i < |before[1..]| ==> before[1..][i] == before[i + 1];
      AvcSkips(s, at, stuck);
      ProfileRead(s, at + 8 + |before[0].payload|, before[1..], avcc, stuck);
    }
  }

  lemma {:induction false} HexLength(b: byte)
    ensures |UpperHex(b)| == 2
  {
  }

  lemma {:induction false} Triple(a: string, b: string, c: string)
    requires |a| == |b| == |c| == 2
    ensures (a + b + c)[..2] == a && (a + b + c)[2..4] == b && (a + b + c)[4..] == c && |a + b + c| == 6
  {
  }

  lemma {:induction false} TailLegal(bs: seq<Box>)
    requires bs != [] && AllLegal(bs)
    ensures AllLegal(bs[1..]) && Legal(bs[0])
  {
    assert forall i :: 0 <= i < |bs| - 1 ==> bs[1..][i] == bs[i + 1];
  }

  // ---------------------------------------------------------------- an esds among boxes

  /** A descriptor length: bytes with the high bit set and one without. */
  predicate IsLength(n: bytes) {
    n != [] && n[|n| - 1] < 0x80 && forall i :: 0 <= i < |n| - 1 ==> n[i] >= 0x80
  }

  /** Version and flags, what stands in front of the DecoderConfigDescriptor, its tag, its length, its object type, and the
      rest. */
  function Esds(front: bytes, length: bytes, objectType: byte, rest: bytes): bytes {
    [0, 0, 0, 0] + front + [4] + length + [objectType] + rest
  }

  lemma {:induction false} LengthSkipped(esds: bytes, at: nat, length: bytes)
    requires IsLength(length) && at + |length| <= |esds| && esds[at..at + |length|] == length
    ensures BehindLength(esds, at) == at + |length|
    decreases |length|
  {
    assert esds[at] == length[0];
    if |length| > 1 {
      assert esds[at + 1..at + |length|] == length[1..];
      LengthSkipped(esds, at + 1, length[1..]);
    }
  }

  lemma {:induction false} TagFound(esds: bytes, at: nat, tag: nat)
    requires at <= tag && tag + 5 < |esds| && esds[tag] == 4 && forall i :: at <= i < tag ==> esds[i] != 4
    ensures ConfigType(esds, at) == ConfigType(esds, tag)
    decreases tag - at
  {
    if at < tag {
      TagFound(esds, at + 1, tag);
    }
  }

  /** The object type of an esds is the one in its DecoderConfigDescriptor, when no byte in front of that descriptor happens
      to be 4. */
  lemma {:induction false} TypeRead(front: bytes, length: bytes, objectType: byte, rest: bytes)
    requires IsLength(length) && 4 !in front && |Esds(front, length, objectType, rest)| >= 20
    requires |length| + |rest| >= 4
    ensures EsdsType(Esds(front, length, objectType, rest)) == objectType
  {
    hide ConfigType, BehindLength, IsLength;
    var esds := Esds(front, length, objectType, rest);
    var tag := 4 + |front|;
    EsdsParts(front, length, objectType, rest);
    TagFound(esds, 4, tag);
    LengthSkipped(esds, tag + 1, length);
    TypeAtTag(esds, tag, tag + 1 + |length|);
  }

  lemma {:induction false} EsdsParts(front: bytes, length: bytes, objectType: byte, rest: bytes)
    ensures var esds := Esds(front, length, objectType, rest);
            var tag := 4 + |front|;
            && |esds| == tag + 2 + |length| + |rest|
            && (forall i :: 4 <= i < tag ==> esds[i] == front[i - 4])
            && esds[tag] == 4 && esds[tag + 1..tag + 1 + |length|] == length && esds[tag + 1 + |length|] == objectType
  {
  }

  lemma {:induction false} TypeAtTag(esds: bytes, tag: nat, at: nat)
    requires tag + 5 < |esds| && esds[tag] == 4 && BehindLength(esds, tag + 1) == at && at < |esds|
    ensures ConfigType(esds, tag) == esds[at]
  {
    hide BehindLength;
  }

  /** An esds whose ES_ID is 4: its low byte is taken for the tag, and what is read is the tag itself. */
  lemma {:induction false} TypeMissed(objectType: byte, rest: bytes)
    requires |rest| == 15
    ensures EsdsType(Esds([3, 25, 0, 4, 0], [17], objectType, rest)) == 4
  {
    var esds := Esds([3, 25, 0, 4, 0], [17], objectType, rest);
    assert |esds| == 27;
    assert esds[4] == 3 && esds[5] == 25 && esds[6] == 0 && esds[7] == 4 && esds[8] == 0 && esds[9] == 4;
    hide ConfigType, BehindLength;
    TagFound(esds, 4, 7);
    assert esds[8..9] == [0];
    LengthSkipped(esds, 8, [0]);
    TypeAtTag(esds, 7, 9);
  }

  lemma {:induction false} EsdsSkips(s: bytes, at: nat, stuck: Stuck)
    requires at + 8 <= |s| && s[at + 4..at + 8] != ESDS && Read32(s, at) >= 8
    ensures ObjectType(s, at, stuck) == ObjectType(s, at + Read32(s, at), stuck)
  {
    hide Read32, ESDS, EsdsType;
  }

  lemma {:induction false} EsdsHits(s: bytes, at: nat, size: nat, stuck: Stuck)
    requires at + 8 <= |s| && s[at + 4..at + 8] == ESDS && Read32(s, at) == size && size >= 20 && at + size <= |s|
    ensures ObjectType(s, at, stuck) == EsdsType(s[at + 8..at + size])
  {
    hide Read32, ESDS, EsdsType;
  }

  /** The first esds in a list of boxes gives the object type. */
  lemma {:induction false} EsdsRead(s: bytes, at: nat, before: seq<Box>, esds: bytes, stuck: Stuck)
    requires AllLegal(before + [Box(ESDS, esds)]) && BoxesAt(s, at, before + [Box(ESDS, esds)])
    requires Without(before, ESDS) && |esds| >= 12
    ensures ObjectType(s, at, stuck) == EsdsType(esds)
    decreases |before|
  {
    hide ObjectType, EsdsType, Read32, BoxesAt, ESDS;
    var bs := before + [Box(ESDS, esds)];
    FirstBox(s, at, bs);
    if before == [] {
      EsdsHits(s, at, 8 + |esds|, stuck);
    } else {
      assert bs[0] == before[0] && bs[1..] == before[1..] + [Box(ESDS, esds)];
      TailLegal(bs);
      assert forall i :: 0 <= i < |before[1..]| ==> before[1..][i] == before[i + 1];
      EsdsSkips(s, at, stuck);
      EsdsRead(s, at + 8 + |before[0].payload|, before[1..], esds, stuck);
    }
  }

  // ---------------------------------------------------------------- the whole entry

  /** The object type as RFC 6381 names it, for the three that are told apart. */
  function Named(objectType: byte): string {
    if objectType == 5 then "audio/mp4; codecs=\"mp4a.40.5\""
    else if objectType == 29 then "audio/mp4; codecs=\"mp4a.40.29\""
    else "audio/mp4; codecs=\"mp4a.40.2\""
  }

  lemma {:induction false} SoundIsText()
    ensures Lossy(MP4A) == MP4A && VIDE != SOUN
  {
    assert Ascii(MP4A);
    AsciiTest(MP4A, MP4A);
    FormatsDiffer();
  }

  /** A sound entry as the standard has it -- 28 bytes of fields and then boxes, an esds among them -- is AAC with the object
      type of that esds. */
  lemma {:induction false} SoundEntryRead(
      data: bytes, before: seq<Box>, front: bytes, length: bytes, objectType: byte, rest: bytes, stuck: Stuck)
    requires |data| > 44 && data[12..16] == MP4A
    requires var esds := Esds(front, length, objectType, rest);
             && |esds| >= 20 && |length| + |rest| >= 4 && IsLength(length) && 4 !in front
             && AllLegal(before + [Box(ESDS, esds)]) && Without(before, ESDS)
             && BoxesAt(data[44..], 0, before + [Box(ESDS, esds)])
    ensures var r := Stsd(data, SOUN, stuck);
            && r.Done? && r.value.name == "AAC" && r.value.mime == Named(objectType)
            && r.value.params.Some? && IsHex(r.value.params.value, objectType, false)
  {
    hide ObjectType, EsdsType, Lossy, MP4A, VIDE, SOUN, IsHex, LowerHex, BoxesAt, Esds, IsLength;
    SoundIsText();
    EsdsRead(data[44..], 0, before, Esds(front, length, objectType, rest), stuck);
    TypeRead(front, length, objectType, rest);
    HexRead(objectType);
    MimeIs(objectType);
  }

  lemma {:induction false} MimeIs(objectType: byte)
    ensures "audio/mp4; codecs=\"" + Aac(objectType) + "\"" == Named(objectType)
  {
  }

  /** A picture entry without the reserved fields of the standard -- boxes from the start, an avcC among them -- is H.264
      with the profile of that avcC, in its MIME type and as its parameters. */
  lemma {:induction false} PictureEntryRead(data: bytes, before: seq<Box>, avcc: bytes, stuck: Stuck)
    requires |data| >= 16 && data[12..16] == AVC1
    requires AllLegal(before + [Box(AVCC, avcc)]) && Without(before, AVCC) && |avcc| >= 4
    requires BoxesAt(data[16..], 0, before + [Box(AVCC, avcc)])
    ensures var r := Stsd(data, VIDE, stuck);
            && r.Done? && r.value.name == "H.264" && r.value.params.Some? && IsProfile(r.value.params.value, avcc)
            && r.value.mime == "video/mp4; codecs=\"avc1." + r.value.params.value + "\""
  {
    hide AvcProfile, Lossy, AVC1, IsProfile, BoxesAt;
    AvcIsText();
    ProfileRead(data[16..], 0, before, avcc, stuck);
  }

  /** Without such boxes, and for the other formats: a video track is H.264 with the default profile, a sound track AC-3
      exactly when its format says so and AAC-LC otherwise; any other track, and an stsd that is too short, is an error. */
  lemma {:induction false} OtherEntriesRead(data: bytes, media: bytes, stuck: Stuck)
    requires |data| >= 16 ==> !(media == VIDE && Lossy(data[12..16]) == AVC1) && !(media == SOUN && Lossy(data[12..16]) == MP4A)
    ensures var r := Stsd(data, media, stuck);
            && (r.Failed? <==> |data| < 16 || (media != VIDE && media != SOUN)) && !r.Panicked?
            && (r.Done? && media == VIDE ==>
                  r.value.name == "H.264" && r.value.mime == "video/mp4; codecs=\"avc1.42E01E\"" && r.value.params.None?)
            && (r.Done? && media == SOUN ==>
                  if Lossy(data[12..16]) == [0x61, 0x63, 0x2d, 0x33]
                  then r.value.name == "AC-3" && r.value.mime == "audio/mp4; codecs=\"ac-3\"" && r.value.params.None?
                  else && r.value.name == "AAC" && r.value.mime == Named(2)
                       && r.value.params == if MP4A <= Lossy(data[12..16]) then Some("2") else None)
  {
    hide AvcProfile, ObjectType, Lossy, VIDE, SOUN, AVC1, MP4A;
    FormatsDiffer();
    NotPrefix();
  }

  lemma {:induction false} NotPrefix()
    ensures !(MP4A <= [0x61, 0x63, 0x2d, 0x33])
  {
    var ac3: bytes := [0x61, 0x63, 0x2d, 0x33];
    assert MP4A[0] != ac3[0];
  }
}
