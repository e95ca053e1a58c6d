/** What the two top-level box parsers and the two serializers compute, and that they agree
    (core/src/media/mp4_parser.rs, fragment_parser.rs and fragment_writer.rs). */
module BoxParsers {
  import opened Bytes
  import opened Outcomes
  import opened Boxes
  import opened Utf8

  /** The type is a string, held as its UTF-8 bytes. */
  datatype BoxHeader = BoxHeader(boxType: bytes, size: u64, contentStart: u64)

  datatype Mp4Box = Mp4Box(header: BoxHeader, content: bytes)

  /** The box of the fragment parser also remembers where it was found; its header counts the content
      from its own start. */
  datatype BoxInfo = BoxInfo(header: BoxHeader, content: bytes, offset: u64)

  const CAP: nat := 100_000_000

  // ---------------------------------------------------------------- the first parser

  /** `parse_box`: a size of 1 announces a 64-bit size behind the type. A size smaller than its own header
      makes the content length wrap to an impossible allocation, which panics. */
  function ParseBox(data: bytes, at: nat): Outcome<(Mp4Box, nat)>
    requires |data| < 0x8000_0000_0000_0000
  {
    if at + 8 > |data| then Failed else
      var size32 := Read32(data, at);
      if size32 == 1 && at + 16 > |data| then Failed else
        var size := if size32 == 1 then Read64(data, at + 8) else size32;
        var header := if size32 == 1 then 16 else 8;
        if size < header || size - header >= 0x8000_0000_0000_0000 then Panicked
        else if at + size > |data| then Failed
        else Done((Mp4Box(BoxHeader(Lossy(data[at + 4..at + 8]), size, at + header), data[at + header..at + size]), at + size))
  }

  /** `parse`: boxes until the data ends or one does not parse. */
  function ParseFrom(data: bytes, at: nat): (r: Outcome<seq<Mp4Box>>)
    requires |data| < 0x8000_0000_0000_0000
    ensures !r.Failed?
    decreases |data| - at
  {
    if at >= |data| then Done([]) else
      match ParseBox(data, at)
      case Panicked => Panicked
      case Failed => Done([])
      case Done(p) =>
        match ParseFrom(data, p.1)
        case Done(rest) => Done([p.0] + rest)
        case _ => Panicked
  }

  /** The content of every parsed box is the window of the file its header names. */
  lemma {:induction false} ContentIsWindow(data: bytes, at: nat)
    requires |data| < 0x8000_0000_0000_0000
    ensures var r := ParseFrom(data, at);
            r.Done? ==> forall i :: 0 <= i < |r.value| ==>
              var b := r.value[i];
              b.header.contentStart + |b.content| <= |data|
              && data[b.header.contentStart..b.header.contentStart + |b.content|] == b.content
    decreases |data| - at
  {
    if at < |data| && ParseBox(data, at).Done? {
      ContentIsWindow(data, ParseBox(data, at).value.1);
    }
  }

  /** `Mp4Parser::serialize_box`: a recomputed 32-bit header, or nothing when the type has not kept its four
      bytes or the box is above the cap. */
  function Serialize(b: Mp4Box): bytes {
    if |b.header.boxType| != 4 || |b.content| > CAP || Wrap32(8 + Wrap32(|b.content|)) > CAP then []
    else BE32(8 + |b.content|) + b.header.boxType + b.content
  }

  function SerializeAll(bs: seq<Mp4Box>): bytes {
    if bs == [] then [] else Serialize(bs[0]) + SerializeAll(bs[1..])
  }

  // ---------------------------------------------------------------- printed files

  /** A box written with a 32-bit or a 64-bit size. */
  datatype Entry = Entry(box: Box, long: bool)

  predicate LegalEntry(e: Entry) {
    if e.long then |e.box.kind| == 4 && |e.box.payload| + 16 < 0x8000_0000_0000_0000 else Legal(e.box)
  }

  predicate LegalEntries(es: seq<Entry>) {
    forall i :: 0 <= i < |es| ==> LegalEntry(es[i])
  }

  function PrintEntry(e: Entry): bytes {
    if e.long then BE32(1) + e.box.kind + BE64(16 + |e.box.payload|) + e.box.payload else PrintBox(e.box)
  }

  function PrintEntries(es: seq<Entry>): bytes {
    if es == [] then [] else PrintEntry(es[0]) + PrintEntries(es[1..])
  }

  function EntryHeader(e: Entry): nat { if e.long then 16 else 8 }

  /** The parsed form of entries laid out from `at`. */
  function Parsed(es: seq<Entry>, at: nat): seq<Mp4Box>
    requires LegalEntries(es) && at + |PrintEntries(es)| < 0x8000_0000_0000_0000
  {
    if es == [] then [] else
      var e := es[0];
      EntryLength(e);
      [Mp4Box(BoxHeader(Lossy(e.box.kind), EntryHeader(e) + |e.box.payload|, at + EntryHeader(e)), e.box.payload)]
      + Parsed(es[1..], at + |PrintEntry(e)|)
  }

  lemma {:induction false} EntryLength(e: Entry)
    requires LegalEntry(e)
    ensures |PrintEntry(e)| == EntryHeader(e) + |e.box.payload|
  {
  }

  /** The header of an entry as it stands in the file. */
  predicate HeaderAt(data: bytes, at: nat, e: Entry)
    requires at + EntryHeader(e) <= |data|
  {
    && Read32(data, at) == (if e.long then 1 else 8 + |e.box.payload|)
    && data[at + 4..at + 8] == e.box.kind
    && (e.long ==> Read64(data, at + 8) == 16 + |e.box.payload|)
  }

  lemma {:induction false} LongHeader(data: bytes, at: nat, e: Entry)
    requires e.long && LegalEntry(e) && at + 16 + |e.box.payload| <= |data|
    requires data[at..at + 16 + |e.box.payload|] == PrintEntry(e)
    ensures HeaderAt(data, at, e) && data[at + 16..at + 16 + |e.box.payload|] == e.box.payload
  {
    hide Wrap32, Wrap64, BE32, BE64, Read32, Read64;
    var p := e.box.payload;
    var size, tail := BE64(16 + |p|), BE64(16 + |p|) + p;
    BELengths(1, 16 + |p|);
    assert PrintEntry(e) == BE32(1) + (e.box.kind + tail);
    SplitWindow(data, at, BE32(1), e.box.kind + tail);
    SplitWindow(data, at + 4, e.box.kind, tail);
    SplitWindow(data, at + 8, size, p);
    Read32Printed(data, at, 1);
    Read64Printed(data, at + 8, 16 + |p|);
    NoWrap32(1);
    NoWrap64(16 + |p|);
  }

  lemma {:induction false} ShortHeader(data: bytes, at: nat, e: Entry)
    requires !e.long && LegalEntry(e) && at + 8 + |e.box.payload| <= |data|
    requires data[at..at + 8 + |e.box.payload|] == PrintEntry(e)
    ensures HeaderAt(data, at, e) && data[at + 8..at + 8 + |e.box.payload|] == e.box.payload
  {
    hide Wrap32, BE32, Read32, Read64;
    var p := e.box.payload;
    BELengths(8 + |p|, 0);
    assert PrintEntry(e) == BE32(8 + |p|) + (e.box.kind + p);
    SplitWindow(data, at, BE32(8 + |p|), e.box.kind + p);
    SplitWindow(data, at + 4, e.box.kind, p);
    Read32Printed(data, at, 8 + |p|);
    NoWrap32(8 + |p|);
  }

  lemma {:induction false} EntryParsed(data: bytes, at: nat, e: Entry)
    requires LegalEntry(e) && |data| < 0x8000_0000_0000_0000
    requires at + |PrintEntry(e)| <= |data| && data[at..at + |PrintEntry(e)|] == PrintEntry(e)
    ensures ParseBox(data, at) == Done((
      Mp4Box(BoxHeader(Lossy(e.box.kind), EntryHeader(e) + |e.box.payload|, at + EntryHeader(e)), e.box.payload),
      at + |PrintEntry(e)|))
  {
    hide Read32, Read64, Lossy, PrintEntry;
    EntryLength(e);
    if e.long {
      LongHeader(data, at, e);
    } else {
      ShortHeader(data, at, e);
    }
  }

  lemma {:induction false} BELengths(m: int, n: int)
    ensures |BE32(m)| == 4 && |BE64(n)| == 8
  {
  }

  /** A file printed from boxes parses to those boxes, whatever the width of their sizes. */
  lemma {:induction false} EntriesParsed(data: bytes, at: nat, es: seq<Entry>)
    requires LegalEntries(es) && |data| < 0x8000_0000_0000_0000
    requires at + |PrintEntries(es)| == |data| && data[at..] == PrintEntries(es)
    ensures ParseFrom(data, at) == Done(Parsed(es, at))
    decreases |es|
  {
    hide ParseBox, PrintEntry;
    if es != [] {
      var e, rest := es[0], es[1..];
      EntryLength(e);
      assert data[at..at + |PrintEntry(e)| + |PrintEntries(rest)|] == PrintEntry(e) + PrintEntries(rest);
      SplitWindow(data, at, PrintEntry(e), PrintEntries(rest));
      EntryParsed(data, at, e);
      EntriesParsed(data, at + |PrintEntry(e)|, rest);
    }
  }

  function BoxesOf(es: seq<Entry>): seq<Box> {
    if es == [] then [] else [es[0].box] + BoxesOf(es[1..])
  }

  /** The box is under the cap of the serializer and its type is well-formed UTF-8. */
  predicate Printable(b: Box) {
    8 + |b.payload| <= CAP && ValidUtf8(b.kind)
  }

  predicate AllPrintable(bs: seq<Box>) {
    forall i :: 0 <= i < |bs| ==> Printable(bs[i])
  }

  /** Serializing what was parsed prints every box with a 32-bit header: a 64-bit box keeps its content and
      its header shrinks by 8, ... */
  lemma {:induction false} SerializedEntries(es: seq<Entry>, at: nat)
    requires LegalEntries(es) && at + |PrintEntries(es)| < 0x8000_0000_0000_0000 && AllPrintable(BoxesOf(es))
    ensures SerializeAll(Parsed(es, at)) == PrintBoxes(BoxesOf(es))
    decreases |es|
  {
    hide PrintEntry, Serialize, PrintBox, AllPrintable, Printable, SerializeAll, PrintBoxes, Lossy;
    if es == [] {
      NothingSerialized();
    } else {
      var e, rest := es[0], es[1..];
      PrintableCons(e.box, BoxesOf(rest));
      EntryLength(e);
      EntriesLength(es);
      SerializedIff(e, at);
      SerializedEntries(rest, at + |PrintEntry(e)|);
      SerializeCons(Parsed(es, at)[0], Parsed(rest, at + |PrintEntry(e)|));
      PrintCons(e.box, BoxesOf(rest));
    }
  }

  lemma {:induction false} NothingSerialized()
    ensures SerializeAll([]) == [] && PrintBoxes([]) == []
  {
  }

  lemma {:induction false} SerializeCons(b: Mp4Box, rest: seq<Mp4Box>)
    ensures SerializeAll([b] + rest) == Serialize(b) + SerializeAll(rest)
  {
    assert ([b] + rest)[1..] == rest;
  }

  lemma {:induction false} EntriesLength(es: seq<Entry>)
    requires es != []
    ensures |PrintEntries(es)| == |PrintEntry(es[0])| + |PrintEntries(es[1..])|
  {
  }

  lemma {:induction false} PrintableCons(b: Box, rest: seq<Box>)
    ensures AllPrintable([b] + rest) <==> Printable(b) && AllPrintable(rest)
  {
    hide Printable;
    var bs := [b] + rest;
    assert bs[0] == b && forall i :: 0 < i < |bs| ==> bs[i] == rest[i - 1];
    assert forall i :: 0 <= i < |rest| ==> rest[i] == bs[i + 1];
  }

  function ParsedEntry(e: Entry, at: nat): Mp4Box
    requires at + 16 + |e.box.payload| < TWO64
  {
    Mp4Box(BoxHeader(Lossy(e.box.kind), EntryHeader(e) + |e.box.payload|, at + EntryHeader(e)), e.box.payload)
  }

  lemma {:induction false} SerializeIs(e: Entry, at: nat)
    requires at + 16 + |e.box.payload| < TWO64
    ensures var type_, p := Lossy(e.box.kind), e.box.payload;
            Serialize(ParsedEntry(e, at)) == if |type_| == 4 && 8 + |p| <= CAP then BE32(8 + |p|) + type_ + p else []
  {
    hide Lossy, BE32, Wrap32;
    CapWraps(|e.box.payload|);
  }

  lemma {:induction false} SameTypeIff(n: int, type_: bytes, kind: bytes, p: bytes)
    requires |type_| == 4 && |kind| == 4
    ensures BE32(n) + type_ + p == BE32(n) + kind + p <==> type_ == kind
  {
    BELengths(n, 0);
    hide BE32;
    assert (BE32(n) + type_ + p)[4..8] == type_ && (BE32(n) + kind + p)[4..8] == kind;
  }

  /** What one parsed box is serialized to: never more than it was, and the box itself exactly when it is
      printable. */
  lemma {:induction false} SerializedIff(e: Entry, at: nat)
    requires at + 16 + |e.box.payload| < TWO64 && |e.box.kind| == 4
    ensures Serialize(ParsedEntry(e, at)) == PrintBox(e.box) <==> Printable(e.box)
    ensures |Serialize(ParsedEntry(e, at))| <= 8 + |e.box.payload|
    ensures 8 + |e.box.payload| > CAP && 8 + |e.box.payload| < TWO32 ==> Serialize(ParsedEntry(e, at)) == []
  {
    hide Lossy, ValidUtf8, BE32, Serialize, ParsedEntry;
    var kind, p := e.box.kind, e.box.payload;
    SerializeIs(e, at);
    LossyKeepsIff(kind);
    BELengths(8 + |p|, 0);
    if |Lossy(kind)| == 4 {
      SameTypeIff(8 + |p|, Lossy(kind), kind, p);
    }
  }

  lemma {:induction false} CapWraps(n: nat)
    ensures n > CAP || Wrap32(8 + Wrap32(n)) > CAP <==> 8 + n > CAP
  {
    if n <= CAP {
      NoWrap32(n);
      NoWrap32(8 + n);
    }
  }

  function Short(bs: seq<Box>): (es: seq<Entry>)
    ensures |es| == |bs|
  {
    if bs == [] then [] else [Entry(bs[0], false)] + Short(bs[1..])
  }

  lemma {:induction false} ShortEntries(bs: seq<Box>)
    ensures PrintEntries(Short(bs)) == PrintBoxes(bs) && BoxesOf(Short(bs)) == bs
    ensures AllLegal(bs) ==> LegalEntries(Short(bs))
    ensures forall i :: 0 <= i < |bs| ==> !Short(bs)[i].long
  {
    if bs != [] {
      ShortEntries(bs[1..]);
      var es := Short(bs);
      assert es[1..] == Short(bs[1..]);
      assert forall i :: 0 < i < |es| ==> es[i] == Short(bs[1..])[i - 1];
      if AllLegal(bs) {
        assert AllLegal(bs[1..]);
        forall i | 0 <= i < |es|
          ensures LegalEntry(es[i])
        {
          if i > 0 {
            assert es[i] == Short(bs[1..])[i - 1];
          }
        }
      }
    }
  }

  lemma {:induction false} SerializedAtMost(es: seq<Entry>, at: nat)
    requires LegalEntries(es) && at + |PrintEntries(es)| < 0x8000_0000_0000_0000
    ensures |SerializeAll(Parsed(es, at))| <= |PrintEntries(es)|
    decreases |es|
  {
    hide PrintEntry, Serialize, SerializeAll, Lossy;
    if es == [] {
      NothingSerialized();
    } else {
      var e, rest := es[0], es[1..];
      EntryLength(e);
      EntriesLength(es);
      SerializedIff(e, at);
      SerializedAtMost(rest, at + |PrintEntry(e)|);
      SerializeCons(Parsed(es, at)[0], Parsed(rest, at + |PrintEntry(e)|));
    }
  }

  lemma {:induction false} OverCapShrinks(es: seq<Entry>, at: nat, k: nat)
    requires LegalEntries(es) && at + |PrintEntries(es)| < 0x8000_0000_0000_0000
    requires k < |es| && CAP < 8 + |es[k].box.payload| < TWO32
    ensures |SerializeAll(Parsed(es, at))| < |PrintEntries(es)|
    decreases |es|
  {
    hide PrintEntry, Serialize, SerializeAll, Lossy;
    var e, rest := es[0], es[1..];
    EntryLength(e);
    EntriesLength(es);
    SerializedIff(e, at);
    SerializedAtMost(rest, at + |PrintEntry(e)|);
    SerializeCons(Parsed(es, at)[0], Parsed(rest, at + |PrintEntry(e)|));
    if k > 0 {
      assert rest[k - 1] == es[k];
      OverCapShrinks(rest, at + |PrintEntry(e)|, k - 1);
    }
  }

  /** Pieces that are no longer than their counterparts and concatenate to the same are the same. */
  lemma {:induction false} SamePieces(a: bytes, b: bytes, c: bytes, d: bytes)
    requires a + b == c + d && |a| <= |c| && |b| <= |d|
    ensures a == c && b == d
  {
    assert |a + b| == |c + d|;
    assert a == (a + b)[..|a|] && c == (c + d)[..|c|];
    assert b == (a + b)[|a|..] && d == (c + d)[|c|..];
  }

  lemma {:induction false} SameIsPrintable(es: seq<Entry>, at: nat)
    requires LegalEntries(es) && at + |PrintEntries(es)| < 0x8000_0000_0000_0000
    requires forall i :: 0 <= i < |es| ==> !es[i].long
    requires SerializeAll(Parsed(es, at)) == PrintEntries(es)
    ensures AllPrintable(BoxesOf(es))
    decreases |es|
  {
    hide PrintBox, Serialize, SerializeAll, Lossy, Printable, AllPrintable;
    if es == [] {
      NothingPrintable();
    } else {
      var e, rest := es[0], es[1..];
      EntryLength(e);
      EntriesLength(es);
      SerializedIff(e, at);
      var next := at + |PrintEntry(e)|;
      SerializedAtMost(rest, next);
      SerializeCons(Parsed(es, at)[0], Parsed(rest, next));
      SamePieces(Serialize(ParsedEntry(e, at)), SerializeAll(Parsed(rest, next)), PrintEntry(e), PrintEntries(rest));
      SameIsPrintable(rest, next);
      PrintableCons(e.box, BoxesOf(rest));
    }
  }

  lemma {:induction false} NothingPrintable()
    ensures AllPrintable([])
  {
  }

  /** ... a 32-bit file comes back byte for byte exactly when every box is under the cap and every type is
      well-formed UTF-8, and ... */
  lemma {:induction false} ParseSerializeIff(bs: seq<Box>)
    requires AllLegal(bs) && |PrintBoxes(bs)| < 0x8000_0000_0000_0000
    ensures var r := ParseFrom(PrintBoxes(bs), 0);
            r.Done? && (SerializeAll(r.value) == PrintBoxes(bs) <==> AllPrintable(bs))
  {
    hide AllPrintable, SerializeAll, PrintEntries, Parsed, ParseFrom;
    var data, es := PrintBoxes(bs), Short(bs);
    ShortEntries(bs);
    assert data[0..] == data;
    EntriesParsed(data, 0, es);
    if AllPrintable(bs) {
      SerializedEntries(es, 0);
    }
    if SerializeAll(Parsed(es, 0)) == PrintEntries(es) {
      SameIsPrintable(es, 0);
    }
  }

  /** What a file of a single box under the cap comes back as. */
  lemma {:induction false} OneBoxBack(b: Box)
    requires |b.kind| == 4 && 8 + |b.payload| <= CAP
    ensures var r := ParseFrom(PrintBox(b), 0);
            r.Done? && SerializeAll(r.value) == if |Lossy(b.kind)| == 4 then PrintBox(Box(Lossy(b.kind), b.payload)) else []
  {
    hide ParseFrom, PrintEntries, Lossy, BE32;
    var es := [Entry(b, false)];
    assert es[1..] == [];
    OneEntry(b);
    EntryLength(es[0]);
    assert PrintBox(b)[0..] == PrintBox(b);
    EntriesParsed(PrintBox(b), 0, es);
    NoEntries();
    CapWraps(|b.payload|);
    assert Parsed(es, 0) == [ParsedEntry(es[0], 0)];
    SerializeCons(ParsedEntry(es[0], 0), []);
    NothingSerialized();
  }

  lemma {:induction false} OneEntry(b: Box)
    ensures PrintEntries([Entry(b, false)]) == PrintBox(b)
  {
    assert [Entry(b, false)][1..] == [];
    assert PrintBox(b) + [] == PrintBox(b);
  }

  lemma {:induction false} NoEntries()
    ensures PrintEntries([]) == []
  {
  }

  /** A type of four arbitrary bytes may decode to more bytes or to four others: of these two boxes under the cap one
      does not come back at all and the other comes back with a different type. */
  lemma {:induction false} TypesLost(payload: bytes)
    requires 8 + |payload| <= CAP
    ensures var r := ParseFrom(PrintBox(Box([0xFF, 0xFF, 0xFF, 0xFF], payload)), 0);
            r.Done? && SerializeAll(r.value) == []
    ensures var r := ParseFrom(PrintBox(Box([0xF0, 0x9F, 0x98, 0x41], payload)), 0);
            r.Done? && SerializeAll(r.value) == PrintBox(Box([0xEF, 0xBF, 0xBD, 0x41], payload))
  {
    hide ParseFrom, SerializeAll, PrintBox;
    AllReplaced();
    OneReplaced();
    OneBoxBack(Box([0xFF, 0xFF, 0xFF, 0xFF], payload));
    OneBoxBack(Box([0xF0, 0x9F, 0x98, 0x41], payload));
  }

  lemma {:induction false} AllReplaced()
    ensures Lossy([0xFF, 0xFF, 0xFF, 0xFF]) == REPLACEMENT + REPLACEMENT + REPLACEMENT + REPLACEMENT
  {
    var a, b, c, d := [0xFF as byte, 0xFF, 0xFF, 0xFF], [0xFF as byte, 0xFF, 0xFF], [0xFF as byte, 0xFF], [0xFF as byte];
    assert a[1..] == b && b[1..] == c && c[1..] == d && d[1..] == [];
    assert Lossy(d) == REPLACEMENT && Lossy(c) == REPLACEMENT + REPLACEMENT;
  }

  lemma {:induction false} OneReplaced()
    ensures Lossy([0xF0, 0x9F, 0x98, 0x41]) == [0xEF, 0xBF, 0xBD, 0x41]
  {
    var s, t := [0xF0 as byte, 0x9F, 0x98, 0x41], [0x41 as byte];
    assert Subpart(s) == 3 && s[3..] == t && t[1..] == [];
    assert Lossy(t) == t;
  }

  // ---------------------------------------------------------------- the second parser

  /** `FragmentParser::parse_boxes`: no 64-bit sizes, a size below 8 is an error, a box past the end ends
      the walk. The boxes found before an error stay. */
  datatype Walk = Walk(boxes: seq<BoxInfo>, ok: bool)

  function WalkFrom(data: bytes, at: nat): Walk
    requires |data| < 0x8000_0000_0000_0000
    decreases if at <= |data| then |data| - at else 0
  {
    if at + 8 > |data| then Walk([], true) else
      var size := Read32(data, at);
      if size < 8 then Walk([], false)
      else if at + size > |data| then Walk([], true)
      else
        var rest := WalkFrom(data, at + size);
        Walk([BoxInfo(BoxHeader(Lossy(data[at + 4..at + 8]), size, 8), data[at + 8..at + size], at)] + rest.boxes, rest.ok)
  }

  /** `FragmentWriter::serialize_box`: the header as parsed, truncated to 32 bits, and the content. */
  function SerializeInfo(b: BoxInfo): bytes {
    BE32(b.header.size) + b.header.boxType + b.content
  }

  function SerializeInfos(bs: seq<BoxInfo>): bytes {
    if bs == [] then [] else SerializeInfo(bs[0]) + SerializeInfos(bs[1..])
  }

  /** The box as the other parser reports it. */
  function AsInfo(b: Mp4Box): BoxInfo
    requires b.header.contentStart >= 8
  {
    BoxInfo(b.header.(contentStart := 8), b.content, b.header.contentStart - 8)
  }

  function InfoOf(b: Box, at: u64): BoxInfo
    requires Legal(b)
  {
    BoxInfo(BoxHeader(Lossy(b.kind), 8 + |b.payload|, 8), b.payload, at)
  }

  function ParsedOf(b: Box, at: nat): Mp4Box
    requires Legal(b) && at + 8 < TWO64
  {
    Mp4Box(BoxHeader(Lossy(b.kind), 8 + |b.payload|, at + 8), b.payload)
  }

  /** One box, seen by the second parser. */
  lemma {:induction false} FirstWalked(data: bytes, at: nat, b: Box)
    requires Legal(b) && |data| < 0x8000_0000_0000_0000
    requires at + 8 + |b.payload| <= |data| && data[at..at + 8 + |b.payload|] == PrintBox(b)
    ensures var rest := WalkFrom(data, at + 8 + |b.payload|);
            WalkFrom(data, at) == Walk([InfoOf(b, at)] + rest.boxes, rest.ok)
  {
    hide Lossy, BE32, Read32, PrintBox;
    BoxFound(data, at, |data|, b);
    LegalLength(b);
  }

  lemma {:induction false} LegalLength(b: Box)
    requires Legal(b)
    ensures |PrintBox(b)| == 8 + |b.payload|
  {
  }

  /** The boxes as the second parser reports them. */
  function InfosOf(bs: seq<Box>, at: nat): (infos: seq<BoxInfo>)
    requires AllLegal(bs) && at + |PrintBoxes(bs)| < TWO64
    ensures |infos| == |bs|
  {
    if bs == [] then [] else [InfoOf(bs[0], at)] + InfosOf(bs[1..], at + |PrintBox(bs[0])|)
  }

  lemma {:induction false} BoxesWalked(data: bytes, at: nat, bs: seq<Box>)
    requires AllLegal(bs) && |data| < 0x8000_0000_0000_0000
    requires at + |PrintBoxes(bs)| == |data| && data[at..] == PrintBoxes(bs)
    ensures WalkFrom(data, at) == Walk(InfosOf(bs, at), true)
    decreases |bs|
  {
    hide PrintBox, Read32, BE32, Lossy, WalkFrom, InfoOf;
    if bs == [] {
      WalkEnds(data, at);
    } else {
      var b, rest := bs[0], bs[1..];
      LegalLength(b);
      assert data[at..at + |PrintBox(b)| + |PrintBoxes(rest)|] == PrintBox(b) + PrintBoxes(rest);
      SplitWindow(data, at, PrintBox(b), PrintBoxes(rest));
      FirstWalked(data, at, b);
      BoxesWalked(data, at + |PrintBox(b)|, rest);
    }
  }

  lemma {:induction false} WalkEnds(data: bytes, at: nat)
    requires |data| < 0x8000_0000_0000_0000 && at >= |data|
    ensures WalkFrom(data, at) == Walk([], true)
  {
  }

  lemma {:induction false} WalkStep(data: bytes, at: nat)
    requires |data| < 0x8000_0000_0000_0000
    ensures at + 8 > |data| ==> WalkFrom(data, at) == Walk([], true)
    ensures at + 8 <= |data| ==>
      var size := Read32(data, at);
      && (size < 8 ==> WalkFrom(data, at) == Walk([], false))
      && (size >= 8 && at + size > |data| ==> WalkFrom(data, at) == Walk([], true))
      && (size >= 8 && at + size <= |data| ==>
            var rest := WalkFrom(data, at + size);
            var info := BoxInfo(BoxHeader(Lossy(data[at + 4..at + 8]), size, 8), data[at + 8..at + size], at);
            WalkFrom(data, at) == Walk([info] + rest.boxes, rest.ok))
  {
    hide Read32, Lossy;
  }

  /** Both parsers report the box, with its type decoded and its content as it is. */
  predicate SameBox(first: Mp4Box, second: BoxInfo, b: Box) {
    && first.header.contentStart >= 8 && second == AsInfo(first)
    && second.header.boxType == Lossy(b.kind) && second.content == b.payload
  }

  predicate AllSame(first: seq<Mp4Box>, second: seq<BoxInfo>, bs: seq<Box>) {
    |first| == |second| == |bs| && forall i :: 0 <= i < |bs| ==> SameBox(first[i], second[i], bs[i])
  }

  lemma {:induction false} AllSameCons(x: Mp4Box, y: BoxInfo, b: Box, first: seq<Mp4Box>, second: seq<BoxInfo>, bs: seq<Box>)
    requires SameBox(x, y, b) && AllSame(first, second, bs)
    ensures AllSame([x] + first, [y] + second, [b] + bs)
  {
    hide SameBox;
  }

  lemma {:induction false} NoneSame()
    ensures AllSame([], [], [])
  {
  }

  lemma {:induction false} SameBoxes(bs: seq<Box>, at: nat)
    requires AllLegal(bs) && at + |PrintBoxes(bs)| < 0x8000_0000_0000_0000
    ensures LegalEntries(Short(bs)) && PrintEntries(Short(bs)) == PrintBoxes(bs)
    ensures AllSame(Parsed(Short(bs), at), InfosOf(bs, at), bs)
    decreases |bs|
  {
    hide PrintBox, Lossy, AllSame;
    ShortEntries(bs);
    if bs == [] {
      NoneSame();
    } else {
      var b, rest, es := bs[0], bs[1..], Short(bs);
      LegalLength(b);
      assert es[0] == Entry(b, false) && es[1..] == Short(rest);
      SameBoxes(rest, at + |PrintBox(b)|);
      AllSameCons(ParsedOf(b, at), InfoOf(b, at), b, Parsed(Short(rest), at + |PrintBox(b)|), InfosOf(rest, at + |PrintBox(b)|), rest);
      assert [b] + rest == bs;
    }
  }

  /** ... both parsers agree on it box by box. */
  lemma {:induction false} ParsersAgree(data: bytes, at: nat, bs: seq<Box>)
    requires AllLegal(bs) && |data| < 0x8000_0000_0000_0000
    requires at + |PrintBoxes(bs)| == |data| && data[at..] == PrintBoxes(bs)
    ensures var r := ParseFrom(data, at);
            var w := WalkFrom(data, at);
            r.Done? && w == Walk(InfosOf(bs, at), true) && AllSame(r.value, w.boxes, bs)
  {
    hide ParseFrom, WalkFrom, AllSame, Parsed, InfosOf, PrintBoxes, PrintEntries;
    BoxesWalked(data, at, bs);
    SameBoxes(bs, at);
    EntriesParsed(data, at, Short(bs));
  }

  predicate AllUtf8(bs: seq<Box>) {
    forall i :: 0 <= i < |bs| ==> ValidUtf8(bs[i].kind)
  }

  /** The second serializer has no cap: it gives a file back exactly when every type is well-formed UTF-8, and
      otherwise writes headers that do not match their boxes. */
  lemma {:induction false} SecondSerializerIff(bs: seq<Box>, at: nat)
    requires AllLegal(bs) && at + |PrintBoxes(bs)| < TWO64
    ensures SerializeInfos(InfosOf(bs, at)) == PrintBoxes(bs) <==> AllUtf8(bs)
    ensures |SerializeInfos(InfosOf(bs, at))| >= |PrintBoxes(bs)|
    decreases |bs|
  {
    hide PrintBox, SerializeInfo, Lossy, ValidUtf8, InfoOf;
    if bs != [] {
      var b, rest := bs[0], bs[1..];
      var next := at + |PrintBox(b)|;
      SecondSerializerIff(rest, next);
      InfoSerialized(b, at);
      var infos := InfosOf(bs, at);
      assert infos[0] == InfoOf(b, at) && infos[1..] == InfosOf(rest, next);
      var a, c := SerializeInfo(InfoOf(b, at)), SerializeInfos(InfosOf(rest, next));
      if a + c == PrintBox(b) + PrintBoxes(rest) {
        SamePieces(PrintBox(b), PrintBoxes(rest), a, c);
      }
      AllUtf8Cons(b, rest);
      assert [b] + rest == bs;
    }
  }

  lemma {:induction false} AllUtf8Cons(b: Box, rest: seq<Box>)
    ensures AllUtf8([b] + rest) <==> ValidUtf8(b.kind) && AllUtf8(rest)
  {
    hide ValidUtf8;
    var bs := [b] + rest;
    assert bs[0] == b && forall i :: 0 < i < |bs| ==> bs[i] == rest[i - 1];
    assert forall i :: 0 <= i < |rest| ==> rest[i] == bs[i + 1];
  }

  lemma {:induction false} InfoSerialized(b: Box, at: u64)
    requires Legal(b)
    ensures SerializeInfo(InfoOf(b, at)) == PrintBox(b) <==> ValidUtf8(b.kind)
    ensures |SerializeInfo(InfoOf(b, at))| >= |PrintBox(b)|
  {
    LossyKeepsIff(b.kind);
    LossyGrows(b.kind);
    hide Lossy, ValidUtf8, BE32;
    var n := BE32(8 + |b.payload|);
    var s, t := n + Lossy(b.kind) + b.payload, n + b.kind + b.payload;
    if s == t {
      assert |Lossy(b.kind)| == 4;
      assert s[4..8] == Lossy(b.kind) && t[4..8] == b.kind;
    }
  }

  // ---------------------------------------------------------------- the second parser, as it runs

  /** The one track that `extract_track_info` makes up for a file with a moov. */
  datatype InfoTrack = InfoTrack(trackId: u32, mediaType: string, timescale: u32, duration: u64, codec: string, codecParams: string)

  const PLACEHOLDER: InfoTrack := InfoTrack(1, "vide", 30000, 1800000, "H.264", "avc1.42E01E")

  predicate HasType(bs: seq<BoxInfo>, kind: bytes) {
    exists i :: 0 <= i < |bs| && bs[i].header.boxType == kind
  }

  class FragmentParser {
    var boxes: seq<BoxInfo>
    var tracks: seq<InfoTrack>
    var isFragmented: bool
    var fileSize: u64

    constructor ()
      ensures boxes == [] && tracks == [] && !isFragmented && fileSize == 0
    {
      boxes, tracks, isFragmented, fileSize := [], [], false, 0;
    }

    /** Boxes are appended to those of earlier calls. */
    method ParseBoxes(data: bytes) returns (ok: bool)
      requires |data| < 0x8000_0000_0000_0000
      modifies this`boxes
      ensures boxes == old(boxes) + WalkFrom(data, 0).boxes && ok == WalkFrom(data, 0).ok
    {
      hide WalkFrom, Lossy, Read32;
      var offset := 0;
      assert old(boxes) + WalkFrom(data, 0).boxes == boxes + WalkFrom(data, 0).boxes;
      while offset < |data|
        invariant 0 <= offset <= |data|
        invariant boxes + WalkFrom(data, offset).boxes == old(boxes) + WalkFrom(data, 0).boxes
        invariant WalkFrom(data, offset).ok == WalkFrom(data, 0).ok
        decreases |data| - offset
      {
        WalkStep(data, offset);
        if offset + 8 > |data| {
          break;
        }
        var size := Read32(data, offset);
        if size < 8 {
          assert boxes + [] == boxes;
          return false;
        }
        if offset + size > |data| {
          break;
        }
        var info := BoxInfo(BoxHeader(Lossy(data[offset + 4..offset + 8]), size, 8), data[offset + 8..offset + size], offset);
        ghost var rest := WalkFrom(data, offset + size).boxes;
        Reassociate(boxes, [info], rest);
        boxes := boxes + [info];
        offset := offset + size;
      }
      WalkStep(data, offset);
      assert WalkFrom(data, offset).boxes == [] && boxes + [] == boxes;
      ok := true;
    }

    method HasBox(kind: bytes) returns (found: bool)
      ensures found <==> HasType(boxes, kind)
    {
      found := false;
      for i := 0 to |boxes|
        invariant found <==> exists k :: 0 <= k < i && boxes[k].header.boxType == kind
      {
        found := found || boxes[i].header.boxType == kind;
      }
    }

    /** An error leaves tracks and fragmentation flag as they were. Every further call adds the track again as long
        as there is a moov. */
    method Parse(data: bytes) returns (ok: bool)
      requires |data| < 0x8000_0000_0000_0000
      modifies this
      ensures fileSize == |data| && ok == WalkFrom(data, 0).ok
      ensures boxes == old(boxes) + WalkFrom(data, 0).boxes
      ensures tracks == old(tracks) + if ok && HasType(boxes, MOOV) then [PLACEHOLDER] else []
      ensures isFragmented == if !ok then old(isFragmented) else HasType(boxes, MOOF) || HasType(boxes, MVEX)
    {
      fileSize := |data|;
      ok := ParseBoxes(data);
      if ok {
        var moov := HasBox(MOOV);
        if moov {
          tracks := tracks + [PLACEHOLDER];
        }
        var moof := HasBox(MOOF);
        var mvex := HasBox(MVEX);
        isFragmented := moof || mvex;
      }
    }
  }
}
