/** Reading a sample table from the bytes of an stbl box (core/src/media/mp4_parser.rs, `parse_stbl_box` and
    the parsers of its tables). */
module TableParsers {
  import opened Bytes
  import opened Outcomes
  import opened Boxes
  import opened SampleTables
  import opened Codecs

  const STSD: bytes := [0x73, 0x74, 0x73, 0x64]
  const STSZ: bytes := [0x73, 0x74, 0x73, 0x7a]
  const STTS: bytes := [0x73, 0x74, 0x74, 0x73]
  const STSC: bytes := [0x73, 0x74, 0x73, 0x63]
  const STCO: bytes := [0x73, 0x74, 0x63, 0x6f]
  const CO64: bytes := [0x63, 0x6f, 0x36, 0x34]
  const STSS: bytes := [0x73, 0x74, 0x73, 0x73]
  const CTTS: bytes := [0x63, 0x74, 0x74, 0x73]

  // ---------------------------------------------------------------- rows of fixed width

  /** The announced rows, as far as they are complete. */
  function RowsAt(s: bytes, at: nat, width: nat, count: nat): (rows: seq<bytes>)
    ensures forall i :: 0 <= i < |rows| ==> |rows[i]| == width
    decreases count
  {
    if count == 0 || at + width > |s| then [] else [s[at..at + width]] + RowsAt(s, at + width, width, count - 1)
  }

  function Flat(rows: seq<bytes>): bytes {
    if rows == [] then [] else rows[0] + Flat(rows[1..])
  }

  predicate AllWide(rows: seq<bytes>, width: nat) {
    forall i :: 0 <= i < |rows| ==> |rows[i]| == width
  }

  lemma {:induction false} RowsPrinted(before: bytes, rows: seq<bytes>, width: nat)
    requires AllWide(rows, width)
    ensures RowsAt(before + Flat(rows), |before|, width, |rows|) == rows
    decreases |rows|
  {
    hide Flat, RowsAt;
    if rows == [] {
      NoRows(before + Flat(rows), |before|, width, 0);
    } else {
      var s, row := before + Flat(rows), rows[0];
      FlatFirst(rows);
      assert s == (before + row) + Flat(rows[1..]);
      RowsPrinted(before + row, rows[1..], width);
      SplitWindow(s, |before|, row, Flat(rows[1..]));
      StepRows(s, |before|, width, |rows|);
    }
  }

  lemma {:induction false} FlatFirst(rows: seq<bytes>)
    requires rows != []
    ensures Flat(rows) == rows[0] + Flat(rows[1..])
  {
  }

  /** Version and flags, the number of rows, the rows. */
  function PrintTable(rows: seq<bytes>): bytes { [0, 0, 0, 0] + BE32(|rows|) + Flat(rows) }

  function TableRows(s: bytes, width: nat): (rows: seq<bytes>)
    ensures forall i :: 0 <= i < |rows| ==> |rows[i]| == width
  {
    if |s| < 8 then [] else RowsAt(s, 8, width, Read32(s, 4))
  }

  lemma {:induction false} TableRowsPrinted(rows: seq<bytes>, width: nat)
    requires AllWide(rows, width) && |rows| < TWO32
    ensures TableRows(PrintTable(rows), width) == rows
  {
    hide BE32, Read32, Flat, RowsAt;
    var s := PrintTable(rows);
    assert s[4..8] == BE32(|rows|);
    Read32Printed(s, 4, |rows|);
    NoWrap32(|rows|);
    RowsPrinted([0, 0, 0, 0] + BE32(|rows|), rows, width);
  }

  // ---------------------------------------------------------------- what one table says

  function Words(rows: seq<bytes>): (ns: seq<u32>)
    requires AllWide(rows, 4)
    ensures |ns| == |rows|
  {
    if rows == [] then [] else [Read32(rows[0], 0)] + Words(rows[1..])
  }

  function ShortOffsets(rows: seq<bytes>): (ns: seq<u64>)
    requires AllWide(rows, 4)
    ensures |ns| == |rows|
  {
    if rows == [] then [] else
      var n: int := Read32(rows[0], 0);
      [n] + ShortOffsets(rows[1..])
  }

  function LongWords(rows: seq<bytes>): (ns: seq<u64>)
    requires AllWide(rows, 8)
    ensures |ns| == |rows|
  {
    if rows == [] then [] else [Read64(rows[0], 0)] + LongWords(rows[1..])
  }

  function Durations(rows: seq<bytes>): (runs: seq<Run<u32>>)
    requires AllWide(rows, 8)
    ensures |runs| == |rows|
  {
    if rows == [] then [] else [Run(Read32(rows[0], 0), Read32(rows[0], 4))] + Durations(rows[1..])
  }

  function Offsets(rows: seq<bytes>): (runs: seq<Run<i32>>)
    requires AllWide(rows, 8)
    ensures |runs| == |rows|
  {
    if rows == [] then [] else [Run(Read32(rows[0], 0), Signed(Read32(rows[0], 4)))] + Offsets(rows[1..])
  }

  function ChunkRuns(rows: seq<bytes>): (runs: seq<ChunkRun>)
    requires AllWide(rows, 12)
    ensures |runs| == |rows|
  {
    if rows == [] then []
    else [ChunkRun(Read32(rows[0], 0), Read32(rows[0], 4), Read32(rows[0], 8))] + ChunkRuns(rows[1..])
  }

  /** A default size other than 0 stands for all samples. */
  function Sizes(s: bytes): seq<u32> {
    if |s| < 12 then []
    else if Read32(s, 4) != 0 then seq(Read32(s, 8), _ => Read32(s, 4))
    else Words(RowsAt(s, 12, 4, Read32(s, 8)))
  }

  /** A word of a row, read where the row stands. */
  lemma {:induction false} RowWord(s: bytes, at: nat, width: nat, i: nat)
    requires at + width <= |s| && i + 4 <= width
    ensures Read32(s[at..at + width], i) == Read32(s, at + i)
  {
    SubWindow(s, at, at + width, i, i + 4);
  }

  method ParseStsz(data: bytes) returns (sizes: seq<u32>)
    ensures sizes == Sizes(data)
  {
    hide Read32, RowsAt;
    sizes := [];
    if |data| < 12 {
      return;
    }
    var defaultSize, count := Read32(data, 4), Read32(data, 8);
    if defaultSize != 0 {
      return seq(count, _ => defaultSize);
    }
    var offset := 12;
    ghost var goal := Words(RowsAt(data, 12, 4, count));
    for i := 0 to count
      invariant sizes + Words(RowsAt(data, offset, 4, count - i)) == goal
    {
      if offset + 4 > |data| {
        NoRows(data, offset, 4, count - i);
        break;
      }
      RowWord(data, offset, 4, 0);
      StepRows(data, offset, 4, count - i);
      sizes := sizes + [Read32(data, offset)];
      offset := offset + 4;
    }
    NoRows(data, offset, 4, 0);
  }

  lemma {:induction false} NoRows(s: bytes, at: nat, width: nat, count: nat)
    ensures count == 0 || at + width > |s| ==> RowsAt(s, at, width, count) == []
  {
  }

  lemma {:induction false} StepRows(s: bytes, at: nat, width: nat, count: nat)
    requires count > 0 && at + width <= |s|
    ensures var rows := RowsAt(s, at, width, count);
            rows != [] && rows[0] == s[at..at + width] && rows[1..] == RowsAt(s, at + width, width, count - 1)
  {
  }

  method ParseStts(data: bytes) returns (entries: seq<Run<u32>>)
    ensures entries == Durations(TableRows(data, 8))
  {
    hide Read32, RowsAt;
    entries := [];
    if |data| < 8 {
      return;
    }
    var count, offset := Read32(data, 4), 8;
    ghost var goal := Durations(TableRows(data, 8));
    for i := 0 to count
      invariant entries + Durations(RowsAt(data, offset, 8, count - i)) == goal
    {
      if offset + 8 > |data| {
        NoRows(data, offset, 8, count - i);
        break;
      }
      RowWord(data, offset, 8, 0);
      RowWord(data, offset, 8, 4);
      StepRows(data, offset, 8, count - i);
      entries := entries + [Run(Read32(data, offset), Read32(data, offset + 4))];
      offset := offset + 8;
    }
    NoRows(data, offset, 8, 0);
  }

  method ParseStsc(data: bytes) returns (entries: seq<ChunkRun>)
    ensures entries == ChunkRuns(TableRows(data, 12))
  {
    hide Read32, RowsAt;
    entries := [];
    if |data| < 8 {
      return;
    }
    var count, offset := Read32(data, 4), 8;
    ghost var goal := ChunkRuns(TableRows(data, 12));
    for i := 0 to count
      invariant entries + ChunkRuns(RowsAt(data, offset, 12, count - i)) == goal
    {
      if offset + 12 > |data| {
        NoRows(data, offset, 12, count - i);
        break;
      }
      RowWord(data, offset, 12, 0);
      RowWord(data, offset, 12, 4);
      RowWord(data, offset, 12, 8);
      StepRows(data, offset, 12, count - i);
      var entry := ChunkRun(Read32(data, offset), Read32(data, offset + 4), Read32(data, offset + 8));
      ghost var rest := ChunkRuns(RowsAt(data, offset + 12, 12, count - i - 1));
      assert ChunkRuns(RowsAt(data, offset, 12, count - i)) == [entry] + rest;
      hide ChunkRuns;
      Reassociate(entries, [entry], rest);
      entries := entries + [entry];
      offset := offset + 12;
    }
    NoRows(data, offset, 12, 0);
  }

  method ParseStco(data: bytes) returns (offsets: seq<u64>)
    ensures offsets == ShortOffsets(TableRows(data, 4))
  {
    hide Read32, RowsAt;
    offsets := [];
    if |data| < 8 {
      return;
    }
    var count, offset := Read32(data, 4), 8;
    ghost var goal := ShortOffsets(TableRows(data, 4));
    for i := 0 to count
      invariant offsets + ShortOffsets(RowsAt(data, offset, 4, count - i)) == goal
    {
      if offset + 4 > |data| {
        NoRows(data, offset, 4, count - i);
        break;
      }
      RowWord(data, offset, 4, 0);
      StepRows(data, offset, 4, count - i);
      var n: int := Read32(data, offset);
      offsets := offsets + [n];
      offset := offset + 4;
    }
    NoRows(data, offset, 4, 0);
  }

  method ParseCo64(data: bytes) returns (offsets: seq<u64>)
    ensures offsets == LongWords(TableRows(data, 8))
  {
    hide Read32, Read64, RowsAt;
    offsets := [];
    if |data| < 8 {
      return;
    }
    var count, offset := Read32(data, 4), 8;
    ghost var goal := LongWords(TableRows(data, 8));
    for i := 0 to count
      invariant offsets + LongWords(RowsAt(data, offset, 8, count - i)) == goal
    {
      if offset + 8 > |data| {
        NoRows(data, offset, 8, count - i);
        break;
      }
      RowLong(data, offset);
      StepRows(data, offset, 8, count - i);
      offsets := offsets + [Read64(data, offset)];
      offset := offset + 8;
    }
    NoRows(data, offset, 8, 0);
  }

  lemma {:induction false} RowLong(s: bytes, at: nat)
    requires at + 8 <= |s|
    ensures Read64(s[at..at + 8], 0) == Read64(s, at)
  {
    assert s[at..at + 8][0..8] == s[at..at + 8];
  }

  method ParseStss(data: bytes) returns (samples: seq<u32>)
    ensures samples == Words(TableRows(data, 4))
  {
    hide Read32, RowsAt;
    samples := [];
    if |data| < 8 {
      return;
    }
    var count, offset := Read32(data, 4), 8;
    ghost var goal := Words(TableRows(data, 4));
    for i := 0 to count
      invariant samples + Words(RowsAt(data, offset, 4, count - i)) == goal
    {
      if offset + 4 > |data| {
        NoRows(data, offset, 4, count - i);
        break;
      }
      RowWord(data, offset, 4, 0);
      StepRows(data, offset, 4, count - i);
      samples := samples + [Read32(data, offset)];
      offset := offset + 4;
    }
    NoRows(data, offset, 4, 0);
  }

  method ParseCtts(data: bytes) returns (entries: seq<Run<i32>>)
    ensures entries == Offsets(TableRows(data, 8))
  {
    hide Read32, RowsAt;
    entries := [];
    if |data| < 8 {
      return;
    }
    var count, offset := Read32(data, 4), 8;
    ghost var goal := Offsets(TableRows(data, 8));
    for i := 0 to count
      invariant entries + Offsets(RowsAt(data, offset, 8, count - i)) == goal
    {
      if offset + 8 > |data| {
        NoRows(data, offset, 8, count - i);
        break;
      }
      RowWord(data, offset, 8, 0);
      RowWord(data, offset, 8, 4);
      StepRows(data, offset, 8, count - i);
      entries := entries + [Run(Read32(data, offset), Signed(Read32(data, offset + 4)))];
      offset := offset + 8;
    }
    NoRows(data, offset, 8, 0);
  }

  // ---------------------------------------------------------------- the stbl box

  /** The payload of the last box of a kind. */
  function LastPayload(bs: seq<Box>, kind: bytes): Option<bytes> {
    if bs == [] then None
    else if bs[|bs| - 1].kind == kind then Some(bs[|bs| - 1].payload)
    else LastPayload(bs[..|bs| - 1], kind)
  }

  function Rows(bs: seq<Box>, kind: bytes, width: nat): (rows: seq<bytes>)
    ensures AllWide(rows, width)
  {
    match LastPayload(bs, kind)
    case None => []
    case Some(s) => TableRows(s, width)
  }

  /** 32-bit and 64-bit chunk offsets compete: the last box of either kind counts. */
  function ChunkOffsets(bs: seq<Box>): seq<u64> {
    if bs == [] then []
    else if bs[|bs| - 1].kind == STCO then ShortOffsets(TableRows(bs[|bs| - 1].payload, 4))
    else if bs[|bs| - 1].kind == CO64 then LongWords(TableRows(bs[|bs| - 1].payload, 8))
    else ChunkOffsets(bs[..|bs| - 1])
  }

  /** The table that a list of boxes describes: each column is what the last box of its kind says. */
  function TableOf(bs: seq<Box>): SampleTable {
    SampleTable(
      match LastPayload(bs, STSZ) { case None => [] case Some(s) => Sizes(s) },
      Durations(Rows(bs, STTS, 8)),
      ChunkRuns(Rows(bs, STSC, 12)),
      ChunkOffsets(bs),
      Words(Rows(bs, STSS, 4)),
      Offsets(Rows(bs, CTTS, 8)))
  }

  lemma {:induction false} TableKindsDiffer()
    ensures STSZ != STTS && STSZ != STSC && STSZ != STCO && STSZ != CO64 && STSZ != STSS && STSZ != CTTS
    ensures STTS != STSC && STTS != STCO && STTS != CO64 && STTS != STSS && STTS != CTTS
    ensures STSC != STCO && STSC != CO64 && STSC != STSS && STSC != CTTS
    ensures STCO != CO64 && STCO != STSS && STCO != CTTS
    ensures CO64 != STSS && CO64 != CTTS && STSS != CTTS
  {
    assert STSZ[3] == 0x7a && STTS[3] == 0x73 && STSC[3] == 0x63 && STCO[3] == 0x6f && CO64[3] == 0x34 && STSS[3] == 0x73 && CTTS[3] == 0x73;
    assert STTS[2] == 0x74 && STSS[2] == 0x73 && CTTS[2] == 0x74 && CTTS[0] == 0x63 && STTS[0] == 0x73;
  }

  /** What one more box changes. */
  function WithBox(t: SampleTable, b: Box): SampleTable {
    if b.kind == STSZ then t.(sampleSizes := Sizes(b.payload))
    else if b.kind == STTS then t.(timeToSample := Durations(TableRows(b.payload, 8)))
    else if b.kind == STSC then t.(sampleToChunk := ChunkRuns(TableRows(b.payload, 12)))
    else if b.kind == STCO then t.(chunkOffsets := ShortOffsets(TableRows(b.payload, 4)))
    else if b.kind == CO64 then t.(chunkOffsets := LongWords(TableRows(b.payload, 8)))
    else if b.kind == STSS then t.(syncSamples := Words(TableRows(b.payload, 4)))
    else if b.kind == CTTS then t.(compositionOffsets := Offsets(TableRows(b.payload, 8)))
    else t
  }

  lemma {:induction false} PayloadGrows(bs: seq<Box>, b: Box, kind: bytes)
    ensures LastPayload(bs + [b], kind) == if b.kind == kind then Some(b.payload) else LastPayload(bs, kind)
  {
    assert (bs + [b])[..|bs|] == bs;
  }

  lemma {:induction false} OffsetsGrow(bs: seq<Box>, b: Box)
    ensures ChunkOffsets(bs + [b]) ==
      if b.kind == STCO then ShortOffsets(TableRows(b.payload, 4))
      else if b.kind == CO64 then LongWords(TableRows(b.payload, 8))
      else ChunkOffsets(bs)
  {
    assert (bs + [b])[..|bs|] == bs;
  }

  lemma {:induction false} TableGrows(bs: seq<Box>, b: Box)
    ensures TableOf(bs + [b]) == WithBox(TableOf(bs), b)
  {
    hide TableRows, Words, ShortOffsets, LongWords, Durations, Offsets, ChunkRuns, Sizes, LastPayload, ChunkOffsets;
    TableKindsDiffer();
    hide STSZ, STTS, STSC, STCO, CO64, STSS, CTTS;
    PayloadGrows(bs, b, STSZ);
    PayloadGrows(bs, b, STTS);
    PayloadGrows(bs, b, STSC);
    PayloadGrows(bs, b, STSS);
    PayloadGrows(bs, b, CTTS);
    OffsetsGrow(bs, b);
  }

  /** What the last stsd says; an error without one. */
  function StsdOf(bs: seq<Box>, media: bytes, stuck: Stuck): Outcome<Codec> {
    if bs == [] then Failed
    else
      var before, last := StsdOf(bs[..|bs| - 1], media, stuck), bs[|bs| - 1];
      if before.Panicked? then Panicked
      else if last.kind == STSD then Stsd(last.payload, media, stuck)
      else before
  }

  lemma {:induction false} StsdGrows(bs: seq<Box>, b: Box, media: bytes, stuck: Stuck)
    ensures StsdOf(bs + [b], media, stuck) ==
      if StsdOf(bs, media, stuck).Panicked? then Panicked
      else if b.kind == STSD then Stsd(b.payload, media, stuck) else StsdOf(bs, media, stuck)
  {
    hide Stsd;
    assert (bs + [b])[..|bs|] == bs;
  }

  lemma {:induction false} StaysPanicked(a: seq<Box>, b: seq<Box>, media: bytes, stuck: Stuck)
    requires StsdOf(a, media, stuck).Panicked?
    ensures StsdOf(a + b, media, stuck).Panicked?
    decreases |b|
  {
    hide Stsd;
    if b == [] {
      assert a + b == a;
    } else {
      StaysPanicked(a, b[..|b| - 1], media, stuck);
      assert (a + b)[..|a + b| - 1] == a + b[..|b| - 1];
    }
  }

  /** A table without samples is not kept. */
  function KeptTable(bs: seq<Box>): Option<SampleTable> {
    var t := TableOf(bs);
    if t.sampleSizes == [] then None else Some(t)
  }

  /** `parse_stbl_box`: one pass over the child boxes, until one does not fit, for the codec and the table. */
  method ParseStbl(data: bytes, media: bytes, stuck: Stuck) returns (codec: Outcome<Codec>, table: Option<SampleTable>)
    ensures codec == StsdOf(ScanAll(data), media, stuck)
    ensures !codec.Panicked? ==> table == KeptTable(ScanAll(data))
  {
    hide Read32, TableOf, WithBox, TableRows, Words, ShortOffsets, LongWords, Durations, Offsets, ChunkRuns, Sizes, Stsd, StsdOf, STSD, Scan;
    codec, table := Failed, None;
    var t := SampleTable([], [], [], [], [], []);
    ghost var seen: seq<Box> := [];
    NoBoxes();
    NoStsd(media, stuck);
    var cursor := 0;
    while cursor < |data|
      invariant seen + Scan(data, cursor, |data|) == ScanAll(data)
      invariant t == TableOf(seen)
      invariant codec == StsdOf(seen, media, stuck) && !codec.Panicked?
      decreases |data| - cursor
    {
      ScanStep(data, cursor, |data|);
      if cursor + 8 > |data| {
        break;
      }
      var boxSize, boxType := Read32(data, cursor), data[cursor + 4..cursor + 8];
      if boxSize < 8 {
        break;
      }
      if cursor + boxSize > |data| {
        break;
      }
      var content := data[cursor + 8..cursor + boxSize];
      ghost var b := BoxAt(data, cursor, |data|);
      ghost var rest := Scan(data, cursor + boxSize, |data|);
      Reassociate(seen, [b], rest);
      TableGrows(seen, b);
      StsdGrows(seen, b, media, stuck);
      if boxType == STSD {
        codec := ParseStsdBox(content, media, stuck);
        if codec.Panicked? {
          StaysPanicked(seen + [b], rest, media, stuck);
          return;
        }
      }
      t := Column(t, boxType, content);
      seen := seen + [b];
      cursor := cursor + boxSize;
    }
    ScanStep(data, cursor, |data|);
    assert seen + [] == seen;
    table := if t.sampleSizes != [] then Some(t) else None;
  }

  method Column(before: SampleTable, boxType: bytes, content: bytes) returns (t: SampleTable)
    ensures t == WithBox(before, Box(boxType, content))
  {
    t := before;
    if boxType == STSZ {
      var sizes := ParseStsz(content);
      t := t.(sampleSizes := sizes);
    } else if boxType == STTS {
      var runs := ParseStts(content);
      t := t.(timeToSample := runs);
    } else if boxType == STSC {
      var runs := ParseStsc(content);
      t := t.(sampleToChunk := runs);
    } else if boxType == STCO {
      var offsets := ParseStco(content);
      t := t.(chunkOffsets := offsets);
    } else if boxType == CO64 {
      var offsets := ParseCo64(content);
      t := t.(chunkOffsets := offsets);
    } else if boxType == STSS {
      var samples := ParseStss(content);
      t := t.(syncSamples := samples);
    } else if boxType == CTTS {
      var runs := ParseCtts(content);
      t := t.(compositionOffsets := runs);
    }
  }

  lemma {:induction false} NoStsd(media: bytes, stuck: Stuck)
    ensures StsdOf([], media, stuck) == Failed
  {
  }

  lemma {:induction false} NoBoxes()
    ensures TableOf([]) == SampleTable([], [], [], [], [], [])
  {
  }

  // ---------------------------------------------------------------- the tables as the standard prints them

  function WordRows(ns: seq<u32>): (rows: seq<bytes>)
    ensures |rows| == |ns| && AllWide(rows, 4)
  {
    if ns == [] then [] else [BE32(ns[0])] + WordRows(ns[1..])
  }

  function ShortRows(ns: seq<u64>): (rows: seq<bytes>)
    ensures |rows| == |ns| && AllWide(rows, 4)
  {
    if ns == [] then [] else [BE32(ns[0])] + ShortRows(ns[1..])
  }

  function LongRows(ns: seq<u64>): (rows: seq<bytes>)
    ensures |rows| == |ns| && AllWide(rows, 8)
  {
    if ns == [] then [] else [BE64(ns[0])] + LongRows(ns[1..])
  }

  function DurationRows(runs: seq<Run<u32>>): (rows: seq<bytes>)
    ensures |rows| == |runs| && AllWide(rows, 8)
  {
    if runs == [] then [] else [BE32(runs[0].count) + BE32(runs[0].value)] + DurationRows(runs[1..])
  }

  function OffsetRows(runs: seq<Run<i32>>): (rows: seq<bytes>)
    ensures |rows| == |runs| && AllWide(rows, 8)
  {
    if runs == [] then [] else [BE32(runs[0].count) + BE32(Unsigned(runs[0].value))] + OffsetRows(runs[1..])
  }

  function ChunkRows(runs: seq<ChunkRun>): (rows: seq<bytes>)
    ensures |rows| == |runs| && AllWide(rows, 12)
  {
    if runs == [] then []
    else [BE32(runs[0].firstChunk) + BE32(runs[0].samplesPerChunk) + BE32(runs[0].descIdx)] + ChunkRows(runs[1..])
  }

  lemma {:induction false} WordBack(row: bytes, i: nat, n: u32)
    requires i + 4 <= |row| && row[i..i + 4] == BE32(n)
    ensures Read32(row, i) == n
  {
    Read32Printed(row, i, n);
    NoWrap32(n);
  }

  lemma {:induction false} WordsBack(ns: seq<u32>)
    ensures Words(WordRows(ns)) == ns
  {
    hide BE32, Read32;
    if ns != [] {
      WordsBack(ns[1..]);
      assert BE32(ns[0])[0..4] == BE32(ns[0]);
      WordBack(BE32(ns[0]), 0, ns[0]);
      assert WordRows(ns)[1..] == WordRows(ns[1..]);
    }
  }

  lemma {:induction false} ShortBack(ns: seq<u64>)
    requires forall i :: 0 <= i < |ns| ==> ns[i] < TWO32
    ensures ShortOffsets(ShortRows(ns)) == ns
  {
    hide BE32, Read32;
    if ns != [] {
      ShortBack(ns[1..]);
      assert BE32(ns[0])[0..4] == BE32(ns[0]);
      var n: int := ns[0];
      WordBack(BE32(n), 0, n);
      assert ShortRows(ns)[1..] == ShortRows(ns[1..]);
    }
  }

  lemma {:induction false} LongBack(ns: seq<u64>)
    ensures LongWords(LongRows(ns)) == ns
  {
    hide BE64, Read64;
    if ns != [] {
      LongBack(ns[1..]);
      var row := BE64(ns[0]);
      assert row[0..8] == row;
      Read64Printed(row, 0, ns[0]);
      NoWrap64(ns[0]);
      assert LongRows(ns)[1..] == LongRows(ns[1..]);
    }
  }

  lemma {:induction false} DurationsBack(runs: seq<Run<u32>>)
    ensures Durations(DurationRows(runs)) == runs
  {
    hide BE32, Read32;
    if runs != [] {
      DurationsBack(runs[1..]);
      var row := BE32(runs[0].count) + BE32(runs[0].value);
      assert row[0..4] == BE32(runs[0].count) && row[4..8] == BE32(runs[0].value);
      WordBack(row, 0, runs[0].count);
      WordBack(row, 4, runs[0].value);
      assert DurationRows(runs)[1..] == DurationRows(runs[1..]);
    }
  }

  lemma {:induction false} OffsetsBack(runs: seq<Run<i32>>)
    ensures Offsets(OffsetRows(runs)) == runs
  {
    hide BE32, Read32;
    if runs != [] {
      OffsetsBack(runs[1..]);
      var v := Unsigned(runs[0].value);
      var row := BE32(runs[0].count) + BE32(v);
      assert row[0..4] == BE32(runs[0].count) && row[4..8] == BE32(v);
      WordBack(row, 0, runs[0].count);
      WordBack(row, 4, v);
      assert OffsetRows(runs)[1..] == OffsetRows(runs[1..]);
    }
  }

  lemma {:induction false} ChunkRunsBack(runs: seq<ChunkRun>)
    ensures ChunkRuns(ChunkRows(runs)) == runs
  {
    hide BE32, Read32;
    if runs != [] {
      ChunkRunsBack(runs[1..]);
      var r := runs[0];
      var row := BE32(r.firstChunk) + BE32(r.samplesPerChunk) + BE32(r.descIdx);
      assert row[0..4] == BE32(r.firstChunk) && row[4..8] == BE32(r.samplesPerChunk) && row[8..12] == BE32(r.descIdx);
      WordBack(row, 0, r.firstChunk);
      WordBack(row, 4, r.samplesPerChunk);
      WordBack(row, 8, r.descIdx);
      assert ChunkRows(runs)[1..] == ChunkRows(runs[1..]);
    }
  }

  /** The two forms of an stsz: one size for all samples, or a size for each. */
  function PrintUniform(size: u32, count: u32): bytes { [0, 0, 0, 0] + BE32(size) + BE32(count) }

  function PrintSizes(sizes: seq<u32>): bytes { [0, 0, 0, 0] + BE32(0) + BE32(|sizes|) + Flat(WordRows(sizes)) }

  predicate SizesPrinted(s: bytes, sizes: seq<u32>) {
    || (|sizes| < TWO32 && s == PrintSizes(sizes))
    || (sizes != [] && |sizes| < TWO32 && sizes[0] != 0 && (forall i :: 0 <= i < |sizes| ==> sizes[i] == sizes[0])
        && s == PrintUniform(sizes[0], |sizes|))
  }

  lemma {:induction false} SizesBack(s: bytes, sizes: seq<u32>)
    requires SizesPrinted(s, sizes)
    ensures Sizes(s) == sizes
  {
    hide BE32, Read32, Flat, RowsAt, Words, WordRows;
    var n := |sizes|;
    if n < TWO32 && s == PrintSizes(sizes) {
      assert s[4..8] == BE32(0) && s[8..12] == BE32(n);
      WordBack(s, 4, 0);
      WordBack(s, 8, n);
      var head := [0, 0, 0, 0] + BE32(0) + BE32(n);
      assert |head| == 12 && s == head + Flat(WordRows(sizes));
      RowsPrinted(head, WordRows(sizes), 4);
      WordsBack(sizes);
    } else {
      assert s[4..8] == BE32(sizes[0]) && s[8..12] == BE32(n);
      WordBack(s, 4, sizes[0]);
      WordBack(s, 8, n);
      assert seq(n, _ => sizes[0]) == sizes;
    }
  }

  /** The last box of a kind holds these rows; without rows it may be missing. */
  predicate TablePrinted(bs: seq<Box>, kind: bytes, rows: seq<bytes>) {
    |rows| < TWO32 && (LastPayload(bs, kind) == Some(PrintTable(rows)) || (rows == [] && LastPayload(bs, kind).None?))
  }

  /** Either kind of chunk offset table, the other one missing. */
  predicate OffsetsPrinted(bs: seq<Box>, offsets: seq<u64>) {
    || (TablePrinted(bs, CO64, LongRows(offsets)) && LastPayload(bs, STCO).None?)
    || (TablePrinted(bs, STCO, ShortRows(offsets)) && LastPayload(bs, CO64).None?
        && forall i :: 0 <= i < |offsets| ==> offsets[i] < TWO32)
  }

  /** The boxes describe the table, in any order and among any others (sections 8.6.1.2, 8.6.1.3, 8.6.2 and 8.7.3
      to 8.7.5). */
  predicate Describes(bs: seq<Box>, t: SampleTable) {
    && (LastPayload(bs, STSZ).Some? && SizesPrinted(LastPayload(bs, STSZ).value, t.sampleSizes))
    && TablePrinted(bs, STTS, DurationRows(t.timeToSample))
    && TablePrinted(bs, STSC, ChunkRows(t.sampleToChunk))
    && OffsetsPrinted(bs, t.chunkOffsets)
    && TablePrinted(bs, STSS, WordRows(t.syncSamples))
    && TablePrinted(bs, CTTS, OffsetRows(t.compositionOffsets))
  }

  lemma {:induction false} RowsBack(bs: seq<Box>, kind: bytes, width: nat, rows: seq<bytes>)
    requires TablePrinted(bs, kind, rows) && AllWide(rows, width)
    ensures Rows(bs, kind, width) == rows
  {
    hide LastPayload, TableRows, PrintTable;
    TableRowsPrinted(rows, width);
  }

  lemma {:induction false} OffsetsAre(bs: seq<Box>)
    ensures LastPayload(bs, STCO).None? ==> ChunkOffsets(bs) == LongWords(Rows(bs, CO64, 8))
    ensures LastPayload(bs, CO64).None? ==> ChunkOffsets(bs) == ShortOffsets(Rows(bs, STCO, 4))
  {
    hide TableRows;
    TableKindsDiffer();
    hide STCO, CO64;
    if bs != [] {
      OffsetsAre(bs[..|bs| - 1]);
    }
  }

  /** Round trip: what is read from a printed stbl is the table it describes. */
  lemma {:induction false} TableRoundTrip(bs: seq<Box>, t: SampleTable)
    requires AllLegal(bs) && Describes(bs, t)
    ensures TableOf(ScanAll(PrintBoxes(bs))) == t
  {
    hide LastPayload, TableRows, TablePrinted, SizesPrinted, Rows, ChunkOffsets, STSZ, STTS, STSC, STCO, CO64, STSS, CTTS;
    ScanAllPrinted(bs);
    SizesBack(LastPayload(bs, STSZ).value, t.sampleSizes);
    RowsBack(bs, STTS, 8, DurationRows(t.timeToSample));
    DurationsBack(t.timeToSample);
    RowsBack(bs, STSC, 12, ChunkRows(t.sampleToChunk));
    ChunkRunsBack(t.sampleToChunk);
    RowsBack(bs, STSS, 4, WordRows(t.syncSamples));
    WordsBack(t.syncSamples);
    RowsBack(bs, CTTS, 8, OffsetRows(t.compositionOffsets));
    OffsetsBack(t.compositionOffsets);
    OffsetsAre(bs);
    if TablePrinted(bs, CO64, LongRows(t.chunkOffsets)) && LastPayload(bs, STCO).None? {
      RowsBack(bs, CO64, 8, LongRows(t.chunkOffsets));
      LongBack(t.chunkOffsets);
    } else {
      RowsBack(bs, STCO, 4, ShortRows(t.chunkOffsets));
      ShortBack(t.chunkOffsets);
    }
  }
}
