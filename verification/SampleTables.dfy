/** The run-length encoded sample table of a track and its resolution into one entry per sample
    (core/src/media/mp4_parser.rs, `SampleTable::resolve_sample_offsets`). */
module SampleTables {
  import opened Bytes
  import opened Outcomes

  datatype Run<+T> = Run(count: u32, value: T)
  datatype ChunkRun = ChunkRun(firstChunk: u32, samplesPerChunk: u32, descIdx: u32)

  datatype SampleTable = SampleTable(
    sampleSizes: seq<u32>,
    timeToSample: seq<Run<u32>>,
    sampleToChunk: seq<ChunkRun>,
    chunkOffsets: seq<u64>,
    syncSamples: seq<u32>,
    compositionOffsets: seq<Run<i32>>)

  datatype SampleEntry = SampleEntry(
    offset: u64, size: u32, duration: u32, isKeyframe: bool, compositionOffset: i32)

  // ---------------------------------------------------------------- what the table means

  /** The 0-based index of a 1-based number; 0 wraps to the largest index. */
  function Index(number: u32): u32 {
    if number == 0 then 0xFFFF_FFFF else number - 1
  }

  /** The 0-based chunk an stsc entry starts at. */
  function Start(run: ChunkRun): nat {
    Index(run.firstChunk)
  }

  function RunEnd(runs: seq<ChunkRun>, i: nat, chunks: nat): nat
    requires i < |runs|
  {
    if i + 1 < |runs| then Start(runs[i + 1]) else chunks
  }

  /** Every entry starts no later than the next one, and inside the chunk table. */
  predicate RunsInOrder(runs: seq<ChunkRun>, chunks: nat) {
    forall i :: 0 <= i < |runs| ==> Start(runs[i]) <= RunEnd(runs, i, chunks) && Start(runs[i]) <= chunks
  }

  /** The stsc entry in force at a chunk is the last one that starts at or before it. */
  function InForce(runs: seq<ChunkRun>, chunk: nat): u32 {
    if runs == [] then 0
    else if Start(runs[|runs| - 1]) <= chunk then runs[|runs| - 1].samplesPerChunk
    else InForce(runs[..|runs| - 1], chunk)
  }

  function ChunkCounts(t: SampleTable): (counts: seq<u32>)
    ensures |counts| == |t.chunkOffsets|
  {
    seq(|t.chunkOffsets|, c requires 0 <= c => InForce(t.sampleToChunk, c))
  }

  function Least(a: nat, b: nat): nat { if a <= b then a else b }

  function Sum(ns: seq<u32>): nat {
    if ns == [] then 0 else Sum(ns[..|ns| - 1]) + ns[|ns| - 1]
  }

  function Expand<T>(runs: seq<Run<T>>): seq<T> {
    if runs == [] then [] else
      var last := runs[|runs| - 1];
      Expand(runs[..|runs| - 1]) + seq(last.count, _ => last.value)
  }

  function ValueAt<T>(runs: seq<Run<T>>, i: nat, default: T): T {
    if i < |Expand(runs)| then Expand(runs)[i] else default
  }

  /** Sample `i` (0-based) is a sync sample: stss is absent or lists it (1-based). */
  predicate IsSync(syncSamples: seq<u32>, i: nat) {
    syncSamples == [] || exists k :: 0 <= k < |syncSamples| && Index(syncSamples[k]) == i
  }

  /** Sample `i` lies in chunk `c`. */
  predicate InChunk(counts: seq<u32>, c: nat, i: nat) {
    c < |counts| && Sum(counts[..c]) <= i < Sum(counts[..c + 1])
  }

  /** The entry of sample `i` has its size and stands behind the earlier samples of its chunk. */
  ghost predicate EntryRight(t: SampleTable, counts: seq<u32>, i: nat, e: SampleEntry)
    requires |counts| == |t.chunkOffsets| && i < |t.sampleSizes|
  {
    && e.size == t.sampleSizes[i]
    && forall c: nat :: InChunk(counts, c, i) ==>
         e.offset == Wrap64(t.chunkOffsets[c] + Sum(t.sampleSizes[Sum(counts[..c])..i]))
  }

  ghost predicate OffsetsRight(t: SampleTable, counts: seq<u32>, entries: seq<SampleEntry>)
    requires |counts| == |t.chunkOffsets| && |entries| <= |t.sampleSizes|
  {
    forall i :: 0 <= i < |entries| ==> EntryRight(t, counts, i, entries[i])
  }

  ghost predicate Placed(t: SampleTable, entries: seq<SampleEntry>) {
    && |entries| == Least(|t.sampleSizes|, Sum(ChunkCounts(t)))
    && OffsetsRight(t, ChunkCounts(t), entries)
  }

  /** The columns that later loops fill in are still empty. */
  ghost predicate Blank(entries: seq<SampleEntry>) {
    forall i :: 0 <= i < |entries| ==>
      entries[i].duration == 0 && !entries[i].isKeyframe && entries[i].compositionOffset == 0
  }

  /** What the standard says the table means (sections 8.6.1.2, 8.6.1.3, 8.6.2 and 8.7.3 to 8.7.5):
      each sample lies in its chunk behind the earlier samples of that chunk, and its duration and
      composition offset are the elements of the expanded run lengths. */
  ghost predicate Resolved(t: SampleTable, entries: seq<SampleEntry>) {
    && Placed(t, entries)
    && forall i :: 0 <= i < |entries| ==>
         && entries[i].duration == ValueAt(t.timeToSample, i, 0)
         && entries[i].isKeyframe == IsSync(t.syncSamples, i)
         && entries[i].compositionOffset == ValueAt(t.compositionOffsets, i, 0)
  }

  // ---------------------------------------------------------------- the loops

  /** Expand the stsc run lengths into one count per chunk. */
  method ExpandChunkRuns(runs: seq<ChunkRun>, chunks: nat) returns (r: Outcome<seq<u32>>)
    ensures r.Done? <==> RunsInOrder(runs, chunks)
    ensures r.Panicked? <==> !RunsInOrder(runs, chunks)
    ensures r.Done? ==> r.value == seq(chunks, c requires 0 <= c => InForce(runs, c))
  {
    hide Index, InForce;
    var counts: seq<u32> := seq(chunks, _ => 0);
    NothingFilled(counts, runs);
    hide Filled;
    var i := 0;
    while i < |runs|
      invariant 0 <= i <= |runs| && |counts| == chunks
      invariant forall k :: 0 <= k < i ==> Start(runs[k]) <= RunEnd(runs, k, chunks) && Start(runs[k]) <= chunks
      invariant Filled(counts, runs, i)
    {
      var start := Start(runs[i]);
      var end := RunEnd(runs, i, chunks);
      end := if end <= chunks then end else chunks;
      if start > end {
        return Panicked;   // slice index starts after its end
      }
      ghost var before: seq<u32> := counts;
      var c := start;
      while c < end
        invariant start <= c <= end && |counts| == chunks
        invariant forall k :: 0 <= k < chunks ==> counts[k] == if start <= k < c then runs[i].samplesPerChunk else before[k]
      {
        counts := counts[c := runs[i].samplesPerChunk];
        c := c + 1;
      }
      FillStep(before, counts, runs, i, chunks);
      i := i + 1;
    }
    FillEnd(counts, runs);
    r := Done(counts);
  }

  /** The first `i` entries are expanded, up to where the next one starts. */
  predicate Filled(counts: seq<u32>, runs: seq<ChunkRun>, i: nat)
    requires i <= |runs|
  {
    && (forall c :: 0 <= c < |counts| && (i < |runs| ==> c < Start(runs[i])) ==> counts[c] == InForce(runs[..i], c))
    && (i == 0 ==> forall c :: 0 <= c < |counts| ==> counts[c] == 0)
  }

  lemma {:induction false} NothingFilled(counts: seq<u32>, runs: seq<ChunkRun>)
    requires forall c :: 0 <= c < |counts| ==> counts[c] == 0
    ensures Filled(counts, runs, 0)
  {
  }

  lemma {:induction false} FillStep(before: seq<u32>, counts: seq<u32>, runs: seq<ChunkRun>, i: nat, chunks: nat)
    requires i < |runs| && |before| == |counts| == chunks && Filled(before, runs, i)
    requires forall k :: 0 <= k < chunks ==>
      counts[k] == if Start(runs[i]) <= k < RunEnd(runs, i, chunks) then runs[i].samplesPerChunk else before[k]
    ensures Filled(counts, runs, i + 1)
  {
    hide Index;
    assert runs[..i + 1][..i] == runs[..i];
  }

  lemma {:induction false} FillEnd(counts: seq<u32>, runs: seq<ChunkRun>)
    requires Filled(counts, runs, |runs|)
    ensures counts == seq(|counts|, c requires 0 <= c => InForce(runs, c))
  {
    hide InForce;
    assert runs[..|runs|] == runs;
  }

  lemma {:induction false} SumStep(ns: seq<u32>, i: nat)
    requires i < |ns|
    ensures Sum(ns[..i + 1]) == Sum(ns[..i]) + ns[i]
  {
    assert ns[..i + 1][..i] == ns[..i];
  }

  lemma {:induction false} SumMonotone(ns: seq<u32>, i: nat, j: nat)
    requires i <= j <= |ns|
    ensures Sum(ns[..i]) <= Sum(ns[..j])
    decreases j
  {
    if i < j {
      SumStep(ns, j - 1);
      SumMonotone(ns, i, j - 1);
    }
  }

  /** A sample lies in at most one chunk. */
  lemma {:induction false} ChunkUnique(counts: seq<u32>, c: nat, d: nat, i: nat)
    requires InChunk(counts, c, i) && InChunk(counts, d, i)
    ensures c == d
  {
    if c < d {
      SumMonotone(counts, c + 1, d);
    } else if d < c {
      SumMonotone(counts, d + 1, c);
    }
  }

  /** Every sample the counts announce lies in a chunk. */
  lemma {:induction false} ChunkExists(counts: seq<u32>, n: nat, i: nat) returns (c: nat)
    requires n <= |counts| && i < Sum(counts[..n])
    ensures InChunk(counts, c, i)
    decreases n
  {
    SumStep(counts, n - 1);
    if Sum(counts[..n - 1]) <= i {
      c := n - 1;
    } else {
      c := ChunkExists(counts, n - 1, i);
    }
  }

  /** Compute the absolute offset of each sample, chunk by chunk. */
  method PlaceSamples(t: SampleTable, counts: seq<u32>) returns (entries: seq<SampleEntry>)
    requires counts == ChunkCounts(t)
    ensures Placed(t, entries) && Blank(entries)
  {
    entries := [];
    var n := |t.sampleSizes|;
    assert counts[..|counts|] == counts;
    for chunk := 0 to |t.chunkOffsets|
      invariant |entries| == Least(n, Sum(counts[..chunk]))
      invariant OffsetsRight(t, counts, entries) && Blank(entries)
    {
      entries := PlaceChunk(t, counts, chunk, entries);
      SumStep(counts, chunk);
    }
  }

  method PlaceChunk(t: SampleTable, counts: seq<u32>, chunk: nat, done: seq<SampleEntry>)
    returns (entries: seq<SampleEntry>)
    requires counts == ChunkCounts(t) && chunk < |counts|
    requires |done| == Least(|t.sampleSizes|, Sum(counts[..chunk]))
    requires OffsetsRight(t, counts, done) && Blank(done)
    ensures |entries| == Least(|t.sampleSizes|, Sum(counts[..chunk]) + counts[chunk])
    ensures OffsetsRight(t, counts, entries) && Blank(entries)
  {
    hide EntryRight, InForce, InChunk;
    var n := |t.sampleSizes|;
    ghost var first := Sum(counts[..chunk]);
    entries := done;
    var offsetInChunk: u64 := 0;
    for k := 0 to counts[chunk]
      invariant |entries| == Least(n, first + k)
      invariant first < n ==> offsetInChunk == Wrap64(Sum(t.sampleSizes[first..|entries|]))
      invariant OffsetsRight(t, counts, entries) && Blank(entries)
    {
      if |entries| >= n {
        break;
      }
      var at := |entries|;
      var size := t.sampleSizes[at];
      var entry := SampleEntry(Wrap64(t.chunkOffsets[chunk] + offsetInChunk), size, 0, false, 0);
      PlacedInChunk(t, counts, chunk, at, offsetInChunk, entry);
      entries := entries + [entry];
      offsetInChunk := Wrap64(offsetInChunk + size);
    }
  }

  /** One step of the inner loop: the entry is right and the running offset covers one more sample. */
  lemma {:induction false} PlacedInChunk(t: SampleTable, counts: seq<u32>, chunk: nat, at: nat, offsetInChunk: u64, entry: SampleEntry)
    requires |counts| == |t.chunkOffsets| && chunk < |counts| && at < |t.sampleSizes|
    requires Sum(counts[..chunk]) <= at < Sum(counts[..chunk]) + counts[chunk]
    requires offsetInChunk == Wrap64(Sum(t.sampleSizes[Sum(counts[..chunk])..at]))
    requires entry == SampleEntry(Wrap64(t.chunkOffsets[chunk] + offsetInChunk), t.sampleSizes[at], 0, false, 0)
    ensures EntryRight(t, counts, at, entry)
    ensures Wrap64(offsetInChunk + t.sampleSizes[at]) == Wrap64(Sum(t.sampleSizes[Sum(counts[..chunk])..at + 1]))
  {
    hide Sum, Wrap64;
    var first := Sum(counts[..chunk]);
    var sum := Sum(t.sampleSizes[first..at]);
    WrapAdd64(sum, t.chunkOffsets[chunk]);
    WrapAdd64(sum, t.sampleSizes[at]);
    SumStep(counts, chunk);
    var sizes := t.sampleSizes[first..at + 1];
    SumStep(sizes, at - first);
    assert sizes[..at - first] == t.sampleSizes[first..at] && sizes[..at - first + 1] == sizes;
    forall c: nat | InChunk(counts, c, at)
      ensures c == chunk
    {
      ChunkUnique(counts, c, chunk, at);
    }
  }

  /** Everything but the durations is as in `before`, and likewise for the other columns below. */
  method AssignDurations(before: seq<SampleEntry>, runs: seq<Run<u32>>) returns (entries: seq<SampleEntry>)
    requires forall i :: 0 <= i < |before| ==> before[i].duration == 0
    ensures |entries| == |before|
    ensures forall i :: 0 <= i < |before| ==> entries[i] == before[i].(duration := ValueAt(runs, i, 0))
  {
    entries := before;
    var at := 0;
    for r := 0 to |runs|
      invariant |entries| == |before| && at == Least(|before|, |Expand(runs[..r])|)
      invariant forall i :: 0 <= i < |before| ==> entries[i] == before[i].(duration := ValueAt(runs[..r], i, 0))
    {
      assert runs[..r + 1][..r] == runs[..r];
      for k := 0 to runs[r].count
        invariant |entries| == |before| && at == Least(|before|, |Expand(runs[..r])| + k)
        invariant forall i :: 0 <= i < at ==> entries[i] == before[i].(duration := ValueAt(runs[..r + 1], i, 0))
        invariant forall i :: at <= i < |before| ==> entries[i] == before[i]
      {
        if at >= |entries| {
          break;
        }
        entries := entries[at := entries[at].(duration := runs[r].value)];
        at := at + 1;
      }
    }
    assert runs[..|runs|] == runs;
  }

  method AssignCompositionOffsets(before: seq<SampleEntry>, runs: seq<Run<i32>>) returns (entries: seq<SampleEntry>)
    requires forall i :: 0 <= i < |before| ==> before[i].compositionOffset == 0
    ensures |entries| == |before|
    ensures forall i :: 0 <= i < |before| ==> entries[i] == before[i].(compositionOffset := ValueAt(runs, i, 0))
  {
    entries := before;
    if runs == [] {
      return;
    }
    var at := 0;
    for r := 0 to |runs|
      invariant |entries| == |before| && at == Least(|before|, |Expand(runs[..r])|)
      invariant forall i :: 0 <= i < |before| ==> entries[i] == before[i].(compositionOffset := ValueAt(runs[..r], i, 0))
    {
      assert runs[..r + 1][..r] == runs[..r];
      for k := 0 to runs[r].count
        invariant |entries| == |before| && at == Least(|before|, |Expand(runs[..r])| + k)
        invariant forall i :: 0 <= i < at ==> entries[i] == before[i].(compositionOffset := ValueAt(runs[..r + 1], i, 0))
        invariant forall i :: at <= i < |before| ==> entries[i] == before[i]
      {
        if at >= |entries| {
          break;
        }
        entries := entries[at := entries[at].(compositionOffset := runs[r].value)];
        at := at + 1;
      }
    }
    assert runs[..|runs|] == runs;
  }

  method MarkKeyframes(before: seq<SampleEntry>, syncSamples: seq<u32>) returns (entries: seq<SampleEntry>)
    requires forall i :: 0 <= i < |before| ==> !before[i].isKeyframe
    ensures |entries| == |before|
    ensures forall i :: 0 <= i < |before| ==> entries[i] == before[i].(isKeyframe := IsSync(syncSamples, i))
  {
    entries := before;
    if syncSamples == [] {
      for k := 0 to |entries|
        invariant |entries| == |before|
        invariant forall i :: 0 <= i < |before| ==> entries[i] == if i < k then before[i].(isKeyframe := true) else before[i]
      {
        entries := entries[k := entries[k].(isKeyframe := true)];
      }
      return;
    }
    for k := 0 to |syncSamples|
      invariant |entries| == |before|
      invariant forall i :: 0 <= i < |before| ==>
        entries[i] == before[i].(isKeyframe := exists j :: 0 <= j < k && Index(syncSamples[j]) == i)
    {
      var idx := Index(syncSamples[k]);
      if idx < |entries| {
        entries := entries[idx := entries[idx].(isKeyframe := true)];
      }
    }
  }

  /** Placement speaks of sizes and offsets only. */
  lemma {:induction false} PlacedColumns(t: SampleTable, a: seq<SampleEntry>, b: seq<SampleEntry>)
    requires Placed(t, a) && |a| == |b|
    requires forall i :: 0 <= i < |a| ==> a[i].size == b[i].size && a[i].offset == b[i].offset
    ensures Placed(t, b)
  {
    var counts := ChunkCounts(t);
    forall i | 0 <= i < |b|
      ensures EntryRight(t, counts, i, b[i])
    {
      assert EntryRight(t, counts, i, a[i]);
    }
  }

  /** `resolve_sample_offsets`: refines the declarative table, and panics exactly on a table with samples
      whose stsc entries are out of order or out of range. */
  method Resolve(t: SampleTable) returns (r: Outcome<seq<SampleEntry>>)
    ensures r.Panicked? <==> t.sampleSizes != [] && !RunsInOrder(t.sampleToChunk, |t.chunkOffsets|)
    ensures !r.Failed?
    ensures r.Done? ==> Resolved(t, r.value)
  {
    if |t.sampleSizes| == 0 {
      return Done([]);
    }
    var counts := ExpandChunkRuns(t.sampleToChunk, |t.chunkOffsets|);
    if counts.Panicked? {
      return Panicked;
    }
    var placed := PlaceSamples(t, counts.value);
    var timed := AssignDurations(placed, t.timeToSample);
    var marked := MarkKeyframes(timed, t.syncSamples);
    var entries := AssignCompositionOffsets(marked, t.compositionOffsets);
    PlacedColumns(t, placed, entries);
    r := Done(entries);
  }

  // ---------------------------------------------------------------- what the table guarantees

  /** The declarative reading leaves no freedom: a table resolves to one list of entries. */
  lemma {:induction false} ResolutionUnique(t: SampleTable, a: seq<SampleEntry>, b: seq<SampleEntry>)
    requires Resolved(t, a) && Resolved(t, b)
    ensures a == b
  {
    var counts := ChunkCounts(t);
    assert counts[..|counts|] == counts;
    forall i | 0 <= i < |a|
      ensures a[i] == b[i]
    {
      var c := ChunkExists(counts, |counts|, i);
      assert EntryRight(t, counts, i, a[i]) && EntryRight(t, counts, i, b[i]);
    }
  }

  /** stss is 1-based: below the last 32-bit index the sync flag is membership of `i + 1`. */
  lemma {:induction false} SyncIsMembership(syncSamples: seq<u32>, i: nat)
    requires i < TWO32 - 1
    ensures IsSync(syncSamples, i) <==> syncSamples == [] || (i + 1) in syncSamples
  {
    if syncSamples != [] && (i + 1) in syncSamples {
      var k :| 0 <= k < |syncSamples| && syncSamples[k] == i + 1;
      assert Index(syncSamples[k]) == i;
    }
  }

  /** stsc entries that start within the chunk table and strictly increase, as section 8.7.4 demands. */
  predicate Increasing(runs: seq<ChunkRun>, chunks: nat) {
    && (forall j :: 0 <= j < |runs| ==> 1 <= runs[j].firstChunk <= chunks)
    && (forall j, k :: 0 <= j < k < |runs| ==> runs[j].firstChunk < runs[k].firstChunk)
  }

  /** On such entries nothing panics, and ... */
  lemma {:induction false} IncreasingInOrder(runs: seq<ChunkRun>, chunks: nat)
    requires Increasing(runs, chunks)
    ensures RunsInOrder(runs, chunks)
  {
    forall i | 0 <= i < |runs|
      ensures Start(runs[i]) <= RunEnd(runs, i, chunks) && Start(runs[i]) <= chunks
    {
      if i + 1 < |runs| {
        assert runs[i].firstChunk < runs[i + 1].firstChunk;
      }
    }
  }

  /** ... the count of a chunk is that of the entry whose run covers it. */
  lemma {:induction false} CoveringRun(runs: seq<ChunkRun>, chunks: nat, i: nat, c: nat)
    requires Increasing(runs, chunks) && i < |runs|
    requires runs[i].firstChunk <= c + 1 && (i + 1 < |runs| ==> c + 1 < runs[i + 1].firstChunk)
    ensures InForce(runs, c) == runs[i].samplesPerChunk
    decreases |runs|
  {
    var last := |runs| - 1;
    if i < last {
      assert runs[i + 1].firstChunk <= runs[last].firstChunk;
      CoveringRun(runs[..last], chunks, i, c);
    }
  }

  function ChunkBytes(t: SampleTable, c: nat): nat
    requires c < |t.chunkOffsets|
  {
    var counts := ChunkCounts(t);
    var lo, hi := Sum(counts[..c]), Sum(counts[..c + 1]);
    if lo <= hi <= |t.sampleSizes| then Sum(t.sampleSizes[lo..hi])
    else if lo <= |t.sampleSizes| then Sum(t.sampleSizes[lo..])
    else 0
  }

  /** Chunk extents neither overlap one another nor run past 2^64. */
  ghost predicate ChunksDisjoint(t: SampleTable) {
    && (forall c :: 0 <= c < |t.chunkOffsets| ==> t.chunkOffsets[c] + ChunkBytes(t, c) <= TWO64)
    && (forall c, d :: 0 <= c < |t.chunkOffsets| && 0 <= d < |t.chunkOffsets| && c != d ==>
          || t.chunkOffsets[c] + ChunkBytes(t, c) <= t.chunkOffsets[d]
          || t.chunkOffsets[d] + ChunkBytes(t, d) <= t.chunkOffsets[c])
  }

  lemma {:induction false} SumWindow(ns: seq<u32>, lo: nat, i: nat, hi: nat)
    requires lo <= i < hi <= |ns|
    ensures Sum(ns[lo..i]) + ns[i] <= Sum(ns[lo..hi])
    decreases hi
  {
    var w := ns[lo..hi];
    assert w[..|w| - 1] == ns[lo..hi - 1];
    if i < hi - 1 {
      SumWindow(ns, lo, i, hi - 1);
    }
  }

  /** A resolved sample lies inside the extent of its chunk. */
  lemma {:induction false} SampleInExtent(t: SampleTable, entries: seq<SampleEntry>, c: nat, i: nat)
    requires Resolved(t, entries) && ChunksDisjoint(t)
    requires i < |entries| && InChunk(ChunkCounts(t), c, i) && entries[i].size > 0
    ensures entries[i].offset == t.chunkOffsets[c] + Sum(t.sampleSizes[Sum(ChunkCounts(t)[..c])..i])
    ensures entries[i].offset + entries[i].size <= t.chunkOffsets[c] + ChunkBytes(t, c)
  {
    var counts := ChunkCounts(t);
    assert EntryRight(t, counts, i, entries[i]);
    var lo := Sum(counts[..c]);
    var hi := Least(Sum(counts[..c + 1]), |t.sampleSizes|);
    SumWindow(t.sampleSizes, lo, i, hi);
    if hi == |t.sampleSizes| {
      assert t.sampleSizes[lo..hi] == t.sampleSizes[lo..];
    }
  }

  /** Disjoint chunks give disjoint samples. */
  lemma {:induction false} SamplesDisjoint(t: SampleTable, entries: seq<SampleEntry>, i: nat, j: nat)
    requires Resolved(t, entries) && ChunksDisjoint(t)
    requires i < j < |entries|
    requires entries[i].size > 0 && entries[j].size > 0
    ensures entries[i].offset + entries[i].size <= entries[j].offset
         || entries[j].offset + entries[j].size <= entries[i].offset
  {
    var counts := ChunkCounts(t);
    assert counts[..|counts|] == counts;
    var c := ChunkExists(counts, |counts|, i);
    var d := ChunkExists(counts, |counts|, j);
    SampleInExtent(t, entries, c, i);
    SampleInExtent(t, entries, d, j);
    if c == d {
      SumWindow(t.sampleSizes, Sum(counts[..c]), i, j);
    }
  }
}
