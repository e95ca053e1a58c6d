/** The box grammar of section 4.2 of ISO/IEC 14496-12: a box is a 32-bit big-endian size that counts
    its own header, a four-byte type and a payload. `Scan` is what every loop of the original over
    sibling boxes sees: it stops at the first header that does not fit. */
module Boxes {
  import opened Bytes

  datatype Box = Box(kind: bytes, payload: bytes)

  const FTYP: bytes := [0x66, 0x74, 0x79, 0x70]
  const MOOV: bytes := [0x6d, 0x6f, 0x6f, 0x76]
  const MDAT: bytes := [0x6d, 0x64, 0x61, 0x74]
  const MOOF: bytes := [0x6d, 0x6f, 0x6f, 0x66]
  const MFHD: bytes := [0x6d, 0x66, 0x68, 0x64]
  const TRAF: bytes := [0x74, 0x72, 0x61, 0x66]
  const TFHD: bytes := [0x74, 0x66, 0x68, 0x64]
  const TFDT: bytes := [0x74, 0x66, 0x64, 0x74]
  const TRUN: bytes := [0x74, 0x72, 0x75, 0x6e]
  const TRAK: bytes := [0x74, 0x72, 0x61, 0x6b]
  const TKHD: bytes := [0x74, 0x6b, 0x68, 0x64]
  const MDIA: bytes := [0x6d, 0x64, 0x69, 0x61]
  const HDLR: bytes := [0x68, 0x64, 0x6c, 0x72]
  const MVEX: bytes := [0x6d, 0x76, 0x65, 0x78]
  const TREX: bytes := [0x74, 0x72, 0x65, 0x78]

  /** The handler types of video and audio tracks. */
  const VIDE: bytes := [0x76, 0x69, 0x64, 0x65]
  const SOUN: bytes := [0x73, 0x6f, 0x75, 0x6e]

  lemma {:induction false} KindsDiffer()
    ensures MFHD != TRAF && MFHD != TFHD && TRAF != TFHD
    ensures TFHD != TFDT && TFHD != TRUN && TFDT != TRUN && TRAF != TFDT && TRAF != TRUN
    ensures MOOF != MDAT && MOOV != MDAT && MOOV != MOOF
    ensures TRAK != MVEX && TKHD != MDIA && MVEX != TREX
  {
    assert MFHD[0] != TRAF[0] && MFHD[0] != TFHD[0] && TRAF[1] != TFHD[1];
    assert TFHD[2] != TFDT[2] && TFHD[1] != TRUN[1] && TFDT[1] != TRUN[1] && TRAF[1] != TFDT[1] && TRAF[2] != TRUN[2];
    assert MOOF[1] != MDAT[1] && MOOV[1] != MDAT[1] && MOOV[3] != MOOF[3];
    assert TRAK[0] != MVEX[0] && TKHD[0] != MDIA[0] && MVEX[0] != TREX[0];
  }

  predicate Legal(b: Box) {
    |b.kind| == 4 && 8 + |b.payload| < TWO32
  }

  predicate AllLegal(bs: seq<Box>) {
    forall i :: 0 <= i < |bs| ==> Legal(bs[i])
  }

  function PrintBox(b: Box): (s: bytes)
    ensures |s| == 4 + |b.kind| + |b.payload|
  {
    BE32(8 + |b.payload|) + b.kind + b.payload
  }

  function PrintBoxes(bs: seq<Box>): bytes {
    if bs == [] then [] else PrintBox(bs[0]) + PrintBoxes(bs[1..])
  }

  /** Some header at `at` announces a box that fits before `end`. */
  predicate Fits(s: bytes, at: nat, end: nat)
    requires end <= |s|
  {
    at + 8 <= end && 8 <= Read32(s, at) && at + Read32(s, at) <= end
  }

  /** The box announced at `at`. */
  function BoxAt(s: bytes, at: nat, end: nat): Box
    requires end <= |s| && Fits(s, at, end)
  {
    Box(s[at + 4..at + 8], s[at + 8..at + Read32(s, at)])
  }

  function Scan(s: bytes, at: nat, end: nat): (bs: seq<Box>)
    requires end <= |s|
    decreases if at <= end then end - at else 0
  {
    if Fits(s, at, end) then [BoxAt(s, at, end)] + Scan(s, at + Read32(s, at), end) else []
  }

  lemma {:induction false} ScanStep(s: bytes, at: nat, end: nat)
    requires end <= |s|
    ensures Scan(s, at, end) == if Fits(s, at, end) then [BoxAt(s, at, end)] + Scan(s, at + Read32(s, at), end) else []
  {
    hide Read32, BoxAt;
  }

  function ScanAll(s: bytes): seq<Box> {
    Scan(s, 0, |s|)
  }

  /** The boxes tile `s` exactly. */
  ghost predicate Tiled(s: bytes, bs: seq<Box>) {
    AllLegal(bs) && s == PrintBoxes(bs)
  }

  lemma {:induction false} PrintConcat(a: seq<Box>, b: seq<Box>)
    ensures PrintBoxes(a + b) == PrintBoxes(a) + PrintBoxes(b)
    decreases |a|
  {
    hide PrintBox;
    if a == [] {
      assert a + b == b;
    } else {
      PrintConcat(a[1..], b);
      assert (a + b)[1..] == a[1..] + b;
      assert PrintBoxes(a) == PrintBox(a[0]) + PrintBoxes(a[1..]);
    }
  }

  lemma {:induction false} PrintOne(b: Box)
    ensures PrintBoxes([b]) == PrintBox(b)
  {
    assert [b][1..] == [];
    assert PrintBox(b) + [] == PrintBox(b);
  }

  lemma {:induction false} PrintNone()
    ensures PrintBoxes([]) == [] && AllLegal([])
  {
  }

  lemma {:induction false} PrintCons(b: Box, rest: seq<Box>)
    ensures PrintBoxes([b] + rest) == PrintBox(b) + PrintBoxes(rest)
    ensures AllLegal([b] + rest) <==> Legal(b) && AllLegal(rest)
  {
    assert ([b] + rest)[1..] == rest;
    if Legal(b) && AllLegal(rest) {
      assert forall i :: 0 < i < |[b] + rest| ==> ([b] + rest)[i] == rest[i - 1];
    }
    if AllLegal([b] + rest) {
      assert Legal(([b] + rest)[0]);
      assert forall i :: 0 <= i < |rest| ==> rest[i] == ([b] + rest)[i + 1];
    }
  }

  lemma {:induction false} PrintSnoc(a: seq<Box>, b: Box)
    ensures PrintBoxes(a + [b]) == PrintBoxes(a) + PrintBox(b)
  {
    PrintConcat(a, [b]);
    PrintOne(b);
  }

  /** A printed box is found again where it stands. */
  lemma {:induction false} BoxFound(s: bytes, at: nat, end: nat, b: Box)
    requires Legal(b) && at + 8 + |b.payload| <= end <= |s|
    requires s[at..at + 8 + |b.payload|] == PrintBox(b)
    ensures Fits(s, at, end) && Read32(s, at) == 8 + |b.payload| && BoxAt(s, at, end) == b
  {
    var n := 8 + |b.payload|;
    var p := PrintBox(b);
    SubWindow(s, at, at + n, 0, 4);
    SubWindow(s, at, at + n, 4, 8);
    SubWindow(s, at, at + n, 8, n);
    assert p[0..4] == BE32(n) && p[4..8] == b.kind && p[8..n] == b.payload;
    Read32Printed(s, at, n);
  }

  /** The parts of a printed box. */
  lemma {:induction false} HeaderRead(kind: bytes, payload: bytes)
    requires |kind| == 4 && 8 + |payload| < TWO32
    ensures var s := PrintBox(Box(kind, payload));
            |s| == 8 + |payload| && Read32(s, 0) == 8 + |payload| && s[4..8] == kind && s[8..] == payload
  {
    var s := PrintBox(Box(kind, payload));
    assert s[0..4] == BE32(8 + |payload|);
    Read32Printed(s, 0, 8 + |payload|);
  }

  /** Scanning finds exactly the boxes that were printed. */
  lemma {:induction false} ScanPrinted(s: bytes, at: nat, bs: seq<Box>)
    requires AllLegal(bs) && at + |PrintBoxes(bs)| <= |s|
    requires s[at..at + |PrintBoxes(bs)|] == PrintBoxes(bs)
    ensures Scan(s, at, at + |PrintBoxes(bs)|) == bs
    decreases |bs|
  {
    hide PrintBox, BoxAt, Read32;
    var n := |PrintBoxes(bs)|;
    if bs == [] {
      assert !Fits(s, at, at);
    } else {
      var b, rest := bs[0], bs[1..];
      var m := 8 + |b.payload|;
      assert PrintBoxes(bs) == PrintBox(b) + PrintBoxes(rest) && n == m + |PrintBoxes(rest)|;
      SplitWindow(s, at, PrintBox(b), PrintBoxes(rest));
      BoxFound(s, at, at + n, b);
      ScanPrinted(s, at + m, rest);
    }
  }

  lemma {:induction false} ScanAllPrinted(bs: seq<Box>)
    requires AllLegal(bs)
    ensures ScanAll(PrintBoxes(bs)) == bs
  {
    var s := PrintBoxes(bs);
    assert s[0..|s|] == s;
    ScanPrinted(s, 0, bs);
  }

  lemma {:induction false} BoxAtPrinted(s: bytes, at: nat, end: nat)
    requires end <= |s| && Fits(s, at, end)
    ensures Legal(BoxAt(s, at, end)) && PrintBox(BoxAt(s, at, end)) == s[at..at + Read32(s, at)]
  {
    PrintedRead32(s, at);
  }

  /** On any bytes, the boxes found are legal and printing them gives back the bytes walked over. */
  lemma {:induction false} PrintScanned(s: bytes, at: nat, end: nat)
    requires at <= end <= |s|
    ensures var bs := Scan(s, at, end);
            AllLegal(bs) && at + |PrintBoxes(bs)| <= end
            && s[at..at + |PrintBoxes(bs)|] == PrintBoxes(bs)
    decreases end - at
  {
    hide PrintBox, PrintBoxes, BoxAt, Read32, Legal, AllLegal;
    if Fits(s, at, end) {
      var size := Read32(s, at);
      BoxAtPrinted(s, at, end);
      PrintScanned(s, at + size, end);
      var rest := Scan(s, at + size, end);
      PrintCons(BoxAt(s, at, end), rest);
      JoinWindow(s, at, at + size, at + size + |PrintBoxes(rest)|);
    } else {
      PrintNone();
    }
  }

  /** A text is tiled by boxes exactly when scanning it consumes all of it. */
  lemma {:induction false} TiledIffScanned(s: bytes)
    ensures (exists bs :: Tiled(s, bs)) <==> PrintBoxes(ScanAll(s)) == s
    ensures forall bs :: Tiled(s, bs) ==> bs == ScanAll(s)
  {
    PrintScanned(s, 0, |s|);
    forall bs | Tiled(s, bs)
      ensures bs == ScanAll(s)
    {
      ScanAllPrinted(bs);
    }
    if PrintBoxes(ScanAll(s)) == s {
      assert Tiled(s, ScanAll(s));
    }
  }

  /** A scan depends only on the bytes of its window. */
  lemma {:induction false} ScanLocal(s: bytes, i: nat, t: bytes, j: nat, n: nat)
    requires i + n <= |s| && j + n <= |t|
    requires s[i..i + n] == t[j..j + n]
    ensures Scan(s, i, i + n) == Scan(t, j, j + n)
    decreases n
  {
    if 8 <= n {
      SameWindow(s, i, t, j, n, 0, 4);
      var size := Read32(s, i);
      if 8 <= size <= n {
        SameWindow(s, i, t, j, n, 4, 8);
        SameWindow(s, i, t, j, n, 8, size);
        SameWindow(s, i, t, j, n, size, n);
        ScanLocal(s, i + size, t, j + size, n - size);
      }
    }
  }
}
