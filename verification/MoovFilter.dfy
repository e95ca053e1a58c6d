/** Filtering a moov down to the tracks of one handler type (core/src/media/mp4_parser.rs,
    `filter_moov_for_track_type`, `track_has_handler_type`, `extract_track_id_from_trak` and
    `filter_mvex_for_tracks`). */
module MoovFilter {
  import opened Bytes
  import opened Outcomes
  import opened Boxes
  import Converter

  // ---------------------------------------------------------------- the walks, on any bytes

  /** The handler type of the first hdlr between `at` and `end`; it is read 16 bytes into the box, which
      may lie past the end of a short trak. */
  function FindHdlr(trak: bytes, at: nat, end: nat): Outcome<Option<bytes>>
    requires end <= |trak|
    decreases if at <= end then end - at else 0
  {
    if !Fits(trak, at, end) then Done(None)
    else if trak[at + 4..at + 8] == HDLR && at + 16 <= end then
      if at + 20 > |trak| then Panicked else Done(Some(trak[at + 16..at + 20]))
    else FindHdlr(trak, at + Read32(trak, at), end)
  }

  function HandlerWalk(trak: bytes, at: nat): Outcome<Option<bytes>>
    decreases if at <= |trak| then |trak| - at else 0
  {
    if !Fits(trak, at, |trak|) then Done(None) else
      var next := at + Read32(trak, at);
      if trak[at + 4..at + 8] == MDIA then
        match FindHdlr(trak, at + 8, next)
        case Done(None) => HandlerWalk(trak, next)
        case found => found
      else HandlerWalk(trak, next)
  }

  function TrackIdWalk(trak: bytes, at: nat): Option<u32>
    decreases if at <= |trak| then |trak| - at else 0
  {
    if !Fits(trak, at, |trak|) then None
    else if trak[at + 4..at + 8] == TKHD && at + 24 <= |trak| then Some(Read32(trak, at + 20))
    else TrackIdWalk(trak, at + Read32(trak, at))
  }

  /** Keep the trex boxes of the listed tracks and everything that is not a trex. */
  function MvexWalk(mvex: bytes, at: nat, ids: seq<u32>, content: bytes): bytes
    decreases if at <= |mvex| then |mvex| - at else 0
  {
    if !Fits(mvex, at, |mvex|) then content else
      var next := at + Read32(mvex, at);
      var keep := mvex[at + 4..at + 8] != TREX || (at + 16 <= |mvex| && Read32(mvex, at + 12) in ids);
      MvexWalk(mvex, next, ids, if keep then content + mvex[at..next] else content)
  }

  function FilterMvex(mvex: bytes, ids: seq<u32>): bytes {
    if |mvex| < 8 then [] else
      var content := MvexWalk(mvex, 8, ids, []);
      if content == [] then [] else PrintBox(Box(MVEX, content))
  }

  /** What the first pass over the moov has gathered. */
  datatype Gathered = Gathered(output: bytes, ids: seq<u32>, mvex: Option<bytes>)

  function AddId(ids: seq<u32>, id: Option<u32>): seq<u32> {
    if id.Some? then ids + [id.value] else ids
  }

  function MoovWalk(s: bytes, at: nat, keep: bytes, g: Gathered): Outcome<Gathered>
    decreases if at <= |s| then |s| - at else 0
  {
    if !Fits(s, at, |s|) then Done(g) else
      var next := at + Read32(s, at);
      var kind, child := s[at + 4..at + 8], s[at..next];
      if kind == TRAK then
        match HandlerWalk(child, 8)
        case Done(handler) =>
          MoovWalk(s, next, keep,
            if handler == Some(keep) then g.(output := g.output + child, ids := AddId(g.ids, TrackIdWalk(child, 8))) else g)
        case Failed => Failed
        case Panicked => Panicked
      else if kind == MVEX then MoovWalk(s, next, keep, g.(mvex := Some(child)))
      else MoovWalk(s, next, keep, g.(output := g.output + child))
  }

  function FilterMoov(content: bytes, keep: bytes): Outcome<bytes> {
    match MoovWalk(content, 0, keep, Gathered([], [], None))
    case Done(g) => Done(g.output + (if g.mvex.Some? then FilterMvex(g.mvex.value, g.ids) else []))
    case Failed => Failed
    case Panicked => Panicked
  }

  method TrackHandlerType(trak: bytes) returns (r: Outcome<Option<bytes>>)
    ensures r == HandlerWalk(trak, 8)
  {
    hide Read32;
    var cursor := 8;
    while cursor + 8 <= |trak|
      invariant HandlerWalk(trak, cursor) == HandlerWalk(trak, 8)
      decreases |trak| - cursor
    {
      var size := Read32(trak, cursor);
      if size < 8 || cursor + size > |trak| {
        break;
      }
      if trak[cursor + 4..cursor + 8] == MDIA {
        var mdiaEnd := cursor + size;
        var mdiaCursor := cursor + 8;
        while mdiaCursor + 8 <= mdiaEnd
          invariant mdiaCursor >= cursor + 8
          invariant FindHdlr(trak, mdiaCursor, mdiaEnd) == FindHdlr(trak, cursor + 8, mdiaEnd)
          decreases mdiaEnd - mdiaCursor
        {
          var innerSize := Read32(trak, mdiaCursor);
          if innerSize < 8 || mdiaCursor + innerSize > mdiaEnd {
            break;
          }
          if trak[mdiaCursor + 4..mdiaCursor + 8] == HDLR && mdiaCursor + 16 <= mdiaEnd {
            if mdiaCursor + 20 > |trak| {
              return Panicked;   // slice past the end
            }
            return Done(Some(trak[mdiaCursor + 16..mdiaCursor + 20]));
          }
          mdiaCursor := mdiaCursor + innerSize;
        }
      }
      cursor := cursor + size;
    }
    r := Done(None);
  }

  method ExtractTrackIdFromTrak(trak: bytes) returns (r: Option<u32>)
    ensures r == TrackIdWalk(trak, 8)
  {
    hide Read32;
    var cursor := 8;
    while cursor + 8 <= |trak|
      invariant TrackIdWalk(trak, cursor) == TrackIdWalk(trak, 8)
      decreases |trak| - cursor
    {
      var size := Read32(trak, cursor);
      if size < 8 || cursor + size > |trak| {
        break;
      }
      if trak[cursor + 4..cursor + 8] == TKHD {
        if cursor + 24 <= |trak| {
          return Some(Read32(trak, cursor + 20));
        }
      }
      cursor := cursor + size;
    }
    r := None;
  }

  method FilterMvexForTracks(mvex: bytes, ids: seq<u32>) returns (r: bytes)
    ensures r == FilterMvex(mvex, ids)
  {
    hide Read32, PrintBox;
    if |mvex| < 8 {
      return [];
    }
    var content: bytes := [];
    var cursor := 8;
    while cursor + 8 <= |mvex|
      invariant MvexWalk(mvex, cursor, ids, content) == MvexWalk(mvex, 8, ids, [])
      decreases |mvex| - cursor
    {
      var size := Read32(mvex, cursor);
      if size < 8 || cursor + size > |mvex| {
        break;
      }
      if mvex[cursor + 4..cursor + 8] == TREX {
        if cursor + 16 <= |mvex| {
          if Read32(mvex, cursor + 12) in ids {
            content := content + mvex[cursor..cursor + size];
          }
        }
      } else {
        content := content + mvex[cursor..cursor + size];
      }
      cursor := cursor + size;
    }
    if content == [] {
      return [];
    }
    r := Converter.FragmentedMp4Converter.WrapBox(MVEX, content);
  }

  method FilterMoovForTrackType(content: bytes, keep: bytes) returns (r: Outcome<bytes>)
    ensures r == FilterMoov(content, keep)
  {
    hide Read32, HandlerWalk, TrackIdWalk, FilterMvex, MoovWalk;
    var output: bytes := [];
    var ids: seq<u32> := [];
    var mvex: Option<(nat, nat)> := None;
    var cursor := 0;
    while cursor + 8 <= |content|
      invariant mvex.Some? ==> mvex.value.0 + mvex.value.1 <= |content|
      invariant MoovWalk(content, cursor, keep,
                  Gathered(output, ids, if mvex.Some? then Some(content[mvex.value.0..mvex.value.0 + mvex.value.1]) else None))
             == MoovWalk(content, 0, keep, Gathered([], [], None))
      decreases |content| - cursor
    {
      WalkStep(content, cursor, keep,
        Gathered(output, ids, if mvex.Some? then Some(content[mvex.value.0..mvex.value.0 + mvex.value.1]) else None));
      var size := Read32(content, cursor);
      if size < 8 || cursor + size > |content| {
        break;
      }
      var kind := content[cursor + 4..cursor + 8];
      if kind == TRAK {
        var trak := content[cursor..cursor + size];
        var handler := TrackHandlerType(trak);
        if !handler.Done? {
          return if handler.Failed? then Failed else Panicked;
        }
        if handler.value == Some(keep) {
          var id := ExtractTrackIdFromTrak(trak);
          if id.Some? {
            ids := ids + [id.value];
          }
          output := output + trak;
        }
      } else if kind == MVEX {
        mvex := Some((cursor, size));
      } else {
        output := output + content[cursor..cursor + size];
      }
      cursor := cursor + size;
    }
    WalkStep(content, cursor, keep,
      Gathered(output, ids, if mvex.Some? then Some(content[mvex.value.0..mvex.value.0 + mvex.value.1]) else None));
    if mvex.Some? {
      var filtered := FilterMvexForTracks(content[mvex.value.0..mvex.value.0 + mvex.value.1], ids);
      output := output + filtered;
    } else {
      assert output + [] == output;
    }
    r := Done(output);
  }

  lemma {:induction false} WalkStep(s: bytes, at: nat, keep: bytes, g: Gathered)
    ensures !Fits(s, at, |s|) ==> MoovWalk(s, at, keep, g) == Done(g)
    ensures Fits(s, at, |s|) ==>
      var next := at + Read32(s, at);
      var kind, child := s[at + 4..at + 8], s[at..next];
      && (kind == TRAK && HandlerWalk(child, 8).Failed? ==> MoovWalk(s, at, keep, g) == Failed)
      && (kind == TRAK && HandlerWalk(child, 8).Panicked? ==> MoovWalk(s, at, keep, g) == Panicked)
      && (kind == TRAK && HandlerWalk(child, 8) == Done(Some(keep)) ==>
            MoovWalk(s, at, keep, g)
            == MoovWalk(s, next, keep, g.(output := g.output + child, ids := AddId(g.ids, TrackIdWalk(child, 8)))))
      && (kind == TRAK && HandlerWalk(child, 8).Done? && HandlerWalk(child, 8).value != Some(keep) ==>
            MoovWalk(s, at, keep, g) == MoovWalk(s, next, keep, g))
      && (kind != TRAK && kind == MVEX ==> MoovWalk(s, at, keep, g) == MoovWalk(s, next, keep, g.(mvex := Some(child))))
      && (kind != TRAK && kind != MVEX ==> MoovWalk(s, at, keep, g) == MoovWalk(s, next, keep, g.(output := g.output + child)))
  {
    hide Read32, HandlerWalk, TrackIdWalk, AddId;
  }

  // ---------------------------------------------------------------- the meaning, on boxes

  /** The handler type of the first hdlr of the first mdia that has one. */
  function HdlrOf(bs: seq<Box>): Option<bytes> {
    if bs == [] then None
    else if bs[0].kind == HDLR && |bs[0].payload| >= 12 then Some(bs[0].payload[8..12])
    else HdlrOf(bs[1..])
  }

  function HandlerOf(bs: seq<Box>): Option<bytes> {
    if bs == [] then None
    else if bs[0].kind == MDIA && HdlrOf(ScanAll(bs[0].payload)).Some? then HdlrOf(ScanAll(bs[0].payload))
    else HandlerOf(bs[1..])
  }

  function TrackIdOf(bs: seq<Box>): Option<u32> {
    if bs == [] then None
    else if bs[0].kind == TKHD && |bs[0].payload| >= 16 then Some(Read32(bs[0].payload, 12))
    else TrackIdOf(bs[1..])
  }

  function TrexId(b: Box): u32
    requires |b.payload| >= 8
  {
    Read32(b.payload, 4)
  }

  /** Boxes of a kind are long enough to hold the field that is read from them. */
  predicate LongEnough(bs: seq<Box>, kind: bytes, n: nat) {
    forall i :: 0 <= i < |bs| && bs[i].kind == kind ==> |bs[i].payload| >= n
  }

  predicate SoundTrak(bs: seq<Box>) {
    && LongEnough(bs, TKHD, 16)
    && forall i :: 0 <= i < |bs| && bs[i].kind == MDIA ==> LongEnough(ScanAll(bs[i].payload), HDLR, 12)
  }

  predicate SoundBox(b: Box) {
    && Legal(b)
    && (b.kind == TRAK ==> SoundTrak(ScanAll(b.payload)))
    && (b.kind == MVEX ==> LongEnough(ScanAll(b.payload), TREX, 8))
  }

  predicate Sound(bs: seq<Box>) {
    forall i :: 0 <= i < |bs| ==> SoundBox(bs[i])
  }

  predicate Keeps(b: Box, keep: bytes) {
    b.kind != MVEX && (b.kind == TRAK ==> HandlerOf(ScanAll(b.payload)) == Some(keep))
  }

  /** Everything that is neither an mvex nor a trak of another handler type, in order. */
  function KeptBoxes(bs: seq<Box>, keep: bytes): seq<Box> {
    if bs == [] then []
    else if Keeps(bs[0], keep) then [bs[0]] + KeptBoxes(bs[1..], keep)
    else KeptBoxes(bs[1..], keep)
  }

  function KeptIds(bs: seq<Box>, keep: bytes): seq<u32> {
    if bs == [] then []
    else
      (if bs[0].kind == TRAK && Keeps(bs[0], keep) then AddId([], TrackIdOf(ScanAll(bs[0].payload))) else [])
      + KeptIds(bs[1..], keep)
  }

  function LastMvex(bs: seq<Box>): Option<Box> {
    if bs == [] then None
    else if LastMvex(bs[1..]).Some? then LastMvex(bs[1..])
    else if bs[0].kind == MVEX then Some(bs[0])
    else None
  }

  predicate KeepsTrex(b: Box, ids: seq<u32>) {
    b.kind == TREX ==> |b.payload| >= 8 && TrexId(b) in ids
  }

  function KeptTrexes(bs: seq<Box>, ids: seq<u32>): seq<Box> {
    if bs == [] then []
    else if KeepsTrex(bs[0], ids) then [bs[0]] + KeptTrexes(bs[1..], ids)
    else KeptTrexes(bs[1..], ids)
  }

  /** The mvex of the result, or nothing when nothing of it is left. */
  function MvexPart(mvex: Option<Box>, ids: seq<u32>): seq<Box> {
    if mvex.None? then [] else
      var kept := KeptTrexes(ScanAll(mvex.value.payload), ids);
      if kept == [] then [] else [Box(MVEX, PrintBoxes(kept))]
  }

  function FilterBoxes(bs: seq<Box>, keep: bytes): seq<Box> {
    KeptBoxes(bs, keep) + MvexPart(LastMvex(bs), KeptIds(bs, keep))
  }

  // ---------------------------------------------------------------- the walks see the boxes

  lemma {:induction false} FindHdlrSees(s: bytes, at: nat, end: nat)
    requires end <= |s|
    requires LongEnough(Scan(s, at, end), HDLR, 12)
    ensures FindHdlr(s, at, end) == Done(HdlrOf(Scan(s, at, end)))
    decreases if at <= end then end - at else 0
  {
    hide Read32;
    if Fits(s, at, end) {
      var size := Read32(s, at);
      var b, rest := BoxAt(s, at, end), Scan(s, at + size, end);
      var bs := Scan(s, at, end);
      assert bs == [b] + rest && bs[0] == b && bs[1..] == rest;
      if b.kind == HDLR {
        assert |b.payload| >= 12;
        SubWindow(s, at + 8, at + size, 8, 12);
      } else {
        LongEnoughTail(bs, HDLR, 12);
        FindHdlrSees(s, at + size, end);
      }
    }
  }

  lemma {:induction false} LongEnoughTail(bs: seq<Box>, kind: bytes, n: nat)
    requires bs != [] && LongEnough(bs, kind, n)
    ensures LongEnough(bs[1..], kind, n)
  {
  }

  lemma {:induction false} SoundTrakTail(bs: seq<Box>)
    requires bs != [] && SoundTrak(bs)
    ensures SoundTrak(bs[1..])
    ensures bs[0].kind == MDIA ==> LongEnough(ScanAll(bs[0].payload), HDLR, 12)
    ensures bs[0].kind == TKHD ==> |bs[0].payload| >= 16
  {
    hide LongEnough, ScanAll;
    LongEnoughTail(bs, TKHD, 16);
    LongEnoughHead(bs, TKHD, 16);
  }

  lemma {:induction false} LongEnoughHead(bs: seq<Box>, kind: bytes, n: nat)
    requires bs != [] && LongEnough(bs, kind, n)
    ensures bs[0].kind == kind ==> |bs[0].payload| >= n
  {
  }

  lemma {:induction false} HandlerWalkSees(s: bytes, at: nat)
    requires SoundTrak(Scan(s, at, |s|))
    ensures HandlerWalk(s, at) == Done(HandlerOf(Scan(s, at, |s|)))
    decreases if at <= |s| then |s| - at else 0
  {
    hide Read32, SoundTrak, FindHdlr, HdlrOf, LongEnough;
    if Fits(s, at, |s|) {
      var size := Read32(s, at);
      var b, rest := BoxAt(s, at, |s|), Scan(s, at + size, |s|);
      var bs := Scan(s, at, |s|);
      assert bs == [b] + rest && bs[0] == b && bs[1..] == rest;
      SoundTrakTail(bs);
      if b.kind == MDIA {
        assert s[at + 8..at + 8 + (size - 8)] == b.payload[0..0 + (size - 8)];
        ScanLocal(s, at + 8, b.payload, 0, size - 8);
        FindHdlrSees(s, at + 8, at + size);
      }
      HandlerWalkSees(s, at + size);
    }
  }

  lemma {:induction false} TrackIdWalkSees(s: bytes, at: nat)
    requires SoundTrak(Scan(s, at, |s|))
    ensures TrackIdWalk(s, at) == TrackIdOf(Scan(s, at, |s|))
    decreases if at <= |s| then |s| - at else 0
  {
    hide Read32, SoundTrak;
    if Fits(s, at, |s|) {
      var size := Read32(s, at);
      var b, rest := BoxAt(s, at, |s|), Scan(s, at + size, |s|);
      var bs := Scan(s, at, |s|);
      assert bs == [b] + rest && bs[0] == b && bs[1..] == rest;
      SoundTrakTail(bs);
      if b.kind == TKHD {
        SubWindow(s, at + 8, at + size, 12, 16);
        Read32Local(s, at + 20, b.payload, 12);
      } else {
        TrackIdWalkSees(s, at + size);
      }
    }
  }

  lemma {:induction false} Read32Local(s: bytes, i: nat, t: bytes, j: nat)
    requires i + 4 <= |s| && j + 4 <= |t| && s[i..i + 4] == t[j..j + 4]
    ensures Read32(s, i) == Read32(t, j)
  {
  }

  lemma {:induction false} MvexWalkSees(s: bytes, at: nat, ids: seq<u32>, content: bytes)
    requires LongEnough(Scan(s, at, |s|), TREX, 8)
    ensures MvexWalk(s, at, ids, content) == content + PrintBoxes(KeptTrexes(Scan(s, at, |s|), ids))
    decreases if at <= |s| then |s| - at else 0
  {
    hide Read32, PrintBox, PrintBoxes, MvexWalk, LongEnough, KeepsTrex;
    if !Fits(s, at, |s|) {
      MvexWalkStops(s, at, ids, content);
      PrintNone();
      assert content + [] == content;
    } else {
      var size := Read32(s, at);
      var b, rest := BoxAt(s, at, |s|), Scan(s, at + size, |s|);
      var bs := Scan(s, at, |s|);
      assert bs == [b] + rest && bs[0] == b && bs[1..] == rest;
      hide Scan, BoxAt;
      MvexWalkStep(s, at, ids, content, bs);
      BoxAtPrinted(s, at, |s|);
      LongEnoughTail(bs, TREX, 8);
      if KeepsTrex(b, ids) {
        MvexWalkSees(s, at + size, ids, content + s[at..at + size]);
        var kept := KeptTrexes(rest, ids);
        assert KeptTrexes(bs, ids) == [b] + kept;
        hide KeptTrexes;
        PrintCons(b, kept);
        Reassociate(content, PrintBox(b), PrintBoxes(kept));
      } else {
        MvexWalkSees(s, at + size, ids, content);
      }
    }
  }

  lemma {:induction false} MvexWalkStops(s: bytes, at: nat, ids: seq<u32>, content: bytes)
    requires !Fits(s, at, |s|)
    ensures MvexWalk(s, at, ids, content) == content
  {
  }

  /** One step of the walk keeps the box exactly when it is not a trex of a dropped track. */
  lemma {:induction false} MvexWalkStep(s: bytes, at: nat, ids: seq<u32>, content: bytes, bs: seq<Box>)
    requires Fits(s, at, |s|) && bs != [] && bs[0] == BoxAt(s, at, |s|) && LongEnough(bs, TREX, 8)
    ensures var next := at + Read32(s, at);
            MvexWalk(s, at, ids, content)
            == MvexWalk(s, next, ids, if KeepsTrex(bs[0], ids) then content + s[at..next] else content)
  {
    hide Read32;
    var b, size := bs[0], Read32(s, at);
    LongEnoughHead(bs, TREX, 8);
    hide LongEnough;
    if b.kind == TREX {
      SubWindow(s, at + 8, at + size, 4, 8);
      Read32Local(s, at + 12, b.payload, 4);
    }
  }

  /** A printed box, walked from behind its header, shows the boxes of its payload. */
  lemma {:induction false} InsideBox(b: Box)
    requires Legal(b)
    ensures Scan(PrintBox(b), 8, |PrintBox(b)|) == ScanAll(b.payload)
  {
    var s, n := PrintBox(b), |b.payload|;
    HeaderRead(b.kind, b.payload);
    assert s[8..8 + n] == b.payload[0..0 + n];
    ScanLocal(s, 8, b.payload, 0, n);
  }

  lemma {:induction false} FilterMvexSees(b: Box, ids: seq<u32>)
    requires SoundBox(b) && b.kind == MVEX
    ensures FilterMvex(PrintBox(b), ids) == PrintBoxes(MvexPart(Some(b), ids))
  {
    var kept := KeptTrexes(ScanAll(b.payload), ids);
    InsideBox(b);
    MvexWalkSees(PrintBox(b), 8, ids, []);
    assert [] + PrintBoxes(kept) == PrintBoxes(kept);
    if kept != [] {
      assert PrintBoxes(kept) == PrintBox(kept[0]) + PrintBoxes(kept[1..]);
      assert PrintBoxes(kept) != [];
      PrintOne(Box(MVEX, PrintBoxes(kept)));
    }
  }

  /** The first pass, on top of what was gathered before. */
  function GatherBoxes(g: Gathered, bs: seq<Box>, keep: bytes): Gathered {
    Gathered(g.output + PrintBoxes(KeptBoxes(bs, keep)), g.ids + KeptIds(bs, keep),
             if LastMvex(bs).Some? then Some(PrintBox(LastMvex(bs).value)) else g.mvex)
  }

  function GatherOne(g: Gathered, b: Box, keep: bytes): Gathered {
    if b.kind == MVEX then g.(mvex := Some(PrintBox(b)))
    else if !Keeps(b, keep) then g
    else g.(output := g.output + PrintBox(b), ids := if b.kind == TRAK then AddId(g.ids, TrackIdOf(ScanAll(b.payload))) else g.ids)
  }

  lemma {:induction false} MoovStep(s: bytes, at: nat, keep: bytes, g: Gathered)
    requires Fits(s, at, |s|) && SoundBox(BoxAt(s, at, |s|))
    ensures MoovWalk(s, at, keep, g) == MoovWalk(s, at + Read32(s, at), keep, GatherOne(g, BoxAt(s, at, |s|), keep))
  {
    hide Read32, PrintBox, HandlerOf, TrackIdOf, SoundTrak, HandlerWalk, TrackIdWalk, AddId, LongEnough, ScanAll;
    KindsDiffer();
    var b := BoxAt(s, at, |s|);
    BoxAtPrinted(s, at, |s|);
    if b.kind == TRAK {
      InsideBox(b);
      HandlerWalkSees(PrintBox(b), 8);
      TrackIdWalkSees(PrintBox(b), 8);
    }
  }

  lemma {:induction false} GatherCons(g: Gathered, b: Box, rest: seq<Box>, keep: bytes)
    ensures GatherBoxes(GatherOne(g, b, keep), rest, keep) == GatherBoxes(g, [b] + rest, keep)
  {
    hide PrintBox, PrintBoxes, HandlerOf, TrackIdOf, ScanAll;
    var bs := [b] + rest;
    assert bs[0] == b && bs[1..] == rest;
    KindsDiffer();
    PrintCons(b, KeptBoxes(rest, keep));
    var tail := PrintBoxes(KeptBoxes(rest, keep));
    Reassociate(g.output, PrintBox(b), tail);
    var id := TrackIdOf(ScanAll(b.payload));
    assert AddId(g.ids, id) + KeptIds(rest, keep) == g.ids + (AddId([], id) + KeptIds(rest, keep));
    assert g.ids + ([] + KeptIds(rest, keep)) == g.ids + KeptIds(rest, keep);
  }

  lemma {:induction false} MoovWalkSees(s: bytes, at: nat, keep: bytes, g: Gathered)
    requires Sound(Scan(s, at, |s|))
    ensures MoovWalk(s, at, keep, g) == Done(GatherBoxes(g, Scan(s, at, |s|), keep))
    decreases if at <= |s| then |s| - at else 0
  {
    hide Read32, SoundBox, GatherBoxes, GatherOne, BoxAt;
    if !Fits(s, at, |s|) {
      GatherNothing(g, keep);
    } else {
      var b, rest := BoxAt(s, at, |s|), Scan(s, at + Read32(s, at), |s|);
      var bs := Scan(s, at, |s|);
      assert bs == [b] + rest && bs[0] == b && bs[1..] == rest;
      assert Sound(rest) by {
        assert forall i :: 0 <= i < |rest| ==> rest[i] == bs[i + 1];
      }
      MoovStep(s, at, keep, g);
      MoovWalkSees(s, at + Read32(s, at), keep, GatherOne(g, b, keep));
      GatherCons(g, b, rest, keep);
    }
  }

  lemma {:induction false} GatherNothing(g: Gathered, keep: bytes)
    ensures GatherBoxes(g, [], keep) == g
  {
    assert g.output + [] == g.output && g.ids + [] == g.ids;
  }

  lemma {:induction false} LastMvexMember(bs: seq<Box>)
    ensures LastMvex(bs).Some? ==> LastMvex(bs).value in bs && LastMvex(bs).value.kind == MVEX
  {
    if bs != [] {
      LastMvexMember(bs[1..]);
    }
  }

  /** The filter keeps the boxes it should and puts the filtered mvex last. */
  lemma {:induction false} FilterSees(content: bytes, keep: bytes)
    requires Sound(ScanAll(content))
    ensures FilterMoov(content, keep) == Done(PrintBoxes(FilterBoxes(ScanAll(content), keep)))
  {
    hide PrintBox, PrintBoxes, KeptBoxes, KeptIds, LastMvex, SoundBox, MoovWalk, FilterMvex, MvexPart;
    var bs := ScanAll(content);
    MoovWalkSees(content, 0, keep, Gathered([], [], None));
    LastMvexMember(bs);
    var ids := KeptIds(bs, keep);
    assert [] + ids == ids;
    PrintConcat(KeptBoxes(bs, keep), MvexPart(LastMvex(bs), ids));
    assert [] + PrintBoxes(KeptBoxes(bs, keep)) == PrintBoxes(KeptBoxes(bs, keep));
    if LastMvex(bs).Some? {
      FilterMvexSees(LastMvex(bs).value, ids);
    } else {
      NoMvexPart(ids);
    }
  }

  lemma {:induction false} NoMvexPart(ids: seq<u32>)
    ensures MvexPart(None, ids) == [] && PrintBoxes([]) == []
  {
  }

  // ---------------------------------------------------------------- what the filter guarantees

  lemma {:induction false} KeptMembers(bs: seq<Box>, keep: bytes)
    ensures forall b :: b in KeptBoxes(bs, keep) <==> b in bs && Keeps(b, keep)
  {
    hide Keeps;
    if bs != [] {
      KeptMembers(bs[1..], keep);
      assert forall b :: b in bs <==> b == bs[0] || b in bs[1..];
    }
  }

  lemma {:induction false} KeptAgain(bs: seq<Box>, keep: bytes)
    ensures KeptBoxes(KeptBoxes(bs, keep), keep) == KeptBoxes(bs, keep)
    ensures KeptIds(KeptBoxes(bs, keep), keep) == KeptIds(bs, keep)
    ensures LastMvex(KeptBoxes(bs, keep)) == None
  {
    hide HandlerOf, TrackIdOf, ScanAll;
    if bs != [] {
      KeptAgain(bs[1..], keep);
      var rest := KeptBoxes(bs[1..], keep);
      if Keeps(bs[0], keep) {
        assert ([bs[0]] + rest)[1..] == rest;
      } else {
        assert [] + KeptIds(bs[1..], keep) == KeptIds(bs[1..], keep);
      }
    }
  }

  lemma {:induction false} KeptConcat(a: seq<Box>, b: seq<Box>, keep: bytes)
    ensures KeptBoxes(a + b, keep) == KeptBoxes(a, keep) + KeptBoxes(b, keep)
    ensures KeptIds(a + b, keep) == KeptIds(a, keep) + KeptIds(b, keep)
    ensures LastMvex(a + b) == if LastMvex(b).Some? then LastMvex(b) else LastMvex(a)
    decreases |a|
  {
    hide Keeps, TrackIdOf, ScanAll, AddId;
    if a == [] {
      assert a + b == b;
      assert [] + KeptIds(b, keep) == KeptIds(b, keep);
      assert [] + KeptBoxes(b, keep) == KeptBoxes(b, keep);
    } else {
      KeptConcat(a[1..], b, keep);
      assert (a + b)[1..] == a[1..] + b && (a + b)[0] == a[0];
      var k, l := KeptBoxes(a[1..], keep), KeptBoxes(b, keep);
      Reassociate([a[0]], k, l);
      var own := if a[0].kind == TRAK && Keeps(a[0], keep) then AddId([], TrackIdOf(ScanAll(a[0].payload))) else [];
      Reassociate(own, KeptIds(a[1..], keep), KeptIds(b, keep));
    }
  }

  lemma {:induction false} KeptTrexesAgain(bs: seq<Box>, ids: seq<u32>)
    ensures KeptTrexes(KeptTrexes(bs, ids), ids) == KeptTrexes(bs, ids)
    ensures forall b :: b in KeptTrexes(bs, ids) <==> b in bs && KeepsTrex(b, ids)
    ensures AllLegal(bs) ==> AllLegal(KeptTrexes(bs, ids))
    ensures |PrintBoxes(KeptTrexes(bs, ids))| <= |PrintBoxes(bs)|
  {
    hide KeepsTrex, PrintBox;
    if bs != [] {
      KeptTrexesAgain(bs[1..], ids);
      var rest := KeptTrexes(bs[1..], ids);
      PrintCons(bs[0], rest);
      assert [bs[0]] + bs[1..] == bs;
      PrintCons(bs[0], bs[1..]);
      assert forall b :: b in bs <==> b == bs[0] || b in bs[1..];
      if KeepsTrex(bs[0], ids) {
        assert ([bs[0]] + rest)[1..] == rest;
      }
    }
  }

  lemma {:induction false} MvexPartAgain(mvex: Option<Box>, ids: seq<u32>)
    requires mvex.Some? ==> Legal(mvex.value)
    ensures MvexPart(if MvexPart(mvex, ids) == [] then None else Some(MvexPart(mvex, ids)[0]), ids) == MvexPart(mvex, ids)
    ensures forall b :: b in MvexPart(mvex, ids) ==>
      b.kind == MVEX && Legal(b) && LongEnough(ScanAll(b.payload), TREX, 8)
  {
    if mvex.Some? {
      var bs := ScanAll(mvex.value.payload);
      PrintScanned(mvex.value.payload, 0, |mvex.value.payload|);
      KeptTrexesAgain(bs, ids);
      var kept := KeptTrexes(bs, ids);
      ScanAllPrinted(kept);
      assert forall i :: 0 <= i < |kept| ==> kept[i] in kept;
    }
  }

  /** Filtering the boxes twice equals filtering them once. */
  lemma {:induction false} FilterBoxesAgain(bs: seq<Box>, keep: bytes)
    requires Sound(bs)
    ensures FilterBoxes(FilterBoxes(bs, keep), keep) == FilterBoxes(bs, keep)
    ensures Sound(FilterBoxes(bs, keep))
  {
    var k, ids := KeptBoxes(bs, keep), KeptIds(bs, keep);
    var m := MvexPart(LastMvex(bs), ids);
    LastMvexMember(bs);
    MvexPartAgain(LastMvex(bs), ids);
    KeptMembers(bs, keep);
    KeptAgain(bs, keep);
    KeptConcat(k, m, keep);
    MvexOnly(m, keep);
    assert Sound(k + m) by {
      forall i | 0 <= i < |k + m|
        ensures SoundBox((k + m)[i])
      {
        if i < |k| {
          assert k[i] in k;
        } else {
          assert m[i - |k|] in m;
          KindsDiffer();
        }
      }
    }
    hide KeptBoxes, KeptIds, LastMvex, MvexPart, SoundBox;
    assert k + [] == k && ids + [] == ids;
  }

  lemma {:induction false} MvexOnly(m: seq<Box>, keep: bytes)
    requires |m| <= 1 && forall b :: b in m ==> b.kind == MVEX
    ensures KeptBoxes(m, keep) == [] && KeptIds(m, keep) == []
    ensures LastMvex(m) == if m == [] then None else Some(m[0])
  {
    KindsDiffer();
    if m != [] {
      assert m[0] in m && m[1..] == [];
    }
  }

  lemma {:induction false} SoundLegal(bs: seq<Box>)
    requires Sound(bs)
    ensures AllLegal(bs)
  {
    forall i | 0 <= i < |bs|
      ensures Legal(bs[i])
    {
      assert SoundBox(bs[i]);
    }
  }

  /** On any sound moov: the output is a well-formed box list, and filtering it again changes nothing. */
  lemma {:induction false} FilterTwice(content: bytes, keep: bytes)
    requires Sound(ScanAll(content))
    ensures var once := FilterMoov(content, keep);
            once.Done? && Tiled(once.value, FilterBoxes(ScanAll(content), keep))
            && FilterMoov(once.value, keep) == once
  {
    var bs := ScanAll(content);
    var r := FilterBoxes(bs, keep);
    hide FilterMoov, FilterBoxes, ScanAll, SoundBox;
    FilterSees(content, keep);
    FilterBoxesAgain(bs, keep);
    SoundLegal(r);
    ScanAllPrinted(r);
    FilterSees(PrintBoxes(r), keep);
  }

  lemma {:induction false} KeptIdMembers(bs: seq<Box>, keep: bytes)
    ensures forall id :: id in KeptIds(bs, keep) <==>
      exists b :: b in bs && b.kind == TRAK && Keeps(b, keep) && TrackIdOf(ScanAll(b.payload)) == Some(id)
  {
    hide Keeps, TrackIdOf, ScanAll;
    if bs != [] {
      KeptIdMembers(bs[1..], keep);
      assert forall b :: b in bs <==> b == bs[0] || b in bs[1..];
      var own := if bs[0].kind == TRAK && Keeps(bs[0], keep) then AddId([], TrackIdOf(ScanAll(bs[0].payload))) else [];
      assert forall id :: id in KeptIds(bs, keep) <==> id in own || id in KeptIds(bs[1..], keep);
      assert forall id :: id in own <==> bs[0].kind == TRAK && Keeps(bs[0], keep) && TrackIdOf(ScanAll(bs[0].payload)) == Some(id);
      forall id
        ensures id in KeptIds(bs, keep) <==>
          exists b :: b in bs && b.kind == TRAK && Keeps(b, keep) && TrackIdOf(ScanAll(b.payload)) == Some(id)
      {
        if id in KeptIds(bs[1..], keep) {
          var b :| b in bs[1..] && b.kind == TRAK && Keeps(b, keep) && TrackIdOf(ScanAll(b.payload)) == Some(id);
          assert b in bs;
        }
      }
    }
  }

  // ---------------------------------------------------------------- trexes and the tracks they name

  /** The track_ID of a tkhd, where its version puts it (section 8.3.2 of ISO/IEC 14496-12): behind two 64-bit times in
      version 1, behind two 32-bit times otherwise. The code always looks behind two 32-bit times. */
  function TkhdTrackId(payload: bytes): Option<u32> {
    var at := if payload != [] && payload[0] == 1 then 20 else 12;
    if at + 4 <= |payload| then Some(Read32(payload, at)) else None
  }

  function TrackIdField(bs: seq<Box>): Option<u32> {
    if bs == [] then None
    else if bs[0].kind == TKHD then TkhdTrackId(bs[0].payload)
    else TrackIdField(bs[1..])
  }

  predicate IsTrack(b: Box, id: u32) {
    b.kind == TRAK && TrackIdField(ScanAll(b.payload)) == Some(id)
  }

  ghost predicate KeepsTrack(bs: seq<Box>, keep: bytes, id: u32) {
    exists b :: b in FilterBoxes(bs, keep) && IsTrack(b, id)
  }

  predicate IsTrex(t: Box, bs: seq<Box>) {
    t.kind == TREX && LastMvex(bs).Some? && t in ScanAll(LastMvex(bs).value.payload)
  }

  /** The trex is in the mvex of the result. */
  ghost predicate Survives(t: Box, bs: seq<Box>, keep: bytes) {
    exists m :: m in FilterBoxes(bs, keep) && m.kind == MVEX && t in ScanAll(m.payload)
  }

  /** Every trex of the result names a track of the result. */
  ghost predicate NoDangling(bs: seq<Box>, keep: bytes) {
    forall t: Box :: t.kind == TREX && Survives(t, bs, keep) ==> |t.payload| >= 8 && KeepsTrack(bs, keep, TrexId(t))
  }

  /** Every trex of a track of the result is in the result. */
  ghost predicate NoneLost(bs: seq<Box>, keep: bytes) {
    forall t :: IsTrex(t, bs) && |t.payload| >= 8 && KeepsTrack(bs, keep, TrexId(t)) ==> Survives(t, bs, keep)
  }

  lemma {:induction false} SurvivesIff(t: Box, bs: seq<Box>, keep: bytes)
    requires Sound(bs) && t.kind == TREX
    ensures Survives(t, bs, keep) <==> IsTrex(t, bs) && |t.payload| >= 8 && TrexId(t) in KeptIds(bs, keep)
  {
    hide KeptBoxes, KeptIds, LastMvex, Keeps, SoundBox, Scan, PrintBoxes;
    var ids := KeptIds(bs, keep);
    KeptMembers(bs, keep);
    LastMvexMember(bs);
    NoMvexKept(keep);
    if LastMvex(bs).Some? {
      var content := LastMvex(bs).value.payload;
      var boxes := ScanAll(content);
      PrintScanned(content, 0, |content|);
      KeptTrexesAgain(boxes, ids);
      var kept := KeptTrexes(boxes, ids);
      hide KeptTrexes;
      ScanAllPrinted(kept);
      assert t in kept <==> IsTrex(t, bs) && |t.payload| >= 8 && TrexId(t) in ids;
      if t in kept {
        var m := Box(MVEX, PrintBoxes(kept));
        assert m in FilterBoxes(bs, keep) && t in ScanAll(m.payload);
      }
    }
  }

  lemma {:induction false} NoMvexKept(keep: bytes)
    ensures forall b :: Keeps(b, keep) ==> b.kind != MVEX
  {
  }

  /** The exact conditions for a moov as it is: a trex dangles when its id is read from a kept trak without being the
      track_ID of one, and is lost the other way round. */
  lemma {:induction false} TrexesRightIff(bs: seq<Box>, keep: bytes)
    requires Sound(bs)
    ensures NoDangling(bs, keep) <==>
      forall t :: IsTrex(t, bs) && |t.payload| >= 8 && TrexId(t) in KeptIds(bs, keep) ==> KeepsTrack(bs, keep, TrexId(t))
    ensures NoneLost(bs, keep) <==>
      forall t :: IsTrex(t, bs) && |t.payload| >= 8 && KeepsTrack(bs, keep, TrexId(t)) ==> TrexId(t) in KeptIds(bs, keep)
  {
    hide Survives, IsTrex, KeepsTrack, KeptIds, Sound;
    forall t: Box | t.kind == TREX
      ensures Survives(t, bs, keep) <==> IsTrex(t, bs) && |t.payload| >= 8 && TrexId(t) in KeptIds(bs, keep)
    {
      SurvivesIff(t, bs, keep);
    }
    TrexKind(bs);
  }

  lemma {:induction false} TrexKind(bs: seq<Box>)
    ensures forall t :: IsTrex(t, bs) ==> t.kind == TREX
  {
  }

  /** The ids that the code reads from the kept traks are their track_IDs. */
  ghost predicate ReadsTrackIds(bs: seq<Box>, keep: bytes) {
    forall id: u32 :: id in KeptIds(bs, keep) <==> KeepsTrack(bs, keep, id)
  }

  /** An mvex with a single trex. */
  function OneTrex(id: u32): Box { Box(TREX, [0, 0, 0, 0] + BE32(id)) }

  function MvexOf(id: u32): Box { Box(MVEX, PrintBoxes([OneTrex(id)])) }

  lemma {:induction false} OneTrexRead(id: u32)
    ensures Legal(OneTrex(id)) && |OneTrex(id).payload| == 8 && TrexId(OneTrex(id)) == id
    ensures SoundBox(MvexOf(id)) && ScanAll(MvexOf(id).payload) == [OneTrex(id)]
  {
    hide PrintBoxes, ScanAll;
    var t := OneTrex(id);
    assert t.payload[4..8] == BE32(id);
    Read32Printed(t.payload, 4, id);
    NoWrap32(id);
    assert AllLegal([t]);
    ScanAllPrinted([t]);
    PrintOne(t);
    KindsDiffer();
  }

  /** What an mvex at the end of a moov does not change, and what it adds. */
  lemma {:induction false} WithMvex(bs: seq<Box>, mvex: Box, keep: bytes)
    requires mvex.kind == MVEX
    ensures KeptIds(bs + [mvex], keep) == KeptIds(bs, keep) && LastMvex(bs + [mvex]) == Some(mvex)
    ensures forall id: u32 :: KeepsTrack(bs + [mvex], keep, id) <==> KeepsTrack(bs, keep, id)
  {
    hide KeptBoxes, KeptIds, LastMvex, Keeps, MvexPart, IsTrack;
    MvexOnly([mvex], keep);
    KeptConcat(bs, [mvex], keep);
    var moov := bs + [mvex];
    assert KeptIds(bs, keep) + [] == KeptIds(bs, keep);
    assert KeptBoxes(bs, keep) + [] == KeptBoxes(bs, keep);
    forall id: u32
      ensures KeepsTrack(moov, keep, id) <==> KeepsTrack(bs, keep, id)
    {
      TracksAreKept(moov, keep, id);
      TracksAreKept(bs, keep, id);
    }
  }

  lemma {:induction false} TracksAreKept(bs: seq<Box>, keep: bytes, id: u32)
    ensures KeepsTrack(bs, keep, id) <==> exists b :: b in KeptBoxes(bs, keep) && IsTrack(b, id)
  {
    hide KeptBoxes, KeptIds, LastMvex;
    KindsDiffer();
    var m := MvexPart(LastMvex(bs), KeptIds(bs, keep));
    assert forall b :: b in m ==> b.kind == MVEX;
    if KeepsTrack(bs, keep, id) {
      var b :| b in FilterBoxes(bs, keep) && IsTrack(b, id);
      assert b in KeptBoxes(bs, keep);
    }
    if exists b :: b in KeptBoxes(bs, keep) && IsTrack(b, id) {
      var b :| b in KeptBoxes(bs, keep) && IsTrack(b, id);
      assert b in FilterBoxes(bs, keep);
    }
  }

  /** The exact condition on the traks: whatever mvex the moov ends with, no trex dangles and none is lost, exactly when
      the ids that are read from the kept traks are their track_IDs. */
  lemma {:induction false} TrexesFollowIff(bs: seq<Box>, keep: bytes)
    requires Sound(bs)
    ensures (forall mvex: Box :: mvex.kind == MVEX && SoundBox(mvex) ==> NoDangling(bs + [mvex], keep) && NoneLost(bs + [mvex], keep))
            <==> ReadsTrackIds(bs, keep)
  {
    hide NoDangling, NoneLost, KeptIds, LastMvex, KeepsTrack, SoundBox;
    if ReadsTrackIds(bs, keep) {
      forall mvex: Box | mvex.kind == MVEX && SoundBox(mvex)
        ensures NoDangling(bs + [mvex], keep) && NoneLost(bs + [mvex], keep)
      {
        WithMvex(bs, mvex, keep);
        TrexesRightIff(bs + [mvex], keep);
      }
    }
    if forall mvex: Box :: mvex.kind == MVEX && SoundBox(mvex) ==> NoDangling(bs + [mvex], keep) && NoneLost(bs + [mvex], keep) {
      forall id: u32
        ensures id in KeptIds(bs, keep) <==> KeepsTrack(bs, keep, id)
      {
        var mvex, t := MvexOf(id), OneTrex(id);
        OneTrexRead(id);
        WithMvex(bs, mvex, keep);
        assert NoDangling(bs + [mvex], keep) && NoneLost(bs + [mvex], keep);
        TrexesRightIff(bs + [mvex], keep);
        assert IsTrex(t, bs + [mvex]);
      }
    }
  }

  /** A tkhd of version 0 is read right, and a kept trak whose tkhd is read right does no harm. */
  predicate ReadRight(b: Box) {
    TrackIdOf(ScanAll(b.payload)) == TrackIdField(ScanAll(b.payload))
  }

  predicate TkhdsShort(bs: seq<Box>) {
    forall i :: 0 <= i < |bs| && bs[i].kind == TKHD ==> |bs[i].payload| >= 16 && bs[i].payload[0] != 1
  }

  lemma {:induction false} Version0Read(bs: seq<Box>)
    requires TkhdsShort(bs)
    ensures TrackIdOf(bs) == TrackIdField(bs)
  {
    hide Read32;
    if bs != [] {
      Version0Read(bs[1..]);
    }
  }

  lemma {:induction false} ReadRightSuffices(bs: seq<Box>, keep: bytes)
    requires forall b :: b in bs && b.kind == TRAK && Keeps(b, keep) ==> ReadRight(b)
    ensures ReadsTrackIds(bs, keep)
  {
    hide KeptBoxes, KeptIds, Keeps, FilterBoxes, TrackIdOf, TrackIdField, ScanAll;
    KeptIdMembers(bs, keep);
    KeptMembers(bs, keep);
    forall id: u32
      ensures id in KeptIds(bs, keep) <==> KeepsTrack(bs, keep, id)
    {
      TracksAreKept(bs, keep, id);
      if id in KeptIds(bs, keep) {
        var b :| b in bs && b.kind == TRAK && Keeps(b, keep) && TrackIdOf(ScanAll(b.payload)) == Some(id);
        assert ReadRight(b) && b in KeptBoxes(bs, keep) && IsTrack(b, id);
      }
      if KeepsTrack(bs, keep, id) {
        var b :| b in KeptBoxes(bs, keep) && IsTrack(b, id);
        assert ReadRight(b) && TrackIdOf(ScanAll(b.payload)) == Some(id);
      }
    }
  }

  /** With a single kept trak, as in a file with one video and one audio track, the condition is that its tkhd is read
      right. */
  lemma {:induction false} OneTrakReadIff(bs: seq<Box>, keep: bytes, trak: Box)
    requires trak in bs && trak.kind == TRAK && Keeps(trak, keep)
    requires forall b :: b in bs && b.kind == TRAK && Keeps(b, keep) ==> b == trak
    ensures ReadsTrackIds(bs, keep) <==> ReadRight(trak)
  {
    hide KeptBoxes, KeptIds, Keeps, FilterBoxes, TrackIdOf, TrackIdField, ScanAll;
    KeptIdMembers(bs, keep);
    KeptMembers(bs, keep);
    var read, field := TrackIdOf(ScanAll(trak.payload)), TrackIdField(ScanAll(trak.payload));
    forall id: u32
      ensures id in KeptIds(bs, keep) <==> read == Some(id)
      ensures KeepsTrack(bs, keep, id) <==> field == Some(id)
    {
      TracksAreKept(bs, keep, id);
      if field == Some(id) {
        assert IsTrack(trak, id);
      }
    }
    if ReadsTrackIds(bs, keep) {
      if read.Some? {
        assert read.value in KeptIds(bs, keep);
      }
      if field.Some? {
        assert KeepsTrack(bs, keep, field.value);
      }
    }
  }

  // A version 1 tkhd in the way.

  function TrakWith(tkhd: bytes, handler: bytes): Box {
    Box(TRAK, PrintBoxes([Box(TKHD, tkhd), Box(MDIA, PrintBoxes([Box(HDLR, [0, 0, 0, 0, 0, 0, 0, 0] + handler)]))]))
  }

  lemma {:induction false} TrakRead(tkhd: bytes, handler: bytes)
    requires 16 <= |tkhd| <= 200 && |handler| == 4
    ensures var b := TrakWith(tkhd, handler);
            var bs := ScanAll(b.payload);
            && SoundBox(b) && HandlerOf(bs) == Some(handler)
            && TrackIdOf(bs) == Some(Read32(tkhd, 12)) && TrackIdField(bs) == TkhdTrackId(tkhd)
  {
    hide PrintBoxes, Scan, Read32, BE32, TkhdTrackId;
    KindsDiffer();
    MoreKindsDiffer();
    var hdlr := Box(HDLR, [0, 0, 0, 0, 0, 0, 0, 0] + handler);
    var t, mdia := Box(TKHD, tkhd), Box(MDIA, PrintBoxes([hdlr]));
    PrintOne(hdlr);
    PrintCons(t, [mdia]);
    PrintOne(mdia);
    assert [t] + [mdia] == [t, mdia];
    ScanAllPrinted([hdlr]);
    ScanAllPrinted([t, mdia]);
    assert hdlr.payload[8..12] == handler && [t, mdia][1..] == [mdia];
    assert HandlerOf([mdia]) == Some(handler);
  }

  lemma {:induction false} MoreKindsDiffer()
    ensures TKHD != MDIA && HDLR != MDIA && TRAK != MVEX && TRAK != TREX && TRAK != MDIA && VIDE != SOUN
  {
    assert TKHD[0] != MDIA[0] && HDLR[0] != MDIA[0] && TRAK[0] != MVEX[0] && TRAK[1] == 0x72 && TREX[2] != TRAK[2] && VIDE[0] != SOUN[0];
  }

  /** A version 1 tkhd: creation time 0, a modification time with the given high word, the track_ID. */
  function LongTkhd(high: u32, id: u32): bytes {
    [1, 0, 0, 0] + BE32(0) + BE32(0) + BE32(high) + BE32(0) + BE32(id)
  }

  function ShortTkhd(id: u32): bytes { [0, 0, 0, 0] + BE32(0) + BE32(0) + BE32(id) }

  lemma {:induction false} TkhdsRead(high: u32, id: u32)
    ensures |LongTkhd(high, id)| == 24 && Read32(LongTkhd(high, id), 12) == high && TkhdTrackId(LongTkhd(high, id)) == Some(id)
    ensures |ShortTkhd(id)| == 16 && Read32(ShortTkhd(id), 12) == id && TkhdTrackId(ShortTkhd(id)) == Some(id)
  {
    hide Read32;
    var l, s := LongTkhd(high, id), ShortTkhd(id);
    Lengths32(high, id);
    hide BE32;
    assert l[12..16] == BE32(high) && l[20..24] == BE32(id) && s[12..16] == BE32(id);
    Read32Printed(l, 12, high);
    Read32Printed(l, 20, id);
    Read32Printed(s, 12, id);
    NoWrap32(high);
    NoWrap32(id);
  }

  lemma {:induction false} Lengths32(a: int, b: int)
    ensures |BE32(a)| == 4 && |BE32(b)| == 4 && |BE32(0)| == 4
  {
  }

  /** The two failing moovs. A video track with a version 1 tkhd, track_ID 7: when the high word of its modification time
      is the id of the audio track, the audio track's trex stays and dangles; when it is 0, as usual, its own trex is lost. */
  lemma {:induction false} Version1Fails()
    ensures var video, audio := TrakWith(LongTkhd(1, 7), VIDE), TrakWith(ShortTkhd(1), SOUN);
            var moov := [video, audio, MvexOf(1)];
            Sound(moov) && FilterBoxes(moov, VIDE) == [video, MvexOf(1)] && !NoDangling(moov, VIDE)
    ensures var video := TrakWith(LongTkhd(0, 7), VIDE);
            var moov := [video, MvexOf(7)];
            Sound(moov) && FilterBoxes(moov, VIDE) == [video] && !NoneLost(moov, VIDE)
  {
    Dangles();
    Loses();
  }

  lemma {:induction false} KeptOne(trak: Box, keep: bytes)
    requires trak.kind == TRAK
    ensures KeptBoxes([trak], keep) == if HandlerOf(ScanAll(trak.payload)) == Some(keep) then [trak] else []
    ensures KeptIds([trak], keep)
         == if HandlerOf(ScanAll(trak.payload)) == Some(keep) then AddId([], TrackIdOf(ScanAll(trak.payload))) else []
  {
    hide HandlerOf, TrackIdOf, ScanAll;
    MoreKindsDiffer();
    assert [trak][1..] == [];
    var own := if HandlerOf(ScanAll(trak.payload)) == Some(keep) then AddId([], TrackIdOf(ScanAll(trak.payload))) else [];
    assert own + [] == own;
  }

  /** Filtering traks followed by an mvex with one trex. */
  lemma {:induction false} FilteredWith(traks: seq<Box>, id: u32, keep: bytes)
    ensures FilterBoxes(traks + [MvexOf(id)], keep)
         == KeptBoxes(traks, keep) + if id in KeptIds(traks, keep) then [MvexOf(id)] else []
  {
    hide KeptBoxes, KeptIds, LastMvex, ScanAll;
    var t, m, ids := OneTrex(id), MvexOf(id), KeptIds(traks, keep);
    OneTrexRead(id);
    MvexOnly([m], keep);
    KeptConcat(traks, [m], keep);
    assert KeptIds(traks, keep) + [] == ids && KeptBoxes(traks, keep) + [] == KeptBoxes(traks, keep);
    assert [t][1..] == [];
    assert KeptTrexes([t], ids) == if id in ids then [t] else [];
  }

  lemma {:induction false} Dangles()
    ensures var video, audio := TrakWith(LongTkhd(1, 7), VIDE), TrakWith(ShortTkhd(1), SOUN);
            var moov := [video, audio, MvexOf(1)];
            Sound(moov) && FilterBoxes(moov, VIDE) == [video, MvexOf(1)] && !NoDangling(moov, VIDE)
  {
    hide LongTkhd, ShortTkhd, TrakWith, MvexOf, OneTrex, KeptBoxes, KeptIds, FilterBoxes, SoundBox, HandlerOf, TrackIdOf, TrackIdField, ScanAll;
    var v, a, m := TrakWith(LongTkhd(1, 7), VIDE), TrakWith(ShortTkhd(1), SOUN), MvexOf(1);
    TkhdsRead(1, 7);
    TkhdsRead(0, 1);
    TrakRead(LongTkhd(1, 7), VIDE);
    TrakRead(ShortTkhd(1), SOUN);
    TrakKind(LongTkhd(1, 7), VIDE);
    TrakKind(ShortTkhd(1), SOUN);
    OneTrexRead(1);
    MoreKindsDiffer();
    KeptOne(v, VIDE);
    KeptOne(a, VIDE);
    KeptConcat([v], [a], VIDE);
    FilteredWith([v] + [a], 1, VIDE);
    var moov := [v, a, m];
    assert [v] + [a] + [m] == moov && [v] + [] == [v] && [v] + [m] == [v, m];
    assert m in [v, m] && OneTrex(1) in ScanAll(m.payload);
    KindOfMvex(1);
    assert Survives(OneTrex(1), moov, VIDE);
    assert forall b :: b in FilterBoxes(moov, VIDE) ==> !IsTrack(b, 1);
  }

  lemma {:induction false} KindOfMvex(id: u32)
    ensures MvexOf(id).kind == MVEX && OneTrex(id).kind == TREX
  {
  }

  lemma {:induction false} TrakKind(tkhd: bytes, handler: bytes)
    ensures TrakWith(tkhd, handler).kind == TRAK
  {
  }

  lemma {:induction false} Loses()
    ensures var video := TrakWith(LongTkhd(0, 7), VIDE);
            var moov := [video, MvexOf(7)];
            Sound(moov) && FilterBoxes(moov, VIDE) == [video] && !NoneLost(moov, VIDE)
  {
    hide LongTkhd, TrakWith, MvexOf, OneTrex, KeptBoxes, KeptIds, LastMvex, FilterBoxes, SoundBox, HandlerOf, TrackIdOf, TrackIdField, ScanAll;
    var v, m, t := TrakWith(LongTkhd(0, 7), VIDE), MvexOf(7), OneTrex(7);
    TkhdsRead(0, 7);
    TrakRead(LongTkhd(0, 7), VIDE);
    TrakKind(LongTkhd(0, 7), VIDE);
    OneTrexRead(7);
    MoreKindsDiffer();
    KeptOne(v, VIDE);
    FilteredWith([v], 7, VIDE);
    var moov := [v, m];
    KindOfMvex(7);
    MvexLast([v], m);
    assert [v] + [m] == moov && [v] + [] == [v];
    assert v in FilterBoxes(moov, VIDE) && IsTrack(v, 7);
    assert IsTrex(t, moov) && KeepsTrack(moov, VIDE, 7);
    assert !Survives(t, moov, VIDE);
  }

  lemma {:induction false} MvexLast(bs: seq<Box>, mvex: Box)
    requires mvex.kind == MVEX
    ensures LastMvex(bs + [mvex]) == Some(mvex)
  {
    hide KeptBoxes, KeptIds;
    MvexOnly([mvex], VIDE);
    KeptConcat(bs, [mvex], VIDE);
  }

  /** Every vide or soun trak goes to exactly one of the two initialization segments, and every box that is
      neither trak nor mvex goes to both. */
  lemma {:induction false} EachTrakOnce(bs: seq<Box>, b: Box)
    requires Sound(bs) && b in bs
    ensures b.kind == TRAK && HandlerOf(ScanAll(b.payload)) == Some(VIDE) ==>
      b in FilterBoxes(bs, VIDE) && b !in FilterBoxes(bs, SOUN)
    ensures b.kind == TRAK && HandlerOf(ScanAll(b.payload)) == Some(SOUN) ==>
      b in FilterBoxes(bs, SOUN) && b !in FilterBoxes(bs, VIDE)
    ensures b.kind != TRAK && b.kind != MVEX ==> b in FilterBoxes(bs, VIDE) && b in FilterBoxes(bs, SOUN)
    ensures b.kind == TRAK && (forall h :: h in {VIDE, SOUN} ==> HandlerOf(ScanAll(b.payload)) != Some(h)) ==>
      b !in FilterBoxes(bs, VIDE) && b !in FilterBoxes(bs, SOUN)
  {
    KindsDiffer();
    assert VIDE[0] != SOUN[0];
    LastMvexMember(bs);
    KeptMembers(bs, VIDE);
    KeptMembers(bs, SOUN);
    MvexPartAgain(LastMvex(bs), KeptIds(bs, VIDE));
    MvexPartAgain(LastMvex(bs), KeptIds(bs, SOUN));
  }
}
