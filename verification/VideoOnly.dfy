/** The moov for files whose audio is AC-3 (core/src/media/mp4_parser.rs, `create_video_only_moov` and `is_video_track`):
    meant to keep the video tracks, it looks for "vide" four bytes in front of the handler type. */
module VideoOnly {
  import opened Bytes
  import opened Outcomes
  import opened Boxes
  import opened MoovFilter

  // ---------------------------------------------------------------- the walks, on any bytes

  /** Four bytes of the first hdlr between `at` and `end`, where the code takes the handler type to be. */
  function FindEarly(trak: bytes, at: nat, end: nat): Option<bytes>
    requires end <= |trak|
    decreases if at <= end then end - at else 0
  {
    if !Fits(trak, at, end) then None
    else if trak[at + 4..at + 8] == HDLR && at + 16 <= end then Some(trak[at + 12..at + 16])
    else FindEarly(trak, at + Read32(trak, at), end)
  }

  function EarlyWalk(trak: bytes, at: nat): Option<bytes>
    decreases if at <= |trak| then |trak| - at else 0
  {
    if !Fits(trak, at, |trak|) then None else
      var next := at + Read32(trak, at);
      var found := if trak[at + 4..at + 8] == MDIA then FindEarly(trak, at + 8, next) else None;
      if found.Some? then found else EarlyWalk(trak, next)
  }

  function KeepsChild(child: bytes): bool
    requires |child| >= 8
  {
    child[4..8] == TRAK ==> EarlyWalk(child, 8) == Some(VIDE)
  }

  function Kept(s: bytes, at: nat): bytes
    decreases if at <= |s| then |s| - at else 0
  {
    if !Fits(s, at, |s|) then [] else
      var next := at + Read32(s, at);
      (if KeepsChild(s[at..next]) then s[at..next] else []) + Kept(s, next)
  }

  method IsVideoTrack(trak: bytes) returns (video: bool)
    ensures video <==> EarlyWalk(trak, 8) == Some(VIDE)
  {
    hide Read32, VIDE;
    var cursor := 8;
    while cursor + 8 <= |trak|
      invariant EarlyWalk(trak, cursor) == EarlyWalk(trak, 8)
      decreases |trak| - cursor
    {
      var size := Read32(trak, cursor);
      if size < 8 || cursor + size > |trak| {
        break;
      }
      if trak[cursor + 4..cursor + 8] == MDIA {
        var mdiaEnd := cursor + size;
        var mdiaCursor := cursor + 8;
        while mdiaCursor + 8 <= mdiaEnd
          invariant mdiaCursor >= cursor + 8
          invariant FindEarly(trak, mdiaCursor, mdiaEnd) == FindEarly(trak, cursor + 8, mdiaEnd)
          decreases mdiaEnd - mdiaCursor
        {
          var innerSize := Read32(trak, mdiaCursor);
          if innerSize < 8 || mdiaCursor + innerSize > mdiaEnd {
            break;
          }
          if trak[mdiaCursor + 4..mdiaCursor + 8] == HDLR && mdiaCursor + 16 <= mdiaEnd {
            return trak[mdiaCursor + 12..mdiaCursor + 16] == VIDE;
          }
          mdiaCursor := mdiaCursor + innerSize;
        }
      }
      cursor := cursor + size;
    }
    video := false;
  }

  method CreateVideoOnlyMoov(content: bytes) returns (output: bytes)
    ensures output == Kept(content, 0)
  {
    hide Read32, EarlyWalk, Kept;
    output := [];
    var cursor := 0;
    assert [] + Kept(content, 0) == Kept(content, 0);
    while cursor + 8 <= |content|
      invariant output + Kept(content, cursor) == Kept(content, 0)
      decreases |content| - cursor
    {
      KeptStep(content, cursor);
      var size := Read32(content, cursor);
      if size < 8 || cursor + size > |content| {
        break;
      }
      var child := content[cursor..cursor + size];
      ghost var rest := Kept(content, cursor + size);
      Reassociate(output, child, rest);
      if content[cursor + 4..cursor + 8] == TRAK {
        var video := IsVideoTrack(child);
        if video {
          output := output + child;
        }
      } else {
        output := output + child;
      }
      cursor := cursor + size;
    }
    KeptStep(content, cursor);
    assert output + [] == output;
  }

  lemma {:induction false} KeptStep(s: bytes, at: nat)
    ensures !Fits(s, at, |s|) ==> Kept(s, at) == []
    ensures Fits(s, at, |s|) ==>
      var next := at + Read32(s, at);
      var child := s[at..next];
      && child[4..8] == s[at + 4..at + 8]
      && Kept(s, at) == if KeepsChild(child) then child + Kept(s, next) else Kept(s, next)
  {
    hide Read32, KeepsChild;
    if Fits(s, at, |s|) {
      var next := at + Read32(s, at);
      SubWindow(s, at, next, 4, 8);
      assert [] + Kept(s, next) == Kept(s, next);
    }
  }

  // ---------------------------------------------------------------- the meaning, on boxes

  /** The pre_defined field of the first hdlr, where the handler type is looked for (section 8.4.3 of ISO/IEC 14496-12). */
  function PreDefinedIn(bs: seq<Box>): Option<bytes> {
    if bs == [] then None
    else if bs[0].kind == HDLR && |bs[0].payload| >= 8 then Some(bs[0].payload[4..8])
    else PreDefinedIn(bs[1..])
  }

  function PreDefinedOf(bs: seq<Box>): Option<bytes> {
    if bs == [] then None
    else if bs[0].kind == MDIA && PreDefinedIn(ScanAll(bs[0].payload)).Some? then PreDefinedIn(ScanAll(bs[0].payload))
    else PreDefinedOf(bs[1..])
  }

  predicate KeepsBox(b: Box) {
    b.kind == TRAK ==> PreDefinedOf(ScanAll(b.payload)) == Some(VIDE)
  }

  /** What should be kept. */
  predicate IsWanted(b: Box) {
    b.kind == TRAK ==> HandlerOf(ScanAll(b.payload)) == Some(VIDE)
  }

  function KeptBoxesOf(bs: seq<Box>): seq<Box> {
    if bs == [] then [] else if KeepsBox(bs[0]) then [bs[0]] + KeptBoxesOf(bs[1..]) else KeptBoxesOf(bs[1..])
  }

  function WantedBoxes(bs: seq<Box>): seq<Box> {
    if bs == [] then [] else if IsWanted(bs[0]) then [bs[0]] + WantedBoxes(bs[1..]) else WantedBoxes(bs[1..])
  }

  lemma {:induction false} FindEarlySees(s: bytes, at: nat, end: nat)
    requires end <= |s| && LongEnough(Scan(s, at, end), HDLR, 12)
    ensures FindEarly(s, at, end) == PreDefinedIn(Scan(s, at, end))
    decreases if at <= end then end - at else 0
  {
    hide Read32;
    if Fits(s, at, end) {
      var size := Read32(s, at);
      var b, rest := BoxAt(s, at, end), Scan(s, at + size, end);
      var bs := Scan(s, at, end);
      assert bs == [b] + rest && bs[0] == b && bs[1..] == rest;
      if b.kind == HDLR {
        assert |b.payload| >= 12;
        SubWindow(s, at + 8, at + size, 4, 8);
      } else {
        LongEnoughTail(bs, HDLR, 12);
        FindEarlySees(s, at + size, end);
      }
    }
  }

  lemma {:induction false} EarlyWalkSees(s: bytes, at: nat)
    requires SoundTrak(Scan(s, at, |s|))
    ensures EarlyWalk(s, at) == PreDefinedOf(Scan(s, at, |s|))
    decreases if at <= |s| then |s| - at else 0
  {
    hide Read32, SoundTrak, FindEarly, PreDefinedIn, LongEnough;
    if Fits(s, at, |s|) {
      var size := Read32(s, at);
      var b, rest := BoxAt(s, at, |s|), Scan(s, at + size, |s|);
      var bs := Scan(s, at, |s|);
      assert bs == [b] + rest && bs[0] == b && bs[1..] == rest;
      SoundTrakTail(bs);
      if b.kind == MDIA {
        assert s[at + 8..at + 8 + (size - 8)] == b.payload[0..0 + (size - 8)];
        ScanLocal(s, at + 8, b.payload, 0, size - 8);
        FindEarlySees(s, at + 8, at + size);
      }
      EarlyWalkSees(s, at + size);
    }
  }

  lemma {:induction false} ChildSeen(b: Box)
    requires SoundBox(b)
    ensures KeepsChild(PrintBox(b)) <==> KeepsBox(b)
  {
    hide PrintBox, EarlyWalk, PreDefinedOf, SoundTrak, ScanAll, LongEnough;
    HeaderRead(b.kind, b.payload);
    if b.kind == TRAK {
      InsideBox(b);
      EarlyWalkSees(PrintBox(b), 8);
    }
  }

  lemma {:induction false} KeptSees(s: bytes, at: nat)
    requires Sound(Scan(s, at, |s|))
    ensures Kept(s, at) == PrintBoxes(KeptBoxesOf(Scan(s, at, |s|)))
    decreases if at <= |s| then |s| - at else 0
  {
    hide Read32, SoundBox, KeepsChild, KeepsBox, BoxAt, PrintBox;
    if !Fits(s, at, |s|) {
      PrintNone();
    } else {
      var b, rest := BoxAt(s, at, |s|), Scan(s, at + Read32(s, at), |s|);
      var bs := Scan(s, at, |s|);
      assert bs == [b] + rest && bs[0] == b && bs[1..] == rest;
      assert Sound(rest) by {
        assert forall i :: 0 <= i < |rest| ==> rest[i] == bs[i + 1];
      }
      KeptSees(s, at + Read32(s, at));
      BoxAtPrinted(s, at, |s|);
      assert SoundBox(b);
      ChildSeen(b);
      PrintCons(b, KeptBoxesOf(rest));
      assert [] + PrintBoxes(KeptBoxesOf(rest)) == PrintBoxes(KeptBoxesOf(rest));
    }
  }

  lemma {:induction false} KeptMembersOf(bs: seq<Box>)
    ensures forall b :: b in KeptBoxesOf(bs) <==> b in bs && KeepsBox(b)
    ensures forall b :: b in WantedBoxes(bs) <==> b in bs && IsWanted(b)
  {
    hide KeepsBox, IsWanted;
    if bs != [] {
      KeptMembersOf(bs[1..]);
      assert forall b :: b in bs <==> b == bs[0] || b in bs[1..];
    }
  }

  lemma {:induction false} SameKept(bs: seq<Box>)
    requires forall b :: b in bs ==> (KeepsBox(b) <==> IsWanted(b))
    ensures KeptBoxesOf(bs) == WantedBoxes(bs)
  {
    hide KeepsBox, IsWanted;
    if bs != [] {
      assert bs[0] in bs;
      SameKept(bs[1..]);
    }
  }

  lemma {:induction false} DifferentBoxes(a: seq<Box>, c: seq<Box>)
    requires AllLegal(a) && AllLegal(c) && PrintBoxes(a) == PrintBoxes(c)
    ensures a == c
  {
    ScanAllPrinted(a);
    ScanAllPrinted(c);
  }

  lemma {:induction false} KeptLegal(bs: seq<Box>)
    requires Sound(bs)
    ensures AllLegal(KeptBoxesOf(bs)) && AllLegal(WantedBoxes(bs))
  {
    hide KeepsBox, IsWanted;
    KeptMembersOf(bs);
    forall i | 0 <= i < |KeptBoxesOf(bs)|
      ensures Legal(KeptBoxesOf(bs)[i])
    {
      assert KeptBoxesOf(bs)[i] in bs;
    }
    forall i | 0 <= i < |WantedBoxes(bs)|
      ensures Legal(WantedBoxes(bs)[i])
    {
      assert WantedBoxes(bs)[i] in bs;
    }
  }

  /** The result is the moov without its other tracks exactly when in every trak "vide" stands in the pre_defined field
      just when it is the handler type. */
  lemma {:induction false} VideoOnlyIff(content: bytes)
    requires Sound(ScanAll(content))
    ensures var bs := ScanAll(content);
            Kept(content, 0) == PrintBoxes(WantedBoxes(bs)) <==>
            forall b :: b in bs && b.kind == TRAK ==>
              (PreDefinedOf(ScanAll(b.payload)) == Some(VIDE) <==> HandlerOf(ScanAll(b.payload)) == Some(VIDE))
  {
    var bs := ScanAll(content);
    hide Kept, Sound, ScanAll, PrintBoxes, KeptBoxesOf, WantedBoxes, PreDefinedOf, HandlerOf, VIDE;
    SeesAll(content);
    KeptLegal(bs);
    KeptMembersOf(bs);
    if forall b :: b in bs && b.kind == TRAK ==>
        (PreDefinedOf(ScanAll(b.payload)) == Some(VIDE) <==> HandlerOf(ScanAll(b.payload)) == Some(VIDE)) {
      SameKept(bs);
    }
    if Kept(content, 0) == PrintBoxes(WantedBoxes(bs)) {
      DifferentBoxes(KeptBoxesOf(bs), WantedBoxes(bs));
      forall b | b in bs && b.kind == TRAK
        ensures PreDefinedOf(ScanAll(b.payload)) == Some(VIDE) <==> HandlerOf(ScanAll(b.payload)) == Some(VIDE)
      {
        assert KeepsBox(b) <==> b in KeptBoxesOf(bs);
        assert IsWanted(b) <==> b in WantedBoxes(bs);
      }
    }
  }

  lemma {:induction false} SeesAll(content: bytes)
    requires Sound(ScanAll(content))
    ensures Kept(content, 0) == PrintBoxes(KeptBoxesOf(ScanAll(content)))
  {
    KeptSees(content, 0);
  }

  /** As the standard has it, pre_defined is zero: then no track is left at all, the video track neither. */
  lemma {:induction false} NoTrackLeft(content: bytes)
    requires Sound(ScanAll(content))
    requires forall b :: b in ScanAll(content) && b.kind == TRAK ==> PreDefinedOf(ScanAll(b.payload)) == Some([0, 0, 0, 0])
    ensures var r := KeptBoxesOf(ScanAll(content));
            Tiled(Kept(content, 0), r) && forall b :: b in r <==> b in ScanAll(content) && b.kind != TRAK
  {
    hide Sound, ScanAll, PrintBoxes, KeptBoxesOf, WantedBoxes, PreDefinedOf, Kept;
    SeesAll(content);
    KeptLegal(ScanAll(content));
    KeptMembersOf(ScanAll(content));
    assert VIDE[0] != 0;
    var zero: bytes := [0, 0, 0, 0];
    assert zero[0] == 0;
  }
}
