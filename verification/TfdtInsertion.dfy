/** Setting the decode time of every track fragment of a moof (core/src/media/mp4_parser.rs,
    `ensure_moof_has_tfdt` and `ensure_traf_has_tfdt`). */
module TfdtInsertion {
  import opened Bytes
  import opened Outcomes
  import opened Boxes
  import Converter
  import Demux

  // ---------------------------------------------------------------- the walks, on any bytes

  /** What the walk over a traf has collected: the last tfhd, whether a tfdt was seen, everything else. */
  datatype Parts = Parts(tfhd: Option<bytes>, hasTfdt: bool, content: bytes)

  function NewTfdt(time: u64): bytes { PrintBox(Converter.TfdtV1(time)) }

  function Collect(parts: Parts, kind: bytes, child: bytes, time: u64): Parts {
    if kind == TFHD then parts.(tfhd := Some(child))
    else if kind == TFDT then parts.(hasTfdt := true, content := parts.content + NewTfdt(time))
    else parts.(content := parts.content + child)
  }

  /** Unlike the other walks this one accepts child sizes from 1 to 7; a header that the declared size
      covers but the data does not makes the indexing panic. */
  function TrafWalk(s: bytes, at: nat, limit: nat, time: u64, parts: Parts): Outcome<Parts>
    decreases if at <= |s| then |s| - at else 0
  {
    if at + 8 > limit || at >= |s| then Done(parts)
    else if at + 8 > |s| then Panicked
    else
      var size := Read32(s, at);
      if size == 0 || at + size > |s| then Done(parts)
      else TrafWalk(s, at + size, limit, time, Collect(parts, s[at + 4..at + 8], s[at..at + size], time))
  }

  function Assemble(parts: Parts, time: u64): bytes {
    var content :=
      (if parts.tfhd.Some? then parts.tfhd.value else [])
      + (if parts.hasTfdt then [] else NewTfdt(time))
      + parts.content;
    PrintBox(Box(TRAF, content))
  }

  function EnsureTraf(traf: bytes, time: u64): Outcome<bytes> {
    if |traf| < 8 then Failed else
      match TrafWalk(traf, 8, Read32(traf, 0), time, Parts(None, false, []))
      case Done(parts) => Done(Assemble(parts, time))
      case Failed => Failed
      case Panicked => Panicked
  }

  function MoofWalk(s: bytes, at: nat, limit: nat, time: u64, content: bytes): Outcome<bytes>
    decreases if at <= |s| then |s| - at else 0
  {
    if at + 8 > limit || at >= |s| then Done(content)
    else if at + 8 > |s| then Panicked
    else
      var size := Read32(s, at);
      if size == 0 || at + size > |s| then Done(content)
      else if s[at + 4..at + 8] == TRAF then
        match EnsureTraf(s[at..at + size], time)
        case Done(traf) => MoofWalk(s, at + size, limit, time, content + traf)
        case Failed => Failed
        case Panicked => Panicked
      else MoofWalk(s, at + size, limit, time, content + s[at..at + size])
  }

  function EnsureMoof(moof: bytes, time: u64): Outcome<bytes> {
    if |moof| < 8 || moof[4..8] != MOOF then Failed else
      match MoofWalk(moof, 8, Read32(moof, 0), time, [])
      case Done(content) => Done(PrintBox(Box(MOOF, content)))
      case Failed => Failed
      case Panicked => Panicked
  }

  method EnsureTrafHasTfdt(traf: bytes, time: u64) returns (r: Outcome<bytes>)
    ensures r == EnsureTraf(traf, time)
  {
    hide Read32, PrintBox, NewTfdt;
    KindsDiffer();
    hide TFHD, TFDT, TRAF;
    if |traf| < 8 {
      return Failed;
    }
    var trafSize := Read32(traf, 0);
    var content: bytes := [];
    var cursor := 8;
    var hasTfdt := false;
    var tfhdData: Option<bytes> := None;
    while cursor + 8 <= trafSize && cursor < |traf|
      invariant TrafWalk(traf, cursor, trafSize, time, Parts(tfhdData, hasTfdt, content))
             == TrafWalk(traf, 8, trafSize, time, Parts(None, false, []))
      decreases |traf| - cursor
    {
      if cursor + 8 > |traf| {
        return Panicked;   // index out of bounds
      }
      var childSize := Read32(traf, cursor);
      var childType := traf[cursor + 4..cursor + 8];
      if childSize == 0 || cursor + childSize > |traf| {
        break;
      }
      if childType == TFHD {
        tfhdData := Some(traf[cursor..cursor + childSize]);
      } else if childType == TFDT {
        hasTfdt := true;
        content := content + NewTfdt(time);
      } else {
        content := content + traf[cursor..cursor + childSize];
      }
      cursor := cursor + childSize;
    }
    var newContent: bytes := [];
    if tfhdData.Some? {
      newContent := newContent + tfhdData.value;
    }
    if !hasTfdt {
      newContent := newContent + NewTfdt(time);
    }
    newContent := newContent + content;
    assert newContent == (if tfhdData.Some? then tfhdData.value else []) + (if hasTfdt then [] else NewTfdt(time)) + content;
    var result := Converter.FragmentedMp4Converter.WrapBox(TRAF, newContent);
    r := Done(result);
  }

  method EnsureMoofHasTfdt(moof: bytes, time: u64) returns (r: Outcome<bytes>)
    ensures r == EnsureMoof(moof, time)
  {
    hide Read32, PrintBox, EnsureTraf;
    if |moof| < 8 {
      return Failed;
    }
    var moofSize := Read32(moof, 0);
    if moof[4..8] != MOOF {
      return Failed;
    }
    var cursor := 8;
    var content: bytes := [];
    while cursor + 8 <= moofSize && cursor < |moof|
      invariant MoofWalk(moof, cursor, moofSize, time, content) == MoofWalk(moof, 8, moofSize, time, [])
      decreases |moof| - cursor
    {
      if cursor + 8 > |moof| {
        return Panicked;   // index out of bounds
      }
      var childSize := Read32(moof, cursor);
      if childSize == 0 || cursor + childSize > |moof| {
        break;
      }
      if moof[cursor + 4..cursor + 8] == TRAF {
        var traf := EnsureTrafHasTfdt(moof[cursor..cursor + childSize], time);
        if !traf.Done? {
          return if traf.Failed? then Failed else Panicked;
        }
        content := content + traf.value;
      } else {
        content := content + moof[cursor..cursor + childSize];
      }
      cursor := cursor + childSize;
    }
    var result := Converter.FragmentedMp4Converter.WrapBox(MOOF, content);
    r := Done(result);
  }

  // ---------------------------------------------------------------- on well-formed boxes

  function LastTfhd(bs: seq<Box>): Option<Box> {
    if bs == [] then None
    else if bs[|bs| - 1].kind == TFHD then Some(bs[|bs| - 1])
    else LastTfhd(bs[..|bs| - 1])
  }

  predicate HasTfdt(bs: seq<Box>) {
    bs != [] && (bs[0].kind == TFDT || HasTfdt(bs[1..]))
  }

  /** Everything but tfhds, with tfdts renewed. */
  function Renewed(bs: seq<Box>, time: u64): seq<Box> {
    if bs == [] then []
    else if bs[0].kind == TFHD then Renewed(bs[1..], time)
    else if bs[0].kind == TFDT then [Converter.TfdtV1(time)] + Renewed(bs[1..], time)
    else [bs[0]] + Renewed(bs[1..], time)
  }

  /** The children of a traf with the decode time set. */
  function SetTraf(bs: seq<Box>, time: u64): seq<Box> {
    (if LastTfhd(bs).Some? then [LastTfhd(bs).value] else [])
    + (if HasTfdt(bs) then [] else [Converter.TfdtV1(time)])
    + Renewed(bs, time)
  }

  datatype Child = Plain(box: Box) | Frag(children: seq<Box>)

  predicate LegalChild(c: Child) {
    match c
    case Plain(box) => Legal(box) && box.kind != TRAF
    case Frag(children) => AllLegal(children) && 8 + |PrintBoxes(children)| < TWO32
  }

  function BoxOf(c: Child): Box {
    match c
    case Plain(box) => box
    case Frag(children) => Box(TRAF, PrintBoxes(children))
  }

  function BoxesOf(cs: seq<Child>): (bs: seq<Box>)
    ensures |bs| == |cs|
  {
    if cs == [] then [] else [BoxOf(cs[0])] + BoxesOf(cs[1..])
  }

  predicate LegalChildren(cs: seq<Child>) {
    forall i :: 0 <= i < |cs| ==> LegalChild(cs[i])
  }

  function SetChild(c: Child, time: u64): Child {
    match c
    case Plain(box) => c
    case Frag(children) => Frag(SetTraf(children, time))
  }

  function SetChildren(cs: seq<Child>, time: u64): (r: seq<Child>)
    ensures |r| == |cs|
  {
    if cs == [] then [] else [SetChild(cs[0], time)] + SetChildren(cs[1..], time)
  }

  /** The parts collected from a list of boxes, on top of earlier ones. */
  function CollectAll(parts: Parts, bs: seq<Box>, time: u64): Parts
    decreases |bs|
  {
    if bs == [] then parts else CollectAll(Collect(parts, bs[0].kind, PrintBox(bs[0]), time), bs[1..], time)
  }

  lemma {:induction false} TrafWalkPrinted(s: bytes, at: nat, bs: seq<Box>, time: u64, parts: Parts)
    requires AllLegal(bs) && at + |PrintBoxes(bs)| == |s| && s[at..] == PrintBoxes(bs)
    ensures TrafWalk(s, at, |s|, time, parts) == Done(CollectAll(parts, bs, time))
    decreases |bs|
  {
    hide PrintBox, Read32, Collect;
    if bs != [] {
      var b, rest := bs[0], bs[1..];
      var n := 8 + |b.payload|;
      assert s[at..at + n + |PrintBoxes(rest)|] == PrintBox(b) + PrintBoxes(rest);
      SplitWindow(s, at, PrintBox(b), PrintBoxes(rest));
      BoxFound(s, at, |s|, b);
      TrafWalkPrinted(s, at + n, rest, time, Collect(parts, b.kind, PrintBox(b), time));
    }
  }

  lemma {:induction false} TfhdOfTail(bs: seq<Box>)
    requires bs != []
    ensures LastTfhd(bs) == if LastTfhd(bs[1..]).Some? then LastTfhd(bs[1..]) else if bs[0].kind == TFHD then Some(bs[0]) else None
  {
    var n := |bs| - 1;
    if n == 0 {
      assert bs[1..] == [] && bs[..n] == [];
    } else {
      assert bs[1..][|bs[1..]| - 1] == bs[n];
      if bs[n].kind != TFHD {
        TfhdOfTail(bs[..n]);
        assert bs[..n][1..] == bs[1..][..n - 1];
      }
    }
  }

  /** What one child becomes. */
  function RenewedOne(b: Box, time: u64): seq<Box> {
    if b.kind == TFHD then [] else if b.kind == TFDT then [Converter.TfdtV1(time)] else [b]
  }

  lemma {:induction false} RenewedStep(bs: seq<Box>, time: u64)
    requires bs != []
    ensures Renewed(bs, time) == RenewedOne(bs[0], time) + Renewed(bs[1..], time)
    ensures HasTfdt(bs) <==> bs[0].kind == TFDT || HasTfdt(bs[1..])
  {
    assert [] + Renewed(bs[1..], time) == Renewed(bs[1..], time);
  }

  lemma {:induction false} CollectStep(parts: Parts, b: Box, time: u64)
    ensures var r := Collect(parts, b.kind, PrintBox(b), time);
            && r.tfhd == (if b.kind == TFHD then Some(PrintBox(b)) else parts.tfhd)
            && (r.hasTfdt <==> parts.hasTfdt || b.kind == TFDT)
            && r.content == parts.content + PrintBoxes(RenewedOne(b, time))
  {
    hide PrintBox;
    KindsDiffer();
    hide TFHD, TFDT;
    PrintOne(b);
    PrintOne(Converter.TfdtV1(time));
    PrintNone();
    assert parts.content + [] == parts.content;
  }

  /** What is collected from printed boxes prints the renewed boxes. */
  lemma {:induction false} Collected(parts: Parts, bs: seq<Box>, time: u64)
    ensures var r := CollectAll(parts, bs, time);
            r.tfhd == (if LastTfhd(bs).Some? then Some(PrintBox(LastTfhd(bs).value)) else parts.tfhd)
            && r.hasTfdt == (parts.hasTfdt || HasTfdt(bs))
            && r.content == parts.content + PrintBoxes(Renewed(bs, time))
    decreases |bs|
  {
    hide PrintBox, LastTfhd, PrintBoxes, Collect, TFHD, TFDT;
    if bs == [] {
      PrintNone();
      NoTfhds([]);
      assert parts.content + [] == parts.content;
    } else {
      var b, rest := bs[0], bs[1..];
      TfhdOfTail(bs);
      RenewedStep(bs, time);
      CollectStep(parts, b, time);
      Collected(Collect(parts, b.kind, PrintBox(b), time), rest, time);
      PrintConcat(RenewedOne(b, time), Renewed(rest, time));
      hide CollectAll, Renewed, HasTfdt, RenewedOne;
      var piece, tail := PrintBoxes(RenewedOne(b, time)), PrintBoxes(Renewed(rest, time));
      Reassociate(parts.content, piece, tail);
    }
  }

  lemma {:induction false} EnsureTrafPrinted(children: seq<Box>, time: u64)
    requires LegalChild(Frag(children))
    ensures EnsureTraf(PrintBox(Box(TRAF, PrintBoxes(children))), time) == Done(PrintBox(Box(TRAF, PrintBoxes(SetTraf(children, time)))))
  {
    hide PrintBox, Read32, TrafWalk, CollectAll, SetTraf, PrintBoxes, NewTfdt, Renewed, LastTfhd, HasTfdt;
    var p := PrintBoxes(children);
    var s := PrintBox(Box(TRAF, p));
    HeaderRead(TRAF, p);
    TrafWalkPrinted(s, 8, children, time, Parts(None, false, []));
    Collected(Parts(None, false, []), children, time);
    SetTrafPrinted(children, time);
  }

  lemma {:induction false} SetTrafPrinted(children: seq<Box>, time: u64)
    ensures PrintBoxes(SetTraf(children, time))
         == (if LastTfhd(children).Some? then PrintBox(LastTfhd(children).value) else [])
            + (if HasTfdt(children) then [] else NewTfdt(time))
            + ([] + PrintBoxes(Renewed(children, time)))
  {
    hide PrintBox, PrintBoxes, Converter.TfdtV1, LastTfhd, HasTfdt, Renewed;
    var a := if LastTfhd(children).Some? then [LastTfhd(children).value] else [];
    var b := if HasTfdt(children) then [] else [Converter.TfdtV1(time)];
    var r := PrintBoxes(Renewed(children, time));
    PrintConcat(a + b, Renewed(children, time));
    PrintConcat(a, b);
    PrintNone();
    if LastTfhd(children).Some? {
      PrintOne(LastTfhd(children).value);
    }
    PrintOne(Converter.TfdtV1(time));
    assert [] + r == r;
  }

  lemma {:induction false} MoofWalkPrinted(s: bytes, at: nat, cs: seq<Child>, time: u64, content: bytes)
    requires LegalChildren(cs) && at + |PrintBoxes(BoxesOf(cs))| == |s| && s[at..] == PrintBoxes(BoxesOf(cs))
    ensures MoofWalk(s, at, |s|, time, content) == Done(content + PrintBoxes(BoxesOf(SetChildren(cs, time))))
    decreases |cs|
  {
    hide PrintBox, Read32, SetTraf, LegalChild, MoofWalk, PrintBoxes;
    if cs == [] {
      PrintNone();
      assert content + [] == content;
      MoofWalkEnds(s, at, time, content);
    } else {
      var c, rest := cs[0], cs[1..];
      var b := BoxOf(c);
      BoxOfLegal(c);
      PrintCons(b, BoxesOf(rest));
      assert s[at..at + |PrintBox(b)| + |PrintBoxes(BoxesOf(rest))|] == PrintBox(b) + PrintBoxes(BoxesOf(rest));
      SplitWindow(s, at, PrintBox(b), PrintBoxes(BoxesOf(rest)));
      MoofStep(s, at, c, time, content);
      var done := PrintBox(BoxOf(SetChild(c, time)));
      MoofWalkPrinted(s, at + 8 + |b.payload|, rest, time, content + done);
      PrintCons(BoxOf(SetChild(c, time)), BoxesOf(SetChildren(rest, time)));
      assert SetChildren(cs, time)[0] == SetChild(c, time) && SetChildren(cs, time)[1..] == SetChildren(rest, time);
      var tail := PrintBoxes(BoxesOf(SetChildren(rest, time)));
      Reassociate(content, done, tail);
    }
  }

  lemma {:induction false} MoofWalkEnds(s: bytes, at: nat, time: u64, content: bytes)
    requires at >= |s|
    ensures MoofWalk(s, at, |s|, time, content) == Done(content)
  {
  }

  lemma {:induction false} MoofStep(s: bytes, at: nat, c: Child, time: u64, content: bytes)
    requires LegalChild(c) && at + 8 + |BoxOf(c).payload| <= |s| && |BoxOf(c).kind| == 4
    requires s[at..at + 8 + |BoxOf(c).payload|] == PrintBox(BoxOf(c))
    ensures MoofWalk(s, at, |s|, time, content)
         == MoofWalk(s, at + 8 + |BoxOf(c).payload|, |s|, time, content + PrintBox(BoxOf(SetChild(c, time))))
  {
    hide PrintBox, Read32, EnsureTraf, SetTraf, LegalChild, PrintBoxes;
    BoxOfLegal(c);
    BoxFound(s, at, |s|, BoxOf(c));
    if c.Frag? {
      EnsureTrafPrinted(c.children, time);
    }
  }

  lemma {:induction false} BoxOfLegal(c: Child)
    requires LegalChild(c)
    ensures Legal(BoxOf(c)) && (BoxOf(c).kind == TRAF <==> c.Frag?)
  {
  }

  /** On a well-formed moof the rewrite sets the decode time of every traf, box by box. */
  lemma {:induction false} EnsureMoofPrinted(cs: seq<Child>, time: u64)
    requires LegalChildren(cs) && 8 + |PrintBoxes(BoxesOf(cs))| < TWO32
    ensures EnsureMoof(PrintBox(Box(MOOF, PrintBoxes(BoxesOf(cs)))), time)
         == Done(PrintBox(Box(MOOF, PrintBoxes(BoxesOf(SetChildren(cs, time))))))
  {
    hide PrintBox, Read32, MoofWalk, PrintBoxes, BoxesOf, SetChildren, LegalChildren;
    var p := PrintBoxes(BoxesOf(cs));
    var s := PrintBox(Box(MOOF, p));
    HeaderRead(MOOF, p);
    MoofWalkPrinted(s, 8, cs, time, []);
    assert [] + PrintBoxes(BoxesOf(SetChildren(cs, time))) == PrintBoxes(BoxesOf(SetChildren(cs, time)));
  }

  // ---------------------------------------------------------------- lens laws

  /** Reading after setting: a traf has a tfdt, and every one of them holds the time that was set. */
  lemma {:induction false} GetAfterSet(bs: seq<Box>, time: u64)
    ensures HasTfdt(SetTraf(bs, time))
    ensures Demux.Find(SetTraf(bs, time), TFDT).Some?
    ensures Demux.ReadTime(Demux.Find(SetTraf(bs, time), TFDT).value.payload) == Some(time)
    ensures forall b :: b in SetTraf(bs, time) && b.kind == TFDT ==> b == Converter.TfdtV1(time)
  {
    hide Demux.ReadTime;
    KindsDiffer();
    RenewedTfdts(bs, time);
    LastTfhdKind(bs);
    Demux.TfdtV1Read(time);
    hide TFHD, TFDT, HasTfdt, LastTfhd, Renewed;
    var head := if LastTfhd(bs).Some? then [LastTfhd(bs).value] else [];
    var tail := (if HasTfdt(bs) then [] else [Converter.TfdtV1(time)]) + Renewed(bs, time);
    assert SetTraf(bs, time) == head + tail;
    HasTfdtMember(tail);
    HasTfdtMember(SetTraf(bs, time));
    FindMember(SetTraf(bs, time));
  }

  lemma {:induction false} RenewedTfdts(bs: seq<Box>, time: u64)
    ensures forall b :: b in Renewed(bs, time) ==> b.kind != TFHD && (b.kind == TFDT ==> b == Converter.TfdtV1(time))
    ensures HasTfdt(bs) ==> Converter.TfdtV1(time) in Renewed(bs, time)
  {
    KindsDiffer();
    if bs != [] {
      RenewedTfdts(bs[1..], time);
    }
  }

  lemma {:induction false} LastTfhdKind(bs: seq<Box>)
    ensures LastTfhd(bs).Some? ==> LastTfhd(bs).value in bs && LastTfhd(bs).value.kind == TFHD
  {
    if bs != [] && bs[|bs| - 1].kind != TFHD {
      LastTfhdKind(bs[..|bs| - 1]);
    }
  }

  lemma {:induction false} HasTfdtMember(bs: seq<Box>)
    ensures HasTfdt(bs) <==> exists b :: b in bs && b.kind == TFDT
  {
    if bs != [] {
      HasTfdtMember(bs[1..]);
      assert forall b :: b in bs <==> b == bs[0] || b in bs[1..];
    }
  }

  lemma {:induction false} FindMember(bs: seq<Box>)
    ensures HasTfdt(bs) ==> Demux.Find(bs, TFDT).Some? && Demux.Find(bs, TFDT).value in bs && Demux.Find(bs, TFDT).value.kind == TFDT
  {
    if bs != [] {
      FindMember(bs[1..]);
    }
  }

  lemma {:induction false} RenewedConcat(a: seq<Box>, b: seq<Box>, time: u64)
    ensures Renewed(a + b, time) == Renewed(a, time) + Renewed(b, time)
    decreases |a|
  {
    if a == [] {
      assert a + b == b;
    } else {
      RenewedConcat(a[1..], b, time);
      assert (a + b)[1..] == a[1..] + b && (a + b)[0] == a[0];
    }
  }

  lemma {:induction false} RenewedTwice(bs: seq<Box>, time1: u64, time2: u64)
    ensures Renewed(Renewed(bs, time1), time2) == Renewed(bs, time2)
  {
    KindsDiffer();
    if bs != [] {
      RenewedTwice(bs[1..], time1, time2);
      var rest := Renewed(bs[1..], time1);
      if bs[0].kind == TFDT {
        assert ([Converter.TfdtV1(time1)] + rest)[1..] == rest;
      } else if bs[0].kind != TFHD {
        assert ([bs[0]] + rest)[1..] == rest;
      }
    }
  }

  lemma {:induction false} NoTfhds(bs: seq<Box>)
    requires forall b :: b in bs ==> b.kind != TFHD
    ensures LastTfhd(bs) == None
  {
    if bs != [] {
      NoTfhds(bs[..|bs| - 1]);
    }
  }

  lemma {:induction false} TfhdInFront(b: Box, rest: seq<Box>)
    requires b.kind == TFHD && forall x :: x in rest ==> x.kind != TFHD
    ensures LastTfhd([b] + rest) == Some(b)
  {
    TfhdOfTail([b] + rest);
    assert ([b] + rest)[1..] == rest;
    NoTfhds(rest);
  }

  /** The two boxes a set may put in front. */
  function Front(bs: seq<Box>): seq<Box> { if LastTfhd(bs).Some? then [LastTfhd(bs).value] else [] }

  function Inserted(bs: seq<Box>, time: u64): seq<Box> { if HasTfdt(bs) then [] else [Converter.TfdtV1(time)] }

  lemma {:induction false} RenewedFront(bs: seq<Box>, time1: u64, time2: u64)
    ensures Renewed(Front(bs), time2) == []
    ensures Renewed(Inserted(bs, time1), time2) == Inserted(bs, time2)
  {
    KindsDiffer();
    LastTfhdKind(bs);
    var f, i := Front(bs), Inserted(bs, time1);
    if f != [] {
      assert f[1..] == [];
    }
    if i != [] {
      assert i[1..] == [];
    }
  }

  lemma {:induction false} FrontKept(bs: seq<Box>, time: u64)
    ensures LastTfhd(SetTraf(bs, time)) == LastTfhd(bs)
  {
    hide LastTfhd, Renewed, HasTfdt;
    KindsDiffer();
    RenewedTfdts(bs, time);
    LastTfhdKind(bs);
    var tail := Inserted(bs, time) + Renewed(bs, time);
    assert SetTraf(bs, time) == Front(bs) + tail;
    if LastTfhd(bs).Some? {
      TfhdInFront(LastTfhd(bs).value, tail);
    } else {
      assert Front(bs) + tail == tail;
      NoTfhds(tail);
    }
  }

  /** Setting twice is setting the second time, whatever the children are. */
  lemma {:induction false} SetAfterSet(bs: seq<Box>, time1: u64, time2: u64)
    ensures SetTraf(SetTraf(bs, time1), time2) == SetTraf(bs, time2)
  {
    hide LastTfhd, Renewed, HasTfdt, Front, Inserted, SetTraf;
    var once := SetTraf(bs, time1);
    assert once == Front(bs) + Inserted(bs, time1) + Renewed(bs, time1) by {
      SetTrafParts(bs, time1);
    }
    GetAfterSet(bs, time1);
    FrontKept(bs, time1);
    RenewedConcat(Front(bs) + Inserted(bs, time1), Renewed(bs, time1), time2);
    RenewedConcat(Front(bs), Inserted(bs, time1), time2);
    RenewedFront(bs, time1, time2);
    RenewedTwice(bs, time1, time2);
    SetTrafParts(bs, time2);
    SetTrafParts(once, time2);
    InsertedNothing(bs, once, time2);
    Regroup(Front(bs), Inserted(bs, time2), Renewed(bs, time2));
  }

  lemma {:induction false} Regroup(f: seq<Box>, i: seq<Box>, r: seq<Box>)
    ensures f + [] + (([] + i) + r) == f + i + r
  {
  }

  lemma {:induction false} SetTrafParts(bs: seq<Box>, time: u64)
    ensures SetTraf(bs, time) == Front(bs) + Inserted(bs, time) + Renewed(bs, time)
  {
  }

  lemma {:induction false} InsertedNothing(bs: seq<Box>, once: seq<Box>, time: u64)
    requires HasTfdt(once) && LastTfhd(once) == LastTfhd(bs)
    ensures Inserted(once, time) == [] && Front(once) == Front(bs)
  {
  }

  /** The law for whole moofs. */
  lemma {:induction false} SetChildrenTwice(cs: seq<Child>, time1: u64, time2: u64)
    ensures SetChildren(SetChildren(cs, time1), time2) == SetChildren(cs, time2)
  {
    hide SetTraf;
    if cs != [] {
      SetChildrenTwice(cs[1..], time1, time2);
      if cs[0].Frag? {
        SetAfterSet(cs[0].children, time1, time2);
      }
      var once := SetChildren(cs, time1);
      assert once[0] == SetChild(cs[0], time1) && once[1..] == SetChildren(cs[1..], time1);
    }
  }

  // ---------------------------------------------------------------- what survives

  function OfKind(bs: seq<Box>, kind: bytes): seq<Box> {
    if bs == [] then []
    else if bs[0].kind == kind then [bs[0]] + OfKind(bs[1..], kind)
    else OfKind(bs[1..], kind)
  }

  /** The children that are neither tfhd nor tfdt. */
  function Others(bs: seq<Box>): seq<Box> {
    if bs == [] then []
    else if bs[0].kind == TFHD || bs[0].kind == TFDT then Others(bs[1..])
    else [bs[0]] + Others(bs[1..])
  }

  lemma {:induction false} OthersConcat(a: seq<Box>, b: seq<Box>)
    ensures Others(a + b) == Others(a) + Others(b)
    decreases |a|
  {
    if a == [] {
      assert a + b == b;
    } else {
      OthersConcat(a[1..], b);
      assert (a + b)[1..] == a[1..] + b && (a + b)[0] == a[0];
    }
  }

  lemma {:induction false} OfKindConcat(a: seq<Box>, b: seq<Box>, kind: bytes)
    ensures OfKind(a + b, kind) == OfKind(a, kind) + OfKind(b, kind)
    decreases |a|
  {
    if a == [] {
      assert a + b == b;
    } else {
      OfKindConcat(a[1..], b, kind);
      assert (a + b)[1..] == a[1..] + b && (a + b)[0] == a[0];
    }
  }

  lemma {:induction false} FrontOthers(bs: seq<Box>, time: u64)
    ensures Others(Front(bs)) == [] && OfKind(Front(bs), TFHD) == Front(bs)
    ensures Others(Inserted(bs, time)) == [] && OfKind(Inserted(bs, time), TFHD) == []
  {
    KindsDiffer();
    LastTfhdKind(bs);
    var f, i := Front(bs), Inserted(bs, time);
    if f != [] {
      assert f[1..] == [];
    }
    if i != [] {
      assert i[1..] == [];
    }
  }

  lemma {:induction false} RenewedOthers(bs: seq<Box>, time: u64)
    ensures Others(Renewed(bs, time)) == Others(bs) && OfKind(Renewed(bs, time), TFHD) == []
  {
    KindsDiffer();
    if bs != [] {
      RenewedOthers(bs[1..], time);
      var rest := Renewed(bs[1..], time);
      if bs[0].kind == TFDT {
        assert ([Converter.TfdtV1(time)] + rest)[1..] == rest;
      } else if bs[0].kind != TFHD {
        assert ([bs[0]] + rest)[1..] == rest;
      }
    }
  }

  lemma {:induction false} TfhdCount(bs: seq<Box>)
    ensures LastTfhd(bs) == if OfKind(bs, TFHD) == [] then None else Some(OfKind(bs, TFHD)[|OfKind(bs, TFHD)| - 1])
  {
    if bs != [] {
      TfhdOfTail(bs);
      TfhdCount(bs[1..]);
    }
  }

  lemma {:induction false} SetOthers(bs: seq<Box>, time: u64)
    ensures Others(SetTraf(bs, time)) == Others(bs) && OfKind(SetTraf(bs, time), TFHD) == Front(bs)
  {
    SetTrafParts(bs, time);
    hide LastTfhd, Renewed, HasTfdt, Front, Inserted, Others, OfKind, SetTraf;
    RenewedOthers(bs, time);
    FrontOthers(bs, time);
    var head := Front(bs) + Inserted(bs, time);
    OthersConcat(head, Renewed(bs, time));
    OthersConcat(Front(bs), Inserted(bs, time));
    OfKindConcat(head, Renewed(bs, time), TFHD);
    OfKindConcat(Front(bs), Inserted(bs, time), TFHD);
    assert Front(bs) + [] + [] == Front(bs);
    assert [] + [] + Others(bs) == Others(bs);
  }

  /** Every other child survives in order and the tfhd comes first; the tfhds survive exactly when the traf
      had at most one. A tfdt that was missing stands right behind the tfhd. */
  lemma {:induction false} SetKeeps(bs: seq<Box>, time: u64)
    ensures Others(SetTraf(bs, time)) == Others(bs)
    ensures OfKind(SetTraf(bs, time), TFHD) == OfKind(bs, TFHD) <==> |OfKind(bs, TFHD)| <= 1
    ensures OfKind(bs, TFHD) != [] ==>
      SetTraf(bs, time) != [] && SetTraf(bs, time)[0] == OfKind(bs, TFHD)[|OfKind(bs, TFHD)| - 1]
    ensures OfKind(bs, TFHD) != [] && !HasTfdt(bs) ==>
      |SetTraf(bs, time)| >= 2 && SetTraf(bs, time)[1] == Converter.TfdtV1(time)
  {
    hide LastTfhd, Renewed, HasTfdt, Others, OfKind;
    TfhdCount(bs);
    SetOthers(bs, time);
    var tfhds := OfKind(bs, TFHD);
    if |tfhds| == 1 {
      assert tfhds == [tfhds[0]];
    }
  }

  // ---------------------------------------------------------------- lengths

  /** 20 bytes for a missing tfdt, else the difference between 20 and the size of each tfdt there was; less the
      tfhds in front of the last one, which are dropped. */
  function Growth(bs: seq<Box>): int {
    (if HasTfdt(bs) then TfdtGrowth(bs) else 20) - Dropped(bs)
  }

  function Dropped(bs: seq<Box>): int {
    TfhdBytes(bs) - if LastTfhd(bs).Some? then |PrintBox(LastTfhd(bs).value)| else 0
  }

  function TfdtGrowth(bs: seq<Box>): int {
    if bs == [] then 0 else (if bs[0].kind == TFDT then 20 - |PrintBox(bs[0])| else 0) + TfdtGrowth(bs[1..])
  }

  function TfhdBytes(bs: seq<Box>): nat {
    |PrintBoxes(OfKind(bs, TFHD))|
  }

  lemma {:induction false} RenewedLength(bs: seq<Box>, time: u64)
    ensures |PrintBoxes(Renewed(bs, time))| + TfhdBytes(bs) == |PrintBoxes(bs)| + TfdtGrowth(bs)
  {
    hide PrintBox;
    KindsDiffer();
    if bs != [] {
      var b, rest := bs[0], bs[1..];
      RenewedLength(rest, time);
      if b.kind == TFHD {
        PrintCons(b, OfKind(rest, TFHD));
      } else {
        if b.kind == TFDT {
          PrintCons(Converter.TfdtV1(time), Renewed(rest, time));
          TfdtLength(time);
        } else {
          PrintCons(b, Renewed(rest, time));
        }
      }
    }
  }

  lemma {:induction false} TfdtLength(time: u64)
    ensures |PrintBox(Converter.TfdtV1(time))| == 20
  {
  }

  lemma {:induction false} NoTfdtNoGrowth(bs: seq<Box>)
    ensures !HasTfdt(bs) ==> TfdtGrowth(bs) == 0
  {
    if bs != [] {
      NoTfdtNoGrowth(bs[1..]);
    }
  }

  /** With at most one tfhd nothing is dropped. */
  lemma {:induction false} NothingDropped(bs: seq<Box>)
    requires |OfKind(bs, TFHD)| <= 1
    ensures Dropped(bs) == 0
  {
    hide PrintBox;
    TfhdCount(bs);
    var tfhds := OfKind(bs, TFHD);
    if tfhds != [] {
      assert tfhds == [tfhds[0]];
      PrintOne(tfhds[0]);
    }
  }

  /** How much any traf grows: by 20 bytes when it had no tfdt, else by 4 per 16-byte tfdt, less the tfhds it loses. */
  lemma {:induction false} SetLength(bs: seq<Box>, time: u64)
    ensures |PrintBoxes(SetTraf(bs, time))| == |PrintBoxes(bs)| + Growth(bs)
  {
    hide PrintBox;
    RenewedLength(bs, time);
    SetTrafPrinted(bs, time);
    TfdtLength(time);
    NoTfdtNoGrowth(bs);
  }

  function TotalGrowth(cs: seq<Child>): int {
    if cs == [] then 0 else (if cs[0].Frag? then Growth(cs[0].children) else 0) + TotalGrowth(cs[1..])
  }

  /** A moof grows by the sum over its trafs. */
  lemma {:induction false} SetChildrenLength(cs: seq<Child>, time: u64)
    ensures |PrintBoxes(BoxesOf(SetChildren(cs, time)))| == |PrintBoxes(BoxesOf(cs))| + TotalGrowth(cs)
  {
    hide SetTraf, Growth, OfKind;
    if cs != [] {
      SetChildrenLength(cs[1..], time);
      if cs[0].Frag? {
        SetLength(cs[0].children, time);
      }
      var r := SetChildren(cs, time);
      assert r[0] == SetChild(cs[0], time) && r[1..] == SetChildren(cs[1..], time);
      PrintCons(BoxOf(cs[0]), BoxesOf(cs[1..]));
      PrintCons(BoxOf(r[0]), BoxesOf(r[1..]));
    }
  }
}
