/** The in-place patch of tfhd flags inside a moof (core/src/media/mp4_parser.rs,
    `fix_tfhd_flags_recursive`). The recursion into a traf walks on past the end of that traf. */
module TfhdPatch {
  import opened Bytes
  import opened Boxes
  import opened Bits
  import Converter
  import Demux

  // ---------------------------------------------------------------- one box

  /** base-data-offset-present (0x000001) clear and default-base-is-moof (0x020000) set. */
  predicate Compatible(high: byte, low: byte) {
    low % 2 == 0 && high / 2 % 2 == 1
  }

  function SetHigh(high: byte): byte { if high / 2 % 2 == 1 then high else high + 2 }

  function ClearLow(low: byte): byte { if low % 2 == 0 then low else low - 1 }

  lemma {:induction false} FixedFlags(high: byte, low: byte)
    ensures Compatible(SetHigh(high), ClearLow(low))
    ensures Compatible(high, low) ==> SetHigh(high) == high && ClearLow(low) == low
  {
  }

  /** A tfhd whose 24-bit flags have base-data-offset-present (bit 0) set or default-base-is-moof (bit 17) clear. */
  ghost predicate Unfit(p: bytes)
    requires |p| >= 4
  {
    Bit(Demux.Flags(p), 0) || !Bit(Demux.Flags(p), 17)
  }

  /** `after` is `before` with bit 0 of the flags clear and bit 17 set: every other flag bit and every byte that
      holds neither bit is as it was. */
  ghost predicate FlagsFixed(before: bytes, after: bytes)
    requires |before| >= 4
  {
    && |after| == |before|
    && (forall i :: 0 <= i < |before| && i != 1 && i != 3 ==> after[i] == before[i])
    && ClearedAndSet(Demux.Flags(before), Demux.Flags(after))
  }

  /** The three flag bytes as one number, and the two tests and updates on it. */
  lemma {:induction false} FlagWord(a: nat, b: byte, c: byte)
    ensures var f := a * 0x1_0000 + b * 0x100 + c; f % 2 == c % 2 && f / 0x2_0000 == a / 2
  {
  }

  lemma {:induction false} SameTests(p: bytes)
    requires |p| >= 4
    ensures Unfit(p) <==> !Compatible(p[1], p[3])
  {
    FlagWord(p[1], p[2], p[3]);
    Weight17();
    LowBit(Demux.Flags(p));
  }

  lemma {:induction false} FlagsAfter(p: bytes)
    requires |p| >= 4
    ensures FlagsFixed(p, p[1 := SetHigh(p[1])][3 := ClearLow(p[3])])
  {
    hide ClearedAndSet;
    var q := p[1 := SetHigh(p[1])][3 := ClearLow(p[3])];
    var f := Demux.Flags(p);
    FlagWord(p[1], p[2], p[3]);
    Weight17();
    Cleared(f);
    assert Demux.Flags(q) == f - f % 2 + if Bit(f, 17) then 0 else 0x2_0000;
  }

  /** Flags and the other bytes say what the payload is. */
  lemma {:induction false} FixedOnce(p: bytes, q: bytes, r: bytes)
    requires |p| >= 4 && FlagsFixed(p, q) && FlagsFixed(p, r)
    ensures q == r
  {
    hide ClearedAndSet;
    ClearedOnce(Demux.Flags(p), Demux.Flags(q), Demux.Flags(r));
    WordBytes(q[1], q[2], q[3], r[1], r[2], r[3]);
    assert forall i :: 0 <= i < |p| ==> q[i] == r[i];
  }

  lemma {:induction false} WordBytes(a: byte, b: byte, c: byte, x: byte, y: byte, z: byte)
    requires a * 0x1_0000 + b * 0x100 + c == x * 0x1_0000 + y * 0x100 + z
    ensures a == x && b == y && c == z
  {
  }

  /** The tfhd at `at` needs a change: it is long enough to hold flags and they are not compatible. */
  predicate NeedsFix(s: bytes, at: nat, size: nat)
    requires at + size <= |s|
  {
    16 <= size && !Compatible(s[at + 9], s[at + 11])
  }

  function FixAt(s: bytes, at: nat, size: nat): (r: bytes)
    requires at + size <= |s|
    ensures |r| == |s|
  {
    if NeedsFix(s, at, size) then s[at + 9 := SetHigh(s[at + 9])][at + 11 := ClearLow(s[at + 11])] else s
  }

  // ---------------------------------------------------------------- the walk, on any bytes

  datatype Patched = Patched(data: bytes, count: nat)

  /** Boxes from `at` to the end of the data; a traf or mfhd is entered and then passed. */
  function Patch(s: bytes, at: nat): (r: Patched)
    ensures |r.data| == |s|
    decreases if at <= |s| then |s| - at else 0
  {
    if !Fits(s, at, |s|) then Patched(s, 0) else
      var size := Read32(s, at);
      var kind := s[at + 4..at + 8];
      if kind == TFHD then
        var rest := Patch(FixAt(s, at, size), at + size);
        Patched(rest.data, (if NeedsFix(s, at, size) then 1 else 0) + rest.count)
      else if kind == TRAF || kind == MFHD then
        var inner := Patch(s, at + 8);
        var rest := Patch(inner.data, at + size);
        Patched(rest.data, inner.count + rest.count)
      else
        Patch(s, at + size)
  }

  /** `fix_tfhd_flags_recursive` on the buffer itself, with its running count. It ends on every input. */
  method FixTfhdFlagsRecursive(data: array<byte>, start: nat, modificationsMade: nat) returns (made: nat)
    modifies data
    ensures data[..] == Patch(old(data[..]), start).data
    ensures made == modificationsMade + Patch(old(data[..]), start).count
    decreases if start <= data.Length then data.Length - start else 0
  {
    hide Read32, FixAt, NeedsFix, Patch;
    made := modificationsMade;
    var cursor := start;
    ghost var goal := Patch(data[..], start);
    while cursor + 8 <= data.Length
      invariant start <= cursor
      invariant Patch(data[..], cursor).data == goal.data
      invariant made + Patch(data[..], cursor).count == modificationsMade + goal.count
      decreases data.Length - cursor
    {
      var boxSize := Read32(data[..], cursor);
      if boxSize < 8 || cursor + boxSize > data.Length {
        PatchStops(data[..], cursor);
        break;
      }
      var boxType := data[cursor + 4..cursor + 8];
      assert boxType == data[..][cursor + 4..cursor + 8];
      KindsDiffer();
      hide TFHD, TRAF, MFHD;
      PatchStep(data[..], cursor, boxSize, boxType);
      if boxType == TFHD {
        var fixed := FixSingleTfhdFlags(data, cursor, boxSize);
        if fixed {
          made := made + 1;
        }
      } else if boxType == TRAF || boxType == MFHD {
        made := FixTfhdFlagsRecursive(data, cursor + 8, made);
      }
      cursor := cursor + boxSize;
    }
    PatchStops(data[..], cursor);
  }

  method FixSingleTfhdFlags(data: array<byte>, boxOffset: nat, boxSize: nat) returns (fixed: bool)
    requires boxOffset + boxSize <= data.Length
    modifies data
    ensures data[..] == FixAt(old(data[..]), boxOffset, boxSize)
    ensures fixed == NeedsFix(old(data[..]), boxOffset, boxSize)
    ensures fixed <==> 16 <= boxSize && Unfit(old(data[boxOffset + 8..boxOffset + boxSize]))
    ensures if boxSize < 16 then data[..] == old(data[..]) else
              && data[..boxOffset + 8] == old(data[..boxOffset + 8])
              && FlagsFixed(old(data[boxOffset + 8..boxOffset + boxSize]), data[boxOffset + 8..boxOffset + boxSize])
              && data[boxOffset + boxSize..] == old(data[boxOffset + boxSize..])
  {
    hide FlagsFixed, Unfit;
    if boxSize < 16 {
      return false;
    }
    ghost var payload := data[boxOffset + 8..boxOffset + boxSize];
    SameTests(payload);
    FlagsAfter(payload);
    var flagsOffset := boxOffset + 9;
    var hasBaseDataOffset := data[flagsOffset + 2] % 2 != 0;
    var hasDefaultBaseIsMoof := data[flagsOffset] / 2 % 2 != 0;
    if hasDefaultBaseIsMoof && !hasBaseDataOffset {
      FixedFlags(data[flagsOffset], data[flagsOffset + 2]);
      assert payload[1 := payload[1]][3 := payload[3]] == payload;
      return false;
    }
    ghost var before := data[..];
    data[flagsOffset] := SetHigh(data[flagsOffset]);
    data[flagsOffset + 2] := ClearLow(data[flagsOffset + 2]);
    assert data[..] == before[boxOffset + 9 := SetHigh(before[boxOffset + 9])][boxOffset + 11 := ClearLow(before[boxOffset + 11])];
    assert data[boxOffset + 8..boxOffset + boxSize] == payload[1 := SetHigh(payload[1])][3 := ClearLow(payload[3])];
    fixed := true;
  }

  /** `fix_moof_tfhd_flags`: patch a copy of the moof content and put a new header before it. */
  method FixMoofTfhdFlags(content: bytes) returns (moof: bytes)
    ensures moof == PrintBox(Box(MOOF, Patch(content, 0).data))
  {
    hide PrintBox;
    var data := new byte[|content|](i requires 0 <= i < |content| => content[i]);
    assert data[..] == content;
    var made := FixTfhdFlagsRecursive(data, 0, 0);
    moof := Converter.FragmentedMp4Converter.WrapBox(MOOF, data[..]);
  }

  // ---------------------------------------------------------------- well-formed moof content

  datatype Node = Leaf(box: Box) | Traf(children: seq<Node>)

  function PrintNode(n: Node): bytes {
    match n
    case Leaf(box) => PrintBox(box)
    case Traf(children) => PrintBox(Box(TRAF, PrintNodes(children)))
  }

  function PrintNodes(ns: seq<Node>): bytes {
    if ns == [] then [] else PrintNode(ns[0]) + PrintNodes(ns[1..])
  }

  /** Sizes fit 32 bits, trafs are trees, and an mfhd starts with zero version and flags. */
  predicate LegalNode(n: Node) {
    match n
    case Leaf(box) =>
      Legal(box) && box.kind != TRAF && (box.kind == MFHD ==> |box.payload| >= 4 && box.payload[..4] == [0, 0, 0, 0])
    case Traf(children) => LegalNodes(children) && 8 + |PrintNodes(children)| < TWO32
  }

  predicate LegalNodes(ns: seq<Node>) {
    ns == [] || (LegalNode(ns[0]) && LegalNodes(ns[1..]))
  }

  predicate BadTfhd(b: Box) {
    b.kind == TFHD && |b.payload| >= 8 && !Compatible(b.payload[1], b.payload[3])
  }

  /** Only the two flag bytes of a tfhd change. */
  function FixBox(b: Box): (r: Box)
    ensures r.kind == b.kind && |r.payload| == |b.payload|
  {
    if BadTfhd(b) then Box(b.kind, b.payload[1 := SetHigh(b.payload[1])][3 := ClearLow(b.payload[3])]) else b
  }

  function FixNode(n: Node): Node {
    match n
    case Leaf(box) => Leaf(FixBox(box))
    case Traf(children) => Traf(FixNodes(children))
  }

  function FixNodes(ns: seq<Node>): (r: seq<Node>)
    ensures |r| == |ns|
  {
    if ns == [] then [] else [FixNode(ns[0])] + FixNodes(ns[1..])
  }

  /** How many tfhds are not compatible. */
  function BadNode(n: Node): nat {
    match n
    case Leaf(box) => if BadTfhd(box) then 1 else 0
    case Traf(children) => BadNodes(children)
  }

  function BadNodes(ns: seq<Node>): nat {
    if ns == [] then 0 else BadNode(ns[0]) + BadNodes(ns[1..])
  }

  lemma {:induction false} FixNodeKeeps(n: Node)
    ensures |PrintNode(FixNode(n))| == |PrintNode(n)|
    ensures LegalNode(n) ==> LegalNode(FixNode(n))
    ensures FixNode(FixNode(n)) == FixNode(n) && BadNode(FixNode(n)) == 0
    decreases n, 1
  {
    match n
    case Leaf(box) => FixBoxKeeps(box);
    case Traf(children) => FixNodesKeep(children);
  }

  lemma {:induction false} FixBoxKeeps(b: Box)
    ensures !BadTfhd(FixBox(b)) && FixBox(FixBox(b)) == FixBox(b)
    ensures Legal(b) ==> Legal(FixBox(b))
    ensures |PrintBox(FixBox(b))| == |PrintBox(b)|
    ensures b.kind == MFHD ==> FixBox(b) == b
  {
    KindsDiffer();
    if BadTfhd(b) {
      FixedFlags(b.payload[1], b.payload[3]);
    }
  }

  /** Fixing keeps every length and leaves nothing to fix. */
  lemma {:induction false} FixNodesKeep(ns: seq<Node>)
    ensures |PrintNodes(FixNodes(ns))| == |PrintNodes(ns)|
    ensures LegalNodes(ns) ==> LegalNodes(FixNodes(ns))
    ensures FixNodes(FixNodes(ns)) == FixNodes(ns) && BadNodes(FixNodes(ns)) == 0
    decreases ns, 0
  {
    if ns != [] {
      FixNodeKeeps(ns[0]);
      FixNodesKeep(ns[1..]);
      assert FixNodes(ns)[1..] == FixNodes(ns[1..]);
    }
  }

  lemma {:induction false} PrintNodesConcat(a: seq<Node>, b: seq<Node>)
    ensures PrintNodes(a + b) == PrintNodes(a) + PrintNodes(b)
    ensures FixNodes(a + b) == FixNodes(a) + FixNodes(b)
    ensures BadNodes(a + b) == BadNodes(a) + BadNodes(b)
    ensures LegalNodes(a) && LegalNodes(b) ==> LegalNodes(a + b)
  {
    OnlyPrintConcat(a, b);
    OnlyFixConcat(a, b);
    OnlyBadConcat(a, b);
    OnlyLegalConcat(a, b);
  }

  lemma {:induction false} OnlyPrintConcat(a: seq<Node>, b: seq<Node>)
    ensures PrintNodes(a + b) == PrintNodes(a) + PrintNodes(b)
    decreases |a|
  {
    hide PrintNode;
    if a == [] {
      assert a + b == b;
    } else {
      OnlyPrintConcat(a[1..], b);
      assert (a + b)[1..] == a[1..] + b && (a + b)[0] == a[0];
    }
  }

  lemma {:induction false} OnlyFixConcat(a: seq<Node>, b: seq<Node>)
    ensures FixNodes(a + b) == FixNodes(a) + FixNodes(b)
    decreases |a|
  {
    hide FixNode;
    if a == [] {
      assert a + b == b;
    } else {
      OnlyFixConcat(a[1..], b);
      assert (a + b)[1..] == a[1..] + b && (a + b)[0] == a[0];
    }
  }

  lemma {:induction false} OnlyBadConcat(a: seq<Node>, b: seq<Node>)
    ensures BadNodes(a + b) == BadNodes(a) + BadNodes(b)
    decreases |a|
  {
    hide BadNode;
    if a == [] {
      assert a + b == b;
    } else {
      OnlyBadConcat(a[1..], b);
      assert (a + b)[1..] == a[1..] + b && (a + b)[0] == a[0];
    }
  }

  lemma {:induction false} OnlyLegalConcat(a: seq<Node>, b: seq<Node>)
    ensures LegalNodes(a) && LegalNodes(b) ==> LegalNodes(a + b)
    decreases |a|
  {
    hide LegalNode;
    if a == [] {
      assert a + b == b;
    } else if LegalNodes(a) {
      OnlyLegalConcat(a[1..], b);
      assert (a + b)[1..] == a[1..] + b && (a + b)[0] == a[0];
    }
  }

  // ---------------------------------------------------------------- the walk on well-formed content

  /** Replacing bytes inside the middle part of a text. */
  lemma {:induction false} UpdateMiddle(pre: bytes, mid: bytes, post: bytes, i: nat, b: byte)
    requires i < |mid|
    ensures (pre + mid + post)[|pre| + i := b] == pre + mid[i := b] + post
  {
  }

  /** The fix at a box changes just that box. */
  lemma {:induction false} FixAtBox(pre: bytes, b: Box, post: bytes)
    requires Legal(b) && b.kind == TFHD
    ensures var s := pre + PrintBox(b) + post;
            FixAt(s, |pre|, 8 + |b.payload|) == pre + PrintBox(FixBox(b)) + post
            && (NeedsFix(s, |pre|, 8 + |b.payload|) <==> BadTfhd(b))
  {
    hide BE32;
    var p := PrintBox(b);
    var s := pre + p + post;
    assert |p| == 8 + |b.payload|;
    if |b.payload| >= 8 {
      assert s[|pre| + 9] == p[9] == b.payload[1];
      assert s[|pre| + 11] == p[11] == b.payload[3];
      if BadTfhd(b) {
        var hi, lo := SetHigh(b.payload[1]), ClearLow(b.payload[3]);
        UpdateMiddle(pre, p, post, 9, hi);
        UpdateMiddle(pre, p[9 := hi], post, 11, lo);
        assert p[9 := hi][11 := lo] == PrintBox(FixBox(b));
      }
    }
  }

  /** What the walk sees at the start of a printed box. */
  lemma {:induction false} BoxSeen(pre: bytes, b: Box, post: bytes)
    requires Legal(b)
    ensures var s := pre + PrintBox(b) + post;
            Fits(s, |pre|, |s|) && Read32(s, |pre|) == 8 + |b.payload| && s[|pre| + 4..|pre| + 8] == b.kind
  {
    var s := pre + PrintBox(b) + post;
    assert s[|pre|..|pre| + 8 + |b.payload|] == PrintBox(b);
    BoxFound(s, |pre|, |s|, b);
  }

  /** The recursion into an mfhd with zero version and flags stops at once. */
  lemma {:induction false} MfhdStops(pre: bytes, b: Box, post: bytes)
    requires Legal(b) && b.kind == MFHD && |b.payload| >= 4 && b.payload[..4] == [0, 0, 0, 0]
    ensures Patch(pre + PrintBox(b) + post, |pre| + 8) == Patched(pre + PrintBox(b) + post, 0)
  {
    hide BE32, Patch;
    var s := pre + PrintBox(b) + post;
    assert s[|pre| + 8..|pre| + 12] == b.payload[..4];
    ZeroValue(b.payload[..4]);
    PatchStops(s, |pre| + 8);
  }

  lemma {:induction false} PatchStops(s: bytes, at: nat)
    requires !Fits(s, at, |s|)
    ensures Patch(s, at) == Patched(s, 0)
  {
  }

  /** One step of the walk, by the kind of box. */
  lemma {:induction false} PatchTfhd(s: bytes, at: nat, size: nat)
    requires Fits(s, at, |s|) && Read32(s, at) == size && s[at + 4..at + 8] == TFHD
    ensures Patch(s, at) == Patched(Patch(FixAt(s, at, size), at + size).data,
                                    (if NeedsFix(s, at, size) then 1 else 0) + Patch(FixAt(s, at, size), at + size).count)
  {
    hide Read32, FixAt, NeedsFix, TFHD, TRAF, MFHD;
  }

  lemma {:induction false} PatchNested(s: bytes, at: nat, size: nat, kind: bytes)
    requires Fits(s, at, |s|) && Read32(s, at) == size && s[at + 4..at + 8] == kind
    requires kind != TFHD && (kind == TRAF || kind == MFHD)
    ensures Patch(s, at) == Patched(Patch(Patch(s, at + 8).data, at + size).data,
                                    Patch(s, at + 8).count + Patch(Patch(s, at + 8).data, at + size).count)
  {
    hide Read32, FixAt, NeedsFix, TFHD, TRAF, MFHD;
  }

  lemma {:induction false} PatchOther(s: bytes, at: nat, size: nat, kind: bytes)
    requires Fits(s, at, |s|) && Read32(s, at) == size && s[at + 4..at + 8] == kind
    requires kind != TFHD && kind != TRAF && kind != MFHD
    ensures Patch(s, at) == Patch(s, at + size)
  {
    hide Read32, FixAt, NeedsFix, TFHD, TRAF, MFHD;
  }

  lemma {:induction false} PatchStep(s: bytes, at: nat, size: nat, kind: bytes)
    requires Fits(s, at, |s|) && Read32(s, at) == size && s[at + 4..at + 8] == kind
    ensures kind == TFHD ==>
      Patch(s, at) == Patched(Patch(FixAt(s, at, size), at + size).data,
                              (if NeedsFix(s, at, size) then 1 else 0) + Patch(FixAt(s, at, size), at + size).count)
    ensures kind == TRAF || kind == MFHD ==>
      Patch(s, at) == Patched(Patch(Patch(s, at + 8).data, at + size).data,
                              Patch(s, at + 8).count + Patch(Patch(s, at + 8).data, at + size).count)
    ensures kind != TFHD && kind != TRAF && kind != MFHD ==> Patch(s, at) == Patch(s, at + size)
  {
    hide Read32, FixAt, NeedsFix, Patch, Fits;
    KindsDiffer();
    hide TFHD, TRAF, MFHD;
    if kind == TFHD {
      PatchTfhd(s, at, size);
    } else if kind == TRAF || kind == MFHD {
      PatchNested(s, at, size, kind);
    } else {
      PatchOther(s, at, size, kind);
    }
  }

  lemma {:induction false} FixedCons(pre: bytes, ns: seq<Node>)
    requires ns != []
    ensures pre + PrintNodes(ns) == (pre + PrintNode(ns[0])) + PrintNodes(ns[1..])
    ensures pre + PrintNodes(FixNodes(ns)) == (pre + PrintNode(FixNode(ns[0]))) + PrintNodes(FixNodes(ns[1..]))
    ensures BadNodes(ns) == BadNode(ns[0]) + BadNodes(ns[1..])
  {
    hide PrintNode, PrintNodes, FixNode, FixNodes, BadNode, BadNodes;
    NodesCons(ns);
    Reassociate(pre, PrintNode(ns[0]), PrintNodes(ns[1..]));
    NodesCons(FixNodes(ns));
    Reassociate(pre, PrintNode(FixNode(ns[0])), PrintNodes(FixNodes(ns[1..])));
  }

  lemma {:induction false} NodesCons(ns: seq<Node>)
    requires ns != []
    ensures PrintNodes(ns) == PrintNode(ns[0]) + PrintNodes(ns[1..])
    ensures FixNodes(ns)[0] == FixNode(ns[0]) && FixNodes(ns)[1..] == FixNodes(ns[1..])
    ensures BadNodes(ns) == BadNode(ns[0]) + BadNodes(ns[1..])
  {
    hide PrintNode, FixNode, BadNode;
  }

  /** On well-formed content the walk fixes every tfhd in place, counts each changed one once, and changes
      nothing else -- although it visits the boxes behind a traf again and again. */
  lemma {:induction false} PatchNodes(pre: bytes, ns: seq<Node>)
    requires LegalNodes(ns)
    ensures Patch(pre + PrintNodes(ns), |pre|) == Patched(pre + PrintNodes(FixNodes(ns)), BadNodes(ns))
    decreases |PrintNodes(ns)|, 1
  {
    if ns == [] {
      assert pre + [] == pre;
      PatchStops(pre, |pre|);
    } else {
      FixedCons(pre, ns);
      match ns[0]
      case Leaf(box) => PatchLeaf(pre, box, ns[1..]);
      case Traf(children) => PatchTraf(pre, children, ns[1..]);
    }
  }

  lemma {:induction false} PatchLeaf(pre: bytes, b: Box, rest: seq<Node>)
    requires LegalNode(Leaf(b)) && LegalNodes(rest)
    ensures Patch((pre + PrintBox(b)) + PrintNodes(rest), |pre|)
         == Patched((pre + PrintBox(FixBox(b))) + PrintNodes(FixNodes(rest)), (if BadTfhd(b) then 1 else 0) + BadNodes(rest))
    decreases 8 + |b.payload| + |PrintNodes(rest)|, 0
  {
    hide Patch, PrintNodes, PrintBox, FixAt, NeedsFix, BadTfhd, BadNodes, FixNodes, Fits, Read32, FixBox, LegalNode, LegalNodes, Legal;
    LeafIs(b);
    var post := PrintNodes(rest);
    var s := (pre + PrintBox(b)) + post;
    var size := 8 + |b.payload|;
    BoxSeen(pre, b, post);
    KindsDiffer();
    FixBoxKeeps(b);
    PatchStep(s, |pre|, size, b.kind);
    hide TFHD, TRAF, MFHD;
    if b.kind == TFHD {
      FixAtBox(pre, b, post);
      PatchNodes(pre + PrintBox(FixBox(b)), rest);
    } else {
      if b.kind == MFHD {
        MfhdStops(pre, b, post);
      }
      NotTfhd(b);
      PatchNodes(pre + PrintBox(b), rest);
    }
  }

  lemma {:induction false} LeafIs(b: Box)
    requires LegalNode(Leaf(b))
    ensures Legal(b) && b.kind != TRAF && (b.kind == MFHD ==> |b.payload| >= 4 && b.payload[..4] == [0, 0, 0, 0])
    ensures |PrintBox(b)| == 8 + |b.payload|
  {
  }

  lemma {:induction false} NotTfhd(b: Box)
    requires b.kind != TFHD
    ensures FixBox(b) == b && !BadTfhd(b)
  {
  }

  lemma {:induction false} TrafHead(pre: bytes, children: seq<Node>, tail: bytes)
    requires 8 + |PrintNodes(children)| < TWO32
    ensures |PrintNode(Traf(children))| == 8 + |PrintNodes(children)|
    ensures (pre + PrintNode(Traf(children))) + tail
         == (pre + (BE32(8 + |PrintNodes(children)|) + TRAF)) + (PrintNodes(children) + tail)
  {
    hide BE32;
    var p, q := BE32(8 + |PrintNodes(children)|), PrintNodes(children);
    assert PrintNode(Traf(children)) == p + TRAF + q;
  }

  lemma {:induction false} PatchTraf(pre: bytes, children: seq<Node>, rest: seq<Node>)
    requires LegalNode(Traf(children)) && LegalNodes(rest)
    ensures Patch((pre + PrintNode(Traf(children))) + PrintNodes(rest), |pre|)
         == Patched((pre + PrintNode(Traf(FixNodes(children)))) + PrintNodes(FixNodes(rest)), BadNodes(children) + BadNodes(rest))
    decreases 8 + |PrintNodes(children)| + |PrintNodes(rest)|, 0
  {
    hide Patch, PrintNodes, PrintBox, PrintNode, BadNodes, FixNodes, Fits, Read32, BE32, LegalNode, LegalNodes;
    var size := 8 + |PrintNodes(children)|;
    var head := BE32(size) + TRAF;
    var s := (pre + PrintNode(Traf(children))) + PrintNodes(rest);
    TrafSeen(pre, children, PrintNodes(rest));
    PatchStep(s, |pre|, size, TRAF);
    HeadLength(size);
    // Inside the traf the walk sees its children and then everything behind it ...
    TrafHead(pre, children, PrintNodes(rest));
    PrintNodesConcat(children, rest);
    PatchNodes(pre + head, children + rest);
    FixNodesKeep(children);
    FixNodesKeep(rest);
    PrintNodesConcat(FixNodes(children), FixNodes(rest));
    TrafHead(pre, FixNodes(children), PrintNodes(FixNodes(rest)));
    // ... and behind the traf it sees fixed boxes only.
    PatchNodes(pre + PrintNode(Traf(FixNodes(children))), FixNodes(rest));
  }

  lemma {:induction false} TrafSeen(pre: bytes, children: seq<Node>, post: bytes)
    requires LegalNode(Traf(children))
    ensures LegalNodes(children) && 8 + |PrintNodes(children)| < TWO32
    ensures var s := (pre + PrintNode(Traf(children))) + post;
            Fits(s, |pre|, |s|) && Read32(s, |pre|) == 8 + |PrintNodes(children)| && s[|pre| + 4..|pre| + 8] == TRAF
  {
    BoxSeen(pre, Box(TRAF, PrintNodes(children)), post);
  }

  lemma {:induction false} HeadLength(n: nat)
    ensures |BE32(n) + TRAF| == 8
  {
  }

  /** The patch of a well-formed moof, and what a second run finds: nothing. */
  lemma {:induction false} PatchMoof(ns: seq<Node>)
    requires LegalNodes(ns)
    ensures var once := Patch(PrintNodes(ns), 0);
            once == Patched(PrintNodes(FixNodes(ns)), BadNodes(ns))
            && Patch(once.data, 0) == Patched(once.data, 0)
  {
    assert [] + PrintNodes(ns) == PrintNodes(ns);
    PatchNodes([], ns);
    FixNodesKeep(ns);
    assert [] + PrintNodes(FixNodes(ns)) == PrintNodes(FixNodes(ns));
    PatchNodes([], FixNodes(ns));
  }

  // ---------------------------------------------------------------- what the patch means

  /** A tfhd that can hold flags has them fixed; every other box is the same box. */
  ghost predicate BoxFixed(b: Box, f: Box) {
    if b.kind == TFHD && |b.payload| >= 8 then f.kind == TFHD && FlagsFixed(b.payload, f.payload) else f == b
  }

  ghost predicate NodeFixed(n: Node, m: Node) {
    match (n, m)
    case (Leaf(b), Leaf(f)) => BoxFixed(b, f)
    case (Traf(before), Traf(after)) => NodesFixed(before, after)
    case _ => false
  }

  /** The same tree, with the tfhds fixed at any depth. */
  ghost predicate NodesFixed(ns: seq<Node>, ms: seq<Node>) {
    if ns == [] then ms == [] else ms != [] && NodeFixed(ns[0], ms[0]) && NodesFixed(ns[1..], ms[1..])
  }

  /** How many tfhds of the tree have flags a player must not see. */
  ghost function UnfitNode(n: Node): nat {
    match n
    case Leaf(b) => if b.kind == TFHD && |b.payload| >= 8 && Unfit(b.payload) then 1 else 0
    case Traf(children) => UnfitNodes(children)
  }

  ghost function UnfitNodes(ns: seq<Node>): nat {
    if ns == [] then 0 else UnfitNode(ns[0]) + UnfitNodes(ns[1..])
  }

  lemma {:induction false} FixBoxIff(b: Box, f: Box)
    ensures f == FixBox(b) <==> BoxFixed(b, f)
  {
    if b.kind == TFHD && |b.payload| >= 8 {
      hide FlagsFixed;
      var p := b.payload;
      var q := p[1 := SetHigh(p[1])][3 := ClearLow(p[3])];
      FlagsAfter(p);
      FixedFlags(p[1], p[3]);
      assert Compatible(p[1], p[3]) ==> q == p;
      if FlagsFixed(p, f.payload) {
        FixedOnce(p, f.payload, q);
      }
    }
  }

  lemma {:induction false} FixNodeIff(n: Node, m: Node)
    ensures m == FixNode(n) <==> NodeFixed(n, m)
    decreases n, 1
  {
    hide BoxFixed, FixBox;
    match (n, m)
    case (Leaf(b), Leaf(f)) => FixBoxIff(b, f);
    case (Traf(before), Traf(after)) => FixNodesIff(before, after);
    case _ =>
  }

  lemma {:induction false} FixNodesIff(ns: seq<Node>, ms: seq<Node>)
    ensures ms == FixNodes(ns) <==> NodesFixed(ns, ms)
    decreases ns, 0
  {
    hide NodeFixed, FixNode;
    if ns != [] && ms != [] {
      FixNodeIff(ns[0], ms[0]);
      FixNodesIff(ns[1..], ms[1..]);
      assert ms == [ms[0]] + ms[1..];
      assert FixNodes(ns)[1..] == FixNodes(ns[1..]);
    }
  }

  lemma {:induction false} UnfitNodeIsBad(n: Node)
    ensures UnfitNode(n) == BadNode(n)
    decreases n, 1
  {
    match n
    case Leaf(b) =>
      if b.kind == TFHD && |b.payload| >= 8 {
        SameTests(b.payload);
      }
    case Traf(children) => UnfitNodesAreBad(children);
  }

  lemma {:induction false} UnfitNodesAreBad(ns: seq<Node>)
    ensures UnfitNodes(ns) == BadNodes(ns)
    decreases ns, 0
  {
    if ns != [] {
      UnfitNodeIsBad(ns[0]);
      UnfitNodesAreBad(ns[1..]);
    }
  }

  /** The patch of a well-formed moof is the same tree of boxes in which every tfhd, at any depth, has bit 0 of its
      flags clear, bit 17 set and every other bit and byte as it was; there is only one such tree; and the count is
      the number of tfhds that were unfit before. */
  lemma {:induction false} PatchMeaning(ns: seq<Node>)
    requires LegalNodes(ns)
    ensures exists ms ::
              && NodesFixed(ns, ms)
              && LegalNodes(ms)
              && Patch(PrintNodes(ns), 0) == Patched(PrintNodes(ms), UnfitNodes(ns))
    ensures forall ms, os :: NodesFixed(ns, ms) && NodesFixed(ns, os) ==> ms == os
  {
    hide NodesFixed, FixNodes, Patch, PrintNodes, UnfitNodes, BadNodes, LegalNodes;
    PatchMoof(ns);
    FixNodesKeep(ns);
    UnfitNodesAreBad(ns);
    FixNodesIff(ns, FixNodes(ns));
    forall ms, os | NodesFixed(ns, ms) && NodesFixed(ns, os)
      ensures ms == os
    {
      FixNodesIff(ns, ms);
      FixNodesIff(ns, os);
    }
  }
}
