/** What a late viewer has after a replay (web_viewer/webrtc-client.js): the publisher's stream info, init segment and
    keyframe, and exactly when not. */
module CatchUp {
  import opened Bytes
  import opened Outcomes
  import opened ClientState
  import opened Framing
  import opened Replay
  import opened Viewers
  import opened LateJoin

  /** The cached keyframe of a viewer whose publisher was given these inputs. */
  function KeyAfter(inputs: seq<Input>, first: nat, publisher: Peer, before: Option<Segment>): Option<Segment> {
    match LastKey(inputs)
    case Some(k) => Some(Segment(HandedOver(Numbered(inputs[k], first + k).header, publisher), inputs[k].buffer))
    case None => before
  }

  function OrElse<T>(a: Option<T>, b: Option<T>): Option<T> { if a.Some? then a else b }

  // ---------------------------------------------------------------- live segments

  lemma {:induction false} StreamSnoc(inputs: seq<Input>, i: Input, first: nat, p: Peer)
    ensures Expected(SegItems(Stream(inputs + [i], first)), p)
         == Expected(SegItems(Stream(inputs, first)), p) + ExpectedItem(Seg(Numbered(i, first + |inputs|)), p)
  {
    hide Expected, ExpectedItem;
    assert SegItems(Stream(inputs + [i], first)) == SegItems(Stream(inputs, first)) + [Seg(Numbered(i, first + |inputs|))];
    ExpectedSnoc(SegItems(Stream(inputs, first)), Seg(Numbered(i, first + |inputs|)), p);
  }

  lemma {:induction false} LatestSnoc(ds: seq<Delivery>, d: Delivery, key: Option<Segment>, init: Option<bytes>)
    ensures LatestKeyframe(ds + [d], key)
         == if d.header.Some? && d.header.value.isKeyframe then Some(Segment(d.header.value, d.buffer)) else LatestKeyframe(ds, key)
    ensures LatestInit(ds + [d], init)
         == if d.header.Some? && d.header.value.segmentType != MediaSegment then Some(d.buffer) else LatestInit(ds, init)
  {
    assert (ds + [d])[..|ds|] == ds;
  }

  lemma {:induction false} LastSnoc(inputs: seq<Input>, i: Input)
    ensures LastKey(inputs + [i]) == if i.isKeyframe then Some(|inputs|) else LastKey(inputs)
    ensures LastInit(inputs + [i]) == if i.kind == InitSegment || i.kind == InitVideo then Some(i.buffer) else LastInit(inputs)
  {
    assert (inputs + [i])[..|inputs|] == inputs;
  }

  /** Hearing consecutive segments of the stream. */
  lemma {:induction false} StreamHeard(inputs: seq<Input>, first: nat, p: Peer, key: Option<Segment>, init: Option<bytes>)
    ensures var ds := Expected(SegItems(Stream(inputs, first)), p);
            && LatestKeyframe(ds, key) == KeyAfter(inputs, first, p, key)
            && LatestInit(ds, init) == OrElse(LastInit(inputs), init)
    decreases |inputs|
  {
    hide Expected, LatestKeyframe, LatestInit, LastKey, LastInit;
    if inputs == [] {
      NothingStreamed(first, p, key, init);
    } else {
      var before, i := inputs[..|inputs| - 1], inputs[|inputs| - 1];
      assert before + [i] == inputs;
      StreamHeard(before, first, p, key, init);
      StreamSnoc(before, i, first, p);
      LastSnoc(before, i);
      var d := Delivery(p, Some(HandedOver(Numbered(i, first + |before|).header, p)), i.buffer);
      assert ExpectedItem(Seg(Numbered(i, first + |before|)), p) == [d];
      LatestSnoc(Expected(SegItems(Stream(before, first)), p), d, key, init);
    }
  }

  lemma {:induction false} NothingStreamed(first: nat, p: Peer, key: Option<Segment>, init: Option<bytes>)
    ensures Expected(SegItems(Stream([], first)), p) == [] && LatestKeyframe([], key) == key && LatestInit([], init) == init
    ensures LastKey([]).None? && LastInit([]).None?
  {
  }

  // ---------------------------------------------------------------- one replay

  lemma {:induction false} TailStream(inputs: seq<Input>, from: nat)
    requires from <= |inputs|
    ensures Stream(inputs, 0)[from..] == Stream(inputs[from..], from)
  {
  }

  lemma {:induction false} NoKeyBehind(inputs: seq<Input>, from: nat)
    requires LastKey(inputs).Some? && LastKey(inputs).value < from <= |inputs|
    ensures LastKey(inputs[from..]).None?
  {
    LastKeyIs(inputs);
    LastKeyIs(inputs[from..]);
  }

  /** Where the queue behind the last keyframe starts. */
  function TailStart(inputs: seq<Input>, k: nat): (from: nat)
    requires k < |inputs|
    ensures k < from <= |inputs|
  {
    Later(k + 1, |inputs| - MAX_SEGMENT_QUEUE_SIZE)
  }

  lemma {:induction false} TwoPartsHeard(a: seq<Input>, n: nat, b: seq<Input>, m: nat, p: Peer, key: Option<Segment>, init: Option<bytes>)
    ensures var ds := Expected(SegItems(Stream(a, n) + Stream(b, m)), p);
            && LatestKeyframe(ds, key) == KeyAfter(b, m, p, KeyAfter(a, n, p, key))
            && LatestInit(ds, init) == OrElse(LastInit(b), OrElse(LastInit(a), init))
  {
    hide Expected, LatestKeyframe, LatestInit, LastKey, LastInit, Stream, SegItems, KeyAfter;
    SegItemsConcat(Stream(a, n), Stream(b, m));
    ExpectedConcat(SegItems(Stream(a, n)), SegItems(Stream(b, m)), p);
    var ds := Expected(SegItems(Stream(a, n)), p);
    StreamHeard(a, n, p, key, init);
    StreamHeard(b, m, p, LatestKeyframe(ds, key), LatestInit(ds, init));
    LatestConcat(ds, Expected(SegItems(Stream(b, m)), p), key, init);
  }

  /** Hearing the keyframe and what is left behind it. */
  lemma {:induction false} FromKeyHeard(inputs: seq<Input>, p: Peer, key: Option<Segment>, init: Option<bytes>)
    ensures var ds := Expected(SegItems(FromLastKey(inputs)), p);
            && LatestKeyframe(ds, key) == KeyAfter(inputs, 0, p, key)
            && LatestInit(ds, init) == match LastKey(inputs)
                 case Some(k) => OrElse(LastInit(inputs[TailStart(inputs, k)..]), OrElse(LastInit([inputs[k]]), init))
                 case None => init
  {
    hide Expected, LatestKeyframe, LatestInit, LastKey, LastInit, Stream, SegItems, TailStart, Numbered, HandedOver, FromLastKey;
    match LastKey(inputs) {
      case None => NothingLeft(inputs, p, key, init);
      case Some(k) =>
        KeyThenTail(inputs, k);
        TwoPartsHeard([inputs[k]], k, inputs[TailStart(inputs, k)..], TailStart(inputs, k), p, key, init);
        KeyOfLast(inputs, k);
        NoKeyBehind(inputs, TailStart(inputs, k));
    }
  }

  lemma {:induction false} KeyOfLast(inputs: seq<Input>, k: nat)
    requires LastKey(inputs) == Some(k)
    ensures LastKey([inputs[k]]) == Some(0)
  {
    LastKeyIs(inputs);
    OneKey(inputs[k]);
  }

  lemma {:induction false} NothingLeft(inputs: seq<Input>, p: Peer, key: Option<Segment>, init: Option<bytes>)
    requires LastKey(inputs).None?
    ensures var ds := Expected(SegItems(FromLastKey(inputs)), p);
            LatestKeyframe(ds, key) == key && LatestInit(ds, init) == init
  {
    assert SegItems([]) == [];
  }

  lemma {:induction false} KeyThenTail(inputs: seq<Input>, k: nat)
    requires LastKey(inputs) == Some(k)
    ensures var from := TailStart(inputs, k);
            FromLastKey(inputs) == Stream([inputs[k]], k) + Stream(inputs[from..], from)
  {
    hide LastKey;
    TailStream(inputs, TailStart(inputs, k));
    assert Stream([inputs[k]], k) == [Numbered(inputs[k], k)];
  }

  lemma {:induction false} OneKey(i: Input)
    requires i.isKeyframe
    ensures LastKey([i]) == Some(0)
  {
  }

  lemma {:induction false} ExpectedConcat(a: seq<Item>, b: seq<Item>, p: Peer)
    ensures Expected(a + b, p) == Expected(a, p) + Expected(b, p)
    decreases |a|
  {
    hide ExpectedItem;
    if a == [] {
      assert a + b == b;
    } else {
      ExpectedConcat(a[1..], b, p);
      assert (a + b)[1..] == a[1..] + b && (a + b)[0] == a[0];
      Reassociate(ExpectedItem(a[0], p), Expected(a[1..], p), Expected(b, p));
    }
  }

  /** The replayed init segment goes to the front of the replay, so a keyframe that is itself an init segment undoes it
      when the last init segment came behind that keyframe and has left the queue. */
  predicate KeyUndoesInit(inputs: seq<Input>) {
    LastKey(inputs).Some? &&
    var k := LastKey(inputs).value;
    && inputs[k].kind != MediaSegment
    && LastInit(inputs[TailStart(inputs, k)..]).None?
    && LastInit(inputs) != Some(inputs[k].buffer)
  }

  lemma {:induction false} LastInitConcat(a: seq<Input>, b: seq<Input>)
    ensures LastInit(a + b) == OrElse(LastInit(b), LastInit(a))
    decreases |b|
  {
    if b == [] {
      assert a + b == a;
    } else {
      LastInitConcat(a, b[..|b| - 1]);
      assert (a + b)[..|a + b| - 1] == a + b[..|b| - 1];
    }
  }

  /** The failing input: a keyframe of an init type, another init segment, and 30 segments behind it. */
  function Undoing(): seq<Input> {
    [Input([0], InitVideo, true, 0), Input([1], InitSegment, false, 0)] + Plain(30)
  }

  function Plain(n: nat): (r: seq<Input>)
    ensures |r| == n
  {
    seq(n, i => Input([], MediaSegment, false, 0))
  }

  lemma {:induction false} PlainHasNone(n: nat)
    ensures LastKey(Plain(n)).None? && LastInit(Plain(n)).None?
  {
    if n > 0 {
      PlainHasNone(n - 1);
      assert Plain(n)[..n - 1] == Plain(n - 1);
    }
  }

  lemma {:induction false} TwoInits()
    ensures var two := [Input([0], InitVideo, true, 0), Input([1], InitSegment, false, 0)];
            LastKey(two) == Some(0) && LastInit(two) == Some([1])
  {
    var two := [Input([0], InitVideo, true, 0), Input([1], InitSegment, false, 0)];
    assert two[..1] == [two[0]];
    OneKey(two[0]);
  }

  lemma {:induction false} UndoneExists()
    ensures KeyUndoesInit(Undoing())
  {
    hide LastKey, LastInit, Plain;
    var two := [Input([0], InitVideo, true, 0), Input([1], InitSegment, false, 0)];
    TwoInits();
    PlainHasNone(30);
    LastKeyConcat(two, Plain(30));
    LastInitConcat(two, Plain(30));
    assert Undoing()[TailStart(Undoing(), 0)..] == Plain(30);
    assert Undoing()[0] == two[0];
  }

  lemma {:induction false} TailInit(inputs: seq<Input>, from: nat)
    requires from <= |inputs| && LastInit(inputs[from..]).Some?
    ensures LastInit(inputs) == LastInit(inputs[from..])
  {
    hide LastInit;
    LastInitConcat(inputs[..from], inputs[from..]);
    assert inputs[..from] + inputs[from..] == inputs;
  }

  lemma {:induction false} KeyIsInit(inputs: seq<Input>, k: nat)
    requires k < |inputs|
    ensures LastInit([inputs[k]]) == if inputs[k].kind != MediaSegment then Some(inputs[k].buffer) else None
    ensures inputs[k].kind != MediaSegment ==> LastInit(inputs).Some?
  {
    hide LastInit;
    LastSnoc([], inputs[k]);
    NothingStreamed(0, 0, None, None);
    assert [] + [inputs[k]] == [inputs[k]];
    LastInitConcat(inputs[..k], inputs[k..]);
    assert inputs[..k] + inputs[k..] == inputs;
    LastInitConcat([inputs[k]], inputs[k + 1..]);
    assert [inputs[k]] + inputs[k + 1..] == inputs[k..];
  }

  /** The init segment a viewer has after a replay. */
  function InitHeard(c0: Client, inputs: seq<Input>, before: Option<bytes>): Option<bytes> {
    if KeyUndoesInit(inputs) then Some(inputs[LastKey(inputs).value].buffer) else OrElse(InitAfter(c0, inputs), before)
  }

  lemma {:induction false} InitHeardIs(c0: Client, inputs: seq<Input>, before: Option<bytes>)
    ensures var init := OrElse(InitAfter(c0, inputs), before);
            InitHeard(c0, inputs, before) == match LastKey(inputs)
              case Some(k) => OrElse(LastInit(inputs[TailStart(inputs, k)..]), OrElse(LastInit([inputs[k]]), init))
              case None => init
  {
    hide LastKey, LastInit;
    match LastKey(inputs) {
      case None =>
      case Some(k) =>
        KeyIsInit(inputs, k);
        if LastInit(inputs[TailStart(inputs, k)..]).Some? {
          TailInit(inputs, TailStart(inputs, k));
        }
    }
  }

  lemma {:induction false} FrontHeard(c0: Client, inputs: seq<Input>, now: int, p: Peer, key: Option<Segment>, init: Option<bytes>)
    ensures var ds := Expected(ReplayFront(c0, inputs, now), p);
            LatestKeyframe(ds, key) == key && LatestInit(ds, init) == OrElse(InitAfter(c0, inputs), init)
  {
    hide LatestKeyframe, LatestInit, Expected, InitAfter;
    var note := match c0.streamInfo case Some(info) => [Note(StreamInfo(Some(info)))] case None => [];
    NoteHeard(note, p);
    NothingStreamed(0, p, key, init);
    match InitAfter(c0, inputs) {
      case None =>
        assert note + [] == note;
      case Some(b) =>
        var s := Seg(Segment(Header(true, InitSegment, -1, |b|, false, now, None, None), b));
        ExpectedSnoc(note, s, p);
        LatestSnoc([], ExpectedItem(s, p)[0], key, init);
    }
  }

  lemma {:induction false} NoteHeard(notes: seq<Item>, p: Peer)
    requires |notes| <= 1 && forall i :: 0 <= i < |notes| ==> notes[i].Note?
    ensures Expected(notes, p) == []
  {
    if notes != [] {
      assert notes[1..] == [];
    }
  }

  /** What hearing a replay leaves in the caches. */
  lemma {:induction false} ReplayHeard(c0: Client, inputs: seq<Input>, now: int, p: Peer, key: Option<Segment>, init: Option<bytes>)
    ensures var ds := Expected(ReplayItems(c0, inputs, now), p);
            && LatestKeyframe(ds, key) == KeyAfter(inputs, 0, p, key)
            && LatestInit(ds, init) == InitHeard(c0, inputs, init)
  {
    hide LatestKeyframe, LatestInit, Expected, InitAfter, FromLastKey, SegItems, LastKey, KeyAfter, InitHeard, LastInit;
    hide ReplayFront;
    var front, back := ReplayFront(c0, inputs, now), SegItems(FromLastKey(inputs));
    ExpectedConcat(front, back, p);
    FrontHeard(c0, inputs, now, p, key, init);
    FromKeyHeard(inputs, p, key, OrElse(InitAfter(c0, inputs), init));
    LatestConcat(Expected(front, p), Expected(back, p), key, init);
    InitHeardIs(c0, inputs, init);
  }

  /** After a replay a viewer has the publisher's stream info and keyframe, and its init segment if and only if no
      keyframe in the replay undoes it. */
  lemma {:induction false} ReplayCatchesUp(c0: Client, inputs: seq<Input>, now: int, viewer: Client, publisher: Peer, events: seq<Event>)
    requires Starting(c0) && ViewOf(viewer, publisher) == CLEAN && AllFrom(events, publisher)
    requires Project(events, publisher) == Encode(ReplayItems(c0, inputs, now))
    ensures var r := Run(viewer, events);
            && (c0.streamInfo.Some? ==> r.streamInfo == c0.streamInfo)
            && (LastKey(inputs).Some? ==> r.keyframe == KeyAfter(inputs, 0, publisher, None))
            && (InitAfter(c0, inputs).Some? ==> (r.initSegment == InitAfter(c0, inputs) <==> !KeyUndoesInit(inputs)))
  {
    hide ForwardAll, LatestKeyframe, LatestInit, Expected, ReplayItems, LastKey, Run, Project, Encode, LastNote, AllLegal, InitAfter, LastInit;
    var items := ReplayItems(c0, inputs, now);
    CacheIsLegal(c0, ForwardAll(c0, inputs), inputs, now);
    CoreIsReplay(c0, ForwardAll(c0, inputs), inputs, now);
    LegalEach(items);
    CachesOfItems(viewer, events, publisher, items);
    ReplayHeard(c0, inputs, now, publisher, viewer.keyframe, viewer.initSegment);
    ReplayNote(c0, inputs, now, viewer.streamInfo);
    if KeyUndoesInit(inputs) {
      UndoneIsOther(c0, inputs);
    }
  }

  lemma {:induction false} LegalEach(items: seq<Item>)
    requires AllLegal(items)
    ensures forall i :: 0 <= i < |items| ==> LegalItem(items[i])
  {
  }

  lemma {:induction false} UndoneIsOther(c0: Client, inputs: seq<Input>)
    requires KeyUndoesInit(inputs)
    ensures InitAfter(c0, inputs) != Some(inputs[LastKey(inputs).value].buffer)
  {
    hide LastInit, LastKey;
    KeyIsInit(inputs, LastKey(inputs).value);
  }

  lemma {:induction false} NoteConcat(a: seq<Item>, b: seq<Item>, before: Option<nat>)
    ensures LastNote(a + b, before) == LastNote(b, LastNote(a, before))
    decreases |b|
  {
    if b == [] {
      assert a + b == a;
    } else {
      NoteConcat(a, b[..|b| - 1], before);
      assert (a + b)[..|a + b| - 1] == a + b[..|b| - 1];
    }
  }

  lemma {:induction false} SegmentsSayNothing(items: seq<Item>, before: Option<nat>)
    requires forall i :: 0 <= i < |items| ==> items[i].Seg?
    ensures LastNote(items, before) == before
  {
    if items != [] {
      SegmentsSayNothing(items[..|items| - 1], before);
    }
  }

  lemma {:induction false} ReplayNote(c0: Client, inputs: seq<Input>, now: int, before: Option<nat>)
    ensures LastNote(ReplayItems(c0, inputs, now), before) == OrElse(c0.streamInfo, before)
  {
    hide LastNote, FromLastKey, InitAfter;
    var items := ReplayItems(c0, inputs, now);
    match c0.streamInfo {
      case None => SegmentsSayNothing(items, before);
      case Some(info) =>
        var note := [Note(StreamInfo(Some(info)))];
        assert items[0] == note[0] && note + items[1..] == items;
        NoteConcat(note, items[1..], before);
        OneNote(info, before);
        SegmentsSayNothing(items[1..], Some(info));
    }
  }

  lemma {:induction false} OneNote(info: nat, before: Option<nat>)
    ensures LastNote([Note(StreamInfo(Some(info)))], before) == Some(info)
  {
  }

  // ---------------------------------------------------------------- the whole stream

  /** No input is a keyframe and an init segment at once. */
  predicate Separate(inputs: seq<Input>) {
    forall i :: 0 <= i < |inputs| ==> !(inputs[i].isKeyframe && inputs[i].kind != MediaSegment)
  }

  /** These caches are as the publisher's. */
  predicate UpToDate(c0: Client, inputs: seq<Input>, p: Peer, key: Option<Segment>, init: Option<bytes>) {
    && (LastKey(inputs).Some? ==> key == KeyAfter(inputs, 0, p, None))
    && (InitAfter(c0, inputs).Some? ==> init == InitAfter(c0, inputs))
  }

  predicate Asks(es: seq<ServeEvent>, p: Peer) {
    exists i :: 0 <= i < |es| && es[i].Ask? && es[i].peer == p
  }

  lemma {:induction false} ReplayUpdates(c0: Client, inputs: seq<Input>, now: int, p: Peer, key: Option<Segment>, init: Option<bytes>)
    requires Separate(inputs)
    ensures var ds := Expected(ReplayItems(c0, inputs, now), p);
            UpToDate(c0, inputs, p, LatestKeyframe(ds, key), LatestInit(ds, init))
  {
    hide LatestKeyframe, LatestInit, Expected, ReplayItems, LastKey, InitAfter, LastInit;
    ReplayHeard(c0, inputs, now, p, key, init);
    LastKeyIs(inputs);
  }

  lemma {:induction false} FeedUpdates(c0: Client, inputs: seq<Input>, i: Input, p: Peer, key: Option<Segment>, init: Option<bytes>)
    requires UpToDate(c0, inputs, p, key, init)
    ensures var ds := Expected([Seg(Numbered(i, |inputs|))], p);
            UpToDate(c0, inputs + [i], p, LatestKeyframe(ds, key), LatestInit(ds, init))
  {
    hide LatestKeyframe, LatestInit, LastKey, LastInit, Expected;
    LastSnoc(inputs, i);
    LastKeyIs(inputs);
    var item := Seg(Numbered(i, |inputs|));
    assert [] + [item] == [item];
    ExpectedSnoc([], item, p);
    NoteHeard([], p);
    var d := ExpectedItem(item, p)[0];
    LatestSnoc([], d, key, init);
    NothingStreamed(0, p, key, init);
    assert [] + [d] == Expected([item], p);
    var k := LastKey(inputs);
    assert k.Some? ==> (inputs + [i])[k.value] == inputs[k.value];
  }

  /** A replay brings the caches up to date, and the live segments keep them so. */
  lemma {:induction false} ItemsUpdate(c0: Client, inputs: seq<Input>, es: seq<ServeEvent>, p: Peer, q: Peer, key: Option<Segment>, init: Option<bytes>)
    requires Separate(inputs + Feeds(es)) && (UpToDate(c0, inputs, q, key, init) || Asks(es, p))
    ensures var ds := Expected(ItemsFrom(c0, inputs, es, p), q);
            UpToDate(c0, inputs + Feeds(es), q, LatestKeyframe(ds, key), LatestInit(ds, init))
    decreases |es|
  {
    hide LatestKeyframe, LatestInit, Expected, ReplayItems, UpToDate, Numbered;
    if es == [] {
      NothingStreamed(0, q, key, init);
      NoteHeard([], q);
      assert inputs + [] == inputs;
    } else {
      var before, e := es[..|es| - 1], es[|es| - 1];
      var sofar, items := inputs + Feeds(before), ItemsFrom(c0, inputs, before, p);
      var ds := Expected(items, q);
      match e {
        case Feed(i) =>
          assert Feeds(es) == Feeds(before) + [i] && sofar + [i] == inputs + Feeds(es);
          assert Separate(sofar) by { Prefix(sofar, i); }
          StillAsks(es, p);
          ItemsUpdate(c0, inputs, before, p, q, key, init);
          FeedUpdates(c0, sofar, i, q, LatestKeyframe(ds, key), LatestInit(ds, init));
          HeardConcat(items, [Seg(Numbered(i, |sofar|))], q, key, init);
        case Ask(r, now) =>
          assert Feeds(es) == Feeds(before) + [] == Feeds(before);
          if r == p {
            ReplayUpdates(c0, sofar, now, q, LatestKeyframe(ds, key), LatestInit(ds, init));
            HeardConcat(items, ReplayItems(c0, sofar, now), q, key, init);
          } else {
            StillAsks(es, p);
            ItemsUpdate(c0, inputs, before, p, q, key, init);
            assert items + [] == items;
          }
      }
    }
  }

  lemma {:induction false} Prefix(inputs: seq<Input>, i: Input)
    requires Separate(inputs + [i])
    ensures Separate(inputs)
  {
    assert forall j :: 0 <= j < |inputs| ==> inputs[j] == (inputs + [i])[j];
  }

  lemma {:induction false} StillAsks(es: seq<ServeEvent>, p: Peer)
    requires es != [] && !(es[|es| - 1].Ask? && es[|es| - 1].peer == p)
    ensures Asks(es, p) ==> Asks(es[..|es| - 1], p)
  {
    if Asks(es, p) {
      var i :| 0 <= i < |es| && es[i].Ask? && es[i].peer == p;
      assert es[..|es| - 1][i] == es[i];
    }
  }

  lemma {:induction false} HeardConcat(a: seq<Item>, b: seq<Item>, q: Peer, key: Option<Segment>, init: Option<bytes>)
    ensures var ds := Expected(a, q);
            && LatestKeyframe(Expected(a + b, q), key) == LatestKeyframe(Expected(b, q), LatestKeyframe(ds, key))
            && LatestInit(Expected(a + b, q), init) == LatestInit(Expected(b, q), LatestInit(ds, init))
  {
    hide LatestKeyframe, LatestInit, Expected;
    ExpectedConcat(a, b, q);
    LatestConcat(Expected(a, q), Expected(b, q), key, init);
  }

  lemma {:induction false} StreamUpdates(c0: Client, inputs: seq<Input>, now: int, es: seq<ServeEvent>, p: Peer, q: Peer, key: Option<Segment>, init: Option<bytes>)
    requires Separate(inputs + Feeds(es)) && (c0.streamInfo.Some? || Asks(es, p))
    ensures var ds := Expected(StreamItems(c0, inputs, now, es, p), q);
            UpToDate(c0, inputs + Feeds(es), q, LatestKeyframe(ds, key), LatestInit(ds, init))
  {
    hide LatestKeyframe, LatestInit, Expected, ReplayItems, UpToDate, ItemsFrom, Asks, Feeds;
    if c0.streamInfo.Some? {
      var first := ReplayItems(c0, inputs, now);
      var ds := Expected(first, q);
      AllSeparate(inputs, Feeds(es));
      ReplayUpdates(c0, inputs, now, q, key, init);
      ItemsUpdate(c0, inputs, es, p, q, LatestKeyframe(ds, key), LatestInit(ds, init));
      HeardConcat(first, ItemsFrom(c0, inputs, es, p), q, key, init);
    } else {
      ItemsUpdate(c0, inputs, es, p, q, key, init);
      assert [] + ItemsFrom(c0, inputs, es, p) == ItemsFrom(c0, inputs, es, p);
    }
  }

  lemma {:induction false} AllSeparate(a: seq<Input>, b: seq<Input>)
    requires Separate(a + b)
    ensures Separate(a)
  {
    assert forall i :: 0 <= i < |a| ==> a[i] == (a + b)[i];
  }

  lemma {:induction false} ItemsNote(c0: Client, inputs: seq<Input>, es: seq<ServeEvent>, p: Peer, before: Option<nat>)
    requires before == c0.streamInfo || Asks(es, p) || c0.streamInfo.None?
    ensures LastNote(ItemsFrom(c0, inputs, es, p), before) == OrElse(c0.streamInfo, before)
    decreases |es|
  {
    hide LastNote, ReplayItems, Feeds;
    if es == [] {
      SegmentsSayNothing([], before);
    } else {
      var init, e := es[..|es| - 1], es[|es| - 1];
      var items, sofar := ItemsFrom(c0, inputs, init, p), inputs + Feeds(init);
      match e {
        case Feed(i) =>
          StillAsks(es, p);
          ItemsNote(c0, inputs, init, p, before);
          var more := [Seg(Numbered(i, |sofar|))];
          SegmentsSayNothing(more, OrElse(c0.streamInfo, before));
          NoteConcat(items, more, before);
        case Ask(r, now) =>
          if r == p {
            NoteConcat(items, ReplayItems(c0, sofar, now), before);
            ReplayNote(c0, sofar, now, LastNote(items, before));
            if c0.streamInfo.None? {
              ItemsNote(c0, inputs, init, p, before);
            }
          } else {
            StillAsks(es, p);
            ItemsNote(c0, inputs, init, p, before);
            assert items + [] == items;
          }
      }
    }
  }

  lemma {:induction false} StreamNote(c0: Client, inputs: seq<Input>, now: int, es: seq<ServeEvent>, p: Peer, before: Option<nat>)
    ensures c0.streamInfo.Some? ==> LastNote(StreamItems(c0, inputs, now, es, p), before) == c0.streamInfo
  {
    hide LastNote, ReplayItems, ItemsFrom;
    if c0.streamInfo.Some? {
      ReplayNote(c0, inputs, now, before);
      NoteConcat(ReplayItems(c0, inputs, now), ItemsFrom(c0, inputs, es, p), before);
      ItemsNote(c0, inputs, es, p, c0.streamInfo);
    }
  }

  /** A viewer that has been sent at least one replay has at any later time the caches of its publisher, as long as no
      input is a keyframe and an init segment at once. */
  lemma {:induction false} ViewerCatchesUp(
      c0: Client, inputs: seq<Input>, p: Peer, now: int, es: seq<ServeEvent>, viewer: Client, publisher: Peer, events: seq<Event>)
    requires Starting(c0) && Closed(c0.channels, p) && SentTo(c0.sent, p) == []
    requires ViewOf(viewer, publisher) == CLEAN && AllFrom(events, publisher)
    requires Project(events, publisher) == SentTo(Serve(OpenChannel(ForwardAll(c0, inputs), p, now), es).sent, p)
    requires Separate(inputs + Feeds(es)) && (c0.streamInfo.Some? || Asks(es, p))
    ensures var r := Run(viewer, events);
            && (c0.streamInfo.Some? ==> r.streamInfo == c0.streamInfo)
            && UpToDate(c0, inputs + Feeds(es), publisher, r.keyframe, r.initSegment)
  {
    hide SentTo, Expected, Encode, Project, Run, OpenChannel, StreamItems, Serve, AllLegal, ForwardAll, Closed, LatestKeyframe, LatestInit,
      LastNote, UpToDate, Separate, Asks, Feeds;
    StreamIsSent(c0, inputs, p, now, es);
    StreamIsLegal(c0, inputs, p, now, es);
    var items := StreamItems(c0, inputs, now, es, p);
    LegalEach(items);
    CachesOfItems(viewer, events, publisher, items);
    StreamUpdates(c0, inputs, now, es, p, publisher, viewer.keyframe, viewer.initSegment);
    StreamNote(c0, inputs, now, es, p, viewer.streamInfo);
  }

  // ---------------------------------------------------------------- a replay by a relay

  /** What a client sends when the channel to a peer opens: a replay if it may serve and knows the stream, a request if it
      may not serve; nothing else about it changes but the channels. */
  lemma {:induction false} OpenSays(c: Client, p: Peer, now: int)
    ensures var d := OpenChannel(c, p, now);
            var serves := c.isPublisher || c.canRelay;
            && Core(d) == Core(c)
            && d.sent == c.sent + To(p,
                 if serves && c.streamInfo.Some? then Encode(CachedItems(c, now))
                 else if serves then []
                 else [Text(RequestInit)])
  {
    hide CachedMessages, Encode, SetChannel, CachedItems, AfterKeyframe;
    var c1 := c.(channels := SetChannel(c.channels, p, true));
    if c.isPublisher || c.canRelay {
      CachedEncoded(c1, now);
      SameCache(c, c1, now);
      assert To(p, []) == [] && c.sent + [] == c.sent;
    }
  }

  /** Stored headers carry no type tag: neither the pending ones nor those in the caches. */
  predicate Untagged(c: Client) {
    && (forall p :: p in c.pending ==> !c.pending[p].typed)
    && (c.keyframe.Some? ==> !c.keyframe.value.header.typed)
    && (forall i :: 0 <= i < |c.queue| ==> !c.queue[i].header.typed)
  }

  lemma {:induction false} AcceptUntagged(c: Client, h: Header, buffer: bytes, p: Peer)
    requires Untagged(c) && !h.typed
    ensures Untagged(Accept(c, h, buffer, p))
  {
  }

  lemma {:induction false} PushUntagged(queue: seq<Segment>, s: Segment)
    requires (forall i :: 0 <= i < |queue| ==> !queue[i].header.typed) && !s.header.typed
    ensures forall i :: 0 <= i < |PushQueue(queue, s)| ==> !PushQueue(queue, s)[i].header.typed
  {
  }

  lemma {:induction false} ProcessUntagged(c: Client, h: Header, buffer: bytes, p: Peer)
    requires Untagged(c) && !h.typed
    ensures Untagged(Process(c, h, buffer, p))
  {
    hide AddSeen, Broadcast, RelayTargets, RelayHeader, SegmentMessages, Accept, Relays, PushQueue;
    var c1 := Accept(c, h, buffer, p);
    AcceptUntagged(c, h, buffer, p);
    PushUntagged(c1.queue, Segment(h, buffer));
  }

  lemma {:induction false} ReceivedUntagged(c: Client, p: Peer, buffer: bytes)
    requires Untagged(c)
    ensures Untagged(ProcessReceived(c, p, buffer))
  {
    hide Process;
    if p in c.pending {
      ProcessUntagged(c.(pending := c.pending - {p}), c.pending[p], buffer, p);
    }
  }

  lemma {:induction false} HeaderUntagged(c: Client, p: Peer, h: Header)
    requires Untagged(c)
    ensures Untagged(c.(pending := c.pending[p := Stored(h, p)]))
  {
  }

  lemma {:induction false} InfoUntagged(c: Client, info: Option<nat>)
    requires Untagged(c)
    ensures Untagged(CheckRelayReady(c.(streamInfo := info)))
  {
  }

  lemma {:induction false} OthersUntagged(c: Client, incoming: map<Peer, ChunkState>, sent: seq<Sent>)
    requires Untagged(c)
    ensures Untagged(c.(incoming := incoming)) && Untagged(c.(sent := sent))
  {
  }

  lemma {:induction false} HandleUntagged(c: Client, p: Peer, m: Message, now: int)
    requires Untagged(c)
    ensures Untagged(Handle(c, p, m, now))
  {
    hide ProcessReceived, CachedMessages, Assembled, To, Untagged, CheckRelayReady, Stored;
    OthersUntagged(c, Handle(c, p, m, now).incoming, Handle(c, p, m, now).sent);
    match m {
      case Binary(data) => ReceivedUntagged(c, p, data);
      case Text(control) =>
        match control {
          case SegmentHeader(h) => HeaderUntagged(c, p, h);
          case StreamInfo(info) => InfoUntagged(c, info);
          case ChunkEnd =>
            OthersUntagged(c, c.incoming - {p}, c.sent);
            if p in c.incoming {
              ReceivedUntagged(c.(incoming := c.incoming - {p}), p, Assembled(c.incoming[p].chunks));
            }
          case _ =>
        }
    }
  }

  lemma {:induction false} RunUntagged(c: Client, events: seq<Event>)
    requires Untagged(c)
    ensures Untagged(Run(c, events))
    decreases |events|
  {
    hide Handle, Untagged;
    if events != [] {
      HandleUntagged(c, events[0].peer, events[0].message, events[0].now);
      RunUntagged(Handle(c, events[0].peer, events[0].message, events[0].now), events[1..]);
    }
  }

  /** The bytes of the segments without any header. */
  function Nameless(segments: seq<Segment>, q: Peer): (ds: seq<Delivery>)
    ensures |ds| == |segments|
    ensures forall i :: 0 <= i < |segments| ==> ds[i] == Delivery(q, None, segments[i].buffer)
  {
    seq(|segments|, i requires 0 <= i < |segments| => Delivery(q, None, segments[i].buffer))
  }

  lemma {:induction false} UntaggedArrive(segments: seq<Segment>, q: Peer)
    requires forall i :: 0 <= i < |segments| ==> !segments[i].header.typed
    ensures Expected(SegItems(segments), q) == Nameless(segments, q)
    decreases |segments|
  {
    hide Expected;
    if segments == [] {
      NoteHeard(SegItems(segments), q);
    } else {
      var init, last := segments[..|segments| - 1], segments[|segments| - 1];
      UntaggedArrive(init, q);
      assert SegItems(segments) == SegItems(init) + [Seg(last)];
      ExpectedSnoc(SegItems(init), Seg(last), q);
    }
  }

  lemma {:induction false} BehindUntagged(queue: seq<Segment>, keyframe: Option<Segment>)
    requires forall i :: 0 <= i < |queue| ==> !queue[i].header.typed
    ensures forall i :: 0 <= i < |AfterKeyframe(queue, keyframe)| ==> !AfterKeyframe(queue, keyframe)[i].header.typed
  {
    if keyframe.Some? && queue != [] {
      BehindUntagged(queue[..|queue| - 1], keyframe);
    }
  }

  lemma {:induction false} NamelessIgnored(segments: seq<Segment>, q: Peer, key: Option<Segment>)
    ensures LatestKeyframe(Nameless(segments, q), key) == key
    decreases |segments|
  {
    if segments != [] {
      NamelessIgnored(segments[..|segments| - 1], q, key);
      assert Nameless(segments, q)[..|segments| - 1] == Nameless(segments[..|segments| - 1], q);
    }
  }

  /** What a relay replays: its stream info and its init segment arrive as from the publisher, but keyframe and queued
      segments arrive as bare bytes, because the stored headers have lost the tag by which they are recognised -- so
      no replay by a relay gives a viewer a keyframe to cache. */
  lemma {:induction false} RelayReplaysBareBytes(events: seq<Event>, now: int, q: Peer, key: Option<Segment>)
    ensures var c := Run(FreshClient(false), events);
            var kept := (if c.keyframe.Some? then [c.keyframe.value] else []) + AfterKeyframe(c.queue, c.keyframe);
            var got := Expected(CachedItems(c, now), q);
            && got == (match c.initSegment
                       case None => []
                       case Some(init) =>
                         [Delivery(q, Some(Header(false, InitSegment, -1, |init|, false, now, Some(3), Some(q))), init)])
                      + Nameless(kept, q)
            && LatestKeyframe(got, key) == key
  {
    hide Run, AfterKeyframe, Expected, LatestKeyframe, Nameless;
    var c := Run(FreshClient(false), events);
    RunUntagged(FreshClient(false), events);
    ReplayBare(c, now, q, key);
  }

  lemma {:induction false} ReplayBare(c: Client, now: int, q: Peer, key: Option<Segment>)
    requires Untagged(c)
    ensures var kept := (if c.keyframe.Some? then [c.keyframe.value] else []) + AfterKeyframe(c.queue, c.keyframe);
            var got := Expected(CachedItems(c, now), q);
            && got == (match c.initSegment
                       case None => []
                       case Some(init) =>
                         [Delivery(q, Some(Header(false, InitSegment, -1, |init|, false, now, Some(3), Some(q))), init)])
                      + Nameless(kept, q)
            && LatestKeyframe(got, key) == key
  {
    hide AfterKeyframe, Expected, LatestKeyframe, LatestInit, Nameless, SegItems;
    BehindUntagged(c.queue, c.keyframe);
    var init := if c.initSegment.Some? then [Segment(InitHeader(c.initSegment.value, now), c.initSegment.value)] else [];
    var kept := (if c.keyframe.Some? then [c.keyframe.value] else []) + AfterKeyframe(c.queue, c.keyframe);
    Reassociate(init, if c.keyframe.Some? then [c.keyframe.value] else [], AfterKeyframe(c.queue, c.keyframe));
    var info := if c.streamInfo.Some? then [Note(StreamInfo(c.streamInfo))] else [];
    SegItemsConcat(init, kept);
    ExpectedConcat(info, SegItems(init) + SegItems(kept), q);
    ExpectedConcat(SegItems(init), SegItems(kept), q);
    NoteHeard(info, q);
    UntaggedArrive(kept, q);
    InitArrives(c.initSegment, now, q, key);
    var first := Expected(SegItems(init), q);
    assert [] + (first + Nameless(kept, q)) == first + Nameless(kept, q);
    LatestConcat(first, Nameless(kept, q), key, None);
    NamelessIgnored(kept, q, key);
  }

  lemma {:induction false} InitArrives(init: Option<bytes>, now: int, q: Peer, key: Option<Segment>)
    ensures var segments := if init.Some? then [Segment(InitHeader(init.value, now), init.value)] else [];
            var ds := Expected(SegItems(segments), q);
            && ds == (match init
                      case None => []
                      case Some(b) => [Delivery(q, Some(Header(false, InitSegment, -1, |b|, false, now, Some(3), Some(q))), b)])
            && LatestKeyframe(ds, key) == key
  {
    hide LatestInit;
    match init {
      case None => NoteHeard(SegItems([]), q);
      case Some(b) =>
        var one := [Segment(InitHeader(b, now), b)];
        assert SegItems(one) == [Seg(one[0])] && SegItems(one)[1..] == [];
        assert Expected(SegItems(one), q) == ExpectedItem(Seg(one[0]), q) + [];
        LatestOne(Expected(SegItems(one), q)[0], key, None);
    }
  }
}
