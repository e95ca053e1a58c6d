/** The whole way of a stream to a viewer that joins late (web_viewer/webrtc-client.js): the channel opens, the
    publisher replays what it has cached, the viewer asks for it once more, and all the while segments go out live and
    other peers interfere. */
module LateJoin {
  import opened Bytes
  import opened Outcomes
  import opened ClientState
  import opened Framing
  import opened Replay

  // ---------------------------------------------------------------- the publisher after the channel has opened

  /** A new segment of the stream, or a peer's request_init. */
  datatype ServeEvent = Feed(input: Input) | Ask(peer: Peer, now: int)

  function ServeStep(c: Client, e: ServeEvent): Client {
    match e
    case Feed(i) => Forward(c, i.buffer, i.kind, i.isKeyframe, i.now)
    case Ask(q, now) => Handle(c, q, Text(RequestInit), now)
  }

  function Serve(c: Client, es: seq<ServeEvent>): Client
    decreases |es|
  {
    if es == [] then c else ServeStep(Serve(c, es[..|es| - 1]), es[|es| - 1])
  }

  function Feeds(es: seq<ServeEvent>): seq<Input> {
    if es == [] then []
    else Feeds(es[..|es| - 1]) + match es[|es| - 1] { case Feed(i) => [i] case Ask(_, _) => [] }
  }

  /** What the caches and the numbering depend on. */
  function Core(c: Client): Client { c.(channels := [], sent := []) }

  lemma {:induction false} ForwardCore(a: Client, b: Client, i: Input)
    requires Core(a) == Core(b)
    ensures Core(Forward(a, i.buffer, i.kind, i.isKeyframe, i.now)) == Core(Forward(b, i.buffer, i.kind, i.isKeyframe, i.now))
  {
    hide SegmentMessages, Broadcast, Targets, PushQueue;
  }

  lemma {:induction false} AskCore(c: Client, q: Peer, now: int)
    ensures Core(Handle(c, q, Text(RequestInit), now)) == Core(c) && Handle(c, q, Text(RequestInit), now).channels == c.channels
  {
    hide CachedMessages, IsOpen;
  }

  lemma {:induction false} ForwardKeepsChannels(c: Client, i: Input)
    ensures Forward(c, i.buffer, i.kind, i.isKeyframe, i.now).channels == c.channels
  {
    hide SegmentMessages, Broadcast, Targets, PushQueue;
  }

  /** Requests change nothing but what has been sent. */
  lemma {:induction false} ServeIsForward(c: Client, es: seq<ServeEvent>)
    ensures Core(Serve(c, es)) == Core(ForwardAll(c, Feeds(es))) && Serve(c, es).channels == c.channels
    decreases |es|
  {
    hide Forward, Handle;
    if es != [] {
      var before, e := es[..|es| - 1], es[|es| - 1];
      ServeIsForward(c, before);
      var d := Serve(c, before);
      match e {
        case Feed(i) =>
          assert Feeds(es)[..|Feeds(before)|] == Feeds(before);
          ForwardCore(d, ForwardAll(c, Feeds(before)), i);
          ForwardKeepsChannels(d, i);
        case Ask(q, now) =>
          assert Feeds(before) + [] == Feeds(before);
          AskCore(d, q, now);
      }
    }
  }

  /** The same inputs, told in two parts and with other channels. */
  lemma {:induction false} ForwardConcat(c0: Client, c: Client, inputs: seq<Input>, more: seq<Input>)
    requires Core(c) == Core(ForwardAll(c0, inputs))
    ensures Core(ForwardAll(c, more)) == Core(ForwardAll(c0, inputs + more))
    decreases |more|
  {
    hide Forward, Core;
    if more == [] {
      assert inputs + more == inputs;
    } else {
      var before, i := more[..|more| - 1], more[|more| - 1];
      ForwardConcat(c0, c, inputs, before);
      ForwardCore(ForwardAll(c, before), ForwardAll(c0, inputs + before), i);
      assert (inputs + more)[..|inputs + more| - 1] == inputs + before;
    }
  }

  // ---------------------------------------------------------------- what is put on one channel

  /** The items a connected peer is sent: each new segment, and a replay for each of its requests. */
  function ItemsFor(c: Client, es: seq<ServeEvent>, p: Peer): seq<Item>
    decreases |es|
  {
    if es == [] then []
    else
      var before := es[..|es| - 1];
      var d := Serve(c, before);
      ItemsFor(c, before, p)
      + match es[|es| - 1] {
          case Feed(i) => [Seg(Numbered(i, d.nextSequence))]
          case Ask(q, now) => if q == p then CachedItems(d, now) else []
        }
  }

  lemma {:induction false} ConnectedIsOpen(channels: seq<Channel>, p: Peer)
    requires Connected(channels, p)
    ensures IsOpen(channels, p)
  {
    var last := channels[|channels| - 1];
    if last.peer == p {
      assert channels[|channels| - 1] == Channel(p, true);
    } else {
      var init := channels[..|channels| - 1];
      ConnectedIsOpen(init, p);
      var i :| 0 <= i < |init| && init[i] == Channel(p, true);
      assert channels[i] == Channel(p, true);
    }
  }

  lemma {:induction false} FeedReaches(c: Client, i: Input, p: Peer)
    requires c.isPublisher && Connected(c.channels, p)
    ensures SentTo(Forward(c, i.buffer, i.kind, i.isKeyframe, i.now).sent, p)
         == SentTo(c.sent, p) + Encode([Seg(Numbered(i, c.nextSequence))])
  {
    hide SegmentMessages, Broadcast, Targets, PushQueue, Connected, SentTo, Encode;
    var s := Numbered(i, c.nextSequence);
    var ms := SegmentMessages(s.header, s.buffer);
    BroadcastReaches(c.channels, ms, p);
    SentToConcat(c.sent, Broadcast(Targets(c.channels, None), ms), p);
    EncodeOne(Seg(s));
  }

  lemma {:induction false} AskReaches(c: Client, q: Peer, now: int, p: Peer)
    requires c.isPublisher && Connected(c.channels, p)
    ensures SentTo(Handle(c, q, Text(RequestInit), now).sent, p)
         == SentTo(c.sent, p) + if q == p then Encode(CachedItems(c, now)) else []
  {
    hide CachedMessages, Connected, SentTo, Encode, CachedItems, IsOpen;
    assert SentTo(c.sent, p) + [] == SentTo(c.sent, p);
    SentToConcat(c.sent, To(q, CachedMessages(c, now)), p);
    SentToOne(q, CachedMessages(c, now), p);
    if q == p {
      ConnectedIsOpen(c.channels, p);
      CachedEncoded(c, now);
    }
  }

  lemma {:induction false} Served(c: Client, es: seq<ServeEvent>, p: Peer)
    requires c.isPublisher && Connected(c.channels, p)
    ensures SentTo(Serve(c, es).sent, p) == SentTo(c.sent, p) + Encode(ItemsFor(c, es, p))
    ensures Serve(c, es).isPublisher
    decreases |es|
  {
    hide Forward, Handle, Connected, SentTo, Encode, CachedItems;
    if es == [] {
      EncodeNothing();
      assert SentTo(c.sent, p) + [] == SentTo(c.sent, p);
    } else {
      var before, e := es[..|es| - 1], es[|es| - 1];
      var d := Serve(c, before);
      Served(c, before, p);
      ServeIsForward(c, before);
      ServeIsForward(c, es);
      StaysPublisher(c, Feeds(es));
      var items := ItemsFor(c, before, p);
      match e {
        case Feed(i) =>
          FeedReaches(d, i, p);
          EncodeConcat(items, [Seg(Numbered(i, d.nextSequence))]);
        case Ask(q, now) =>
          AskReaches(d, q, now, p);
          EncodeConcat(items, CachedItems(d, now));
          assert items + [] == items && Encode(items) + [] == Encode(items);
      }
    }
  }

  lemma {:induction false} StaysPublisher(c: Client, inputs: seq<Input>)
    requires c.isPublisher
    ensures ForwardAll(c, inputs).isPublisher && ForwardAll(c, inputs).streamInfo == c.streamInfo
    ensures ForwardAll(c, inputs).nextSequence == c.nextSequence + |inputs|
    decreases |inputs|
  {
    hide SegmentMessages, Broadcast, Targets, PushQueue;
    if inputs != [] {
      StaysPublisher(c, inputs[..|inputs| - 1]);
    }
  }

  // ---------------------------------------------------------------- the same from the inputs alone

  /** A new segment goes out under the next number; a request of the peer is answered with a replay of all inputs so
      far. */
  function ItemsFrom(c0: Client, inputs: seq<Input>, es: seq<ServeEvent>, p: Peer): seq<Item>
    decreases |es|
  {
    if es == [] then []
    else
      var before := es[..|es| - 1];
      var sofar := inputs + Feeds(before);
      ItemsFrom(c0, inputs, before, p)
      + match es[|es| - 1] {
          case Feed(i) => [Seg(Numbered(i, |sofar|))]
          case Ask(q, now) => if q == p then ReplayItems(c0, sofar, now) else []
        }
  }

  /** All items on the channel: the replay at its opening, when the publisher knows the stream by then, and what
      follows. */
  function StreamItems(c0: Client, inputs: seq<Input>, now: int, es: seq<ServeEvent>, p: Peer): seq<Item> {
    (if c0.streamInfo.Some? then ReplayItems(c0, inputs, now) else []) + ItemsFrom(c0, inputs, es, p)
  }

  lemma {:induction false} CoreIsReplay(c0: Client, d: Client, inputs: seq<Input>, now: int)
    requires Starting(c0) && Core(d) == Core(ForwardAll(c0, inputs))
    ensures CachedItems(d, now) == ReplayItems(c0, inputs, now) && d.nextSequence == |inputs|
  {
    hide ForwardAll, CachedItems, ReplayItems;
    CoreNumber(c0, d, inputs);
    SameCore(d, ForwardAll(c0, inputs));
    StaysPublisher(c0, inputs);
    assert d.isPublisher == Core(d).isPublisher && ForwardAll(c0, inputs).isPublisher == Core(ForwardAll(c0, inputs)).isPublisher;
    CachedIsReplay(c0, d, inputs, now);
  }

  lemma {:induction false} ItemsAreFrom(c0: Client, c: Client, inputs: seq<Input>, es: seq<ServeEvent>, p: Peer)
    requires Starting(c0) && Core(c) == Core(ForwardAll(c0, inputs))
    ensures ItemsFor(c, es, p) == ItemsFrom(c0, inputs, es, p)
    decreases |es|
  {
    hide ForwardAll, CachedItems, ReplayItems, Serve, Core, Feeds;
    if es != [] {
      var before := es[..|es| - 1];
      ItemsAreFrom(c0, c, inputs, before, p);
      ServeIsForward(c, before);
      ForwardConcat(c0, c, inputs, Feeds(before));
      var sofar := inputs + Feeds(before);
      match es[|es| - 1] {
        case Feed(_) => CoreNumber(c0, Serve(c, before), sofar);
        case Ask(_, now) => CoreIsReplay(c0, Serve(c, before), sofar, now);
      }
    }
  }

  // ---------------------------------------------------------------- which numbers these are

  /** The numbers of a replay after these inputs: the last keyframe and what is still queued behind it. */
  function ReplayNumbers(inputs: seq<Input>): seq<int> {
    match LastKey(inputs)
    case None => []
    case Some(k) => [k as int] + Count(Later(k + 1, |inputs| - MAX_SEGMENT_QUEUE_SIZE), |inputs|)
  }

  lemma {:induction false} CachedNumbers(c0: Client, c: Client, inputs: seq<Input>, now: int)
    requires Starting(c0) && Core(c) == Core(ForwardAll(c0, inputs))
    ensures Numbers(CachedItems(c, now)) == ReplayNumbers(inputs)
  {
    hide ForwardAll, Numbers, AfterKeyframe, CachedItems, Count, LastOf;
    PublisherKeeps(c0, inputs);
    LastKeyIs(inputs);
    SameCore(c, ForwardAll(c0, inputs));
    hide Core;
    match LastKey(inputs) {
      case None => NothingCached(c, now);
      case Some(k) => SomethingCached(c, inputs, k, now);
    }
  }

  lemma {:induction false} SameCore(c: Client, d: Client)
    requires Core(c) == Core(d)
    ensures c.keyframe == d.keyframe && c.queue == d.queue && c.initSegment == d.initSegment && c.streamInfo == d.streamInfo
    ensures c.nextSequence == d.nextSequence
  {
    assert Core(c).keyframe == c.keyframe && Core(c).queue == c.queue;
  }

  lemma {:induction false} SomethingCached(c: Client, inputs: seq<Input>, k: nat, now: int)
    requires k < |inputs| && c.keyframe == Some(Stream(inputs, 0)[k])
    requires c.queue == LastOf(Stream(inputs, 0), MAX_SEGMENT_QUEUE_SIZE)
    ensures Numbers(CachedItems(c, now)) == [k as int] + Count(Later(k + 1, |inputs| - MAX_SEGMENT_QUEUE_SIZE), |inputs|)
  {
    hide Numbers, AfterKeyframe, JoinerItems, Count, LastOf;
    var n, all := |inputs|, Stream(inputs, 0);
    CachedQueue(c, inputs, k);
    var start := Later(k + 1, n - MAX_SEGMENT_QUEUE_SIZE);
    WholeTail(all, start);
    JoinerNumbers(c, now, all[k], all[start..n], [], start, n);
    JustCached(c, now);
    CountNothing(n);
    assert [k as int] + Count(start, n) + [] == [k as int] + Count(start, n);
  }

  lemma {:induction false} JustCached(c: Client, now: int)
    ensures JoinerItems(c, now, []) == CachedItems(c, now)
  {
    assert CachedItems(c, now) + [] == CachedItems(c, now);
  }

  lemma {:induction false} CountNothing(n: nat)
    ensures Count(n, n) == []
  {
  }

  lemma {:induction false} NothingCached(c: Client, now: int)
    requires c.keyframe.None?
    ensures Numbers(CachedItems(c, now)) == []
  {
    hide Numbers;
    var info := if c.streamInfo.Some? then [Note(StreamInfo(c.streamInfo))] else [];
    var cached := CachedSegments(c, now);
    NumbersConcat(info, SegItems(cached));
    Uncounted(info);
    Uncounted(SegItems(cached));
  }

  /** What one event adds when `all` has been fed before. */
  function NumbersOf(all: seq<Input>, e: ServeEvent, p: Peer): seq<int> {
    match e
    case Feed(_) => [|all|]
    case Ask(q, _) => if q == p then ReplayNumbers(all) else []
  }

  function NumbersFor(inputs: seq<Input>, es: seq<ServeEvent>, p: Peer): seq<int>
    decreases |es|
  {
    if es == [] then []
    else
      var before := es[..|es| - 1];
      NumbersFor(inputs, before, p) + NumbersOf(inputs + Feeds(before), es[|es| - 1], p)
  }

  lemma {:induction false} ItemNumbers(c0: Client, c: Client, inputs: seq<Input>, es: seq<ServeEvent>, p: Peer)
    requires Starting(c0) && Core(c) == Core(ForwardAll(c0, inputs))
    ensures Numbers(ItemsFor(c, es, p)) == NumbersFor(inputs, es, p)
    decreases |es|
  {
    hide ForwardAll, Numbers, CachedItems, ReplayNumbers, Serve, Core;
    if es == [] {
      NoNumbers();
    } else {
      var before, e := es[..|es| - 1], es[|es| - 1];
      var d, items := Serve(c, before), ItemsFor(c, before, p);
      ItemNumbers(c0, c, inputs, before, p);
      ServeIsForward(c, before);
      ForwardConcat(c0, c, inputs, Feeds(before));
      CoreNumber(c0, d, inputs + Feeds(before));
      match e {
        case Feed(i) =>
          NumbersConcat(items, [Seg(Numbered(i, d.nextSequence))]);
          NumbersOne(Numbered(i, d.nextSequence));
        case Ask(q, now) =>
          if q == p {
            CachedNumbers(c0, d, inputs + Feeds(before), now);
            NumbersConcat(items, CachedItems(d, now));
          } else {
            assert items + [] == items && Numbers(items) + [] == Numbers(items);
          }
      }
    }
  }

  lemma {:induction false} NoNumbers()
    ensures Numbers([]) == []
  {
  }

  lemma {:induction false} CoreNumber(c0: Client, d: Client, inputs: seq<Input>)
    requires Starting(c0) && Core(d) == Core(ForwardAll(c0, inputs))
    ensures d.nextSequence == |inputs|
  {
    hide ForwardAll;
    PublisherKeeps(c0, inputs);
    assert d.nextSequence == Core(d).nextSequence;
  }

  predicate Quiet(es: seq<ServeEvent>, p: Peer) {
    forall i :: 0 <= i < |es| && es[i].Ask? ==> es[i].peer != p
  }

  /** Without a request of its own a peer gets the live segments. */
  lemma {:induction false} QuietNumbers(inputs: seq<Input>, es: seq<ServeEvent>, p: Peer)
    requires Quiet(es, p)
    ensures NumbersFor(inputs, es, p) == Count(|inputs|, |inputs| + |Feeds(es)|)
    decreases |es|
  {
    hide ReplayNumbers;
    if es != [] {
      var before := es[..|es| - 1];
      QuietNumbers(inputs, before, p);
      assert es[|es| - 1].Ask? ==> es[|es| - 1].peer != p;
      var n := |inputs|;
      if es[|es| - 1].Feed? {
        assert Count(n, n + |Feeds(before)|) + [n + |Feeds(before)|] == Count(n, n + |Feeds(before)| + 1);
      } else {
        assert Feeds(before) + [] == Feeds(before);
        assert Count(n, n + |Feeds(before)|) + [] == Count(n, n + |Feeds(before)|);
      }
    }
  }

  lemma {:induction false} FeedsSnoc(es: seq<ServeEvent>, e: ServeEvent)
    ensures Feeds(es + [e]) == Feeds(es) + match e { case Feed(i) => [i] case Ask(_, _) => [] }
  {
    assert (es + [e])[..|es|] == es;
  }

  lemma {:induction false} NumbersSnoc(inputs: seq<Input>, es: seq<ServeEvent>, e: ServeEvent, p: Peer)
    ensures NumbersFor(inputs, es + [e], p) == NumbersFor(inputs, es, p) + NumbersOf(inputs + Feeds(es), e, p)
  {
    hide Feeds, NumbersOf;
    assert (es + [e])[..|es|] == es;
  }

  lemma {:induction false} NoEvents(inputs: seq<Input>, p: Peer)
    ensures Feeds([]) == [] && NumbersFor(inputs, [], p) == []
  {
  }

  lemma {:induction false} NumbersAppend(inputs: seq<Input>, a: seq<ServeEvent>, b: seq<ServeEvent>, p: Peer)
    ensures Feeds(a + b) == Feeds(a) + Feeds(b)
    ensures NumbersFor(inputs, a + b, p) == NumbersFor(inputs, a, p) + NumbersFor(inputs + Feeds(a), b, p)
    decreases |b|
  {
    hide NumbersOf, NumbersFor, Feeds;
    if b == [] {
      NoEvents(inputs + Feeds(a), p);
      assert a + b == a;
      assert Feeds(a) + [] == Feeds(a) && NumbersFor(inputs, a, p) + [] == NumbersFor(inputs, a, p);
    } else {
      var init, e := b[..|b| - 1], b[|b| - 1];
      NumbersAppend(inputs, a, init, p);
      assert b == init + [e];
      Reassociate(a, init, [e]);
      FeedsSnoc(a + init, e);
      FeedsSnoc(init, e);
      Reassociate(Feeds(a), Feeds(init), match e { case Feed(i) => [i] case Ask(_, _) => [] });
      NumbersSnoc(inputs, a + init, e, p);
      NumbersSnoc(inputs + Feeds(a), init, e, p);
      Reassociate(inputs, Feeds(a), Feeds(init));
      Reassociate(NumbersFor(inputs, a, p), NumbersFor(inputs + Feeds(a), init, p), NumbersOf((inputs + Feeds(a)) + Feeds(init), e, p));
    }
  }

  /** One request among other events: what went live before it, a replay of the cache as it is then, and the rest. */
  lemma {:induction false} OneRequest(inputs: seq<Input>, before: seq<ServeEvent>, now: int, after: seq<ServeEvent>, p: Peer)
    requires Quiet(before, p) && Quiet(after, p)
    ensures var n := |inputs|;
            var m := n + |Feeds(before)|;
            NumbersFor(inputs, before + [Ask(p, now)] + after, p)
            == Count(n, m) + ReplayNumbers(inputs + Feeds(before)) + Count(m, m + |Feeds(after)|)
  {
    hide NumbersFor, Feeds, ReplayNumbers;
    var ask := [Ask(p, now)];
    NumbersAppend(inputs, before + ask, after, p);
    NumbersAppend(inputs, before, ask, p);
    AskNumbers(inputs + Feeds(before), now, p);
    QuietNumbers(inputs, before, p);
    assert inputs + (Feeds(before) + []) == inputs + Feeds(before);
    QuietNumbers(inputs + Feeds(before + ask), after, p);
    assert Feeds(before + ask) == Feeds(before);
  }

  lemma {:induction false} AskNumbers(inputs: seq<Input>, now: int, p: Peer)
    ensures NumbersFor(inputs, [Ask(p, now)], p) == ReplayNumbers(inputs) && Feeds([Ask(p, now)]) == []
  {
    hide ReplayNumbers;
    var es := [Ask(p, now)];
    assert es[..0] == [] && inputs + Feeds(es[..0]) == inputs;
    assert [] + ReplayNumbers(inputs) == ReplayNumbers(inputs);
  }

  // ---------------------------------------------------------------- duplicates

  lemma {:induction false} LastKeyConcat(a: seq<Input>, b: seq<Input>)
    ensures LastKey(a + b) == if LastKey(b).Some? then Some(|a| + LastKey(b).value) else LastKey(a)
    decreases |b|
  {
    if b == [] {
      assert a + b == a;
    } else {
      LastKeyConcat(a, b[..|b| - 1]);
      assert (a + b)[..|a + b| - 1] == a + b[..|b| - 1];
    }
  }

  /** A second replay repeats the keyframe that the first one or the live stream has brought. */
  lemma {:induction false} RepeatedKey(inputs: seq<Input>, more: seq<Input>, informed: bool)
    requires LastKey(inputs + more).Some? && (informed || more != [])
    ensures var n, m := |inputs|, |inputs + more|;
            var earlier := (if informed then ReplayNumbers(inputs) else []) + Count(n, m);
            exists x :: x in earlier && x in ReplayNumbers(inputs + more)
  {
    hide Count;
    var n, m := |inputs|, |inputs + more|;
    var first, live, second := if informed then ReplayNumbers(inputs) else [], Count(n, m), ReplayNumbers(inputs + more);
    var key := LastKey(inputs + more).value;
    LastKeyConcat(inputs, more);
    LastKeyIs(inputs + more);
    LastKeyIs(inputs);
    assert second[0] == key && (key as int) in second;
    if key >= n {
      CountHas(n, m, key);
      assert (key as int) in first + live;
    } else if informed {
      assert first[0] == key;
      assert (key as int) in first + live;
    } else {
      var start := Later(key + 1, m - MAX_SEGMENT_QUEUE_SIZE);
      CountHas(n, m, m - 1);
      CountHas(start, m, m - 1);
      assert (m - 1) in first + live && (m - 1) in second;
    }
  }

  lemma {:induction false} CountHas(from: nat, end: nat, x: nat)
    requires from <= x < end
    ensures (x as int) in Count(from, end)
  {
    assert Count(from, end)[x - from] == x;
  }

  lemma {:induction false} SharedIsDuplicate(a: seq<int>, b: seq<int>, c: seq<int>, x: int)
    requires x in a && x in b
    ensures !Distinct(a + b + c)
  {
    var i :| 0 <= i < |a| && a[i] == x;
    var j :| 0 <= j < |b| && b[j] == x;
    assert (a + b + c)[i] == x && (a + b + c)[|a| + j] == x;
  }

  lemma {:induction false} IncreasingIsDistinct(s: seq<int>)
    requires Increasing(s)
    ensures Distinct(s)
  {
  }

  /** A replay followed by everything after it. */
  lemma {:induction false} ReplayThenLive(inputs: seq<Input>, end: nat)
    requires |inputs| <= end
    ensures Increasing(ReplayNumbers(inputs) + Count(|inputs|, end))
  {
    LastKeyIs(inputs);
    var n := |inputs|;
    if LastKey(inputs).Some? {
      var k := LastKey(inputs).value;
      var start := Later(k + 1, n - MAX_SEGMENT_QUEUE_SIZE);
      CountJoins(k, start, n, end);
      Shape(k, start, end);
    }
  }

  /** The numbers a viewer gets that asks once: no number comes twice exactly when there is no keyframe yet when it
      asks, or the publisher had nothing to say at the opening and nothing went live before the request. */
  lemma {:induction false} DuplicatesIff(inputs: seq<Input>, more: seq<Input>, informed: bool, end: nat)
    requires |inputs + more| <= end
    ensures var n, m := |inputs|, |inputs + more|;
            var first := if informed then ReplayNumbers(inputs) else [];
            Distinct(first + Count(n, m) + ReplayNumbers(inputs + more) + Count(m, end))
            <==> LastKey(inputs + more).None? || (!informed && more == [])
  {
    hide Count, ReplayNumbers, Distinct, Increasing;
    var n, m := |inputs|, |inputs + more|;
    var first, live, second, rest := if informed then ReplayNumbers(inputs) else [], Count(n, m), ReplayNumbers(inputs + more), Count(m, end);
    if LastKey(inputs + more).None? {
      LastKeyConcat(inputs, more);
      NoReplay(inputs);
      NoReplay(inputs + more);
      assert [] + live + [] + rest == live + rest;
      CountTwice(n, m, end);
      CountIncreasing(n, end);
      IncreasingIsDistinct(Count(n, end));
    } else if !informed && more == [] {
      assert inputs + more == inputs;
      CountNothing(n);
      assert [] + [] + second + rest == second + rest;
      ReplayThenLive(inputs, end);
      IncreasingIsDistinct(second + rest);
    } else {
      RepeatedKey(inputs, more, informed);
      var x :| x in first + live && x in second;
      SharedIsDuplicate(first + live, second, rest, x);
    }
  }

  lemma {:induction false} NoReplay(inputs: seq<Input>)
    ensures LastKey(inputs).None? ==> ReplayNumbers(inputs) == []
  {
  }

  lemma {:induction false} CountTwice(a: nat, b: nat, c: nat)
    requires a <= b <= c
    ensures Count(a, b) + Count(b, c) == Count(a, c)
  {
  }

  lemma {:induction false} CountIncreasing(a: nat, b: nat)
    ensures Increasing(Count(a, b))
  {
  }

  // ---------------------------------------------------------------- what reaches the player

  /** The sequence numbers handed to the player, without the -1 of a replayed init segment. */
  function NumbersDelivered(ds: seq<Delivery>): seq<int> {
    if ds == [] then []
    else if ds[0].header.Some? && ds[0].header.value.sequence >= 0 then [ds[0].header.value.sequence] + NumbersDelivered(ds[1..])
    else NumbersDelivered(ds[1..])
  }

  predicate Typed(i: Item) { i.Seg? ==> i.segment.header.typed }

  lemma {:induction false} NumbersArrive(items: seq<Item>, p: Peer)
    requires forall i :: 0 <= i < |items| ==> Typed(items[i])
    ensures NumbersDelivered(Expected(items, p)) == Numbers(items)
    decreases |items|
  {
    if items != [] {
      var rest := Expected(items[1..], p);
      assert Typed(items[0]);
      NumbersArrive(items[1..], p);
      if items[0].Seg? {
        var ds := Expected(items, p);
        assert ds == ExpectedItem(items[0], p) + rest;
        assert ds[0] == ExpectedItem(items[0], p)[0] && ds[1..] == rest;
      } else {
        assert [] + rest == rest;
      }
    }
  }

  predicate AllTyped(segments: seq<Segment>) { forall x :: x in segments ==> x.header.typed }

  lemma {:induction false} QueuedAreTyped(queue: seq<Segment>, keyframe: Option<Segment>)
    requires AllTyped(queue)
    ensures AllTyped(AfterKeyframe(queue, keyframe))
  {
    if keyframe.Some? && queue != [] {
      QueuedAreTyped(queue[..|queue| - 1], keyframe);
    }
  }

  predicate AllLegal(items: seq<Item>) {
    forall i :: 0 <= i < |items| ==> LegalItem(items[i]) && Typed(items[i])
  }

  lemma {:induction false} LegalSegments(segments: seq<Segment>)
    requires AllTyped(segments)
    ensures AllLegal(SegItems(segments))
  {
    assert forall i :: 0 <= i < |segments| ==> segments[i] in segments;
  }

  lemma {:induction false} LegalConcat(a: seq<Item>, b: seq<Item>)
    requires AllLegal(a) && AllLegal(b)
    ensures AllLegal(a + b)
  {
  }

  lemma {:induction false} LegalInfo(items: seq<Item>)
    requires forall i :: 0 <= i < |items| ==> items[i].Note? && items[i].control.StreamInfo?
    ensures AllLegal(items)
  {
  }

  lemma {:induction false} CachedItemsLegal(c: Client, now: int)
    requires AllTyped(c.queue) && (c.keyframe.Some? ==> c.keyframe.value.header.typed)
    ensures AllLegal(CachedItems(c, now))
  {
    hide AfterKeyframe, AllLegal;
    QueuedAreTyped(c.queue, c.keyframe);
    assert AllTyped(CachedSegments(c, now));
    LegalSegments(CachedSegments(c, now));
    hide CachedSegments;
    var info := if c.streamInfo.Some? then [Note(StreamInfo(c.streamInfo))] else [];
    LegalInfo(info);
    LegalConcat(info, SegItems(CachedSegments(c, now)));
  }

  lemma {:induction false} CacheIsLegal(c0: Client, c: Client, inputs: seq<Input>, now: int)
    requires Starting(c0) && Core(c) == Core(ForwardAll(c0, inputs))
    ensures AllLegal(CachedItems(c, now))
  {
    hide ForwardAll, CachedItems, AllLegal;
    PublisherKeeps(c0, inputs);
    LastKeyIs(inputs);
    var d := ForwardAll(c0, inputs);
    assert c.keyframe == d.keyframe && c.queue == d.queue;
    QueueTyped(Stream(inputs, 0), c.queue);
    if LastKey(inputs).Some? {
      assert c.keyframe == Some(Stream(inputs, 0)[LastKey(inputs).value]);
    }
    CachedItemsLegal(c, now);
  }

  lemma {:induction false} ItemsLegal(c0: Client, c: Client, inputs: seq<Input>, es: seq<ServeEvent>, p: Peer)
    requires Starting(c0) && Core(c) == Core(ForwardAll(c0, inputs))
    ensures AllLegal(ItemsFor(c, es, p))
    decreases |es|
  {
    hide ForwardAll, CachedItems, Serve, Core, AllLegal;
    if es == [] {
      LegalInfo([]);
    } else {
      var before, e := es[..|es| - 1], es[|es| - 1];
      var d, items := Serve(c, before), ItemsFor(c, before, p);
      ItemsLegal(c0, c, inputs, before, p);
      ServeIsForward(c, before);
      ForwardConcat(c0, c, inputs, Feeds(before));
      match e {
        case Feed(i) =>
          LegalSegment(Numbered(i, d.nextSequence));
          LegalConcat(items, [Seg(Numbered(i, d.nextSequence))]);
        case Ask(q, now) =>
          CacheIsLegal(c0, d, inputs + Feeds(before), now);
          LegalConcat(items, CachedItems(d, now));
          assert items + [] == items;
      }
    }
  }

  lemma {:induction false} LegalSegment(s: Segment)
    requires s.header.typed
    ensures AllLegal([Seg(s)])
  {
  }

  lemma {:induction false} QueueTyped(all: seq<Segment>, queue: seq<Segment>)
    requires AllTyped(all) && queue == LastOf(all, MAX_SEGMENT_QUEUE_SIZE)
    ensures AllTyped(queue)
  {
  }

  // ---------------------------------------------------------------- from opening to player

  /** The channel to a peer is closed, or there is none, and there is no second one. */
  predicate Closed(channels: seq<Channel>, p: Peer) {
    || Absent(channels, p)
    || (channels != [] && if channels[0].peer == p then !channels[0].open && Absent(channels[1..], p) else Closed(channels[1..], p))
  }

  lemma {:induction false} ClosedGetsNothing(channels: seq<Channel>, ms: seq<Message>, p: Peer)
    requires forall i :: 0 <= i < |channels| && channels[i].peer == p ==> !channels[i].open
    ensures SentTo(Broadcast(Targets(channels, None), ms), p) == []
    decreases |channels|
  {
    hide To, SentTo;
    if channels == [] {
      NothingToSend(p);
    } else {
      var init, last := channels[..|channels| - 1], channels[|channels| - 1];
      ClosedGetsNothing(init, ms, p);
      var t := Targets(init, None);
      if last.open {
        assert (t + [last.peer])[..|t|] == t;
        SentToConcat(Broadcast(t, ms), To(last.peer, ms), p);
        SentToOne(last.peer, ms, p);
      } else {
        assert t + [] == t;
      }
    }
  }

  lemma {:induction false} ClosedIsNotOpen(channels: seq<Channel>, p: Peer)
    requires Closed(channels, p)
    ensures forall i :: 0 <= i < |channels| && channels[i].peer == p ==> !channels[i].open
  {
    if !Absent(channels, p) {
      if channels[0].peer != p {
        ClosedIsNotOpen(channels[1..], p);
      }
      forall i | 0 <= i < |channels| && channels[i].peer == p
        ensures !channels[i].open
      {
        if i > 0 {
          assert channels[i] == channels[1..][i - 1];
        }
      }
    }
  }

  lemma {:induction false} NobodySendsTo(c: Client, inputs: seq<Input>, p: Peer)
    requires c.isPublisher && Closed(c.channels, p)
    ensures var r := ForwardAll(c, inputs);
            r.isPublisher && r.channels == c.channels && SentTo(r.sent, p) == SentTo(c.sent, p)
    decreases |inputs|
  {
    hide SegmentMessages, Broadcast, Targets, PushQueue, Closed, SentTo;
    if inputs != [] {
      var before, i := inputs[..|inputs| - 1], inputs[|inputs| - 1];
      NobodySendsTo(c, before, p);
      var c1 := ForwardAll(c, before);
      var h := ForwardHeader(c1, i.buffer, i.kind, i.isKeyframe, i.now);
      var ms := SegmentMessages(h, i.buffer);
      ClosedIsNotOpen(c1.channels, p);
      ClosedGetsNothing(c1.channels, ms, p);
      SentToConcat(c1.sent, Broadcast(Targets(c1.channels, None), ms), p);
      assert SentTo(c1.sent, p) + [] == SentTo(c1.sent, p);
    }
  }

  /** Opening connects. */
  lemma {:induction false} OpenConnects(channels: seq<Channel>, p: Peer)
    requires Closed(channels, p)
    ensures Connected(SetChannel(channels, p, true), p)
  {
    if channels == [] {
      ConnectedCons(Channel(p, true), [], p);
      assert [Channel(p, true)] + [] == [Channel(p, true)];
    } else if channels[0].peer == p {
      assert Absent(channels[1..], p);
      ConnectedCons(Channel(p, true), channels[1..], p);
    } else {
      if Absent(channels, p) {
        assert Absent(channels[1..], p);
      }
      OpenConnects(channels[1..], p);
      ConnectedCons(channels[0], SetChannel(channels[1..], p, true), p);
    }
  }

  lemma {:induction false} ConnectedCons(x: Channel, rest: seq<Channel>, p: Peer)
    ensures x.peer != p && Connected(rest, p) ==> Connected([x] + rest, p)
    ensures x == Channel(p, true) && Absent(rest, p) ==> Connected([x] + rest, p)
    decreases |rest|
  {
    var all := [x] + rest;
    if rest == [] {
      assert all[..0] == [];
    } else {
      var init := rest[..|rest| - 1];
      ConnectedCons(x, init, p);
      assert all[..|all| - 1] == [x] + init && all[|all| - 1] == rest[|rest| - 1];
      assert Absent(rest, p) ==> Absent(init, p) && rest[|rest| - 1].peer != p;
      assert x.peer != p && Absent(init, p) ==> Absent([x] + init, p);
    }
  }

  /** A viewer that can not relay yet asks as soon as its channel opens. */
  lemma {:induction false} FreshViewerAsks(publisher: Peer, now: int)
    ensures OpenChannel(FreshClient(false), publisher, now).sent == To(publisher, [Text(RequestInit)])
  {
    assert [] + To(publisher, [Text(RequestInit)]) == To(publisher, [Text(RequestInit)]);
  }

  lemma {:induction false} Opening(c: Client, p: Peer, now: int)
    requires c.isPublisher && Closed(c.channels, p) && SentTo(c.sent, p) == []
    ensures var d := OpenChannel(c, p, now);
            && Core(d) == Core(c) && d.isPublisher && Connected(d.channels, p)
            && SentTo(d.sent, p) == if c.streamInfo.Some? then Encode(CachedItems(c, now)) else []
  {
    hide CachedMessages, SentTo, Encode, SetChannel, Closed, Connected, CachedItems, AfterKeyframe;
    OpenConnects(c.channels, p);
    var c1 := c.(channels := SetChannel(c.channels, p, true));
    SentToConcat(c.sent, To(p, CachedMessages(c1, now)), p);
    SentToOne(p, CachedMessages(c1, now), p);
    CachedEncoded(c1, now);
    SameCache(c, c1, now);
    assert [] + CachedMessages(c1, now) == CachedMessages(c1, now);
  }

  lemma {:induction false} SameCache(c: Client, d: Client, now: int)
    requires Core(c) == Core(d)
    ensures CachedItems(c, now) == CachedItems(d, now)
  {
    assert c.keyframe == d.keyframe && c.queue == d.queue && c.initSegment == d.initSegment && c.streamInfo == d.streamInfo;
  }

  /** End to end: whatever other peers send the viewer and whoever else asks the publisher, the player gets exactly
      the replays and the live segments that the publisher's inputs call for, and their numbers are these. */
  lemma {:induction false} JoinerReceives(
      c0: Client, inputs: seq<Input>, p: Peer, now: int, es: seq<ServeEvent>, viewer: Client, publisher: Peer, events: seq<Event>)
    requires Starting(c0) && Closed(c0.channels, p) && SentTo(c0.sent, p) == []
    requires ViewOf(viewer, publisher) == CLEAN && DeliveredFrom(viewer.delivered, publisher) == []
    requires Project(events, publisher) == SentTo(Serve(OpenChannel(ForwardAll(c0, inputs), p, now), es).sent, p)
    ensures var got := DeliveredFrom(Run(viewer, events).delivered, publisher);
            && got == Expected(StreamItems(c0, inputs, now, es, p), publisher)
            && NumbersDelivered(got) == (if c0.streamInfo.Some? then ReplayNumbers(inputs) else []) + NumbersFor(inputs, es, p)
  {
    hide SentTo, Numbers, NumbersDelivered, Expected, Encode, Project, Run, DeliveredFrom, OpenChannel, StreamItems,
      NumbersFor, ReplayNumbers, Serve, AllLegal, ForwardAll, Closed;
    StreamIsSent(c0, inputs, p, now, es);
    StreamIsLegal(c0, inputs, p, now, es);
    PlayerGets(viewer, events, publisher, StreamItems(c0, inputs, now, es, p));
  }

  /** What is put on the channel is what the inputs call for. */
  lemma {:induction false} StreamIsSent(c0: Client, inputs: seq<Input>, p: Peer, now: int, es: seq<ServeEvent>)
    requires Starting(c0) && Closed(c0.channels, p) && SentTo(c0.sent, p) == []
    ensures SentTo(Serve(OpenChannel(ForwardAll(c0, inputs), p, now), es).sent, p) == Encode(StreamItems(c0, inputs, now, es, p))
  {
    hide ForwardAll, SentTo, Encode, CachedItems, ReplayItems, OpenChannel, ItemsFor, ItemsFrom, Serve, Connected, Closed, Core;
    var c := ForwardAll(c0, inputs);
    NobodySendsTo(c0, inputs, p);
    PublisherKeeps(c0, inputs);
    Opening(c, p, now);
    var d := OpenChannel(c, p, now);
    Served(d, es, p);
    CoreIsReplay(c0, c, inputs, now);
    ItemsAreFrom(c0, d, inputs, es, p);
    EncodeConcat(if c0.streamInfo.Some? then ReplayItems(c0, inputs, now) else [], ItemsFrom(c0, inputs, es, p));
    EncodeNothing();
  }

  /** Those items are recognised by a receiver, and these are their numbers. */
  lemma {:induction false} StreamIsLegal(c0: Client, inputs: seq<Input>, p: Peer, now: int, es: seq<ServeEvent>)
    requires Starting(c0)
    ensures AllLegal(StreamItems(c0, inputs, now, es, p))
    ensures Numbers(StreamItems(c0, inputs, now, es, p))
         == (if c0.streamInfo.Some? then ReplayNumbers(inputs) else []) + NumbersFor(inputs, es, p)
  {
    hide ForwardAll, Numbers, CachedItems, ReplayItems, ItemsFor, ItemsFrom, NumbersFor, ReplayNumbers, AllLegal, Core;
    var c := ForwardAll(c0, inputs);
    CoreIsReplay(c0, c, inputs, now);
    ItemsAreFrom(c0, c, inputs, es, p);
    CacheIsLegal(c0, c, inputs, now);
    LegalInfo([]);
    ItemsLegal(c0, c, inputs, es, p);
    var first := if c0.streamInfo.Some? then ReplayItems(c0, inputs, now) else [];
    LegalConcat(first, ItemsFrom(c0, inputs, es, p));
    NumbersConcat(first, ItemsFrom(c0, inputs, es, p));
    CachedNumbers(c0, c, inputs, now);
    NoNumbers();
    ItemNumbers(c0, c, inputs, es, p);
  }

  lemma {:induction false} PlayerGets(viewer: Client, events: seq<Event>, publisher: Peer, items: seq<Item>)
    requires ViewOf(viewer, publisher) == CLEAN && DeliveredFrom(viewer.delivered, publisher) == []
    requires Project(events, publisher) == Encode(items) && AllLegal(items)
    ensures var got := DeliveredFrom(Run(viewer, events).delivered, publisher);
            got == Expected(items, publisher) && NumbersDelivered(got) == Numbers(items)
  {
    hide Run, DeliveredFrom, Expected, Encode, Project, Numbers, NumbersDelivered;
    FramingRoundTrip(viewer, events, publisher, items);
    assert [] + Expected(items, publisher) == Expected(items, publisher);
    NumbersArrive(items, publisher);
  }

  /** A viewer that asks once, as every new viewer does: the numbers its player gets, and exactly when none of them
      comes twice. */
  lemma {:induction false} AskingJoiner(
      c0: Client, inputs: seq<Input>, p: Peer, now: int, before: seq<ServeEvent>, asked: int, after: seq<ServeEvent>,
      viewer: Client, publisher: Peer, events: seq<Event>)
    requires Starting(c0) && Closed(c0.channels, p) && SentTo(c0.sent, p) == [] && Quiet(before, p) && Quiet(after, p)
    requires ViewOf(viewer, publisher) == CLEAN && DeliveredFrom(viewer.delivered, publisher) == []
    requires Project(events, publisher)
          == SentTo(Serve(OpenChannel(ForwardAll(c0, inputs), p, now), before + [Ask(p, asked)] + after).sent, p)
    ensures var numbers := NumbersDelivered(DeliveredFrom(Run(viewer, events).delivered, publisher));
            var n, all := |inputs|, inputs + Feeds(before);
            var first := if c0.streamInfo.Some? then ReplayNumbers(inputs) else [];
            && numbers == first + Count(n, |all|) + ReplayNumbers(all) + Count(|all|, |all| + |Feeds(after)|)
            && (Distinct(numbers) <==> LastKey(all).None? || (c0.streamInfo.None? && Feeds(before) == []))
  {
    hide ForwardAll, SentTo, NumbersDelivered, Project, Run, DeliveredFrom, OpenChannel, NumbersFor, ReplayNumbers, Serve, Distinct, Closed, Feeds,
      Expected, StreamItems, LastKey, Count;
    var es := before + [Ask(p, asked)] + after;
    JoinerReceives(c0, inputs, p, now, es, viewer, publisher, events);
    OneRequest(inputs, before, asked, after, p);
    var all := inputs + Feeds(before);
    DuplicatesIff(inputs, Feeds(before), c0.streamInfo.Some?, |all| + |Feeds(after)|);
    var first := if c0.streamInfo.Some? then ReplayNumbers(inputs) else [];
    var a, b, c := Count(|inputs|, |all|), ReplayNumbers(all), Count(|all|, |all| + |Feeds(after)|);
    assert first + (a + b + c) == first + a + b + c;
  }

  /** A viewer that does not ask, because it may already relay when the channel opens: strictly increasing numbers
      without duplicates, and gap-free from a keyframe exactly when at most maxSegmentQueueSize segments followed it. */
  lemma {:induction false} QuietJoiner(
      c0: Client, inputs: seq<Input>, p: Peer, now: int, es: seq<ServeEvent>, viewer: Client, publisher: Peer, events: seq<Event>)
    requires Starting(c0) && Closed(c0.channels, p) && SentTo(c0.sent, p) == [] && Quiet(es, p)
    requires ViewOf(viewer, publisher) == CLEAN && DeliveredFrom(viewer.delivered, publisher) == []
    requires Project(events, publisher) == SentTo(Serve(OpenChannel(ForwardAll(c0, inputs), p, now), es).sent, p)
    ensures var numbers := NumbersDelivered(DeliveredFrom(Run(viewer, events).delivered, publisher));
            var n := |inputs|;
            && numbers == (if c0.streamInfo.Some? then ReplayNumbers(inputs) else []) + Count(n, n + |Feeds(es)|)
            && Increasing(numbers)
            && (c0.streamInfo.Some? && LastKey(inputs).Some? ==>
                  (GapFree(numbers) <==> n - 1 - LastKey(inputs).value <= MAX_SEGMENT_QUEUE_SIZE))
  {
    hide ForwardAll, SentTo, NumbersDelivered, Project, Run, DeliveredFrom, OpenChannel, NumbersFor, Serve, Closed, Feeds, Expected, StreamItems,
      Count, Increasing, GapFree;
    JoinerReceives(c0, inputs, p, now, es, viewer, publisher, events);
    QuietNumbers(inputs, es, p);
    var n := |inputs|;
    var end := n + |Feeds(es)|;
    ReplayThenLive(inputs, end);
    CountIncreasing(n, end);
    assert [] + Count(n, end) == Count(n, end);
    LastKeyIs(inputs);
    if LastKey(inputs).Some? {
      var k := LastKey(inputs).value;
      var start := Later(k + 1, n - MAX_SEGMENT_QUEUE_SIZE);
      CountJoins(k, start, n, end);
      Shape(k, start, end);
    }
  }
}
