/** What a viewer keeps of the traffic it receives (web_viewer/webrtc-client.js, `handleControlMessage`,
    `processReceivedSegment`, `checkRelayReady`): its caches are the latest of their kind, and it becomes a relay
    once it has both a stream info and an init segment. */
module Viewers {
  import opened Bytes
  import opened Outcomes
  import opened ClientState
  import opened Framing
  import opened Flood

  /** The last delivered segment that is marked as a keyframe. */
  function LatestKeyframe(log: seq<Delivery>, before: Option<Segment>): Option<Segment> {
    if log == [] then before
    else
      var d := log[|log| - 1];
      if d.header.Some? && d.header.value.isKeyframe then Some(Segment(d.header.value, d.buffer))
      else LatestKeyframe(log[..|log| - 1], before)
  }

  /** The bytes of the last delivered segment of an init type. */
  function LatestInit(log: seq<Delivery>, before: Option<bytes>): Option<bytes> {
    if log == [] then before
    else
      var d := log[|log| - 1];
      if d.header.Some? && d.header.value.segmentType != MediaSegment then Some(d.buffer)
      else LatestInit(log[..|log| - 1], before)
  }

  /** What the last stream_info said. */
  function LatestInfo(events: seq<Event>, before: Option<nat>): Option<nat> {
    if events == [] then before
    else
      match events[|events| - 1].message
      case Text(StreamInfo(info)) => info
      case _ => LatestInfo(events[..|events| - 1], before)
  }

  // ---------------------------------------------------------------- one message

  /** `after` has heard one segment more than `before`. */
  ghost predicate Heard(before: Client, after: Client, d: Delivery) {
    && after.delivered == before.delivered + [d]
    && after.keyframe == LatestKeyframe([d], before.keyframe)
    && after.initSegment == LatestInit([d], before.initSegment)
    && after.streamInfo == before.streamInfo && after.isPublisher == before.isPublisher
  }

  /** A viewer with everything a relay needs is one; it has announced that once. */
  predicate Settled(c: Client) {
    && (!c.isPublisher && c.streamInfo.Some? && c.initSegment.Some? ==> c.canRelay)
    && c.announced == if c.canRelay then 1 else 0
  }

  /** Relaying has begun if and only if it had before or everything is there now. */
  predicate Begins(before: Client, after: Client) {
    && Settled(after)
    && (after.canRelay <==> before.canRelay || (!after.isPublisher && after.streamInfo.Some? && after.initSegment.Some?))
  }

  lemma {:induction false} LatestOne(d: Delivery, key: Option<Segment>, init: Option<bytes>)
    ensures LatestKeyframe([d], key)
         == if d.header.Some? && d.header.value.isKeyframe then Some(Segment(d.header.value, d.buffer)) else key
    ensures LatestInit([d], init) == if d.header.Some? && d.header.value.segmentType != MediaSegment then Some(d.buffer) else init
  {
    assert [d][..0] == [];
  }

  lemma {:induction false} AcceptHeard(c: Client, h: Header, buffer: bytes, p: Peer)
    ensures Heard(c, Accept(c, h, buffer, p), Delivery(p, Some(h), buffer))
    ensures Settled(c) ==> Begins(c, Accept(c, h, buffer, p))
  {
    LatestOne(Delivery(p, Some(h), buffer), c.keyframe, c.initSegment);
  }

  lemma {:induction false} ProcessHeard(c: Client, h: Header, buffer: bytes, p: Peer)
    ensures Heard(c, Process(c, h, buffer, p), Delivery(p, Some(h), buffer))
    ensures Settled(c) ==> Begins(c, Process(c, h, buffer, p))
  {
    hide Accept, Relays, AddSeen, PushQueue, Broadcast, RelayTargets, LatestKeyframe, LatestInit;
    AcceptHeard(c, h, buffer, p);
  }

  lemma {:induction false} ReceivedHeard(c: Client, p: Peer, buffer: bytes)
    ensures var d := Delivery(p, if p in c.pending then Some(c.pending[p]) else None, buffer);
            Heard(c, ProcessReceived(c, p, buffer), d)
    ensures Settled(c) ==> Begins(c, ProcessReceived(c, p, buffer))
  {
    hide Process, LatestKeyframe, LatestInit;
    if p in c.pending {
      ProcessHeard(c.(pending := c.pending - {p}), c.pending[p], buffer, p);
    } else {
      LatestOne(Delivery(p, None, buffer), c.keyframe, c.initSegment);
    }
  }

  /** `after` has heard the segments `ds` more than `before`, and `info` about the stream. */
  ghost predicate Follows(before: Client, after: Client, ds: seq<Delivery>, info: Option<nat>) {
    && after.delivered == before.delivered + ds
    && after.keyframe == LatestKeyframe(ds, before.keyframe)
    && after.initSegment == LatestInit(ds, before.initSegment)
    && after.streamInfo == info && after.isPublisher == before.isPublisher
  }

  lemma {:induction false} NothingHeard(c: Client)
    ensures Follows(c, c, [], c.streamInfo)
  {
    assert c.delivered + [] == c.delivered;
  }

  lemma {:induction false} InfoOfOne(e: Event, before: Option<nat>)
    ensures LatestInfo([e], before)
         == if e.message.Text? && e.message.control.StreamInfo? then e.message.control.info else before
  {
    assert [e][..0] == [];
  }

  /** What one message delivers. */
  function NewDeliveries(c: Client, e: Event): seq<Delivery> {
    PeerStep(ViewOf(c, e.peer), e.peer, e.message).deliveries
  }

  lemma {:induction false} EndFollows(c: Client, e: Event)
    requires e.message == Text(ChunkEnd)
    ensures Follows(c, Handle(c, e.peer, e.message, e.now), NewDeliveries(c, e), c.streamInfo)
    ensures Settled(c) ==> Begins(c, Handle(c, e.peer, e.message, e.now))
  {
    hide ProcessReceived, Assembled, LatestKeyframe, LatestInit;
    NothingHeard(c);
    if e.peer in c.incoming {
      ReceivedHeard(c.(incoming := c.incoming - {e.peer}), e.peer, Assembled(c.incoming[e.peer].chunks));
    }
  }

  lemma {:induction false} NoteFollows(c: Client, e: Event)
    requires e.message.Text? && !e.message.control.ChunkEnd?
    ensures Follows(c, Handle(c, e.peer, e.message, e.now), NewDeliveries(c, e),
                    if e.message.control.StreamInfo? then e.message.control.info else c.streamInfo)
    ensures Settled(c) ==> Begins(c, Handle(c, e.peer, e.message, e.now))
  {
    hide ProcessReceived, CachedMessages, To, Stored;
    assert c.delivered + [] == c.delivered;
  }

  lemma {:induction false} TextFollows(c: Client, e: Event)
    requires e.message.Text?
    ensures Follows(c, Handle(c, e.peer, e.message, e.now), NewDeliveries(c, e), LatestInfo([e], c.streamInfo))
    ensures Settled(c) ==> Begins(c, Handle(c, e.peer, e.message, e.now))
  {
    hide Handle, Follows, NewDeliveries, LatestInfo, Begins, Settled;
    InfoOfOne(e, c.streamInfo);
    if e.message.control.ChunkEnd? {
      EndFollows(c, e);
    } else {
      NoteFollows(c, e);
    }
  }

  lemma {:induction false} BinaryFollows(c: Client, e: Event)
    requires e.message.Binary?
    ensures Follows(c, Handle(c, e.peer, e.message, e.now), NewDeliveries(c, e), LatestInfo([e], c.streamInfo))
    ensures Settled(c) ==> Begins(c, Handle(c, e.peer, e.message, e.now))
  {
    hide ProcessReceived, LatestInfo, LatestKeyframe, LatestInit;
    InfoOfOne(e, c.streamInfo);
    NothingHeard(c);
    if e.peer !in c.incoming {
      ReceivedHeard(c, e.peer, e.message.data);
    }
  }

  lemma {:induction false} StepFollows(c: Client, e: Event)
    ensures Follows(c, Handle(c, e.peer, e.message, e.now), NewDeliveries(c, e), LatestInfo([e], c.streamInfo))
    ensures Settled(c) ==> Begins(c, Handle(c, e.peer, e.message, e.now))
  {
    hide Handle, Follows, NewDeliveries, LatestInfo, Begins, Settled;
    if e.message.Text? {
      TextFollows(c, e);
    } else {
      BinaryFollows(c, e);
    }
  }

  // ---------------------------------------------------------------- any run

  lemma {:induction false} LatestConcat(a: seq<Delivery>, b: seq<Delivery>, key: Option<Segment>, init: Option<bytes>)
    ensures LatestKeyframe(a + b, key) == LatestKeyframe(b, LatestKeyframe(a, key))
    ensures LatestInit(a + b, init) == LatestInit(b, LatestInit(a, init))
    decreases |b|
  {
    if b == [] {
      assert a + b == a;
    } else {
      LatestConcat(a, b[..|b| - 1], key, init);
      assert (a + b)[..|a + b| - 1] == a + b[..|b| - 1];
    }
  }

  lemma {:induction false} InfoSnoc(events: seq<Event>, e: Event, before: Option<nat>)
    ensures LatestInfo(events + [e], before) == LatestInfo([e], LatestInfo(events, before))
  {
    assert (events + [e])[..|events|] == events;
    InfoOfOne(e, LatestInfo(events, before));
  }

  lemma {:induction false} FollowsTwice(a: Client, b: Client, c: Client, ds: seq<Delivery>, es: seq<Delivery>, info: Option<nat>, more: Option<nat>)
    requires Follows(a, b, ds, info) && Follows(b, c, es, more)
    ensures Follows(a, c, ds + es, more)
  {
    LatestConcat(ds, es, a.keyframe, a.initSegment);
    Reassociate(a.delivered, ds, es);
  }

  /** What a run has delivered. */
  function Deliveries(c: Client, events: seq<Event>): seq<Delivery>
    decreases |events|
  {
    if events == [] then []
    else
      var before := events[..|events| - 1];
      Deliveries(c, before) + NewDeliveries(Run(c, before), events[|events| - 1])
  }

  lemma {:induction false} RunSnoc(c: Client, events: seq<Event>)
    requires events != []
    ensures var before, e := events[..|events| - 1], events[|events| - 1];
            Run(c, events) == Handle(Run(c, before), e.peer, e.message, e.now)
  {
    hide Run, Handle;
    var before, e := events[..|events| - 1], events[|events| - 1];
    assert before + [e] == events;
    RunConcat(c, before, [e]);
    RunOne(Run(c, before), e);
  }

  lemma {:induction false} RunFollows(c: Client, events: seq<Event>)
    ensures Follows(c, Run(c, events), Deliveries(c, events), LatestInfo(events, c.streamInfo))
    decreases |events|
  {
    hide Handle, Follows, NewDeliveries;
    if events == [] {
      NothingHeard(c);
    } else {
      hide Run, LatestInfo;
      var before, e := events[..|events| - 1], events[|events| - 1];
      var d := Run(c, before);
      assert before + [e] == events;
      RunFollows(c, before);
      RunSnoc(c, events);
      StepFollows(d, e);
      Informed(c, d, Deliveries(c, before), LatestInfo(before, c.streamInfo));
      InfoSnoc(before, e, c.streamInfo);
      FollowsTwice(c, d, Run(c, events), Deliveries(c, before), NewDeliveries(d, e), LatestInfo(before, c.streamInfo), LatestInfo(events, c.streamInfo));
    }
  }

  lemma {:induction false} Informed(c: Client, d: Client, ds: seq<Delivery>, info: Option<nat>)
    requires Follows(c, d, ds, info)
    ensures d.streamInfo == info && d.isPublisher == c.isPublisher
  {
  }

  /** However the traffic of all peers interleaves, a client's caches hold the last keyframe and the last init segment
      its player has been handed, under the headers handed over, and what the last stream_info said. */
  lemma {:induction false} CachesAreLatest(c: Client, events: seq<Event>)
    ensures var r := Run(c, events);
            && c.delivered <= r.delivered
            && r.keyframe == LatestKeyframe(r.delivered[|c.delivered|..], c.keyframe)
            && r.initSegment == LatestInit(r.delivered[|c.delivered|..], c.initSegment)
            && r.streamInfo == LatestInfo(events, c.streamInfo)
  {
    hide Run, LatestKeyframe, LatestInit, LatestInfo, Deliveries;
    RunFollows(c, events);
    var r, ds := Run(c, events), Deliveries(c, events);
    assert (c.delivered + ds)[|c.delivered|..] == ds;
  }

  // ---------------------------------------------------------------- becoming a relay

  /** By the end of these events the viewer knows the stream and has an init segment. */
  predicate Equipped(events: seq<Event>) {
    LatestInfo(events, None).Some? && LatestInit(Run(FreshClient(false), events).delivered, None).Some?
  }

  lemma {:induction false} EquippedIs(events: seq<Event>)
    ensures var r := Run(FreshClient(false), events);
            Equipped(events) <==> !r.isPublisher && r.streamInfo.Some? && r.initSegment.Some?
  {
    hide Run, LatestKeyframe, LatestInit, LatestInfo, Deliveries;
    var c := FreshClient(false);
    RunFollows(c, events);
    assert [] + Deliveries(c, events) == Deliveries(c, events);
  }

  /** A viewer relays exactly when at some moment so far it knew the stream and had an init segment, and it has
      announced that once. */
  lemma {:induction false} RelaysIff(events: seq<Event>)
    ensures var r := Run(FreshClient(false), events);
            && (r.canRelay <==> exists k :: 0 <= k <= |events| && Equipped(events[..k]))
            && r.announced == if r.canRelay then 1 else 0
  {
    hide Run, Equipped;
    RelaySettled(events);
  }

  lemma {:induction false} RelaySettled(events: seq<Event>)
    ensures var r := Run(FreshClient(false), events);
            Settled(r) && (r.canRelay <==> exists k :: 0 <= k <= |events| && Equipped(events[..k]))
    decreases |events|
  {
    hide Handle, Equipped;
    var c := FreshClient(false);
    if events == [] {
      NeverEquipped();
      assert forall k :: 0 <= k <= |events| ==> events[..k] == [];
    } else {
      hide Run, Settled;
      var before, e := events[..|events| - 1], events[|events| - 1];
      RelaySettled(before);
      RunSnoc(c, events);
      StepFollows(Run(c, before), e);
      EquippedIs(events);
      assert events[..|events|] == events;
      assert forall k :: 0 <= k <= |before| ==> before[..k] == events[..k];
    }
  }

  lemma {:induction false} NeverEquipped()
    ensures !Equipped([])
  {
  }

  // ---------------------------------------------------------------- one sender

  lemma {:induction false} OnlyFrom(ds: seq<Delivery>, p: Peer)
    requires forall i :: 0 <= i < |ds| ==> ds[i].peer == p
    ensures DeliveredFrom(ds, p) == ds
  {
    if ds != [] {
      OnlyFrom(ds[1..], p);
    }
  }

  predicate AllFrom(events: seq<Event>, p: Peer) {
    forall i :: 0 <= i < |events| ==> events[i].peer == p
  }

  lemma {:induction false} NewFrom(c: Client, e: Event)
    ensures forall i :: 0 <= i < |NewDeliveries(c, e)| ==> NewDeliveries(c, e)[i].peer == e.peer
  {
  }

  lemma {:induction false} DeliveriesFrom(c: Client, events: seq<Event>, p: Peer)
    requires AllFrom(events, p)
    ensures forall i :: 0 <= i < |Deliveries(c, events)| ==> Deliveries(c, events)[i].peer == p
    decreases |events|
  {
    hide NewDeliveries, Run;
    if events != [] {
      DeliveriesFrom(c, events[..|events| - 1], p);
      NewFrom(Run(c, events[..|events| - 1]), events[|events| - 1]);
    }
  }

  /** The stream info of the last note. */
  function LastNote(items: seq<Item>, before: Option<nat>): Option<nat> {
    if items == [] then before
    else
      match items[|items| - 1]
      case Note(StreamInfo(info)) => info
      case _ => LastNote(items[..|items| - 1], before)
  }

  function InfoIn(ms: seq<Message>, before: Option<nat>): Option<nat> {
    if ms == [] then before
    else
      match ms[|ms| - 1]
      case Text(StreamInfo(info)) => info
      case _ => InfoIn(ms[..|ms| - 1], before)
  }

  lemma {:induction false} InfoConcat(a: seq<Message>, b: seq<Message>, before: Option<nat>)
    ensures InfoIn(a + b, before) == InfoIn(b, InfoIn(a, before))
    decreases |b|
  {
    if b == [] {
      assert a + b == a;
    } else {
      InfoConcat(a, b[..|b| - 1], before);
      assert (a + b)[..|a + b| - 1] == a + b[..|b| - 1];
    }
  }

  lemma {:induction false} InfoInOne(m: Message, before: Option<nat>)
    ensures InfoIn([m], before) == if m.Text? && m.control.StreamInfo? then m.control.info else before
  {
    assert [m][..0] == [];
  }

  lemma {:induction false} PiecesSayNothing(buffer: bytes, before: Option<nat>)
    ensures InfoIn(Pieces(buffer), before) == before
    decreases |buffer|
  {
    hide InfoIn;
    if buffer == [] {
      InfoInNothing(before);
    } else if |buffer| <= MAX_CHUNK_SIZE {
      InfoInOne(Binary(buffer), before);
    } else {
      var rest := buffer[MAX_CHUNK_SIZE..];
      PiecesSayNothing(rest, before);
      InfoInOne(Binary(buffer[..MAX_CHUNK_SIZE]), before);
      InfoConcat([Binary(buffer[..MAX_CHUNK_SIZE])], Pieces(rest), before);
    }
  }

  lemma {:induction false} InfoInNothing(before: Option<nat>)
    ensures InfoIn([], before) == before
  {
  }

  lemma {:induction false} ItemSays(i: Item, before: Option<nat>)
    ensures InfoIn(ItemMessages(i), before) == if i.Note? && i.control.StreamInfo? then i.control.info else before
  {
    hide InfoIn, Pieces;
    match i {
      case Note(control) => InfoInOne(Text(control), before);
      case Seg(s) =>
        var m := HeaderMessage(s.header);
        InfoInOne(m, before);
        if |s.buffer| > MAX_CHUNK_SIZE {
          var start, end := Text(ChunkStart(|s.buffer|)), Text(ChunkEnd);
          InfoInOne(start, before);
          PiecesSayNothing(s.buffer, before);
          InfoInOne(end, before);
          InfoConcat([start], Pieces(s.buffer), before);
          InfoConcat([start] + Pieces(s.buffer), [end], before);
          InfoConcat([m], ChunkMessages(s.buffer), before);
        } else {
          InfoInOne(Binary(s.buffer), before);
          InfoConcat([m], [Binary(s.buffer)], before);
        }
    }
  }

  lemma {:induction false} ItemsSay(items: seq<Item>, before: Option<nat>)
    ensures InfoIn(Encode(items), before) == LastNote(items, before)
    decreases |items|
  {
    hide InfoIn, ItemMessages;
    if items == [] {
      InfoInNothing(before);
    } else {
      var init, last := items[..|items| - 1], items[|items| - 1];
      ItemsSay(init, before);
      assert init + [last] == items;
      EncodeSnoc(init, last);
      InfoConcat(Encode(init), ItemMessages(last), before);
      ItemSays(last, InfoIn(Encode(init), before));
    }
  }

  lemma {:induction false} EncodeSnoc(items: seq<Item>, last: Item)
    ensures Encode(items + [last]) == Encode(items) + ItemMessages(last)
    decreases |items|
  {
    hide ItemMessages;
    if items == [] {
      assert [] + [last] == [last] && [last][1..] == [];
      assert ItemMessages(last) + [] == ItemMessages(last) && [] + ItemMessages(last) == ItemMessages(last);
    } else {
      EncodeSnoc(items[1..], last);
      assert (items + [last])[1..] == items[1..] + [last] && (items + [last])[0] == items[0];
      Reassociate(ItemMessages(items[0]), Encode(items[1..]), ItemMessages(last));
    }
  }

  lemma {:induction false} InfoOfProject(events: seq<Event>, p: Peer, before: Option<nat>)
    requires AllFrom(events, p)
    ensures LatestInfo(events, before) == InfoIn(Project(events, p), before)
    decreases |events|
  {
    hide Project, InfoIn;
    if events == [] {
      InfoInNothing(before);
      ProjectNothing(p);
    } else {
      var init, e := events[..|events| - 1], events[|events| - 1];
      InfoOfProject(init, p, before);
      assert init + [e] == events;
      ProjectSnoc(init, e, p);
      InfoConcat(Project(init, p), [e.message], before);
      InfoInOne(e.message, InfoIn(Project(init, p), before));
    }
  }

  lemma {:induction false} ProjectNothing(p: Peer)
    ensures Project([], p) == []
  {
  }

  lemma {:induction false} ProjectSnoc(events: seq<Event>, e: Event, p: Peer)
    requires AllFrom(events, p) && e.peer == p
    ensures Project(events + [e], p) == Project(events, p) + [e.message]
    decreases |events|
  {
    if events == [] {
      assert [] + [e] == [e] && [e][1..] == [];
    } else {
      ProjectSnoc(events[1..], e, p);
      assert (events + [e])[1..] == events[1..] + [e] && (events + [e])[0] == events[0];
      Reassociate([events[0].message], Project(events[1..], p), [e.message]);
    }
  }

  /** What a viewer with one sender keeps of that sender's items, segment by segment and note by note. */
  lemma {:induction false} CachesOfItems(c: Client, events: seq<Event>, p: Peer, items: seq<Item>)
    requires ViewOf(c, p) == CLEAN && AllFrom(events, p) && Project(events, p) == Encode(items)
    requires forall i :: 0 <= i < |items| ==> LegalItem(items[i])
    ensures var r := Run(c, events);
            && r.delivered == c.delivered + Expected(items, p)
            && r.keyframe == LatestKeyframe(Expected(items, p), c.keyframe)
            && r.initSegment == LatestInit(Expected(items, p), c.initSegment)
            && r.streamInfo == LastNote(items, c.streamInfo)
  {
    hide Run, LatestKeyframe, LatestInit, LatestInfo, Deliveries, Expected, Encode, Project, InfoIn, LastNote, LegalItem;
    RunFollows(c, events);
    InfoOfProject(events, p, c.streamInfo);
    ItemsSay(items, c.streamInfo);
    var ds := Deliveries(c, events);
    DeliveriesFrom(c, events, p);
    OnlyFrom(ds, p);
    DeliveredConcat(c.delivered, ds, p);
    FramingRoundTrip(c, events, p, items);
    SameTail(DeliveredFrom(c.delivered, p), ds, Expected(items, p));
  }

  lemma {:induction false} SameTail<T>(a: seq<T>, b: seq<T>, c: seq<T>)
    requires a + b == a + c
    ensures b == c
  {
    assert (a + b)[|a|..] == b && (a + c)[|a|..] == c;
  }

  /** After a keyframe the viewer's cached keyframe is that segment, under the header it was sent with. */
  lemma {:induction false} KeyframeIsCached(c: Client, events: seq<Event>, p: Peer, items: seq<Item>, s: Segment)
    requires ViewOf(c, p) == CLEAN && AllFrom(events, p) && Project(events, p) == Encode(items + [Seg(s)])
    requires forall i :: 0 <= i < |items| ==> LegalItem(items[i])
    requires s.header.typed && s.header.isKeyframe
    ensures Run(c, events).keyframe == Some(Segment(HandedOver(s.header, p), s.buffer))
  {
    hide Run, Encode, Project, Expected, LegalItem;
    assert LegalItem(Seg(s)) by { SegmentIsLegal(s); }
    CachesOfItems(c, events, p, items + [Seg(s)]);
    ExpectedSnoc(items, Seg(s), p);
    var ds := ExpectedItem(Seg(s), p);
    LatestConcat(Expected(items, p), ds, c.keyframe, c.initSegment);
    LatestOne(ds[0], LatestKeyframe(Expected(items, p), c.keyframe), None);
    assert ds == [ds[0]];
  }

  lemma {:induction false} SegmentIsLegal(s: Segment)
    ensures LegalItem(Seg(s))
  {
  }

  lemma {:induction false} ExpectedSnoc(items: seq<Item>, last: Item, p: Peer)
    ensures Expected(items + [last], p) == Expected(items, p) + ExpectedItem(last, p)
    decreases |items|
  {
    hide ExpectedItem;
    if items == [] {
      assert [] + [last] == [last] && [last][1..] == [];
      assert ExpectedItem(last, p) + [] == ExpectedItem(last, p) && [] + ExpectedItem(last, p) == ExpectedItem(last, p);
    } else {
      ExpectedSnoc(items[1..], last, p);
      assert (items + [last])[1..] == items[1..] + [last] && (items + [last])[0] == items[0];
      Reassociate(ExpectedItem(items[0], p), Expected(items[1..], p), ExpectedItem(last, p));
    }
  }
}
