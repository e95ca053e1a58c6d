/** Chunk framing over ordered channels (web_viewer/webrtc-client.js): a receiver that hears any number of
    peers, interleaved in any way, hands each sender's segments to the player exactly as they were sent. */
module Framing {
  import opened Bytes
  import opened Outcomes
  import opened ClientState

  // ---------------------------------------------------------------- what one peer's traffic can touch

  datatype View = View(chunks: Option<ChunkState>, header: Option<Header>)

  const CLEAN: View := View(None, None)

  function ViewOf(c: Client, p: Peer): View {
    View(if p in c.incoming then Some(c.incoming[p]) else None, if p in c.pending then Some(c.pending[p]) else None)
  }

  datatype PeerResult = PeerResult(view: View, deliveries: seq<Delivery>)

  function Taken(v: View, p: Peer, buffer: bytes): PeerResult {
    PeerResult(v.(header := None), [Delivery(p, v.header, buffer)])
  }

  function PeerStep(v: View, p: Peer, m: Message): PeerResult {
    match m
    case Text(ChunkStart(size)) => PeerResult(v.(chunks := Some(ChunkState([], 0, size))), [])
    case Text(ChunkEnd) =>
      if v.chunks.Some? then Taken(v.(chunks := None), p, Assembled(v.chunks.value.chunks)) else PeerResult(v, [])
    case Text(SegmentHeader(h)) => PeerResult(v.(header := Some(Stored(h, p))), [])
    case Text(_) => PeerResult(v, [])
    case Binary(data) =>
      if v.chunks.Some? then
        var s := v.chunks.value;
        PeerResult(v.(chunks := Some(s.(chunks := s.chunks + [data], totalSize := s.totalSize + |data|))), [])
      else Taken(v, p, data)
  }

  function PeerRun(v: View, p: Peer, ms: seq<Message>): PeerResult
    decreases |ms|
  {
    if ms == [] then PeerResult(v, []) else
      var first := PeerStep(v, p, ms[0]);
      var rest := PeerRun(first.view, p, ms[1..]);
      PeerResult(rest.view, first.deliveries + rest.deliveries)
  }

  lemma {:induction false} AcceptLocal(c: Client, h: Header, buffer: bytes, p: Peer)
    ensures var r := Accept(c, h, buffer, p);
            r.incoming == c.incoming && r.pending == c.pending && r.delivered == c.delivered + [Delivery(p, Some(h), buffer)]
  {
  }

  lemma {:induction false} ProcessLocal(c: Client, h: Header, buffer: bytes, p: Peer)
    ensures var r := Process(c, h, buffer, p);
            r.incoming == c.incoming && r.pending == c.pending && r.delivered == c.delivered + [Delivery(p, Some(h), buffer)]
  {
    hide Accept, Relays, AddSeen, PushQueue, Broadcast, RelayTargets;
    AcceptLocal(c, h, buffer, p);
  }

  lemma {:induction false} ReceivedLocal(c: Client, p: Peer, buffer: bytes)
    ensures var r := ProcessReceived(c, p, buffer);
            r.incoming == c.incoming && r.pending == c.pending - {p}
            && r.delivered == c.delivered + Taken(ViewOf(c, p), p, buffer).deliveries
  {
    hide Process;
    if p in c.pending {
      ProcessLocal(c.(pending := c.pending - {p}), c.pending[p], buffer, p);
    }
  }

  lemma {:induction false} ReceivedOthers(c: Client, p: Peer, buffer: bytes)
    ensures forall q :: q != p ==> ViewOf(ProcessReceived(c, p, buffer), q) == ViewOf(c, q)
  {
    hide ProcessReceived;
    ReceivedLocal(c, p, buffer);
  }

  lemma {:induction false} HandleOthers(c: Client, p: Peer, m: Message, now: int)
    ensures forall q :: q != p ==> ViewOf(Handle(c, p, m, now), q) == ViewOf(c, q)
  {
    hide ProcessReceived, CachedMessages, Assembled, To;
    match m
    case Binary(data) =>
      ReceivedOthers(c, p, data);
    case Text(control) =>
      if control.ChunkEnd? && p in c.incoming {
        ReceivedOthers(c.(incoming := c.incoming - {p}), p, Assembled(c.incoming[p].chunks));
      }
  }

  lemma {:induction false} HandleOwn(c: Client, p: Peer, m: Message, now: int)
    ensures var r := Handle(c, p, m, now);
            var step := PeerStep(ViewOf(c, p), p, m);
            ViewOf(r, p) == step.view && r.delivered == c.delivered + step.deliveries
  {
    match m
    case Binary(data) => HandleOwnBinary(c, p, data, now);
    case Text(control) => HandleOwnText(c, p, control, now);
  }

  lemma {:induction false} HandleOwnBinary(c: Client, p: Peer, data: bytes, now: int)
    ensures var r := Handle(c, p, Binary(data), now);
            var step := PeerStep(ViewOf(c, p), p, Binary(data));
            ViewOf(r, p) == step.view && r.delivered == c.delivered + step.deliveries
  {
    hide ProcessReceived;
    assert c.delivered + [] == c.delivered;
    ReceivedLocal(c, p, data);
  }

  lemma {:induction false} HandleOwnText(c: Client, p: Peer, control: Control, now: int)
    ensures var r := Handle(c, p, Text(control), now);
            var step := PeerStep(ViewOf(c, p), p, Text(control));
            ViewOf(r, p) == step.view && r.delivered == c.delivered + step.deliveries
  {
    hide ProcessReceived, CachedMessages, Assembled, To, Stored;
    assert c.delivered + [] == c.delivered;
    if control.ChunkEnd? && p in c.incoming {
      ReceivedLocal(c.(incoming := c.incoming - {p}), p, Assembled(c.incoming[p].chunks));
    }
  }

  /** A message of one peer moves that peer's view and no other, whatever else the client does with it. */
  lemma {:induction false} HandleLocal(c: Client, p: Peer, m: Message, now: int)
    ensures var r := Handle(c, p, m, now);
            var step := PeerStep(ViewOf(c, p), p, m);
            ViewOf(r, p) == step.view && r.delivered == c.delivered + step.deliveries
            && forall q :: q != p ==> ViewOf(r, q) == ViewOf(c, q)
  {
    hide Handle, PeerStep, ViewOf;
    HandleOwn(c, p, m, now);
    HandleOthers(c, p, m, now);
  }

  // ---------------------------------------------------------------- interleaving

  datatype Event = Event(peer: Peer, message: Message, now: int)

  function Run(c: Client, events: seq<Event>): Client
    decreases |events|
  {
    if events == [] then c else Run(Handle(c, events[0].peer, events[0].message, events[0].now), events[1..])
  }

  function Project(events: seq<Event>, p: Peer): seq<Message> {
    if events == [] then []
    else if events[0].peer == p then [events[0].message] + Project(events[1..], p)
    else Project(events[1..], p)
  }

  function DeliveredFrom(log: seq<Delivery>, p: Peer): seq<Delivery> {
    if log == [] then []
    else if log[0].peer == p then [log[0]] + DeliveredFrom(log[1..], p)
    else DeliveredFrom(log[1..], p)
  }

  lemma {:induction false} DeliveredConcat(a: seq<Delivery>, b: seq<Delivery>, p: Peer)
    ensures DeliveredFrom(a + b, p) == DeliveredFrom(a, p) + DeliveredFrom(b, p)
    decreases |a|
  {
    if a == [] {
      assert a + b == b;
    } else {
      DeliveredConcat(a[1..], b, p);
      assert (a + b)[1..] == a[1..] + b && (a + b)[0] == a[0];
    }
  }

  lemma {:induction false} StepPeer(v: View, p: Peer, m: Message, q: Peer)
    ensures DeliveredFrom(PeerStep(v, p, m).deliveries, q) == if p == q then PeerStep(v, p, m).deliveries else []
  {
    var d := PeerStep(v, p, m).deliveries;
    assert |d| <= 1 && (d != [] ==> d[0].peer == p && d[1..] == []);
  }

  /** What a peer's traffic delivers depends on that traffic alone. */
  lemma {:induction false} Interleaved(c: Client, events: seq<Event>, p: Peer)
    ensures var own := PeerRun(ViewOf(c, p), p, Project(events, p));
            ViewOf(Run(c, events), p) == own.view
            && DeliveredFrom(Run(c, events).delivered, p) == DeliveredFrom(c.delivered, p) + own.deliveries
    decreases |events|
  {
    hide Handle, PeerStep, ViewOf, DeliveredFrom;
    if events == [] {
      assert DeliveredFrom(c.delivered, p) + [] == DeliveredFrom(c.delivered, p);
    } else {
      var e, rest := events[0], events[1..];
      var c1 := Handle(c, e.peer, e.message, e.now);
      var step := PeerStep(ViewOf(c, e.peer), e.peer, e.message);
      HandleLocal(c, e.peer, e.message, e.now);
      Interleaved(c1, rest, p);
      DeliveredConcat(c.delivered, step.deliveries, p);
      StepPeer(ViewOf(c, e.peer), e.peer, e.message, p);
      var own := PeerRun(ViewOf(c1, p), p, Project(rest, p)).deliveries;
      if e.peer == p {
        assert ([e.message] + Project(rest, p))[1..] == Project(rest, p);
        Reassociate(DeliveredFrom(c.delivered, p), step.deliveries, own);
      } else {
        assert DeliveredFrom(c.delivered, p) + [] == DeliveredFrom(c.delivered, p);
      }
    }
  }

  // ---------------------------------------------------------------- what a sender puts on a channel

  /** A segment, or another control message between segments. */
  datatype Item = Seg(segment: Segment) | Note(control: Control)

  predicate LegalItem(i: Item) {
    i.Note? ==> i.control.StreamInfo? || i.control.RequestInit? || i.control.UnknownControl?
  }

  function ItemMessages(i: Item): seq<Message> {
    match i
    case Seg(s) => SegmentMessages(s.header, s.buffer)
    case Note(control) => [Text(control)]
  }

  function Encode(items: seq<Item>): seq<Message> {
    if items == [] then [] else ItemMessages(items[0]) + Encode(items[1..])
  }

  /** A header without its type tag is not recognised, so its bytes arrive in legacy mode. */
  function ExpectedItem(i: Item, p: Peer): seq<Delivery> {
    match i
    case Seg(s) => [Delivery(p, if s.header.typed then Some(HandedOver(s.header, p)) else None, s.buffer)]
    case Note(_) => []
  }

  function Expected(items: seq<Item>, p: Peer): seq<Delivery> {
    if items == [] then [] else ExpectedItem(items[0], p) + Expected(items[1..], p)
  }

  lemma {:induction false} PeerRunConcat(v: View, p: Peer, a: seq<Message>, b: seq<Message>)
    ensures var first := PeerRun(v, p, a);
            var second := PeerRun(first.view, p, b);
            PeerRun(v, p, a + b) == PeerResult(second.view, first.deliveries + second.deliveries)
    decreases |a|
  {
    hide PeerStep;
    var second := PeerRun(PeerRun(v, p, a).view, p, b);
    if a == [] {
      assert a + b == b;
      assert [] + second.deliveries == second.deliveries;
    } else {
      var step := PeerStep(v, p, a[0]);
      PeerRunConcat(step.view, p, a[1..], b);
      assert (a + b)[1..] == a[1..] + b && (a + b)[0] == a[0];
      var d := PeerRun(step.view, p, a[1..]).deliveries;
      Reassociate(step.deliveries, d, second.deliveries);
    }
  }

  lemma {:induction false} PeerRunOne(v: View, p: Peer, m: Message)
    ensures PeerRun(v, p, [m]) == PeerStep(v, p, m)
  {
    hide PeerStep;
    assert [m][1..] == [];
    var step := PeerStep(v, p, m);
    assert step.deliveries + [] == step.deliveries;
  }

  lemma {:induction false} AssembledSnoc(chunks: seq<bytes>, chunk: bytes)
    ensures Assembled(chunks + [chunk]) == Assembled(chunks) + chunk
  {
    assert (chunks + [chunk])[..|chunks|] == chunks;
  }

  /** The pieces of a buffer pile up behind what a chunk state already holds. */
  lemma {:induction false} PiecesPileUp(v: View, p: Peer, buffer: bytes)
    requires v.chunks.Some?
    ensures var r := PeerRun(v, p, Pieces(buffer));
            r.deliveries == [] && r.view.chunks.Some? && r.view.header == v.header
            && Assembled(r.view.chunks.value.chunks) == Assembled(v.chunks.value.chunks) + buffer
    decreases |buffer|
  {
    hide Assembled;
    var s := v.chunks.value;
    if buffer == [] {
      assert Assembled(s.chunks) + [] == Assembled(s.chunks);
    } else if |buffer| <= MAX_CHUNK_SIZE {
      AssembledSnoc(s.chunks, buffer);
      PeerRunOne(v, p, Binary(buffer));
    } else {
      var first, rest := buffer[..MAX_CHUNK_SIZE], buffer[MAX_CHUNK_SIZE..];
      var v1 := PeerStep(v, p, Binary(first)).view;
      AssembledSnoc(s.chunks, first);
      PiecesPileUp(v1, p, rest);
      var pieces := Pieces(rest);
      assert ([Binary(first)] + pieces)[1..] == pieces;
      assert (Assembled(s.chunks) + first) + rest == Assembled(s.chunks) + buffer by {
        assert first + rest == buffer;
      }
    }
  }

  /** How many pieces a buffer is cut into. */
  function PieceCount(n: nat): nat { (n + MAX_CHUNK_SIZE - 1) / MAX_CHUNK_SIZE }

  /** The buffer from the start of piece `k` to the start of the next one, or to its end. */
  function PieceAt(buffer: bytes, k: nat): bytes
    requires k * MAX_CHUNK_SIZE <= |buffer|
  {
    var start := k * MAX_CHUNK_SIZE;
    if |buffer| - start <= MAX_CHUNK_SIZE then buffer[start..] else buffer[start..start + MAX_CHUNK_SIZE]
  }

  lemma {:induction false} PieceCountOf(n: nat)
    ensures n == 0 ==> PieceCount(n) == 0
    ensures 0 < n <= MAX_CHUNK_SIZE ==> PieceCount(n) == 1
    ensures n > MAX_CHUNK_SIZE ==> PieceCount(n) == 1 + PieceCount(n - MAX_CHUNK_SIZE)
  {
  }

  lemma {:induction false} PieceBehind(buffer: bytes, k: nat)
    requires |buffer| > MAX_CHUNK_SIZE && k * MAX_CHUNK_SIZE <= |buffer| - MAX_CHUNK_SIZE
    ensures PieceAt(buffer[MAX_CHUNK_SIZE..], k) == PieceAt(buffer, k + 1)
  {
  }

  lemma {:induction false} PiecesAre(buffer: bytes, k: nat)
    requires k < PieceCount(|buffer|)
    ensures |Pieces(buffer)| == PieceCount(|buffer|)
    ensures k * MAX_CHUNK_SIZE <= |buffer| && Pieces(buffer)[k] == Binary(PieceAt(buffer, k))
    decreases |buffer|
  {
    PieceCountOf(|buffer|);
    if |buffer| > MAX_CHUNK_SIZE {
      var rest := buffer[MAX_CHUNK_SIZE..];
      PieceCountOf(|rest|);
      hide PieceCount;
      PiecesAre(rest, if k == 0 then 0 else k - 1);
      if k > 0 {
        PieceBehind(buffer, k - 1);
      }
    } else {
      assert buffer[0..] == buffer;
    }
  }

  /** A chunked buffer on the channel: the start marker announces its length, piece `k` holds 16000 bytes from byte
      16000 * k on or what is left of them, and the end marker closes it. */
  lemma {:induction false} ChunksShape(buffer: bytes, k: nat)
    requires k < PieceCount(|buffer|)
    ensures var ms := ChunkMessages(buffer);
            && |ms| == PieceCount(|buffer|) + 2
            && ms[0] == Text(ChunkStart(|buffer|)) && ms[|ms| - 1] == Text(ChunkEnd)
            && k * MAX_CHUNK_SIZE <= |buffer| && ms[k + 1] == Binary(PieceAt(buffer, k))
  {
    hide Pieces, PieceCount, PieceAt;
    PiecesAre(buffer, k);
  }

  /** A chunked buffer arrives whole, with the pending header, whatever chunks were left over before. */
  lemma {:induction false} ChunkedArrives(v: View, p: Peer, buffer: bytes)
    ensures PeerRun(v, p, ChunkMessages(buffer)) == PeerResult(CLEAN, [Delivery(p, v.header, buffer)])
  {
    hide Pieces, Assembled, PeerRun, PeerStep;
    var start, end := Text(ChunkStart(|buffer|)), Text(ChunkEnd);
    var v1 := View(Some(ChunkState([], 0, |buffer|)), v.header);
    StartStep(v, p, |buffer|);
    PeerRunOne(v, p, start);
    PiecesPileUp(v1, p, buffer);
    NothingAssembled();
    assert [] + buffer == buffer;
    PeerRunConcat(v, p, [start], Pieces(buffer));
    var v2 := PeerRun(v1, p, Pieces(buffer)).view;
    EndStep(v2, p);
    PeerRunOne(v2, p, end);
    PeerRunConcat(v, p, [start] + Pieces(buffer), [end]);
  }

  lemma {:induction false} StartStep(v: View, p: Peer, size: nat)
    ensures PeerStep(v, p, Text(ChunkStart(size))) == PeerResult(View(Some(ChunkState([], 0, size)), v.header), [])
  {
  }

  lemma {:induction false} EndStep(v: View, p: Peer)
    requires v.chunks.Some?
    ensures PeerStep(v, p, Text(ChunkEnd)) == PeerResult(CLEAN, [Delivery(p, v.header, Assembled(v.chunks.value.chunks))])
  {
  }

  lemma {:induction false} NothingAssembled()
    ensures Assembled([]) == []
  {
  }

  lemma {:induction false} ItemArrives(p: Peer, i: Item)
    requires LegalItem(i)
    ensures PeerRun(CLEAN, p, ItemMessages(i)) == PeerResult(CLEAN, ExpectedItem(i, p))
  {
    hide ChunkMessages, Stored, HandedOver, PeerRun;
    match i
    case Note(control) =>
      PeerRunOne(CLEAN, p, Text(control));
    case Seg(s) =>
      StoredIs(s.header, p);
      var m := HeaderMessage(s.header);
      var tail := if |s.buffer| > MAX_CHUNK_SIZE then ChunkMessages(s.buffer) else [Binary(s.buffer)];
      PeerRunOne(CLEAN, p, m);
      var v := PeerStep(CLEAN, p, m).view;
      PeerRunConcat(CLEAN, p, [m], tail);
      if |s.buffer| > MAX_CHUNK_SIZE {
        ChunkedArrives(v, p, s.buffer);
      } else {
        PeerRunOne(v, p, Binary(s.buffer));
      }
  }

  lemma {:induction false} ItemsArrive(p: Peer, items: seq<Item>)
    requires forall i :: 0 <= i < |items| ==> LegalItem(items[i])
    ensures PeerRun(CLEAN, p, Encode(items)) == PeerResult(CLEAN, Expected(items, p))
  {
    hide ItemMessages, ExpectedItem, LegalItem;
    if items != [] {
      ItemArrives(p, items[0]);
      ItemsArrive(p, items[1..]);
      PeerRunConcat(CLEAN, p, ItemMessages(items[0]), Encode(items[1..]));
    }
  }

  /** Round trip: however the channels of all peers interleave, a peer whose view was clean gets exactly what
      it sent delivered, in order, with its own headers. */
  lemma {:induction false} FramingRoundTrip(c: Client, events: seq<Event>, p: Peer, items: seq<Item>)
    requires ViewOf(c, p) == CLEAN && Project(events, p) == Encode(items)
    requires forall i :: 0 <= i < |items| ==> LegalItem(items[i])
    ensures DeliveredFrom(Run(c, events).delivered, p) == DeliveredFrom(c.delivered, p) + Expected(items, p)
    ensures ViewOf(Run(c, events), p) == CLEAN
  {
    hide Run, DeliveredFrom, Expected, Encode, PeerRun, Project;
    Interleaved(c, events, p);
    ItemsArrive(p, items);
  }

  /** While the traffic is still arriving, what has been delivered is a prefix of it. */
  lemma {:induction false} DeliveredSoFar(c: Client, events: seq<Event>, p: Peer, items: seq<Item>, more: seq<Message>)
    requires ViewOf(c, p) == CLEAN && Project(events, p) + more == Encode(items)
    requires forall i :: 0 <= i < |items| ==> LegalItem(items[i])
    ensures DeliveredFrom(Run(c, events).delivered, p) <= DeliveredFrom(c.delivered, p) + Expected(items, p)
  {
    hide Run, DeliveredFrom, Expected, Encode, PeerRun, Project;
    Interleaved(c, events, p);
    ItemsArrive(p, items);
    PeerRunConcat(CLEAN, p, Project(events, p), more);
  }

  // ---------------------------------------------------------------- a left-over header

  /** The first segment, if there is one, has a header that receivers recognise. */
  predicate FirstTyped(items: seq<Item>) {
    if items == [] then true
    else match items[0] case Note(_) => FirstTyped(items[1..]) case Seg(s) => s.header.typed
  }

  /** The buffers alone. */
  function Buffers(ds: seq<Delivery>): seq<bytes> {
    if ds == [] then [] else [ds[0].buffer] + Buffers(ds[1..])
  }

  lemma {:induction false} TypedTakesOver(v: View, p: Peer, s: Segment)
    requires v.chunks.None? && s.header.typed
    ensures PeerRun(v, p, ItemMessages(Seg(s))) == PeerRun(CLEAN, p, ItemMessages(Seg(s)))
  {
    hide ChunkMessages, Stored, PeerRun;
    var m := HeaderMessage(s.header);
    var tail := if |s.buffer| > MAX_CHUNK_SIZE then ChunkMessages(s.buffer) else [Binary(s.buffer)];
    PeerRunOne(v, p, m);
    PeerRunOne(CLEAN, p, m);
    PeerRunConcat(v, p, [m], tail);
    PeerRunConcat(CLEAN, p, [m], tail);
  }

  lemma {:induction false} UntypedGetsIt(v: View, p: Peer, s: Segment)
    requires v.chunks.None? && v.header.Some? && !s.header.typed
    ensures PeerRun(v, p, ItemMessages(Seg(s))) == PeerResult(CLEAN, [Delivery(p, v.header, s.buffer)])
  {
    hide ChunkMessages, Stored, PeerRun;
    var m := HeaderMessage(s.header);
    var tail := if |s.buffer| > MAX_CHUNK_SIZE then ChunkMessages(s.buffer) else [Binary(s.buffer)];
    PeerRunOne(v, p, m);
    PeerRunConcat(v, p, [m], tail);
    if |s.buffer| > MAX_CHUNK_SIZE {
      ChunkedArrives(v, p, s.buffer);
    } else {
      PeerRunOne(v, p, Binary(s.buffer));
    }
  }

  lemma {:induction false} NotePasses(v: View, p: Peer, control: Control)
    requires LegalItem(Note(control))
    ensures PeerRun(v, p, ItemMessages(Note(control))) == PeerResult(v, [])
  {
    hide PeerRun;
    PeerRunOne(v, p, Text(control));
  }

  lemma {:induction false} FirstDelivery(d: Delivery, e: Delivery, rest: seq<Delivery>)
    ensures [d] + rest == [e] + rest <==> d == e
    ensures d.buffer == e.buffer ==> Buffers([d] + rest) == Buffers([e] + rest)
  {
    assert ([d] + rest)[0] == d && ([e] + rest)[0] == e;
    assert ([d] + rest)[1..] == rest && ([e] + rest)[1..] == rest;
  }

  /** With a left-over header and no chunks, everything arrives in order, and under its own headers exactly when the
      first segment has a header that is recognised; otherwise that one arrives under the left-over header. */
  lemma {:induction false} LeftHeaderIff(v: View, p: Peer, items: seq<Item>)
    requires v.chunks.None? && v.header.Some? && forall i :: 0 <= i < |items| ==> LegalItem(items[i])
    ensures var got := PeerRun(v, p, Encode(items)).deliveries;
            && (got == Expected(items, p) <==> FirstTyped(items))
            && Buffers(got) == Buffers(Expected(items, p))
    decreases |items|
  {
    hide ItemMessages, LegalItem, PeerRun, Stored, Encode, Expected, Buffers;
    if items == [] {
      NothingAnyway(v, p);
    } else {
      var rest := items[1..];
      EncodeCons(items);
      ExpectedCons(items, p);
      PeerRunConcat(v, p, ItemMessages(items[0]), Encode(rest));
      var behind := Expected(rest, p);
      match items[0] {
        case Note(control) =>
          NotePasses(v, p, control);
          LeftHeaderIff(v, p, rest);
          assert [] + behind == behind;
          var got := PeerRun(v, p, Encode(rest)).deliveries;
          assert [] + got == got;
        case Seg(s) =>
          ItemsArrive(p, rest);
          ItemArrives(p, items[0]);
          if s.header.typed {
            TypedTakesOver(v, p, s);
          } else {
            UntypedGetsIt(v, p, s);
            FirstDelivery(Delivery(p, v.header, s.buffer), Delivery(p, None, s.buffer), behind);
          }
      }
    }
  }

  lemma {:induction false} NothingAnyway(v: View, p: Peer)
    ensures PeerRun(v, p, Encode([])).deliveries == Expected([], p)
  {
  }

  lemma {:induction false} BuffersConcat(a: seq<Delivery>, b: seq<Delivery>)
    ensures Buffers(a + b) == Buffers(a) + Buffers(b)
    decreases |a|
  {
    if a == [] {
      assert a + b == b;
    } else {
      BuffersConcat(a[1..], b);
      assert (a + b)[1..] == a[1..] + b;
    }
  }

  // ---------------------------------------------------------------- left-over chunks

  /** The first segment that is sent in chunks. */
  function FirstLong(segments: seq<Segment>): (n: nat)
    ensures n <= |segments|
  {
    if segments == [] || |segments[0].buffer| > MAX_CHUNK_SIZE then 0 else 1 + FirstLong(segments[1..])
  }

  function AsItems(segments: seq<Segment>): (items: seq<Item>)
    ensures |items| == |segments|
    ensures forall i :: 0 <= i < |items| ==> LegalItem(items[i])
  {
    if segments == [] then [] else [Seg(segments[0])] + AsItems(segments[1..])
  }

  /** Closing a channel leaves a half-received chunk state in place. A peer that comes back then has its
      segments swallowed up to the first one that is sent in chunks. */
  lemma {:induction false} StaleChunksSwallow(v: View, p: Peer, segments: seq<Segment>)
    requires v.chunks.Some?
    requires forall i :: 0 <= i < |segments| ==> segments[i].header.typed
    ensures PeerRun(v, p, Encode(AsItems(segments))).deliveries == Expected(AsItems(segments[FirstLong(segments)..]), p)
    decreases |segments|
  {
    hide ChunkMessages, Stored, HandedOver, PeerRun, PeerStep, Encode, Expected;
    if segments == [] {
      NothingSent(v, p);
    } else {
      var s, rest := segments[0], segments[1..];
      StoredIs(s.header, p);
      var items := AsItems(segments);
      assert items[0] == Seg(s) && items[1..] == AsItems(rest);
      var m := HeaderMessage(s.header);
      var v1 := v.(header := Some(Stored(s.header, p)));
      EncodeCons(items);
      PeerRunConcat(v, p, ItemMessages(items[0]), Encode(items[1..]));
      HeaderStep(v, p, s.header);
      PeerRunOne(v, p, m);
      if |s.buffer| > MAX_CHUNK_SIZE {
        PeerRunConcat(v, p, [m], ChunkMessages(s.buffer));
        ChunkedArrives(v1, p, s.buffer);
        ItemsArrive(p, items[1..]);
        ExpectedCons(items, p);
        assert segments[0..] == segments;
      } else {
        PeerRunConcat(v, p, [m], [Binary(s.buffer)]);
        PeerRunOne(v1, p, Binary(s.buffer));
        SwallowStep(v1, p, s.buffer);
        StaleChunksSwallow(PeerStep(v1, p, Binary(s.buffer)).view, p, rest);
        assert segments[FirstLong(segments)..] == rest[FirstLong(rest)..];
      }
    }
  }

  lemma {:induction false} NothingSent(v: View, p: Peer)
    ensures PeerRun(v, p, Encode(AsItems([]))).deliveries == Expected(AsItems([]), p)
  {
  }

  lemma {:induction false} EncodeCons(items: seq<Item>)
    requires items != []
    ensures Encode(items) == ItemMessages(items[0]) + Encode(items[1..])
  {
  }

  lemma {:induction false} ExpectedCons(items: seq<Item>, p: Peer)
    requires items != []
    ensures Expected(items, p) == ExpectedItem(items[0], p) + Expected(items[1..], p)
  {
  }

  lemma {:induction false} HeaderStep(v: View, p: Peer, h: Header)
    requires h.typed
    ensures PeerStep(v, p, HeaderMessage(h)) == PeerResult(v.(header := Some(Stored(h, p))), [])
  {
  }

  lemma {:induction false} SwallowStep(v: View, p: Peer, data: bytes)
    requires v.chunks.Some?
    ensures var r := PeerStep(v, p, Binary(data));
            r.deliveries == [] && r.view.chunks.Some?
  {
  }

  lemma {:induction false} ExpectedLength(segments: seq<Segment>, p: Peer)
    ensures |Expected(AsItems(segments), p)| == |segments|
  {
    if segments != [] {
      ExpectedLength(segments[1..], p);
      var items := AsItems(segments);
      assert items[1..] == AsItems(segments[1..]);
    }
  }

  /** With left-over chunks the round trip holds exactly when there is nothing to send or the first segment is
      sent in chunks. */
  lemma {:induction false} StaleRoundTripIff(v: View, p: Peer, segments: seq<Segment>)
    requires v.chunks.Some?
    requires forall i :: 0 <= i < |segments| ==> segments[i].header.typed
    ensures PeerRun(v, p, Encode(AsItems(segments))).deliveries == Expected(AsItems(segments), p)
            <==> segments == [] || |segments[0].buffer| > MAX_CHUNK_SIZE
  {
    hide PeerRun, Encode, Expected;
    StaleChunksSwallow(v, p, segments);
    ExpectedLength(segments, p);
    ExpectedLength(segments[FirstLong(segments)..], p);
    if FirstLong(segments) == 0 {
      assert segments[0..] == segments;
    }
  }
}
