/** The network message by message (web_viewer/webrtc-client.js): every edge is a first-in, first-out channel of control
    messages and chunks, and a client handles one message at a time. Each run of it does what some run of the
    copy-by-copy network of Flood does. */
module ChunkNet {
  import opened Bytes
  import opened Outcomes
  import opened ClientState
  import opened Framing
  import opened Flood
  import opened Dedup
  import opened Reconnect

  type Edge = (Peer, Peer)
  type Wires = map<Edge, seq<Message>>

  datatype Chunked = Chunked(nodes: seq<Client>, wires: Wires)

  function On(w: Wires, e: Edge): seq<Message> { if e in w then w[e] else [] }

  /** What a client has newly sent goes on its channels, in order. */
  function Put(w: Wires, n: Peer, log: seq<Sent>): Wires {
    if log == [] then w
    else
      var s, u := log[|log| - 1], Put(w, n, log[..|log| - 1]);
      u[(n, s.peer) := On(u, (n, s.peer)) + [s.message]]
  }

  function NewlySent(before: Client, after: Client): seq<Sent> {
    if |before.sent| <= |after.sent| then after.sent[|before.sent|..] else []
  }

  datatype ChunkStep =
    | Hear(edge: Edge, now: int)
    | Feed(publisher: Peer, buffer: bytes, kind: SegmentType, isKeyframe: bool, at: int)

  predicate Ready(cn: Chunked, s: ChunkStep) {
    match s
    case Hear(e, _) => On(cn.wires, e) != []
    case Feed(p, _, _, _, _) => p < |cn.nodes| && cn.nodes[p].isPublisher
  }

  function Act(cn: Chunked, s: ChunkStep): Chunked
    requires Ready(cn, s)
  {
    match s
    case Hear(e, now) =>
      var m, rest := On(cn.wires, e)[0], cn.wires[e := On(cn.wires, e)[1..]];
      if e.1 >= |cn.nodes| then cn.(wires := rest)
      else
        var node := cn.nodes[e.1];
        var heard := Handle(node, e.0, m, now);
        Chunked(cn.nodes[e.1 := heard], Put(rest, e.1, NewlySent(node, heard)))
    case Feed(p, buffer, kind, isKeyframe, at) =>
      var node := cn.nodes[p];
      var fed := Forward(node, buffer, kind, isKeyframe, at);
      Chunked(cn.nodes[p := fed], Put(cn.wires, p, NewlySent(node, fed)))
  }

  // ---------------------------------------------------------------- copies behind the messages

  type Queues = map<Edge, seq<Copy>>

  function Waiting(q: Queues, e: Edge): seq<Copy> { if e in q then q[e] else [] }

  function MessagesIn(copies: seq<Copy>): seq<Message> {
    if copies == [] then []
    else SegmentMessages(copies[0].header, copies[0].buffer) + MessagesIn(copies[1..])
  }

  /** How far the first copy of each edge has been heard. */
  type Progress = map<Edge, nat>

  function Heard(d: Progress, e: Edge): nat { if e in d then d[e] else 0 }

  /** A client without its reassembly state, which the copies of Flood do not have. */
  function Bare(c: Client): Client { c.(incoming := map[], pending := map[]) }

  predicate OnEdge(copies: seq<Copy>, e: Edge) {
    forall i :: 0 <= i < |copies| ==> copies[i].src == e.0 && copies[i].dst == e.1 && copies[i].header.typed
  }

  predicate Partial(copies: seq<Copy>, done: nat) {
    done == 0 || (copies != [] && done < |SegmentMessages(copies[0].header, copies[0].buffer)|)
  }

  /** What the receiver remembers of the first copy. */
  function PartView(copies: seq<Copy>, done: nat, src: Peer): View
    requires Partial(copies, done)
  {
    if done == 0 then CLEAN else PeerRun(CLEAN, src, SegmentMessages(copies[0].header, copies[0].buffer)[..done]).view
  }

  /** The channel of an edge holds what is left of its copies. */
  ghost predicate EdgeStands(cn: Chunked, q: Queues, d: Progress, e: Edge) {
    var copies, done := Waiting(q, e), Heard(d, e);
    && OnEdge(copies, e) && Partial(copies, done) && done <= |MessagesIn(copies)|
    && On(cn.wires, e) == MessagesIn(copies)[done..]
    && (e.1 < |cn.nodes| ==> ViewOf(cn.nodes[e.1], e.0) == PartView(copies, done, e.0))
  }

  /** Both networks hold the same clients and the same copies. */
  ghost predicate Stands(cn: Chunked, net: Net, q: Queues, d: Progress) {
    && |cn.nodes| == |net.nodes|
    && (forall n :: 0 <= n < |cn.nodes| ==> Bare(cn.nodes[n]) == Bare(net.nodes[n]))
    && (forall e :: EdgeStands(cn, q, d, e))
    && (forall k :: multiset(net.flight)[k] == multiset(Waiting(q, (k.src, k.dst)))[k])
  }

  // ---------------------------------------------------------------- messages put on channels

  function CopiesFor(copies: seq<Copy>, p: Peer): seq<Copy> {
    if copies == [] then []
    else CopiesFor(copies[..|copies| - 1], p) + if copies[|copies| - 1].dst == p then [copies[|copies| - 1]] else []
  }

  lemma {:induction false} MessagesInConcat(a: seq<Copy>, b: seq<Copy>)
    ensures MessagesIn(a + b) == MessagesIn(a) + MessagesIn(b)
    decreases |a|
  {
    hide SegmentMessages;
    if a == [] {
      assert a + b == b;
    } else {
      MessagesInConcat(a[1..], b);
      assert (a + b)[1..] == a[1..] + b && (a + b)[0] == a[0];
    }
  }

  lemma {:induction false} MessagesInOne(k: Copy)
    ensures MessagesIn([k]) == SegmentMessages(k.header, k.buffer)
  {
    hide SegmentMessages;
    assert [k][1..] == [];
    assert SegmentMessages(k.header, k.buffer) + [] == SegmentMessages(k.header, k.buffer);
  }

  lemma {:induction false} PutConcat(w: Wires, n: Peer, a: seq<Sent>, b: seq<Sent>)
    ensures Put(w, n, a + b) == Put(Put(w, n, a), n, b)
    decreases |b|
  {
    if b == [] {
      assert a + b == a;
    } else {
      PutConcat(w, n, a, b[..|b| - 1]);
      assert (a + b)[..|a + b| - 1] == a + b[..|b| - 1];
    }
  }

  lemma {:induction false} PutTo(w: Wires, n: Peer, p: Peer, ms: seq<Message>, e: Edge)
    ensures On(Put(w, n, To(p, ms)), e) == On(w, e) + if e == (n, p) then ms else []
    decreases |ms|
  {
    if ms == [] {
      assert On(w, e) + [] == On(w, e);
    } else {
      var init := ms[..|ms| - 1];
      PutTo(w, n, p, init, e);
      assert To(p, ms)[..|ms| - 1] == To(p, init);
      assert (On(w, e) + init) + [ms[|ms| - 1]] == On(w, e) + ms;
      assert On(w, e) + [] == On(w, e);
    }
  }

  /** The messages of copies land, copy by copy, on the channels of their edges. */
  lemma {:induction false} PutCopies(w: Wires, n: Peer, copies: seq<Copy>, e: Edge)
    ensures On(Put(w, n, MessagesOn(copies)), e) == On(w, e) + if e.0 == n then MessagesIn(CopiesFor(copies, e.1)) else []
    decreases |copies|
  {
    hide SegmentMessages, To, Put, MessagesIn, On;
    if copies == [] {
      NothingPut(w, n, e);
    } else {
      var init, k := copies[..|copies| - 1], copies[|copies| - 1];
      var ms, before := SegmentMessages(k.header, k.buffer), CopiesFor(init, e.1);
      PutCopies(w, n, init, e);
      PutConcat(w, n, MessagesOn(init), To(k.dst, ms));
      PutTo(Put(w, n, MessagesOn(init)), n, k.dst, ms, e);
      if e == (n, k.dst) {
        MessagesInConcat(before, [k]);
        MessagesInOne(k);
        Reassociate(On(w, e), MessagesIn(before), ms);
      } else {
        assert before + [] == before;
        var landed := On(Put(w, n, MessagesOn(init)), e);
        assert landed + [] == landed;
      }
    }
  }

  lemma {:induction false} NothingPut(w: Wires, n: Peer, e: Edge)
    ensures On(Put(w, n, []), e) == On(w, e) + [] && MessagesIn([]) == []
  {
    assert On(w, e) + [] == On(w, e);
  }

  function Enqueue(q: Queues, n: Peer, copies: seq<Copy>): Queues {
    if copies == [] then q
    else
      var k, u := copies[|copies| - 1], Enqueue(q, n, copies[..|copies| - 1]);
      u[(n, k.dst) := Waiting(u, (n, k.dst)) + [k]]
  }

  lemma {:induction false} Enqueued(q: Queues, n: Peer, copies: seq<Copy>, e: Edge)
    ensures Waiting(Enqueue(q, n, copies), e) == Waiting(q, e) + if e.0 == n then CopiesFor(copies, e.1) else []
    decreases |copies|
  {
    if copies == [] {
      assert Waiting(q, e) + [] == Waiting(q, e);
    } else {
      var init, k := copies[..|copies| - 1], copies[|copies| - 1];
      Enqueued(q, n, init, e);
      var before := CopiesFor(init, e.1);
      Reassociate(Waiting(q, e), before, [k]);
      assert before + [] == before;
    }
  }

  lemma {:induction false} CopiesForCount(copies: seq<Copy>, k: Copy)
    ensures multiset(CopiesFor(copies, k.dst))[k] == multiset(copies)[k]
    decreases |copies|
  {
    if copies != [] {
      var init, last := copies[..|copies| - 1], copies[|copies| - 1];
      CopiesForCount(init, k);
      assert copies == init + [last];
    }
  }

  predicate FromNode(copies: seq<Copy>, n: Peer) {
    forall i :: 0 <= i < |copies| ==> copies[i].src == n && copies[i].header.typed
  }

  lemma {:induction false} CopiesForOnEdge(copies: seq<Copy>, n: Peer, p: Peer)
    requires FromNode(copies, n)
    ensures OnEdge(CopiesFor(copies, p), (n, p))
    decreases |copies|
  {
    if copies != [] {
      CopiesForOnEdge(copies[..|copies| - 1], n, p);
    }
  }

  // ---------------------------------------------------------------- one message at a client

  lemma {:induction false} QuietHandle(c: Client, p: Peer, m: Message, now: int)
    requires (m.Text? && (m.control.SegmentHeader? || m.control.ChunkStart?)) || (m.Binary? && p in c.incoming)
    ensures Bare(Handle(c, p, m, now)) == Bare(c)
  {
    hide ProcessReceived, CachedMessages, Assembled, To, Stored;
  }

  /** The first messages of a segment change only the sender's reassembly state. */
  lemma {:induction false} EarlyMessage(c: Client, k: Copy, done: nat, now: int)
    requires k.header.typed && done + 1 < |SegmentMessages(k.header, k.buffer)| && ViewOf(c, k.src) == PartView([k], done, k.src)
    ensures var r := Handle(c, k.src, SegmentMessages(k.header, k.buffer)[done], now);
            Bare(r) == Bare(c) && ViewOf(r, k.src) == PartView([k], done + 1, k.src)
  {
    hide Pieces, Handle, PeerRun, PeerStep, Stored;
    var ms := SegmentMessages(k.header, k.buffer);
    if done == 0 {
      NothingRun(k.src);
    } else {
      PartIsChunked(k, done);
      HalfASegment(CLEAN, k.src, k.header, k.buffer, if done >= 2 then done else 2);
      PiecesAreBinary(k.buffer);
    }
    hide SegmentMessages;
    QuietHandle(c, k.src, ms[done], now);
    HandleOwn(c, k.src, ms[done], now);
    PeerRunConcat(CLEAN, k.src, ms[..done], [ms[done]]);
    PeerRunOne(PeerRun(CLEAN, k.src, ms[..done]).view, k.src, ms[done]);
    assert ms[..done] + [ms[done]] == ms[..done + 1];
  }

  lemma {:induction false} NothingRun(p: Peer)
    ensures PeerRun(CLEAN, p, []).view == CLEAN
  {
  }

  lemma {:induction false} PartIsChunked(k: Copy, done: nat)
    requires 1 <= done && done + 1 < |SegmentMessages(k.header, k.buffer)|
    ensures |k.buffer| > MAX_CHUNK_SIZE
    ensures var ms := SegmentMessages(k.header, k.buffer);
            && (done == 1 ==> ms[done] == Text(ChunkStart(|k.buffer|)))
            && (done >= 2 ==> done - 2 < |Pieces(k.buffer)| && ms[done] == Pieces(k.buffer)[done - 2])
  {
    hide Pieces;
    if |k.buffer| > MAX_CHUNK_SIZE {
      var ms, pieces := SegmentMessages(k.header, k.buffer), Pieces(k.buffer);
      assert ms == [HeaderMessage(k.header), Text(ChunkStart(|k.buffer|))] + pieces + [Text(ChunkEnd)];
    }
  }

  lemma {:induction false} ReadyBare(c: Client)
    ensures Bare(CheckRelayReady(c)) == CheckRelayReady(Bare(c))
  {
  }

  lemma {:induction false} AcceptBare(c: Client, h: Header, buffer: bytes, p: Peer)
    ensures Bare(Accept(c, h, buffer, p)) == Accept(Bare(c), h, buffer, p)
  {
    hide CheckRelayReady, IsInit;
    ReadyBare(c.(initSegment := Some(buffer)));
  }

  lemma {:induction false} RelayBare(c: Client, h: Header, buffer: bytes, p: Peer)
    ensures Bare(RelaySegment(c, h, buffer, p)) == RelaySegment(Bare(c), h, buffer, p)
    ensures Relays(Bare(c), h) == Relays(c, h)
  {
    hide SegmentMessages, Broadcast, Targets;
  }

  /** The reassembly state plays no part in what a segment does. */
  lemma {:induction false} ProcessBare(c: Client, h: Header, buffer: bytes, p: Peer)
    ensures Bare(Process(c, h, buffer, p)) == Process(Bare(c), h, buffer, p)
  {
    hide Accept, RelaySegment, Relays, AddSeen, PushQueue;
    AcceptBare(c, h, buffer, p);
    var c1 := Accept(c, h, buffer, p);
    var c2 := c1.(seen := AddSeen(c1.seen, h.sequence), queue := PushQueue(c1.queue, Segment(h, buffer)));
    RelayBare(c1, h, buffer, p);
    RelayBare(c2, h, buffer, p);
  }

  lemma {:induction false} AtLeastTwo(k: Copy)
    ensures |SegmentMessages(k.header, k.buffer)| >= 2
  {
    hide Pieces;
  }

  /** What is left in the reassembly state when only the last message of a copy is missing. */
  lemma {:induction false} AlmostHeard(k: Copy)
    requires k.header.typed
    ensures var ms := SegmentMessages(k.header, k.buffer);
            var v := PartView([k], |ms| - 1, k.src);
            && v.header == Some(Stored(k.header, k.src))
            && (|k.buffer| <= MAX_CHUNK_SIZE ==> v.chunks.None? && ms[|ms| - 1] == Binary(k.buffer))
            && (|k.buffer| > MAX_CHUNK_SIZE ==> v.chunks.Some? && Assembled(v.chunks.value.chunks) == k.buffer && ms[|ms| - 1] == Text(ChunkEnd))
  {
    hide PeerRun, Pieces, Stored, Assembled;
    var ms, head := SegmentMessages(k.header, k.buffer), HeaderMessage(k.header);
    var v1 := View(None, Some(Stored(k.header, k.src)));
    PeerRunOne(CLEAN, k.src, head);
    HeaderStep(CLEAN, k.src, k.header);
    if |k.buffer| <= MAX_CHUNK_SIZE {
      assert ms[..|ms| - 1] == [head];
    } else {
      var start := Text(ChunkStart(|k.buffer|));
      var v2 := v1.(chunks := Some(ChunkState([], 0, |k.buffer|)));
      StartStep(v1, k.src, |k.buffer|);
      PeerRunOne(v1, k.src, start);
      PiecesPileUp(v2, k.src, k.buffer);
      NothingAssembled();
      assert [] + k.buffer == k.buffer;
      PeerRunConcat(CLEAN, k.src, [head], [start]);
      PeerRunConcat(CLEAN, k.src, [head] + [start], Pieces(k.buffer));
      assert ms[..|ms| - 1] == ([head] + [start]) + Pieces(k.buffer);
      assert ms[|ms| - 1] == Text(ChunkEnd);
    }
  }

  /** The last message of a segment processes it. */
  lemma {:induction false} LastMessage(c: Client, k: Copy, now: int)
    requires k.header.typed && ViewOf(c, k.src) == PartView([k], |SegmentMessages(k.header, k.buffer)| - 1, k.src)
    ensures var ms := SegmentMessages(k.header, k.buffer);
            var r := Handle(c, k.src, ms[|ms| - 1], now);
            Bare(r) == Bare(Process(c, Stored(k.header, k.src), k.buffer, k.src)) && ViewOf(r, k.src) == CLEAN
  {
    hide PeerRun, PartView, SegmentMessages, Stored, Assembled, Process;
    AtLeastTwo(k);
    AlmostHeard(k);
    var ms := SegmentMessages(k.header, k.buffer);
    HandleOwn(c, k.src, ms[|ms| - 1], now);
    var h := Stored(k.header, k.src);
    ProcessBare(c, h, k.buffer, k.src);
    if |k.buffer| <= MAX_CHUNK_SIZE {
      ProcessBare(c.(pending := c.pending - {k.src}), h, k.buffer, k.src);
    } else {
      ProcessBare(c.(incoming := c.incoming - {k.src}, pending := c.pending - {k.src}), h, k.buffer, k.src);
    }
  }

  /** A client's log of what it sent only grows, and what the last message of a copy adds are the messages of the
      copies that Flood emits. */
  lemma {:induction false} LastSends(c: Client, node: Client, k: Copy, now: int)
    requires k.header.typed && ViewOf(c, k.src) == PartView([k], |SegmentMessages(k.header, k.buffer)| - 1, k.src)
    requires Bare(c) == Bare(node)
    ensures var ms := SegmentMessages(k.header, k.buffer);
            var r := Handle(c, k.src, ms[|ms| - 1], now);
            && NewlySent(c, r) == MessagesOn(Emitted(node, k, true))
            && Bare(r) == Bare(Process(node, Stored(k.header, k.src), k.buffer, k.src))
            && ViewOf(r, k.src) == CLEAN
  {
    hide PartView, SegmentMessages, Handle, Process, Emitted, MessagesOn;
    AtLeastTwo(k);
    LastMessage(c, k, now);
    ProcessBare(c, Stored(k.header, k.src), k.buffer, k.src);
    ProcessBare(node, Stored(k.header, k.src), k.buffer, k.src);
    EmittedIsSent(node, k, true);
    var ms := SegmentMessages(k.header, k.buffer);
    var r := Handle(c, k.src, ms[|ms| - 1], now);
    var p := Process(node, Stored(k.header, k.src), k.buffer, k.src);
    assert r.sent == Bare(r).sent == Bare(p).sent == p.sent && c.sent == Bare(c).sent == Bare(node).sent == node.sent;
    assert r.sent[|c.sent|..] == MessagesOn(Emitted(node, k, true));
  }

  /** A publisher's new segment, on both networks. */
  lemma {:induction false} FeedSends(c: Client, node: Client, p: Peer, buffer: bytes, kind: SegmentType, isKeyframe: bool, at: int)
    requires Bare(c) == Bare(node) && c.isPublisher
    ensures var r := Forward(c, buffer, kind, isKeyframe, at);
            && NewlySent(c, r) == MessagesOn(CopiesTo(p, Targets(node.channels, None), ForwardHeader(node, buffer, kind, isKeyframe, at), buffer, 1))
            && Bare(r) == Bare(Forward(node, buffer, kind, isKeyframe, at))
            && r.incoming == c.incoming && r.pending == c.pending
  {
    hide SegmentMessages, Broadcast, Targets, PushQueue, MessagesOn, CopiesTo;
    var h := ForwardHeader(node, buffer, kind, isKeyframe, at);
    assert c.nextSequence == Bare(c).nextSequence == Bare(node).nextSequence == node.nextSequence;
    assert c.channels == Bare(c).channels == node.channels && c.sent == Bare(c).sent == node.sent;
    assert c.queue == Bare(c).queue == node.queue && c.keyframe == Bare(c).keyframe == node.keyframe;
    assert c.isPublisher == Bare(c).isPublisher == node.isPublisher && c.initSegment == Bare(c).initSegment == node.initSegment;
    CopiesAreMessages(p, Targets(node.channels, None), h, buffer, 1);
    var r := Forward(c, buffer, kind, isKeyframe, at);
    assert r.sent[|c.sent|..] == Broadcast(Targets(node.channels, None), SegmentMessages(h, buffer));
  }

  // ---------------------------------------------------------------- one edge

  /** The part of `EdgeStands` about the channel. */
  predicate ChannelStands(messages: seq<Message>, copies: seq<Copy>, done: nat, e: Edge) {
    && OnEdge(copies, e) && Partial(copies, done) && done <= |MessagesIn(copies)|
    && messages == MessagesIn(copies)[done..]
  }

  lemma {:induction false} FirstCopy(copies: seq<Copy>)
    requires copies != []
    ensures MessagesIn(copies) == SegmentMessages(copies[0].header, copies[0].buffer) + MessagesIn(copies[1..])
  {
    hide SegmentMessages;
  }

  /** What the head of a channel is. */
  lemma {:induction false} ChannelHead(messages: seq<Message>, copies: seq<Copy>, done: nat, e: Edge)
    requires ChannelStands(messages, copies, done, e) && messages != []
    ensures copies != [] && copies[0].src == e.0 && copies[0].dst == e.1 && copies[0].header.typed
    ensures var ms := SegmentMessages(copies[0].header, copies[0].buffer);
            && done < |ms| && messages[0] == ms[done]
            && (done + 1 < |ms| ==> ChannelStands(messages[1..], copies, done + 1, e))
            && (done + 1 == |ms| ==> ChannelStands(messages[1..], copies[1..], 0, e))
    ensures PartView(copies, done, e.0) == PartView([copies[0]], done, e.0)
  {
    hide SegmentMessages, PeerRun, Pieces;
    if copies != [] {
      AtLeastTwo(copies[0]);
      FirstCopy(copies);
      var ms := SegmentMessages(copies[0].header, copies[0].buffer);
      assert messages[0] == MessagesIn(copies)[done];
      assert messages[1..] == MessagesIn(copies)[done + 1..];
      if done + 1 == |ms| {
        assert MessagesIn(copies)[|ms|..] == MessagesIn(copies[1..]);
      }
    }
  }

  /** More copies behind the others. */
  lemma {:induction false} ChannelGrows(messages: seq<Message>, copies: seq<Copy>, done: nat, e: Edge, more: seq<Copy>)
    requires ChannelStands(messages, copies, done, e) && OnEdge(more, e)
    ensures ChannelStands(messages + MessagesIn(more), copies + more, done, e)
    ensures PartView(copies + more, done, e.0) == PartView(copies, done, e.0)
  {
    hide SegmentMessages, PeerRun, MessagesIn;
    MessagesInConcat(copies, more);
    assert (MessagesIn(copies) + MessagesIn(more))[done..] == MessagesIn(copies)[done..] + MessagesIn(more);
    assert copies != [] ==> (copies + more)[0] == copies[0];
  }

  lemma {:induction false} EdgeIs(cn: Chunked, q: Queues, d: Progress, e: Edge)
    ensures EdgeStands(cn, q, d, e) <==>
      && ChannelStands(On(cn.wires, e), Waiting(q, e), Heard(d, e), e)
      && (e.1 < |cn.nodes| ==> ViewOf(cn.nodes[e.1], e.0) == PartView(Waiting(q, e), Heard(d, e), e.0))
  {
    hide SegmentMessages, PartView, MessagesIn, ViewOf;
  }

  // ---------------------------------------------------------------- one step

  /** A message that is not the last of its copy: Flood does nothing. */
  lemma {:induction false} HearEarly(cn: Chunked, net: Net, q: Queues, d: Progress, e: Edge, now: int)
    requires Stands(cn, net, q, d) && On(cn.wires, e) != []
    requires Waiting(q, e) != [] && Heard(d, e) + 1 < |SegmentMessages(Waiting(q, e)[0].header, Waiting(q, e)[0].buffer)|
    ensures Stands(Act(cn, Hear(e, now)), net, q, d[e := Heard(d, e) + 1])
  {
    hide SegmentMessages, PartView, MessagesIn, ViewOf, Handle, OnEdge, Partial, EdgeStands, Bare, Put;
    var copies, done, k := Waiting(q, e), Heard(d, e), Waiting(q, e)[0];
    EdgeIs(cn, q, d, e);
    ChannelHead(On(cn.wires, e), copies, done, e);
    var next, d' := Act(cn, Hear(e, now)), d[e := done + 1];
    if e.1 < |cn.nodes| {
      var c := cn.nodes[e.1];
      PartOfFirst(copies, done, e.0);
      EarlyMessage(c, k, done, now);
      PartOfFirst(copies, done + 1, e.0);
      var r := Handle(c, e.0, On(cn.wires, e)[0], now);
      SameSent(c, r);
      NothingNew(cn.wires[e := On(cn.wires, e)[1..]], e.1);
      HandleOthers(c, e.0, On(cn.wires, e)[0], now);
    }
    forall f: Edge
      ensures EdgeStands(next, q, d', f)
    {
      EdgeIs(cn, q, d, f);
      EdgeIs(next, q, d', f);
    }
  }

  lemma {:induction false} PartOfFirst(copies: seq<Copy>, done: nat, src: Peer)
    requires copies != [] && Partial(copies, done)
    ensures PartView(copies, done, src) == PartView([copies[0]], done, src)
  {
    hide SegmentMessages, PeerRun;
  }

  lemma {:induction false} SameSent(c: Client, r: Client)
    requires Bare(r) == Bare(c)
    ensures NewlySent(c, r) == []
  {
    assert r.sent == Bare(r).sent == Bare(c).sent == c.sent;
  }

  lemma {:induction false} NothingNew(w: Wires, n: Peer)
    ensures Put(w, n, []) == w
  {
  }

  /** Every waiting copy is in flight, and the other way round. */
  ghost predicate SameCopies(flight: seq<Copy>, q: Queues) {
    forall k :: multiset(flight)[k] == multiset(Waiting(q, (k.src, k.dst)))[k]
  }

  lemma {:induction false} FoundInFlight(flight: seq<Copy>, q: Queues, e: Edge) returns (i: nat)
    requires SameCopies(flight, q) && Waiting(q, e) != [] && OnEdge(Waiting(q, e), e)
    ensures i < |flight| && flight[i] == Waiting(q, e)[0]
  {
    var k := Waiting(q, e)[0];
    assert k in multiset(Waiting(q, e)) && e == (k.src, k.dst);
    assert multiset(flight)[k] > 0;
    assert k in flight;
    i :| i < |flight| && flight[i] == k;
  }

  lemma {:induction false} FirstLeaves(q: Queues, e: Edge, x: Copy)
    requires Waiting(q, e) != [] && OnEdge(Waiting(q, e), e)
    ensures var f := (x.src, x.dst);
            multiset(Waiting(q[e := Waiting(q, e)[1..]], f))[x] == multiset(Waiting(q, f))[x] - if x == Waiting(q, e)[0] then 1 else 0
  {
    var copies := Waiting(q, e);
    if e == (x.src, x.dst) {
      assert copies == [copies[0]] + copies[1..];
    }
  }

  lemma {:induction false} SentCount(sent: seq<Copy>, n: Peer, x: Copy)
    requires FromNode(sent, n)
    ensures multiset(sent)[x] == multiset(if x.src == n then CopiesFor(sent, x.dst) else [])[x]
  {
    hide CopiesFor;
    CopiesForCount(sent, x);
    if x in sent {
      assert x.src == n;
    }
  }

  lemma {:induction false} CountConcat(a: seq<Copy>, b: seq<Copy>, x: Copy)
    ensures multiset(a + b)[x] == multiset(a)[x] + multiset(b)[x]
  {
  }

  lemma {:induction false} WithoutCount(flight: seq<Copy>, i: nat, x: Copy)
    requires i < |flight|
    ensures multiset(Without(flight, i))[x] == multiset(flight)[x] - if x == flight[i] then 1 else 0
  {
    var one := [flight[i]];
    assert flight == flight[..i] + one + flight[i + 1..];
    CountConcat(flight[..i] + one, flight[i + 1..], x);
    CountConcat(flight[..i], one, x);
    CountConcat(flight[..i], flight[i + 1..], x);
  }

  lemma {:induction false} JoinedCount(q: Queues, n: Peer, sent: seq<Copy>, x: Copy)
    requires FromNode(sent, n)
    ensures var f := (x.src, x.dst);
            multiset(Waiting(Enqueue(q, n, sent), f))[x] == multiset(Waiting(q, f))[x] + multiset(sent)[x]
  {
    hide Enqueue, CopiesFor, FromNode, Waiting;
    var f := (x.src, x.dst);
    Enqueued(q, n, sent, f);
    SentCount(sent, n, x);
    CountConcat(Waiting(q, f), if x.src == n then CopiesFor(sent, x.dst) else [], x);
  }

  /** The first copy of an edge leaves, others join from a node. */
  lemma {:induction false} CopiesMove(flight: seq<Copy>, q: Queues, e: Edge, i: nat, n: Peer, sent: seq<Copy>)
    requires SameCopies(flight, q) && Waiting(q, e) != [] && OnEdge(Waiting(q, e), e)
    requires i < |flight| && flight[i] == Waiting(q, e)[0] && FromNode(sent, n)
    ensures SameCopies(Without(flight, i) + sent, Enqueue(q[e := Waiting(q, e)[1..]], n, sent))
  {
    hide Without, Enqueue, FromNode, OnEdge, Waiting;
    var rest := q[e := Waiting(q, e)[1..]];
    forall x: Copy
      ensures multiset(Without(flight, i) + sent)[x] == multiset(Waiting(Enqueue(rest, n, sent), (x.src, x.dst)))[x]
    {
      WithoutCount(flight, i, x);
      CountConcat(Without(flight, i), sent, x);
      FirstLeaves(q, e, x);
      JoinedCount(rest, n, sent, x);
    }
  }

  lemma {:induction false} CopiesJoin(flight: seq<Copy>, q: Queues, n: Peer, sent: seq<Copy>)
    requires SameCopies(flight, q) && FromNode(sent, n)
    ensures SameCopies(flight + sent, Enqueue(q, n, sent))
  {
    hide Enqueue, FromNode, Waiting;
    forall x: Copy
      ensures multiset(flight + sent)[x] == multiset(Waiting(Enqueue(q, n, sent), (x.src, x.dst)))[x]
    {
      CountConcat(flight, sent, x);
      JoinedCount(q, n, sent, x);
    }
  }

  /** What a client sends joins the channels of the edges it goes out on. */
  lemma {:induction false} EdgeJoined(w: Wires, q: Queues, done: nat, n: Peer, sent: seq<Copy>, f: Edge)
    requires ChannelStands(On(w, f), Waiting(q, f), done, f) && FromNode(sent, n)
    ensures ChannelStands(On(Put(w, n, MessagesOn(sent)), f), Waiting(Enqueue(q, n, sent), f), done, f)
    ensures PartView(Waiting(Enqueue(q, n, sent), f), done, f.0) == PartView(Waiting(q, f), done, f.0)
  {
    hide SegmentMessages, PartView, MessagesIn, Put, Enqueue, MessagesOn, CopiesFor, On, Waiting, OnEdge, Partial;
    PutCopies(w, n, sent, f);
    Enqueued(q, n, sent, f);
    if f.0 == n {
      CopiesForOnEdge(sent, n, f.1);
      ChannelGrows(On(w, f), Waiting(q, f), done, f, CopiesFor(sent, f.1));
    } else {
      assert On(w, f) + [] == On(w, f) && Waiting(q, f) + [] == Waiting(q, f);
    }
  }

  lemma {:induction false} EmittedFrom(node: Client, k: Copy)
    ensures FromNode(Emitted(node, k, true), k.dst)
  {
    hide Accept, Relays, RelayTargets;
  }

  /** A channel after its first copy is heard to the end and what the listener sends on has joined. */
  lemma {:induction false} LastOnEdge(cn: Chunked, next: Chunked, q: Queues, d: Progress, e: Edge, sent: seq<Copy>, f: Edge)
    requires EdgeStands(cn, q, d, f) && On(cn.wires, e) != [] && Waiting(q, e) != []
    requires ChannelStands(On(cn.wires, e)[1..], Waiting(q, e)[1..], 0, e) && FromNode(sent, e.1)
    requires |next.nodes| == |cn.nodes| && next.wires == Put(cn.wires[e := On(cn.wires, e)[1..]], e.1, MessagesOn(sent))
    requires f.1 < |cn.nodes| ==> ViewOf(next.nodes[f.1], f.0) == if f == e then CLEAN else ViewOf(cn.nodes[f.1], f.0)
    ensures EdgeStands(next, Enqueue(q[e := Waiting(q, e)[1..]], e.1, sent), d[e := 0], f)
  {
    hide SegmentMessages, PartView, MessagesIn, ViewOf, OnEdge, Partial, EdgeStands, ChannelStands, Put, Enqueue, FromNode;
    var rest, w, d' := q[e := Waiting(q, e)[1..]], cn.wires[e := On(cn.wires, e)[1..]], d[e := 0];
    EdgeIs(cn, q, d, f);
    EdgeIs(next, Enqueue(rest, e.1, sent), d', f);
    EdgeJoined(w, rest, Heard(d', f), e.1, sent, f);
    FreshView(Waiting(rest, f), f.0);
  }

  /** The listener when the last message of a copy reaches it. */
  lemma {:induction false} LastAtNode(cn: Chunked, node: Client, e: Edge, k: Copy, now: int)
    requires e.1 < |cn.nodes| && Bare(cn.nodes[e.1]) == Bare(node) && On(cn.wires, e) != []
    requires k.src == e.0 && k.dst == e.1 && k.header.typed
    requires var ms := SegmentMessages(k.header, k.buffer);
             ViewOf(cn.nodes[e.1], e.0) == PartView([k], |ms| - 1, e.0) && On(cn.wires, e)[0] == ms[|ms| - 1]
    ensures var next := Act(cn, Hear(e, now));
            && next.wires == Put(cn.wires[e := On(cn.wires, e)[1..]], e.1, MessagesOn(Emitted(node, k, true)))
            && |next.nodes| == |cn.nodes| && next.nodes == cn.nodes[e.1 := next.nodes[e.1]]
            && Bare(next.nodes[e.1]) == Bare(Process(node, Stored(k.header, k.src), k.buffer, k.src))
            && ViewOf(next.nodes[e.1], e.0) == CLEAN
            && forall p :: p != e.0 ==> ViewOf(next.nodes[e.1], p) == ViewOf(cn.nodes[e.1], p)
  {
    hide SegmentMessages, PartView, ViewOf, Handle, Bare, Put, Emitted, Process, NewlySent, MessagesOn;
    LastSends(cn.nodes[e.1], node, k, now);
    HandleOthers(cn.nodes[e.1], e.0, On(cn.wires, e)[0], now);
  }

  /** What a heard message leaves of the channels and clients when Flood delivers copy `i`. */
  ghost predicate LastHeard(cn: Chunked, next: Chunked, net: Net, net': Net, e: Edge, i: nat, sent: seq<Copy>)
    requires On(cn.wires, e) != []
  {
    && |next.nodes| == |cn.nodes| && |net'.nodes| == |net.nodes|
    && next.wires == Put(cn.wires[e := On(cn.wires, e)[1..]], e.1, MessagesOn(sent))
    && i < |net.flight| && net'.flight == Without(net.flight, i) + sent
    && FromNode(sent, e.1)
    && (forall n :: 0 <= n < |cn.nodes| && n != e.1 ==> next.nodes[n] == cn.nodes[n] && n < |net.nodes| && net'.nodes[n] == net.nodes[n])
    && (e.1 < |cn.nodes| ==>
          && e.1 < |net.nodes| && Bare(next.nodes[e.1]) == Bare(net'.nodes[e.1])
          && ViewOf(next.nodes[e.1], e.0) == CLEAN
          && forall p :: p != e.0 ==> ViewOf(next.nodes[e.1], p) == ViewOf(cn.nodes[e.1], p))
  }

  lemma {:induction false} HeardAndDelivered(cn: Chunked, net: Net, e: Edge, k: Copy, now: int, i: nat) returns (sent: seq<Copy>)
    requires |cn.nodes| == |net.nodes| && (e.1 < |cn.nodes| ==> Bare(cn.nodes[e.1]) == Bare(net.nodes[e.1]))
    requires On(cn.wires, e) != [] && i < |net.flight| && net.flight[i] == k
    requires k.src == e.0 && k.dst == e.1 && k.header.typed
    requires var ms := SegmentMessages(k.header, k.buffer);
             && On(cn.wires, e)[0] == ms[|ms| - 1]
             && (e.1 < |cn.nodes| ==> ViewOf(cn.nodes[e.1], e.0) == PartView([k], |ms| - 1, e.0))
    ensures LastHeard(cn, Act(cn, Hear(e, now)), net, Deliver(net, i, true), e, i, sent)
  {
    hide SegmentMessages, PartView, ViewOf, Handle, Bare, Put, Emitted, Process, NewlySent, MessagesOn, FromNode, Without;
    sent := if e.1 < |net.nodes| then Emitted(net.nodes[e.1], k, true) else [];
    EmittedOrNothing(net, k, sent);
    NothingSentOn(cn.wires[e := On(cn.wires, e)[1..]], e.1);
    assert Without(net.flight, i) + [] == Without(net.flight, i);
    if e.1 < |cn.nodes| {
      LastAtNode(cn, net.nodes[e.1], e, k, now);
      hide Act;
    }
  }

  /** The last message of a copy: in Flood the copy arrives. */
  lemma {:induction false} HearLast(cn: Chunked, net: Net, q: Queues, d: Progress, e: Edge, now: int) returns (i: nat, q': Queues)
    requires Stands(cn, net, q, d) && On(cn.wires, e) != []
    requires Waiting(q, e) != [] && Heard(d, e) + 1 == |SegmentMessages(Waiting(q, e)[0].header, Waiting(q, e)[0].buffer)|
    ensures i < |net.flight| && Stands(Act(cn, Hear(e, now)), Deliver(net, i, true), q', d[e := 0])
  {
    hide SegmentMessages, PartView, MessagesIn, ViewOf, OnEdge, Partial, EdgeStands, Bare, Act, Deliver, Enqueue, Put, LastHeard, ChannelStands, Stands, SameCopies;
    var copies, done, k := Waiting(q, e), Heard(d, e), Waiting(q, e)[0];
    StandsHere(cn, net, q, d, e);
    EdgeIs(cn, q, d, e);
    ChannelHead(On(cn.wires, e), copies, done, e);
    ChannelOnEdge(On(cn.wires, e), copies, done, e);
    i := FoundInFlight(net.flight, q, e);
    var sent := HeardAndDelivered(cn, net, e, k, now, i);
    q' := Enqueue(q[e := copies[1..]], e.1, sent);
    StandsAfter(cn, Act(cn, Hear(e, now)), net, Deliver(net, i, true), q, d, e, i, sent);
  }

  lemma {:induction false} StandsHere(cn: Chunked, net: Net, q: Queues, d: Progress, e: Edge)
    requires Stands(cn, net, q, d)
    ensures |cn.nodes| == |net.nodes| && (e.1 < |cn.nodes| ==> Bare(cn.nodes[e.1]) == Bare(net.nodes[e.1]))
    ensures EdgeStands(cn, q, d, e) && SameCopies(net.flight, q)
  {
    hide EdgeStands, Bare, Waiting;
  }

  lemma {:induction false} ChannelOnEdge(messages: seq<Message>, copies: seq<Copy>, done: nat, e: Edge)
    requires ChannelStands(messages, copies, done, e)
    ensures OnEdge(copies, e)
  {
  }

  lemma {:induction false} StandsAfter(cn: Chunked, next: Chunked, net: Net, net': Net, q: Queues, d: Progress, e: Edge, i: nat, sent: seq<Copy>)
    requires Stands(cn, net, q, d) && On(cn.wires, e) != [] && Waiting(q, e) != []
    requires ChannelStands(On(cn.wires, e)[1..], Waiting(q, e)[1..], 0, e) && OnEdge(Waiting(q, e), e)
    requires LastHeard(cn, next, net, net', e, i, sent) && net.flight[i] == Waiting(q, e)[0]
    ensures Stands(next, net', Enqueue(q[e := Waiting(q, e)[1..]], e.1, sent), d[e := 0])
  {
    hide SegmentMessages, PartView, MessagesIn, ViewOf, OnEdge, EdgeStands, ChannelStands, Bare, Put, Enqueue, FromNode, Without;
    CopiesMove(net.flight, q, e, i, e.1, sent);
    var q', d' := Enqueue(q[e := Waiting(q, e)[1..]], e.1, sent), d[e := 0];
    forall f: Edge
      ensures EdgeStands(next, q', d', f)
    {
      LastOnEdge(cn, next, q, d, e, sent, f);
    }
  }

  lemma {:induction false} EmittedOrNothing(net: Net, k: Copy, sent: seq<Copy>)
    requires sent == if k.dst < |net.nodes| then Emitted(net.nodes[k.dst], k, true) else []
    ensures FromNode(sent, k.dst)
  {
    if k.dst < |net.nodes| {
      EmittedFrom(net.nodes[k.dst], k);
    }
  }

  lemma {:induction false} NothingSentOn(w: Wires, n: Peer)
    ensures Put(w, n, MessagesOn([])) == w
  {
  }

  lemma {:induction false} FreshView(copies: seq<Copy>, src: Peer)
    ensures Partial(copies, 0) && PartView(copies, 0, src) == CLEAN
  {
  }

  /** A channel after a publisher's new copies have joined. */
  lemma {:induction false} FedEdge(cn: Chunked, next: Chunked, q: Queues, d: Progress, p: Peer, sent: seq<Copy>, f: Edge)
    requires EdgeStands(cn, q, d, f) && FromNode(sent, p)
    requires |next.nodes| == |cn.nodes| && next.wires == Put(cn.wires, p, MessagesOn(sent))
    requires f.1 < |cn.nodes| ==> ViewOf(next.nodes[f.1], f.0) == ViewOf(cn.nodes[f.1], f.0)
    ensures EdgeStands(next, Enqueue(q, p, sent), d, f)
  {
    hide SegmentMessages, PartView, MessagesIn, ViewOf, OnEdge, Partial, EdgeStands, ChannelStands, Put, Enqueue, FromNode;
    EdgeIs(cn, q, d, f);
    EdgeIs(next, Enqueue(q, p, sent), d, f);
    EdgeJoined(cn.wires, q, Heard(d, f), p, sent, f);
  }

  ghost predicate Fed(cn: Chunked, next: Chunked, net: Net, net': Net, p: Peer, sent: seq<Copy>) {
    && |next.nodes| == |cn.nodes| && |net'.nodes| == |net.nodes|
    && next.wires == Put(cn.wires, p, MessagesOn(sent)) && net'.flight == net.flight + sent && FromNode(sent, p)
    && (forall n :: 0 <= n < |cn.nodes| && n != p ==> next.nodes[n] == cn.nodes[n] && n < |net.nodes| && net'.nodes[n] == net.nodes[n])
    && p < |cn.nodes| && p < |net.nodes| && Bare(next.nodes[p]) == Bare(net'.nodes[p])
    && forall x :: ViewOf(next.nodes[p], x) == ViewOf(cn.nodes[p], x)
  }

  lemma {:induction false} FedAndPublished(cn: Chunked, net: Net, s: ChunkStep) returns (sent: seq<Copy>)
    requires s.Feed? && Ready(cn, s) && |cn.nodes| == |net.nodes|
    requires Bare(cn.nodes[s.publisher]) == Bare(net.nodes[s.publisher]) && net.nodes[s.publisher].isPublisher
    ensures Fed(cn, Act(cn, s), net, Publish(net, s.publisher, s.buffer, s.kind, s.isKeyframe, s.at), s.publisher, sent)
  {
    hide SegmentMessages, Bare, Put, CopiesTo, NewlySent, Forward, MessagesOn, Targets, ForwardHeader;
    var p, node := s.publisher, net.nodes[s.publisher];
    FeedSends(cn.nodes[p], node, p, s.buffer, s.kind, s.isKeyframe, s.at);
    sent := CopiesTo(p, Targets(node.channels, None), ForwardHeader(node, s.buffer, s.kind, s.isKeyframe, s.at), s.buffer, 1);
    HeaderTyped(node, s);
  }

  lemma {:induction false} HeaderTyped(node: Client, s: ChunkStep)
    requires s.Feed?
    ensures ForwardHeader(node, s.buffer, s.kind, s.isKeyframe, s.at).typed
  {
  }

  lemma {:induction false} StandsFed(cn: Chunked, next: Chunked, net: Net, net': Net, q: Queues, d: Progress, p: Peer, sent: seq<Copy>)
    requires Stands(cn, net, q, d) && Fed(cn, next, net, net', p, sent)
    ensures Stands(next, net', Enqueue(q, p, sent), d)
  {
    hide SegmentMessages, PartView, MessagesIn, ViewOf, EdgeStands, Bare, Put, Enqueue, FromNode;
    CopiesJoin(net.flight, q, p, sent);
    var q' := Enqueue(q, p, sent);
    forall f: Edge
      ensures EdgeStands(next, q', d, f)
    {
      FedEdge(cn, next, q, d, p, sent, f);
    }
  }

  /** A new segment, on both networks. */
  lemma {:induction false} FeedBoth(cn: Chunked, net: Net, q: Queues, d: Progress, s: ChunkStep) returns (q': Queues)
    requires Stands(cn, net, q, d) && s.Feed? && Ready(cn, s)
    ensures s.publisher < |net.nodes| && net.nodes[s.publisher].isPublisher
    ensures Stands(Act(cn, s), Publish(net, s.publisher, s.buffer, s.kind, s.isKeyframe, s.at), q', d)
  {
    var p := s.publisher;
    var c, node := cn.nodes[p], net.nodes[p];
    assert c.isPublisher == Bare(c).isPublisher == node.isPublisher;
    hide Act, Publish, Enqueue, EdgeStands, Bare, Fed;
    var sent := FedAndPublished(cn, net, s);
    q' := Enqueue(q, p, sent);
    StandsFed(cn, Act(cn, s), net, Publish(net, p, s.buffer, s.kind, s.isKeyframe, s.at), q, d, p, sent);
  }

  // ---------------------------------------------------------------- whole runs

  predicate ChunkRun(cn: Chunked, steps: seq<ChunkStep>)
    decreases |steps|
  {
    steps == [] || (Ready(cn, steps[0]) && ChunkRun(Act(cn, steps[0]), steps[1..]))
  }

  function ChunkFinal(cn: Chunked, steps: seq<ChunkStep>): Chunked
    requires ChunkRun(cn, steps)
    decreases |steps|
  {
    if steps == [] then cn else ChunkFinal(Act(cn, steps[0]), steps[1..])
  }

  /** One step of the channels is at most one step of the copies. */
  lemma {:induction false} StepRefines(cn: Chunked, net: Net, q: Queues, d: Progress, s: ChunkStep)
      returns (moves: seq<Step>, q': Queues, d': Progress)
    requires Stands(cn, net, q, d) && Ready(cn, s)
    ensures IsRun(net, moves) && AllDedup(moves) && |moves| <= 1
    ensures Stands(Act(cn, s), Final(net, moves), q', d')
  {
    hide Stands, Act, Deliver, Publish, SegmentMessages, ChannelStands;
    match s {
      case Feed(p, buffer, kind, isKeyframe, at) =>
        q' := FeedBoth(cn, net, q, d, s);
        SamePeers(cn, net, q, d);
        moves, d' := [New(p, buffer, kind, isKeyframe, at)], d;
        assert moves[1..] == [];
      case Hear(e, now) =>
        HeadWaits(cn, net, q, d, e);
        if Heard(d, e) + 1 < |SegmentMessages(Waiting(q, e)[0].header, Waiting(q, e)[0].buffer)| {
          HearEarly(cn, net, q, d, e, now);
          moves, q', d' := [], q, d[e := Heard(d, e) + 1];
        } else {
          var i: nat;
          i, q' := HearLast(cn, net, q, d, e, now);
          moves, d' := [Arrive(i, true)], d[e := 0];
          assert moves[1..] == [];
        }
    }
  }

  lemma {:induction false} SamePeers(cn: Chunked, net: Net, q: Queues, d: Progress)
    requires Stands(cn, net, q, d)
    ensures |cn.nodes| == |net.nodes|
  {
  }

  lemma {:induction false} HeadWaits(cn: Chunked, net: Net, q: Queues, d: Progress, e: Edge)
    requires Stands(cn, net, q, d) && On(cn.wires, e) != []
    ensures Waiting(q, e) != [] && Heard(d, e) < |SegmentMessages(Waiting(q, e)[0].header, Waiting(q, e)[0].buffer)|
  {
    hide SegmentMessages, PartView, MessagesIn, ViewOf, EdgeStands;
    EdgeIs(cn, q, d, e);
    ChannelHead(On(cn.wires, e), Waiting(q, e), Heard(d, e), e);
  }

  /** Whatever the order in which channels are heard, a run message by message does what a run copy by copy does: the
      same clients, the same copies under way. What holds of all runs of Flood therefore holds of it. */
  lemma {:induction false} ChunksRefineCopies(cn: Chunked, net: Net, q: Queues, d: Progress, steps: seq<ChunkStep>)
      returns (moves: seq<Step>, q': Queues, d': Progress)
    requires Stands(cn, net, q, d) && ChunkRun(cn, steps)
    ensures IsRun(net, moves) && AllDedup(moves) && |moves| <= |steps|
    ensures Stands(ChunkFinal(cn, steps), Final(net, moves), q', d')
    decreases |steps|
  {
    hide Stands, Act, Take, Enabled, Ready;
    if steps == [] {
      moves, q', d' := [], q, d;
    } else {
      var first, q1, d1 := StepRefines(cn, net, q, d, steps[0]);
      var rest: seq<Step>;
      rest, q', d' := ChunksRefineCopies(Act(cn, steps[0]), Final(net, first), q1, d1, steps[1..]);
      moves := first + rest;
      RunJoins(net, first, rest);
    }
  }

  lemma {:induction false} RunJoins(net: Net, a: seq<Step>, b: seq<Step>)
    requires IsRun(net, a) && IsRun(Final(net, a), b)
    ensures IsRun(net, a + b) && Final(net, a + b) == Final(Final(net, a), b)
    decreases |a|
  {
    hide Take, Enabled;
    if a == [] {
      assert a + b == b;
    } else {
      RunJoins(Take(net, a[0]), a[1..], b);
      assert (a + b)[1..] == a[1..] + b && (a + b)[0] == a[0];
    }
  }

  /** Idle clients and empty channels. */
  predicate AtRest(cn: Chunked) {
    cn.wires == map[] && forall n :: 0 <= n < |cn.nodes| ==> cn.nodes[n].incoming == map[] && cn.nodes[n].pending == map[]
  }

  /** Every segment header among the messages can still be received, and its ttl is within the limit. */
  predicate TtlsInRange(ms: seq<Message>) {
    forall i :: 0 <= i < |ms| && ms[i].Text? && ms[i].control.SegmentHeader? ==>
      ms[i].control.header.ttl.Some? && 1 <= ms[i].control.header.ttl.value <= MAX_RELAY_TTL
  }

  /** The copies that are under way on one edge. */
  ghost predicate AreUnderWay(copies: seq<Copy>, flight: seq<Copy>, e: Edge) {
    forall k: Copy :: multiset(copies)[k] == if (k.src, k.dst) == e then multiset(flight)[k] else 0
  }

  /** From rest, over every run: the messages on a channel are what is left of the copies that some run of Flood has
      under way on its edge; the edges each of them has crossed and its ttl add up to maxRelayTTL + 1, and every segment
      header on the channel carries a ttl from 1 to maxRelayTTL. */
  lemma {:induction false} HopsOnChannels(cn: Chunked, steps: seq<ChunkStep>, e: Edge) returns (moves: seq<Step>, copies: seq<Copy>, done: nat)
    requires AtRest(cn) && ChunkRun(cn, steps)
    ensures var net, w := Net(cn.nodes, []), On(ChunkFinal(cn, steps).wires, e);
            && IsRun(net, moves) && AllDedup(moves)
            && AreUnderWay(copies, Final(net, moves).flight, e) && HopsConserved(copies)
            && done <= |MessagesIn(copies)| && w == MessagesIn(copies)[done..]
            && TtlsInRange(w)
  {
    var net := Net(cn.nodes, []);
    RestStands(cn);
    hide Stands, Act, Take, MessagesIn, OnEdge, HopsConserved, TtlsInRange;
    var q', d';
    moves, q', d' := ChunksRefineCopies(cn, net, map[], map[], steps);
    NothingConserved();
    RunConserves(net, moves);
    copies, done := Waiting(q', e), Heard(d', e);
    LastEdge(ChunkFinal(cn, steps), Final(net, moves), q', d', e);
    TtlsOfCopies(copies);
    TtlsBehind(MessagesIn(copies), done);
  }

  lemma {:induction false} NothingConserved()
    ensures HopsConserved([])
  {
  }

  lemma {:induction false} TtlsBehind(ms: seq<Message>, done: nat)
    requires done <= |ms| && TtlsInRange(ms)
    ensures TtlsInRange(ms[done..])
  {
  }

  lemma {:induction false} TtlsJoin(a: seq<Message>, b: seq<Message>)
    requires TtlsInRange(a) && TtlsInRange(b)
    ensures TtlsInRange(a + b)
  {
  }

  lemma {:induction false} TtlsOfSegment(h: Header, buffer: bytes)
    requires h.ttl.Some? && 1 <= h.ttl.value <= MAX_RELAY_TTL
    ensures TtlsInRange(SegmentMessages(h, buffer))
  {
    hide Pieces;
    PiecesAreBinary(buffer);
    TtlsJoin([Text(ChunkStart(|buffer|))], Pieces(buffer));
    TtlsJoin([Text(ChunkStart(|buffer|))] + Pieces(buffer), [Text(ChunkEnd)]);
    TtlsJoin([HeaderMessage(h)], ChunkMessages(buffer));
    TtlsJoin([HeaderMessage(h)], [Binary(buffer)]);
  }

  lemma {:induction false} TtlsOfCopies(copies: seq<Copy>)
    requires HopsConserved(copies)
    ensures TtlsInRange(MessagesIn(copies))
  {
    hide SegmentMessages, TtlsInRange;
    if copies == [] {
      NoTtls();
    } else {
      TtlsOfSegment(copies[0].header, copies[0].buffer);
      TtlsOfCopies(copies[1..]);
      TtlsJoin(SegmentMessages(copies[0].header, copies[0].buffer), MessagesIn(copies[1..]));
    }
  }

  lemma {:induction false} NoTtls()
    ensures TtlsInRange([])
  {
  }

  lemma {:induction false} RestStands(cn: Chunked)
    requires AtRest(cn)
    ensures Stands(cn, Net(cn.nodes, []), map[], map[])
  {
    hide SegmentMessages, PeerRun;
    assert MessagesIn([]) == [];
  }

  lemma {:induction false} LastEdge(cn: Chunked, net: Net, q: Queues, d: Progress, e: Edge)
    requires Stands(cn, net, q, d) && HopsConserved(net.flight)
    ensures var copies := Waiting(q, e);
            && Heard(d, e) <= |MessagesIn(copies)| && On(cn.wires, e) == MessagesIn(copies)[Heard(d, e)..]
            && AreUnderWay(copies, net.flight, e) && HopsConserved(copies)
  {
    hide SegmentMessages, PartView, MessagesIn, ViewOf;
    assert EdgeStands(cn, q, d, e);
    var copies := Waiting(q, e);
    forall k: Copy
      ensures multiset(copies)[k] == if (k.src, k.dst) == e then multiset(net.flight)[k] else 0
    {
      if (k.src, k.dst) != e {
        assert k !in copies;
      }
    }
    forall i | 0 <= i < |copies|
      ensures copies[i] in net.flight
    {
      var k := copies[i];
      assert k in multiset(copies) && (k.src, k.dst) == e;
      assert multiset(net.flight)[k] > 0;
    }
  }
}
