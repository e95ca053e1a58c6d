/** Live relaying through a network of clients (web_viewer/webrtc-client.js). A segment in transit is a copy
    on an edge; the copies may be delivered in any order, which includes every order that keeps each channel
    first in, first out. */
module Flood {
  import opened Bytes
  import opened Outcomes
  import opened ClientState
  import opened Framing

  /** `hops` counts the edges the copy has crossed once it arrives; no client sees it. */
  datatype Copy = Copy(src: Peer, dst: Peer, header: Header, buffer: bytes, hops: nat)

  /** Clients are numbered by their place. */
  datatype Net = Net(nodes: seq<Client>, flight: seq<Copy>)

  function CopiesTo(src: Peer, peers: seq<Peer>, h: Header, buffer: bytes, hops: nat): (r: seq<Copy>)
    ensures |r| == |peers|
    ensures forall i :: 0 <= i < |peers| ==> r[i] == Copy(src, peers[i], h, buffer, hops)
  {
    seq(|peers|, i requires 0 <= i < |peers| => Copy(src, peers[i], h, buffer, hops))
  }

  function Without(flight: seq<Copy>, i: nat): seq<Copy>
    requires i < |flight|
  {
    flight[..i] + flight[i + 1..]
  }

  /** Without dedup a relay forwards every segment it has time to live for. */
  predicate Forwards(c: Client, h: Header, dedup: bool) {
    if dedup then Relays(c, h) else c.canRelay && !c.isPublisher && Ttl(h) > 0
  }

  function ProcessWith(c: Client, h: Header, buffer: bytes, peer: Peer, dedup: bool): Client {
    if dedup then Process(c, h, buffer, peer)
    else
      var c1 := Accept(c, h, buffer, peer);
      if Forwards(c1, h, false) then RelaySegment(c1, h, buffer, peer) else c1
  }

  /** The copies a client sends on when copy `k` arrives. */
  function Emitted(node: Client, k: Copy, dedup: bool): seq<Copy> {
    var h := Stored(k.header, k.src);
    var c1 := Accept(node, h, k.buffer, k.src);
    if Forwards(c1, h, dedup) then
      CopiesTo(k.dst, RelayTargets(c1, h, k.src), RelayHeader(h, k.buffer), k.buffer, k.hops + 1)
    else []
  }

  /** One copy arrives. */
  function Deliver(net: Net, i: nat, dedup: bool): Net
    requires i < |net.flight|
  {
    var k := net.flight[i];
    if k.dst >= |net.nodes| then net.(flight := Without(net.flight, i))
    else
      var node := net.nodes[k.dst];
      Net(net.nodes[k.dst := ProcessWith(node, Stored(k.header, k.src), k.buffer, k.src, dedup)],
          Without(net.flight, i) + Emitted(node, k, dedup))
  }

  /** A publisher sends a new segment to all its peers. */
  function Publish(net: Net, p: Peer, buffer: bytes, kind: SegmentType, isKeyframe: bool, now: int): Net
    requires p < |net.nodes| && net.nodes[p].isPublisher
  {
    var node := net.nodes[p];
    Net(net.nodes[p := Forward(node, buffer, kind, isKeyframe, now)],
        net.flight + CopiesTo(p, Targets(node.channels, None), ForwardHeader(node, buffer, kind, isKeyframe, now), buffer, 1))
  }

  // ---------------------------------------------------------------- copies stand for messages

  function Repeat(peer: Peer, ms: seq<Message>): seq<Event> {
    seq(|ms|, i requires 0 <= i < |ms| => Event(peer, ms[i], 0))
  }

  lemma {:induction false} RunConcat(c: Client, a: seq<Event>, b: seq<Event>)
    ensures Run(c, a + b) == Run(Run(c, a), b)
    decreases |a|
  {
    hide Handle;
    if a == [] {
      assert a + b == b;
    } else {
      RunConcat(Handle(c, a[0].peer, a[0].message, a[0].now), a[1..], b);
      assert (a + b)[1..] == a[1..] + b && (a + b)[0] == a[0];
    }
  }

  lemma {:induction false} RunOne(c: Client, e: Event)
    ensures Run(c, [e]) == Handle(c, e.peer, e.message, e.now)
  {
    hide Handle;
    assert [e][1..] == [];
  }

  /** Receiving the pieces of a buffer only fills the chunk state. */
  lemma {:induction false} PiecesHandled(c: Client, p: Peer, buffer: bytes)
    requires p in c.incoming
    ensures var r := Run(c, Repeat(p, Pieces(buffer)));
            p in r.incoming && r == c.(incoming := r.incoming) && r.incoming - {p} == c.incoming - {p}
            && Assembled(r.incoming[p].chunks) == Assembled(c.incoming[p].chunks) + buffer
    decreases |buffer|
  {
    hide Assembled, Handle, Run, Repeat, Pieces;
    var s := c.incoming[p];
    if buffer == [] {
      NoPieces(c, p);
      assert Assembled(s.chunks) + [] == Assembled(s.chunks);
    } else {
      var n := if |buffer| <= MAX_CHUNK_SIZE then |buffer| else MAX_CHUNK_SIZE;
      var first, rest := buffer[..n], buffer[n..];
      var c1 := Handle(c, p, Binary(first), 0);
      assert buffer == first + rest;
      AssembledSnoc(s.chunks, first);
      PieceFirst(buffer);
      RunFirst(c, p, Binary(first), Pieces(rest));
      PieceKept(c, p, first);
      PiecesHandled(c1, p, rest);
      assert (Assembled(s.chunks) + first) + rest == Assembled(s.chunks) + buffer;
    }
  }

  lemma {:induction false} NoPieces(c: Client, p: Peer)
    ensures Run(c, Repeat(p, Pieces([]))) == c
  {
  }

  lemma {:induction false} PieceFirst(buffer: bytes)
    requires buffer != []
    ensures var n := if |buffer| <= MAX_CHUNK_SIZE then |buffer| else MAX_CHUNK_SIZE;
            Pieces(buffer) == [Binary(buffer[..n])] + Pieces(buffer[n..])
  {
    if |buffer| <= MAX_CHUNK_SIZE {
      assert buffer[..|buffer|] == buffer && buffer[|buffer|..] == [];
    }
  }

  lemma {:induction false} PieceKept(c: Client, p: Peer, data: bytes)
    requires p in c.incoming
    ensures var r := Handle(c, p, Binary(data), 0);
            p in r.incoming && r == c.(incoming := r.incoming) && r.incoming - {p} == c.incoming - {p}
            && r.incoming[p].chunks == c.incoming[p].chunks + [data]
  {
    hide ProcessReceived;
  }

  lemma {:induction false} RunFirst(c: Client, p: Peer, m: Message, ms: seq<Message>)
    ensures Run(c, Repeat(p, [m] + ms)) == Run(Handle(c, p, m, 0), Repeat(p, ms))
  {
    hide Handle;
    var events := Repeat(p, [m] + ms);
    assert events[0] == Event(p, m, 0) && events[1..] == Repeat(p, ms);
  }

  lemma {:induction false} RepeatConcat(p: Peer, a: seq<Message>, b: seq<Message>)
    ensures Repeat(p, a + b) == Repeat(p, a) + Repeat(p, b)
  {
  }

  lemma {:induction false} ChunksHandled(c: Client, p: Peer, buffer: bytes)
    requires p !in c.incoming
    ensures Run(c, Repeat(p, ChunkMessages(buffer))) == ProcessReceived(c, p, buffer)
  {
    hide ProcessReceived, Pieces, Assembled, Run, Repeat;
    var start, end := Text(ChunkStart(|buffer|)), Text(ChunkEnd);
    RepeatConcat(p, [start] + Pieces(buffer), [end]);
    RepeatConcat(p, [start], Pieces(buffer));
    OneEvent(p, start);
    OneEvent(p, end);
    var c1 := c.(incoming := c.incoming[p := ChunkState([], 0, |buffer|)]);
    RunConcat(c, Repeat(p, [start] + Pieces(buffer)), [Event(p, end, 0)]);
    RunConcat(c, [Event(p, start, 0)], Repeat(p, Pieces(buffer)));
    RunOne(c, Event(p, start, 0));
    PiecesHandled(c1, p, buffer);
    NothingAssembled();
    var c2 := Run(c1, Repeat(p, Pieces(buffer)));
    RunOne(c2, Event(p, end, 0));
    assert c1.incoming - {p} == c.incoming;
    assert [] + buffer == buffer;
    assert c2.(incoming := c2.incoming - {p}) == c;
  }

  lemma {:induction false} OneEvent(p: Peer, m: Message)
    ensures Repeat(p, [m]) == [Event(p, m, 0)]
  {
  }

  /** Handling the messages of a segment is processing the segment, however large it is. */
  lemma {:induction false} SegmentHandled(c: Client, p: Peer, h: Header, buffer: bytes)
    requires h.typed && p !in c.incoming && p !in c.pending
    ensures Run(c, Repeat(p, SegmentMessages(h, buffer))) == Process(c, Stored(h, p), buffer, p)
  {
    hide Process, ChunkMessages, Stored, Run, Repeat;
    var m := HeaderMessage(h);
    var tail := if |buffer| > MAX_CHUNK_SIZE then ChunkMessages(buffer) else [Binary(buffer)];
    var c1 := c.(pending := c.pending[p := Stored(h, p)]);
    RepeatConcat(p, [m], tail);
    OneEvent(p, m);
    RunConcat(c, [Event(p, m, 0)], Repeat(p, tail));
    RunOne(c, Event(p, m, 0));
    assert c1.pending - {p} == c.pending;
    if |buffer| > MAX_CHUNK_SIZE {
      ChunksHandled(c1, p, buffer);
    } else {
      OneEvent(p, Binary(buffer));
      RunOne(c1, Event(p, Binary(buffer), 0));
    }
  }

  /** What a client sends when it processes a segment is the messages of the emitted copies. */
  function MessagesOn(copies: seq<Copy>): seq<Sent> {
    if copies == [] then []
    else
      var k := copies[|copies| - 1];
      MessagesOn(copies[..|copies| - 1]) + To(k.dst, SegmentMessages(k.header, k.buffer))
  }

  lemma {:induction false} CopiesAreMessages(src: Peer, peers: seq<Peer>, h: Header, buffer: bytes, hops: nat)
    ensures MessagesOn(CopiesTo(src, peers, h, buffer, hops)) == Broadcast(peers, SegmentMessages(h, buffer))
    decreases |peers|
  {
    hide SegmentMessages, To;
    if peers != [] {
      CopiesAreMessages(src, peers[..|peers| - 1], h, buffer, hops);
      assert CopiesTo(src, peers, h, buffer, hops)[..|peers| - 1] == CopiesTo(src, peers[..|peers| - 1], h, buffer, hops);
    }
  }

  lemma {:induction false} EmittedIsSent(node: Client, k: Copy, dedup: bool)
    ensures ProcessWith(node, Stored(k.header, k.src), k.buffer, k.src, dedup).sent == node.sent + MessagesOn(Emitted(node, k, dedup))
  {
    hide Relays, Stored, RelayTargets, RelayHeader, SegmentMessages, AddSeen, PushQueue, Broadcast, MessagesOn, CopiesTo;
    var h := Stored(k.header, k.src);
    var c1 := Accept(node, h, k.buffer, k.src);
    AcceptKeeps(node, h, k.buffer, k.src);
    if Forwards(c1, h, dedup) {
      CopiesAreMessages(k.dst, RelayTargets(c1, h, k.src), RelayHeader(h, k.buffer), k.buffer, k.hops + 1);
      SameTargets(c1, h, k);
    } else {
      NothingOn();
      assert node.sent + [] == node.sent;
    }
  }

  lemma {:induction false} NothingOn()
    ensures MessagesOn([]) == []
  {
  }

  /** The relay decision of dedup changes neither channels nor targets. */
  lemma {:induction false} SameTargets(c: Client, h: Header, k: Copy)
    ensures RelayTargets(c.(seen := AddSeen(c.seen, h.sequence), queue := PushQueue(c.queue, Segment(h, k.buffer))), h, k.src)
         == RelayTargets(c, h, k.src)
  {
  }

  lemma {:induction false} AcceptKeeps(c: Client, h: Header, buffer: bytes, p: Peer)
    ensures var r := Accept(c, h, buffer, p);
            r.channels == c.channels && r.seen == c.seen && r.isPublisher == c.isPublisher && r.sent == c.sent
            && r.nextSequence == c.nextSequence
  {
  }

  lemma {:induction false} ProcessKeeps(c: Client, h: Header, buffer: bytes, p: Peer, dedup: bool)
    ensures var r := ProcessWith(c, h, buffer, p, dedup);
            r.channels == c.channels && r.isPublisher == c.isPublisher && r.nextSequence == c.nextSequence
            && r.seen == if dedup && Relays(Accept(c, h, buffer, p), h) then AddSeen(c.seen, h.sequence) else c.seen
  {
    hide Relays, Broadcast, RelayTargets, AddSeen, PushQueue, Accept;
    AcceptKeeps(c, h, buffer, p);
  }

  // ---------------------------------------------------------------- termination

  function Pow(b: nat, n: int): (r: nat)
    requires b > 0
    ensures r > 0
    decreases if n <= 0 then 0 else n
  {
    if n <= 0 then 1 else
      var p := Pow(b, n - 1);
      Positive(b, p);
      b * p
  }

  lemma {:induction false} Positive(a: nat, b: nat)
    requires a > 0 && b > 0
    ensures a * b > 0
  {
  }

  /** The sum over in-flight copies of (degree + 1)^ttl. */
  function Rank(flight: seq<Copy>, degree: nat): nat {
    if flight == [] then 0 else Rank(flight[..|flight| - 1], degree) + Pow(degree + 1, Ttl(flight[|flight| - 1].header))
  }

  predicate DegreeAtMost(nodes: seq<Client>, degree: nat) {
    forall i :: 0 <= i < |nodes| ==> |nodes[i].channels| <= degree
  }

  lemma {:induction false} RankConcat(a: seq<Copy>, b: seq<Copy>, degree: nat)
    ensures Rank(a + b, degree) == Rank(a, degree) + Rank(b, degree)
    decreases |b|
  {
    hide Pow;
    if b == [] {
      assert a + b == a;
    } else {
      RankConcat(a, b[..|b| - 1], degree);
      assert (a + b)[..|a + b| - 1] == a + b[..|b| - 1];
    }
  }

  lemma {:induction false} RankWithout(flight: seq<Copy>, i: nat, degree: nat)
    requires i < |flight|
    ensures Rank(flight, degree) == Rank(Without(flight, i), degree) + Pow(degree + 1, Ttl(flight[i].header))
  {
    hide Pow;
    RankConcat(flight[..i], flight[i + 1..], degree);
    RankConcat(flight[..i + 1], flight[i + 1..], degree);
    assert flight[..i + 1] + flight[i + 1..] == flight;
    assert flight[..i + 1][..i] == flight[..i];
  }

  lemma {:induction false} RankOfCopies(src: Peer, peers: seq<Peer>, h: Header, buffer: bytes, hops: nat, degree: nat)
    ensures Rank(CopiesTo(src, peers, h, buffer, hops), degree) == |peers| * Pow(degree + 1, Ttl(h))
    decreases |peers|
  {
    hide Pow;
    if peers != [] {
      var init := peers[..|peers| - 1];
      RankOfCopies(src, init, h, buffer, hops, degree);
      assert CopiesTo(src, peers, h, buffer, hops)[..|init|] == CopiesTo(src, init, h, buffer, hops);
      Distribute(|init|, Pow(degree + 1, Ttl(h)));
    }
  }

  lemma {:induction false} Distribute(n: nat, p: nat)
    ensures n * p + p == (n + 1) * p
  {
  }

  lemma {:induction false} TimesMonotone(a: nat, b: nat, p: nat)
    requires a <= b
    ensures a * p <= b * p
  {
  }

  /** What a copy turns into weighs less than the copy. */
  lemma {:induction false} EmittedRank(node: Client, k: Copy, dedup: bool, degree: nat)
    requires |node.channels| <= degree
    ensures Rank(Emitted(node, k, dedup), degree) < Pow(degree + 1, Ttl(k.header))
  {
    hide Relays, SegmentMessages;
    var h := Stored(k.header, k.src);
    var c1 := Accept(node, h, k.buffer, k.src);
    AcceptKeeps(node, h, k.buffer, k.src);
    hide Accept;
    if Forwards(c1, h, dedup) && Ttl(h) - 1 > 0 {
      var peers := Targets(c1.channels, Some(k.src));
      var rh := RelayHeader(h, k.buffer);
      RankOfCopies(k.dst, peers, rh, k.buffer, k.hops + 1, degree);
      var p := Pow(degree + 1, Ttl(h) - 1);
      TimesMonotone(|peers|, degree, p);
      Distribute(degree, p);
      assert Pow(degree + 1, Ttl(h)) == (degree + 1) * p;
    }
  }

  /** Every delivery decreases the rank, with dedup and without. */
  lemma {:induction false} DeliverDecreases(net: Net, i: nat, dedup: bool, degree: nat)
    requires i < |net.flight| && DegreeAtMost(net.nodes, degree)
    ensures Rank(Deliver(net, i, dedup).flight, degree) < Rank(net.flight, degree)
    ensures DegreeAtMost(Deliver(net, i, dedup).nodes, degree)
  {
    var k := net.flight[i];
    RankWithout(net.flight, i, degree);
    if k.dst < |net.nodes| {
      EmittedRank(net.nodes[k.dst], k, dedup, degree);
      RankConcat(Without(net.flight, i), Emitted(net.nodes[k.dst], k, dedup), degree);
      ProcessKeeps(net.nodes[k.dst], Stored(k.header, k.src), k.buffer, k.src, dedup);
    }
    hide ProcessWith, Emitted, Rank, Pow;
  }

  // ---------------------------------------------------------------- runs

  datatype Step = Arrive(index: nat, dedup: bool) | New(publisher: Peer, buffer: bytes, kind: SegmentType, isKeyframe: bool, now: int)

  predicate Enabled(net: Net, s: Step) {
    match s
    case Arrive(i, _) => i < |net.flight|
    case New(p, _, _, _, _) => p < |net.nodes| && net.nodes[p].isPublisher
  }

  function Take(net: Net, s: Step): Net
    requires Enabled(net, s)
  {
    match s
    case Arrive(i, dedup) => Deliver(net, i, dedup)
    case New(p, buffer, kind, isKeyframe, now) => Publish(net, p, buffer, kind, isKeyframe, now)
  }

  predicate IsRun(net: Net, steps: seq<Step>)
    decreases |steps|
  {
    steps == [] || (Enabled(net, steps[0]) && IsRun(Take(net, steps[0]), steps[1..]))
  }

  function Final(net: Net, steps: seq<Step>): Net
    requires IsRun(net, steps)
    decreases |steps|
  {
    if steps == [] then net else Final(Take(net, steps[0]), steps[1..])
  }

  function Arrivals(steps: seq<Step>): nat {
    if steps == [] then 0 else (if steps[0].Arrive? then 1 else 0) + Arrivals(steps[1..])
  }

  function News(steps: seq<Step>): nat {
    if steps == [] then 0 else (if steps[0].New? then 1 else 0) + News(steps[1..])
  }

  lemma {:induction false} PublishRank(net: Net, p: Peer, buffer: bytes, kind: SegmentType, isKeyframe: bool, now: int, degree: nat)
    requires p < |net.nodes| && net.nodes[p].isPublisher && DegreeAtMost(net.nodes, degree)
    ensures var r := Publish(net, p, buffer, kind, isKeyframe, now);
            Rank(r.flight, degree) <= Rank(net.flight, degree) + degree * Pow(degree + 1, MAX_RELAY_TTL)
            && DegreeAtMost(r.nodes, degree)
  {
    hide Pow, SegmentMessages, Broadcast;
    var node := net.nodes[p];
    var h := ForwardHeader(node, buffer, kind, isKeyframe, now);
    var peers := Targets(node.channels, None);
    var copies := CopiesTo(p, peers, h, buffer, 1);
    RankConcat(net.flight, copies, degree);
    RankOfCopies(p, peers, h, buffer, 1, degree);
    TimesMonotone(|peers|, degree, Pow(degree + 1, MAX_RELAY_TTL));
  }

  /** Flooding ends: in any run the deliveries are bounded by the rank at the start and by
      degree * (degree + 1)^maxRelayTTL for each new segment, whether or not anyone remembers sequences. */
  lemma {:induction false} FloodEnds(net: Net, steps: seq<Step>, degree: nat)
    requires DegreeAtMost(net.nodes, degree) && IsRun(net, steps)
    ensures Arrivals(steps) + Rank(Final(net, steps).flight, degree)
         <= Rank(net.flight, degree) + News(steps) * (degree * Pow(degree + 1, MAX_RELAY_TTL))
    decreases |steps|
  {
    hide Pow, Rank, Deliver, Publish;
    var each := degree * Pow(degree + 1, MAX_RELAY_TTL);
    if steps != [] {
      match steps[0] {
        case Arrive(i, dedup) => DeliverDecreases(net, i, dedup, degree);
        case New(p, buffer, kind, isKeyframe, now) =>
          PublishRank(net, p, buffer, kind, isKeyframe, now, degree);
          Distribute(News(steps[1..]), each);
      }
      FloodEnds(Take(net, steps[0]), steps[1..], degree);
    }
  }

  /** Every copy in flight has time to live left, and its hops and its ttl always add up to the same. */
  predicate HopsConserved(flight: seq<Copy>) {
    forall i :: 0 <= i < |flight| ==>
      flight[i].header.ttl.Some? && Ttl(flight[i].header) >= 1 && flight[i].hops >= 1 && flight[i].hops + Ttl(flight[i].header) == MAX_RELAY_TTL + 1
  }

  lemma {:induction false} DeliverConserves(net: Net, i: nat, dedup: bool)
    requires i < |net.flight| && HopsConserved(net.flight)
    ensures HopsConserved(Deliver(net, i, dedup).flight)
  {
    hide Relays, ProcessWith, Targets, Accept;
    var k := net.flight[i];
    var rest := Without(net.flight, i);
    assert forall j :: 0 <= j < |rest| ==> rest[j] == net.flight[if j < i then j else j + 1];
  }

  /** The invariant over whole runs; in particular no copy crosses more than maxRelayTTL edges. */
  lemma {:induction false} RunConserves(net: Net, steps: seq<Step>)
    requires IsRun(net, steps) && HopsConserved(net.flight)
    ensures var flight := Final(net, steps).flight;
            HopsConserved(flight) && forall i :: 0 <= i < |flight| ==> 1 <= flight[i].hops <= MAX_RELAY_TTL
    decreases |steps|
  {
    hide Deliver;
    if steps != [] {
      match steps[0] {
        case Arrive(i, dedup) => DeliverConserves(net, i, dedup);
        case New(_, _, _, _, _) =>
      }
      RunConserves(Take(net, steps[0]), steps[1..]);
    }
  }
}
