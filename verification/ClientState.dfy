/** The relay state of one browser client and what each handler does to it (web_viewer/webrtc-client.js).
    JSON control messages are a datatype; what is sent and what is handed to the player are logs. */
module ClientState {
  import opened Bytes
  import opened Outcomes

  /** Peers are numbered; the original uses generated names. */
  type Peer = nat

  const MAX_CHUNK_SIZE: nat := 16000
  const MAX_SEGMENT_QUEUE_SIZE: nat := 30
  const MAX_SEEN_SEQUENCES: nat := 500
  const MAX_RELAY_TTL: int := 3

  datatype SegmentType = InitSegment | InitVideo | MediaSegment

  /** `typed` says that the object carries type: 'segment_header'; headers a client stored on receipt do
      not, so that a receiver does not recognise them. An absent ttl is None. */
  datatype Header = Header(
    typed: bool, segmentType: SegmentType, sequence: int, size: nat, isKeyframe: bool, timestamp: int,
    ttl: Option<int>, fromPeer: Option<Peer>)

  datatype Control =
    | ChunkStart(size: nat)
    | ChunkEnd
    | StreamInfo(info: Option<nat>)
    | SegmentHeader(header: Header)
    | RequestInit
    | UnknownControl

  datatype Message = Text(control: Control) | Binary(data: bytes)

  datatype Segment = Segment(header: Header, buffer: bytes)

  datatype ChunkState = ChunkState(chunks: seq<bytes>, totalSize: nat, expectedSize: nat)

  datatype Channel = Channel(peer: Peer, open: bool)

  /** What reaches the player: a segment with its header, or raw bytes in legacy mode. */
  datatype Delivery = Delivery(peer: Peer, header: Option<Header>, buffer: bytes)

  datatype Sent = Sent(peer: Peer, message: Message)

  datatype Client = Client(
    isPublisher: bool,
    canRelay: bool,
    incoming: map<Peer, ChunkState>,
    pending: map<Peer, Header>,
    streamInfo: Option<nat>,
    initSegment: Option<bytes>,
    keyframe: Option<Segment>,
    queue: seq<Segment>,
    nextSequence: nat,
    seen: seq<int>,
    channels: seq<Channel>,
    sent: seq<Sent>,
    delivered: seq<Delivery>,
    announced: nat)

  function FreshClient(isPublisher: bool): Client {
    Client(isPublisher, false, map[], map[], None, None, None, [], 0, [], [], [], [], 0)
  }

  // ---------------------------------------------------------------- sending

  function HeaderMessage(h: Header): Message {
    Text(if h.typed then SegmentHeader(h) else UnknownControl)
  }

  /** The buffer in pieces of at most MAX_CHUNK_SIZE bytes. */
  function Pieces(buffer: bytes): seq<Message>
    decreases |buffer|
  {
    if buffer == [] then []
    else if |buffer| <= MAX_CHUNK_SIZE then [Binary(buffer)]
    else [Binary(buffer[..MAX_CHUNK_SIZE])] + Pieces(buffer[MAX_CHUNK_SIZE..])
  }

  function ChunkMessages(buffer: bytes): seq<Message> {
    [Text(ChunkStart(|buffer|))] + Pieces(buffer) + [Text(ChunkEnd)]
  }

  function SegmentMessages(h: Header, buffer: bytes): seq<Message> {
    [HeaderMessage(h)] + (if |buffer| > MAX_CHUNK_SIZE then ChunkMessages(buffer) else [Binary(buffer)])
  }

  function To(peer: Peer, ms: seq<Message>): (r: seq<Sent>)
    ensures |r| == |ms|
    ensures forall i :: 0 <= i < |ms| ==> r[i] == Sent(peer, ms[i])
  {
    seq(|ms|, i requires 0 <= i < |ms| => Sent(peer, ms[i]))
  }

  function Send(c: Client, peer: Peer, ms: seq<Message>): Client {
    c.(sent := c.sent + To(peer, ms))
  }

  /** The open channels, in the order they were opened, without the peer to skip. */
  function Targets(channels: seq<Channel>, skip: Option<Peer>): (peers: seq<Peer>)
    ensures |peers| <= |channels|
  {
    if channels == [] then []
    else
      Targets(channels[..|channels| - 1], skip)
      + (var last := channels[|channels| - 1];
         if last.open && Some(last.peer) != skip then [last.peer] else [])
  }

  function Broadcast(peers: seq<Peer>, ms: seq<Message>): seq<Sent> {
    if peers == [] then [] else Broadcast(peers[..|peers| - 1], ms) + To(peers[|peers| - 1], ms)
  }

  function SendToAll(c: Client, peers: seq<Peer>, ms: seq<Message>): Client {
    c.(sent := c.sent + Broadcast(peers, ms))
  }

  // ---------------------------------------------------------------- relaying

  function Ttl(h: Header): int { if h.ttl.Some? then h.ttl.value else MAX_RELAY_TTL }

  function LastOf<T>(s: seq<T>, n: nat): (r: seq<T>)
    ensures |r| == if |s| <= n then |s| else n
  {
    if |s| <= n then s else s[|s| - n..]
  }

  predicate Distinct(s: seq<int>) {
    forall i, j :: 0 <= i < j < |s| ==> s[i] != s[j]
  }

  /** A JavaScript Set keeps insertion order; adding a present key changes nothing. */
  function AddSeen(seen: seq<int>, key: int): seq<int> {
    LastOf(if key in seen then seen else seen + [key], MAX_SEEN_SEQUENCES)
  }

  function PushQueue(queue: seq<Segment>, s: Segment): seq<Segment> {
    LastOf(queue + [s], MAX_SEGMENT_QUEUE_SIZE)
  }

  function RelayHeader(h: Header, buffer: bytes): Header {
    Header(true, h.segmentType, h.sequence, |buffer|, h.isKeyframe, h.timestamp, Some(Ttl(h) - 1), None)
  }

  function RelayTargets(c: Client, h: Header, from: Peer): seq<Peer> {
    if Ttl(h) - 1 <= 0 then [] else Targets(c.channels, Some(from))
  }

  function RelaySegment(c: Client, h: Header, buffer: bytes, from: Peer): Client {
    SendToAll(c, RelayTargets(c, h, from), SegmentMessages(RelayHeader(h, buffer), buffer))
  }

  /** A segment is relayed by a relay that has not seen its sequence number. */
  predicate Relays(c: Client, h: Header) {
    c.canRelay && !c.isPublisher && h.sequence !in c.seen && Ttl(h) > 0
  }

  function CheckRelayReady(c: Client): Client {
    if !c.isPublisher && !c.canRelay && c.streamInfo.Some? && c.initSegment.Some? then
      c.(canRelay := true, announced := c.announced + 1)
    else c
  }

  predicate IsInit(h: Header) { h.segmentType == InitSegment || h.segmentType == InitVideo }

  /** Everything a received segment does before the relay decision. */
  function Accept(c: Client, h: Header, buffer: bytes, peer: Peer): Client {
    var c1 := if IsInit(h) then CheckRelayReady(c.(initSegment := Some(buffer))) else c;
    var c2 := if h.isKeyframe then c1.(keyframe := Some(Segment(h, buffer))) else c1;
    c2.(delivered := c2.delivered + [Delivery(peer, Some(h), buffer)])
  }

  function Process(c: Client, h: Header, buffer: bytes, peer: Peer): Client {
    var c1 := Accept(c, h, buffer, peer);
    if Relays(c1, h) then
      RelaySegment(c1.(seen := AddSeen(c1.seen, h.sequence), queue := PushQueue(c1.queue, Segment(h, buffer))), h, buffer, peer)
    else c1
  }

  /** `processReceivedSegment`: take the pending header of the peer, if there is one. */
  function ProcessReceived(c: Client, peer: Peer, buffer: bytes): Client {
    var c1 := c.(pending := c.pending - {peer});
    if peer in c.pending then Process(c1, c.pending[peer], buffer, peer)
    else c1.(delivered := c1.delivered + [Delivery(peer, None, buffer)])
  }

  // ---------------------------------------------------------------- receiving

  /** The header as the receiver stores it. */
  function Stored(h: Header, peer: Peer): Header {
    h.(typed := false, ttl := Some(Ttl(h)), fromPeer := Some(peer))
  }

  /** The header a player is handed: every field as it was sent, three hops to live when none were given, and the peer
      it came from. */
  function HandedOver(h: Header, p: Peer): Header {
    Header(
      typed := false,
      segmentType := h.segmentType,
      sequence := h.sequence,
      size := h.size,
      isKeyframe := h.isKeyframe,
      timestamp := h.timestamp,
      ttl := match h.ttl case Some(hops) => Some(hops) case None => Some(3),
      fromPeer := Some(p))
  }

  lemma {:induction false} StoredIs(h: Header, p: Peer)
    ensures Stored(h, p) == HandedOver(h, p)
  {
  }

  function Assembled(chunks: seq<bytes>): bytes {
    if chunks == [] then [] else Assembled(chunks[..|chunks| - 1]) + chunks[|chunks| - 1]
  }

  predicate IsOpen(channels: seq<Channel>, peer: Peer) {
    exists i :: 0 <= i < |channels| && channels[i] == Channel(peer, true)
  }

  function HandleControl(c: Client, peer: Peer, m: Control, now: int): Client {
    match m
    case ChunkStart(size) => c.(incoming := c.incoming[peer := ChunkState([], 0, size)])
    case ChunkEnd =>
      if peer in c.incoming then
        ProcessReceived(c.(incoming := c.incoming - {peer}), peer, Assembled(c.incoming[peer].chunks))
      else c
    case StreamInfo(info) => CheckRelayReady(c.(streamInfo := info))
    case SegmentHeader(h) => c.(pending := c.pending[peer := Stored(h, peer)])
    case RequestInit => if IsOpen(c.channels, peer) then Send(c, peer, CachedMessages(c, now)) else c
    case UnknownControl => c
  }

  function Handle(c: Client, peer: Peer, m: Message, now: int): Client {
    match m
    case Text(control) => HandleControl(c, peer, control, now)
    case Binary(data) =>
      if peer in c.incoming then
        var s := c.incoming[peer];
        c.(incoming := c.incoming[peer := s.(chunks := s.chunks + [data], totalSize := s.totalSize + |data|)])
      else ProcessReceived(c, peer, data)
  }

  // ---------------------------------------------------------------- channels open and close

  /** `dataChannels.set`: a JavaScript Map keeps the place of a key it already has. */
  function SetChannel(channels: seq<Channel>, peer: Peer, open: bool): seq<Channel> {
    if channels == [] then [Channel(peer, open)]
    else if channels[0].peer == peer then [Channel(peer, open)] + channels[1..]
    else [channels[0]] + SetChannel(channels[1..], peer, open)
  }

  function DeleteChannel(channels: seq<Channel>, peer: Peer): seq<Channel> {
    if channels == [] then []
    else if channels[0].peer == peer then channels[1..]
    else [channels[0]] + DeleteChannel(channels[1..], peer)
  }

  predicate Known(channels: seq<Channel>, peer: Peer) {
    exists i :: 0 <= i < |channels| && channels[i].peer == peer
  }

  /** No peer has two channels, as the keys of a Map. */
  predicate Keyed(channels: seq<Channel>) {
    forall i, j :: 0 <= i < j < |channels| ==> channels[i].peer != channels[j].peer
  }

  /** `after` differs from `before` in the channel of one peer, which is at its old place or else at the end. */
  predicate ChangedAt(before: seq<Channel>, after: seq<Channel>, peer: Peer, open: bool) {
    && |after| == |before| + (if Known(before, peer) then 0 else 1)
    && (forall i :: 0 <= i < |before| && before[i].peer != peer ==> after[i] == before[i])
    && (forall i :: 0 <= i < |after| && after[i].peer == peer ==> after[i].open == open)
    && Known(after, peer) && Keyed(after)
  }

  /** Where the first channel of a peer is, or the end. */
  function PlaceOf(channels: seq<Channel>, peer: Peer): (p: nat)
    ensures p <= |channels| && (p < |channels| ==> channels[p].peer == peer)
    ensures forall i :: 0 <= i < p ==> channels[i].peer != peer
  {
    if channels == [] || channels[0].peer == peer then 0 else 1 + PlaceOf(channels[1..], peer)
  }

  lemma {:induction false} SetAt(channels: seq<Channel>, peer: Peer, open: bool)
    ensures var p := PlaceOf(channels, peer);
            SetChannel(channels, peer, open)
            == if p < |channels| then channels[p := Channel(peer, open)] else channels + [Channel(peer, open)]
  {
    var c := Channel(peer, open);
    if channels == [] {
      assert [] + [c] == [c];
    } else if channels[0].peer == peer {
      HeadUpdated(channels, c);
    } else {
      var rest := channels[1..];
      SetAt(rest, peer, open);
      TailUpdated(channels, PlaceOf(rest, peer), c);
    }
  }

  lemma {:induction false} HeadUpdated(channels: seq<Channel>, c: Channel)
    requires channels != []
    ensures [c] + channels[1..] == channels[0 := c]
  {
  }

  lemma {:induction false} TailUpdated(channels: seq<Channel>, p: nat, c: Channel)
    requires channels != []
    ensures p < |channels| - 1 ==> [channels[0]] + channels[1..][p := c] == channels[p + 1 := c]
    ensures [channels[0]] + (channels[1..] + [c]) == channels + [c]
  {
  }

  lemma {:induction false} DeleteAt(channels: seq<Channel>, peer: Peer)
    ensures var p := PlaceOf(channels, peer);
            DeleteChannel(channels, peer) == if p < |channels| then channels[..p] + channels[p + 1..] else channels
  {
    if channels != [] && channels[0].peer != peer {
      DeleteAt(channels[1..], peer);
    }
  }

  lemma {:induction false} SetChannelIs(channels: seq<Channel>, peer: Peer, open: bool)
    requires Keyed(channels)
    ensures ChangedAt(channels, SetChannel(channels, peer, open), peer, open)
  {
    hide SetChannel, PlaceOf;
    SetAt(channels, peer, open);
    var p := PlaceOf(channels, peer);
    assert SetChannel(channels, peer, open)[p].peer == peer;
  }

  lemma {:induction false} DeleteChannelIs(channels: seq<Channel>, peer: Peer)
    requires Keyed(channels)
    ensures var r := DeleteChannel(channels, peer);
            Keyed(r) && !Known(r, peer) && forall ch :: ch in r <==> ch in channels && ch.peer != peer
  {
    hide DeleteChannel, PlaceOf;
    DeleteAt(channels, peer);
    var p := PlaceOf(channels, peer);
    var r := DeleteChannel(channels, peer);
    assert forall i :: 0 <= i < |r| ==> r[i] == channels[if i < p then i else i + 1];
    forall ch | ch in channels && ch.peer != peer
      ensures ch in r
    {
      var i :| 0 <= i < |channels| && channels[i] == ch;
      assert r[if i < p then i else i - 1] == ch;
    }
  }

  /** `onopen`: a client that may serve and knows the stream replays what it has cached; one that may not asks. */
  function OpenChannel(c: Client, peer: Peer, now: int): Client {
    var c1 := c.(channels := SetChannel(c.channels, peer, true));
    var c2 := if (c1.isPublisher || c1.canRelay) && c1.streamInfo.Some? then Send(c1, peer, CachedMessages(c1, now)) else c1;
    if !c2.isPublisher && !c2.canRelay then Send(c2, peer, [Text(RequestInit)]) else c2
  }

  /** `onclose`: the pending header goes, half-received chunks stay. */
  function CloseChannel(c: Client, peer: Peer): Client {
    c.(channels := DeleteChannel(c.channels, peer), pending := c.pending - {peer})
  }

  /** `closePeerConnection`: the channel and half-received chunks go, the pending header stays. */
  function DropPeer(c: Client, peer: Peer): Client {
    c.(channels := DeleteChannel(c.channels, peer), incoming := c.incoming - {peer})
  }

  // ---------------------------------------------------------------- publishing

  function InitHeader(init: bytes, now: int): Header {
    Header(true, InitSegment, -1, |init|, false, now, None, None)
  }

  /** The queued segments behind the cached keyframe. */
  function AfterKeyframe(queue: seq<Segment>, keyframe: Option<Segment>): seq<Segment> {
    if keyframe.None? || queue == [] then []
    else
      var last := queue[|queue| - 1];
      AfterKeyframe(queue[..|queue| - 1], keyframe)
      + (if last.header.sequence > keyframe.value.header.sequence then [last] else [])
  }

  function MessagesOf(segments: seq<Segment>): seq<Message> {
    if segments == [] then []
    else MessagesOf(segments[..|segments| - 1]) + SegmentMessages(segments[|segments| - 1].header, segments[|segments| - 1].buffer)
  }

  /** The segments a late joiner is given: init, keyframe, and what is queued behind the keyframe. */
  function CachedSegments(c: Client, now: int): seq<Segment> {
    (if c.initSegment.Some? then [Segment(InitHeader(c.initSegment.value, now), c.initSegment.value)] else [])
    + (if c.keyframe.Some? then [c.keyframe.value] else [])
    + AfterKeyframe(c.queue, c.keyframe)
  }

  function CachedMessages(c: Client, now: int): seq<Message> {
    if !c.isPublisher && !c.canRelay then []
    else
      (if c.streamInfo.Some? then [Text(StreamInfo(c.streamInfo))] else [])
      + MessagesOf(CachedSegments(c, now))
  }

  function ForwardHeader(c: Client, buffer: bytes, kind: SegmentType, isKeyframe: bool, now: int): Header {
    Header(true, kind, c.nextSequence, |buffer|, isKeyframe, now, Some(MAX_RELAY_TTL), None)
  }

  /** Take the sequence number and keep the segment for late joiners. */
  function Cache(c: Client, h: Header, buffer: bytes): Client {
    c.(nextSequence := c.nextSequence + 1,
       initSegment := if IsInit(h) then Some(buffer) else c.initSegment,
       keyframe := if h.isKeyframe then Some(Segment(h, buffer)) else c.keyframe,
       queue := PushQueue(c.queue, Segment(h, buffer)))
  }

  /** `forwardSegmentToPeers`: number the segment, cache it, queue it and send it to everyone. */
  function Forward(c: Client, buffer: bytes, kind: SegmentType, isKeyframe: bool, now: int): Client {
    if !c.isPublisher && !c.canRelay then c else
      var h := ForwardHeader(c, buffer, kind, isKeyframe, now);
      SendToAll(Cache(c, h, buffer), Targets(c.channels, None), SegmentMessages(h, buffer))
  }
}
