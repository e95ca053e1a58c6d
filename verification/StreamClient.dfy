/** The browser client object (web_viewer/webrtc-client.js). Every handler is proved to do to its fields
    what the functions of ClientState say. */
module StreamClients {
  import opened Bytes
  import opened Outcomes
  import opened ClientState

  /** Deleting a member of a JavaScript Set. */
  function Without(s: seq<int>, k: int): seq<int> {
    if s == [] then [] else if s[0] == k then s[1..] else [s[0]] + Without(s[1..], k)
  }

  class WebRtcStreamClient {
    var isPublisher: bool
    var canRelay: bool
    var incomingChunks: map<Peer, ChunkState>
    var pendingSegmentHeader: map<Peer, Header>
    var cachedStreamInfo: Option<nat>
    var cachedInitSegment: Option<bytes>
    var cachedKeyframe: Option<Segment>
    var segmentQueue: seq<Segment>
    var segmentSequence: nat
    var seenSequences: seq<int>
    var dataChannels: seq<Channel>
    var sent: seq<Sent>
    var delivered: seq<Delivery>
    var announced: nat

    function State(): Client
      reads this
    {
      Client(isPublisher, canRelay, incomingChunks, pendingSegmentHeader, cachedStreamInfo, cachedInitSegment,
             cachedKeyframe, segmentQueue, segmentSequence, seenSequences, dataChannels, sent, delivered, announced)
    }

    /** The seen set has no duplicates. */
    ghost predicate Valid()
      reads this
    {
      Distinct(seenSequences)
    }

    constructor (publisher: bool)
      ensures Valid() && State() == FreshClient(publisher)
    {
      isPublisher, canRelay := publisher, false;
      incomingChunks, pendingSegmentHeader := map[], map[];
      cachedStreamInfo, cachedInitSegment, cachedKeyframe := None, None, None;
      segmentQueue, segmentSequence, seenSequences, dataChannels := [], 0, [], [];
      sent, delivered, announced := [], [], 0;
    }

    /** `dc.send` on the channel of a peer. */
    method DcSend(peer: Peer, m: Message)
      modifies this`sent
      ensures sent == old(sent) + To(peer, [m])
    {
      sent := sent + [Sent(peer, m)];
    }

    method SendChunked(peer: Peer, buffer: bytes)
      modifies this`sent
      ensures sent == old(sent) + To(peer, ChunkMessages(buffer))
    {
      hide Pieces, To;
      ghost var out: seq<Message> := [Text(ChunkStart(|buffer|))];
      var numChunks := (|buffer| + MAX_CHUNK_SIZE - 1) / MAX_CHUNK_SIZE;
      DcSend(peer, Text(ChunkStart(|buffer|)));
      assert buffer[0..] == buffer && out + Pieces(buffer) == [Text(ChunkStart(|buffer|))] + Pieces(buffer);
      for i := 0 to numChunks
        invariant i < numChunks ==> i * MAX_CHUNK_SIZE < |buffer|
        invariant sent == old(sent) + To(peer, out)
        invariant out + Pieces(buffer[Cut(i, buffer)..]) == [Text(ChunkStart(|buffer|))] + Pieces(buffer)
        invariant i == numChunks ==> Cut(i, buffer) == |buffer|
      {
        var start := i * MAX_CHUNK_SIZE;
        var end := if start + MAX_CHUNK_SIZE <= |buffer| then start + MAX_CHUNK_SIZE else |buffer|;
        var chunk := buffer[start..end];
        NextPiece(buffer, start, end);
        assert Cut(i + 1, buffer) == end;
        DcSend(peer, Binary(chunk));
        ghost var rest := Pieces(buffer[end..]);
        Reassociate(out, [Binary(chunk)], rest);
        ToConcat(peer, out, [Binary(chunk)]);
        out := out + [Binary(chunk)];
      }
      DcSend(peer, Text(ChunkEnd));
      NoPieces();
      assert buffer[|buffer|..] == [] && out + [] == out;
      ToConcat(peer, out, [Text(ChunkEnd)]);
      assert ChunkMessages(buffer) == out + [Text(ChunkEnd)];
    }

    method SendSegmentToPeer(peer: Peer, header: Header, buffer: bytes)
      modifies this`sent
      ensures sent == old(sent) + To(peer, SegmentMessages(header, buffer))
    {
      hide ChunkMessages, HeaderMessage;
      DcSend(peer, HeaderMessage(header));
      if |buffer| > MAX_CHUNK_SIZE {
        SendChunked(peer, buffer);
        ToConcat(peer, [HeaderMessage(header)], ChunkMessages(buffer));
      } else {
        DcSend(peer, Binary(buffer));
        ToConcat(peer, [HeaderMessage(header)], [Binary(buffer)]);
      }
    }

    /** The loop over `dataChannels` of the relay and of the publisher. */
    method SendToOpenChannels(skip: Option<Peer>, header: Header, buffer: bytes)
      modifies this`sent
      ensures sent == old(sent) + Broadcast(Targets(dataChannels, skip), SegmentMessages(header, buffer))
    {
      hide SegmentMessages, To, Broadcast, Targets;
      ghost var ms := SegmentMessages(header, buffer);
      NoTargets(skip, ms);
      assert sent + [] == sent;
      for i := 0 to |dataChannels|
        invariant sent == old(sent) + Broadcast(Targets(dataChannels[..i], skip), ms)
      {
        TargetsStep(dataChannels, i, skip, ms);
        ghost var before := Broadcast(Targets(dataChannels[..i], skip), ms);
        Reassociate(old(sent), before, To(dataChannels[i].peer, ms));
        var channel := dataChannels[i];
        if Some(channel.peer) == skip {
          continue;
        }
        if channel.open {
          SendSegmentToPeer(channel.peer, header, buffer);
        }
      }
      assert dataChannels[..|dataChannels|] == dataChannels;
    }

    method RelaySegmentToPeers(header: Header, buffer: bytes, fromPeer: Peer)
      modifies this`sent
      ensures sent == old(sent) + Broadcast(RelayTargets(old(State()), header, fromPeer), SegmentMessages(RelayHeader(header, buffer), buffer))
    {
      hide SegmentMessages, Targets;
      var ttl := Ttl(header) - 1;
      if ttl <= 0 {
        return;
      }
      SendToOpenChannels(Some(fromPeer), RelayHeader(header, buffer), buffer);
    }

    method AddSeenSequence(key: int)
      requires Valid()
      modifies this`seenSequences
      ensures Valid() && seenSequences == AddSeen(old(seenSequences), key)
    {
      if key !in seenSequences {
        seenSequences := seenSequences + [key];
      }
      if |seenSequences| > MAX_SEEN_SEQUENCES {
        var arr := seenSequences;
        var toRemove := arr[..|arr| - MAX_SEEN_SEQUENCES];
        for i := 0 to |toRemove|
          invariant seenSequences == arr[i..]
        {
          assert arr[i..][0] == toRemove[i] && arr[i..][1..] == arr[i + 1..];
          seenSequences := Without(seenSequences, toRemove[i]);
        }
      }
    }

    method PushToQueue(segment: Segment)
      modifies this`segmentQueue
      ensures segmentQueue == PushQueue(old(segmentQueue), segment)
    {
      segmentQueue := segmentQueue + [segment];
      ghost var all := segmentQueue;
      assert all[0..] == all;
      while |segmentQueue| > MAX_SEGMENT_QUEUE_SIZE
        invariant |segmentQueue| <= |all| && segmentQueue == all[|all| - |segmentQueue|..]
        invariant |all| > MAX_SEGMENT_QUEUE_SIZE ==> |segmentQueue| >= MAX_SEGMENT_QUEUE_SIZE
        invariant |all| <= MAX_SEGMENT_QUEUE_SIZE ==> segmentQueue == all
      {
        segmentQueue := segmentQueue[1..];
      }
    }

    method SetCanRelayIfReady()
      modifies this`canRelay, this`announced
      ensures State() == CheckRelayReady(old(State()))
    {
      if !isPublisher && !canRelay && cachedStreamInfo.Some? && cachedInitSegment.Some? {
        canRelay := true;
        announced := announced + 1;
      }
    }

    method ProcessReceivedSegment(peer: Peer, buffer: bytes)
      requires Valid()
      modifies this
      ensures Valid() && State() == ProcessReceived(old(State()), peer, buffer)
    {
      hide Process;
      if peer in pendingSegmentHeader {
        var header := pendingSegmentHeader[peer];
        pendingSegmentHeader := pendingSegmentHeader - {peer};
        ProcessSegment(header, buffer, peer);
      } else {
        pendingSegmentHeader := pendingSegmentHeader - {peer};
        delivered := delivered + [Delivery(peer, None, buffer)];
      }
    }

    /** The part of `processReceivedSegment` with a header. */
    method ProcessSegment(header: Header, buffer: bytes, peer: Peer)
      requires Valid()
      modifies this
      ensures Valid() && State() == Process(old(State()), header, buffer, peer)
    {
      hide Accept, AddSeen, PushQueue, Broadcast, SegmentMessages, RelayHeader, Targets, Distinct;
      AcceptSegment(header, buffer, peer);
      ghost var accepted := State();
      if canRelay && !isPublisher {
        if header.sequence !in seenSequences && Ttl(header) > 0 {
          AddSeenSequence(header.sequence);
          PushToQueue(Segment(header, buffer));
          RelaySegmentToPeers(header, buffer, peer);
        }
      }
    }

    method AcceptSegment(header: Header, buffer: bytes, peer: Peer)
      requires Valid()
      modifies this
      ensures Valid() && State() == Accept(old(State()), header, buffer, peer)
    {
      if header.segmentType == InitSegment || header.segmentType == InitVideo {
        cachedInitSegment := Some(buffer);
        SetCanRelayIfReady();
      }
      if header.isKeyframe {
        cachedKeyframe := Some(Segment(header, buffer));
      }
      delivered := delivered + [Delivery(peer, Some(header), buffer)];
    }

    /** Copy the chunks one behind the other into a buffer of their total size. */
    method AssembleChunks(chunks: seq<bytes>) returns (buffer: bytes)
      ensures buffer == Assembled(chunks)
    {
      hide Assembled;
      NothingAssembled();
      var totalSize := 0;
      for i := 0 to |chunks|
        invariant totalSize == |Assembled(chunks[..i])|
      {
        AssembledNext(chunks, i);
        totalSize := totalSize + |chunks[i]|;
      }
      assert chunks[..|chunks|] == chunks;
      var assembled := new byte[totalSize](_ => 0);
      var offset := 0;
      for i := 0 to |chunks|
        invariant offset == |Assembled(chunks[..i])| <= assembled.Length
        invariant assembled[..offset] == Assembled(chunks[..i])
      {
        AssembledNext(chunks, i);
        AssembledGrows(chunks, i + 1);
        var chunk := chunks[i];
        ghost var before := assembled[..offset];
        forall k | 0 <= k < |chunk| {
          assembled[offset + k] := chunk[k];
        }
        assert assembled[..offset + |chunk|] == before + chunk;
        offset := offset + |chunk|;
      }
      buffer := assembled[..];
      assert assembled[..offset] == assembled[..];
    }

    method SendCachedDataToPeer(peer: Peer, now: int)
      modifies this`sent
      ensures sent == old(sent) + To(peer, CachedMessages(old(State()), now))
    {
      hide SegmentMessages, AfterKeyframe, To, MessagesOf;
      ghost var c := State();
      ToNothing(peer);
      if !isPublisher && !canRelay {
        return;
      }
      ghost var info: seq<Message> := [];
      if cachedStreamInfo.Some? {
        DcSend(peer, Text(StreamInfo(cachedStreamInfo)));
        info := [Text(StreamInfo(cachedStreamInfo))];
      }
      ghost var done: seq<Segment> := [];
      NoMessages();
      assert info + [] == info;
      if cachedInitSegment.Some? {
        var h := InitHeader(cachedInitSegment.value, now);
        SendSegmentToPeer(peer, h, cachedInitSegment.value);
        SentOneMore(old(sent), peer, info, done, Segment(h, cachedInitSegment.value));
        done := done + [Segment(h, cachedInitSegment.value)];
      }
      if cachedKeyframe.Some? {
        SendSegmentToPeer(peer, cachedKeyframe.value.header, cachedKeyframe.value.buffer);
        SentOneMore(old(sent), peer, info, done, cachedKeyframe.value);
        done := done + [cachedKeyframe.value];
      }
      ghost var front := done;
      NothingAfter(cachedKeyframe);
      SendQueued(peer, info, front, old(sent));
      assert front + AfterKeyframe(segmentQueue, cachedKeyframe) == CachedSegments(c, now);
    }

    /** The loop of `sendCachedDataToPeer` over the queue; the ghosts say what was sent before. */
    method SendQueued(peer: Peer, ghost info: seq<Message>, ghost front: seq<Segment>, ghost base: seq<Sent>)
      requires sent == base + To(peer, info + MessagesOf(front))
      modifies this`sent
      ensures sent == base + To(peer, info + MessagesOf(front + AfterKeyframe(segmentQueue, cachedKeyframe)))
    {
      hide SegmentMessages, AfterKeyframe, To, MessagesOf;
      NothingAfter(cachedKeyframe);
      ghost var done := front;
      assert front + [] == front;
      for i := 0 to |segmentQueue|
        invariant done == front + AfterKeyframe(segmentQueue[..i], cachedKeyframe)
        invariant sent == base + To(peer, info + MessagesOf(done))
      {
        var seg := segmentQueue[i];
        AfterStep(segmentQueue, i, cachedKeyframe);
        if cachedKeyframe.Some? && seg.header.sequence == cachedKeyframe.value.header.sequence {
          continue;
        }
        if cachedKeyframe.Some? && seg.header.sequence > cachedKeyframe.value.header.sequence {
          SendSegmentToPeer(peer, seg.header, seg.buffer);
          SentOneMore(base, peer, info, done, seg);
          ghost var before := AfterKeyframe(segmentQueue[..i], cachedKeyframe);
          Reassociate(front, before, [seg]);
          done := done + [seg];
        }
      }
      assert segmentQueue[..|segmentQueue|] == segmentQueue;
    }

    /** `setupDataChannel` stores the channel before it is open. So the peer is known but nothing is sent to it yet, not
        even when it had an open channel before, and no other channel changes or moves. */
    method SetupDataChannel(peer: Peer)
      requires Keyed(dataChannels)
      modifies this`dataChannels
      ensures ChangedAt(old(dataChannels), dataChannels, peer, false)
      ensures !IsOpen(dataChannels, peer) && State() == old(State()).(channels := dataChannels)
    {
      SetChannelIs(dataChannels, peer, false);
      dataChannels := SetChannel(dataChannels, peer, false);
    }

    method OnOpen(peer: Peer, now: int)
      modifies this`dataChannels, this`sent
      ensures State() == OpenChannel(old(State()), peer, now)
      ensures Keyed(old(dataChannels)) ==> ChangedAt(old(dataChannels), dataChannels, peer, true)
    {
      if Keyed(dataChannels) {
        SetChannelIs(dataChannels, peer, true);
      }
      hide CachedMessages, SetChannel;
      dataChannels := SetChannel(dataChannels, peer, true);
      if (isPublisher || canRelay) && cachedStreamInfo.Some? {
        SendCachedDataToPeer(peer, now);
      }
      if !isPublisher && !canRelay {
        DcSend(peer, Text(RequestInit));
      }
    }

    /** The peer is forgotten as a channel and its pending header with it; half-received chunks and every other channel
        stay. */
    method OnClose(peer: Peer)
      modifies this`dataChannels, this`pendingSegmentHeader
      ensures State() == CloseChannel(old(State()), peer)
      ensures Keyed(old(dataChannels)) ==>
        && Keyed(dataChannels) && !Known(dataChannels, peer)
        && forall ch :: ch in dataChannels <==> ch in old(dataChannels) && ch.peer != peer
      ensures peer !in pendingSegmentHeader
    {
      if Keyed(dataChannels) {
        DeleteChannelIs(dataChannels, peer);
      }
      dataChannels := DeleteChannel(dataChannels, peer);
      pendingSegmentHeader := pendingSegmentHeader - {peer};
    }

    /** The client hangs up on a peer. */
    method ClosePeerConnection(peer: Peer)
      modifies this`dataChannels, this`incomingChunks
      ensures State() == DropPeer(old(State()), peer)
      ensures Keyed(old(dataChannels)) ==>
        && Keyed(dataChannels) && !Known(dataChannels, peer)
        && forall ch :: ch in dataChannels <==> ch in old(dataChannels) && ch.peer != peer
      ensures peer !in incomingChunks
    {
      if Keyed(dataChannels) {
        DeleteChannelIs(dataChannels, peer);
      }
      dataChannels := DeleteChannel(dataChannels, peer);
      incomingChunks := incomingChunks - {peer};
    }

    method HandleControlMessage(peer: Peer, m: Control, now: int)
      requires Valid()
      modifies this
      ensures Valid() && State() == HandleControl(old(State()), peer, m, now)
      ensures m.SegmentHeader? ==> pendingSegmentHeader == old(pendingSegmentHeader)[peer := HandedOver(m.header, peer)]
    {
      hide ProcessReceived, CachedMessages, CheckRelayReady, Assembled, Stored, HandedOver, IsOpen, To;
      match m
      case ChunkStart(size) =>
        incomingChunks := incomingChunks[peer := ChunkState([], 0, size)];
      case ChunkEnd =>
        if peer in incomingChunks {
          var assembled := AssembleChunks(incomingChunks[peer].chunks);
          incomingChunks := incomingChunks - {peer};
          ProcessReceivedSegment(peer, assembled);
        }
      case StreamInfo(info) =>
        cachedStreamInfo := info;
        SetCanRelayIfReady();
      case SegmentHeader(h) =>
        StoredIs(h, peer);
        pendingSegmentHeader := pendingSegmentHeader[peer := Stored(h, peer)];
      case RequestInit =>
        var open := HasOpenChannel(peer);
        if open {
          SendCachedDataToPeer(peer, now);
        }
      case UnknownControl =>
    }

    method HasOpenChannel(peer: Peer) returns (open: bool)
      ensures open == IsOpen(dataChannels, peer)
    {
      open := false;
      for i := 0 to |dataChannels|
        invariant open == exists k :: 0 <= k < i && dataChannels[k] == Channel(peer, true)
      {
        open := open || dataChannels[i] == Channel(peer, true);
      }
    }

    method HandleDataChannelMessage(peer: Peer, m: Message, now: int)
      requires Valid()
      modifies this
      ensures Valid() && State() == Handle(old(State()), peer, m, now)
    {
      hide ProcessReceived, HandleControl;
      match m
      case Text(control) =>
        HandleControlMessage(peer, control, now);
      case Binary(data) =>
        if peer in incomingChunks {
          var s := incomingChunks[peer];
          incomingChunks := incomingChunks[peer := s.(chunks := s.chunks + [data], totalSize := s.totalSize + |data|)];
        } else {
          ProcessReceivedSegment(peer, data);
        }
    }

    method ForwardSegmentToPeers(buffer: bytes, kind: SegmentType, isKeyframe: bool, now: int)
      requires Valid()
      modifies this
      ensures Valid() && State() == Forward(old(State()), buffer, kind, isKeyframe, now)
    {
      hide SegmentMessages, Cache, Broadcast, Targets;
      if !isPublisher && !canRelay {
        return;
      }
      var header := Header(true, kind, segmentSequence, |buffer|, isKeyframe, now, Some(MAX_RELAY_TTL), None);
      CacheSegment(header, buffer);
      CacheKeeps(old(State()), header, buffer);
      SendToOpenChannels(None, header, buffer);
    }

    method CacheSegment(header: Header, buffer: bytes)
      modifies this
      ensures State() == Cache(old(State()), header, buffer)
    {
      hide PushQueue;
      segmentSequence := segmentSequence + 1;
      if header.segmentType == InitSegment || header.segmentType == InitVideo {
        cachedInitSegment := Some(buffer);
      }
      if header.isKeyframe {
        cachedKeyframe := Some(Segment(header, buffer));
      }
      PushToQueue(Segment(header, buffer));
    }
  }

  // ---------------------------------------------------------------- steps of the loops

  /** Where piece `i` starts. */
  function Cut(i: nat, buffer: bytes): (at: nat)
    ensures at <= |buffer|
  {
    if i * MAX_CHUNK_SIZE <= |buffer| then i * MAX_CHUNK_SIZE else |buffer|
  }

  lemma {:induction false} NextPiece(buffer: bytes, start: nat, end: nat)
    requires start < |buffer| && end == if start + MAX_CHUNK_SIZE <= |buffer| then start + MAX_CHUNK_SIZE else |buffer|
    ensures Pieces(buffer[start..]) == [Binary(buffer[start..end])] + Pieces(buffer[end..])
  {
    var rest := buffer[start..];
    if |rest| <= MAX_CHUNK_SIZE {
      assert buffer[end..] == [] && rest == buffer[start..end];
    } else {
      assert rest[..MAX_CHUNK_SIZE] == buffer[start..end] && rest[MAX_CHUNK_SIZE..] == buffer[end..];
    }
  }

  lemma {:induction false} NoPieces()
    ensures Pieces([]) == []
  {
  }

  lemma {:induction false} ToConcat(peer: Peer, a: seq<Message>, b: seq<Message>)
    ensures To(peer, a) + To(peer, b) == To(peer, a + b)
  {
  }

  lemma {:induction false} ToNothing(peer: Peer)
    ensures To(peer, []) == []
  {
  }

  /** One more channel of the loop. */
  lemma {:induction false} NoTargets(skip: Option<Peer>, ms: seq<Message>)
    ensures Broadcast(Targets([], skip), ms) == []
  {
  }

  lemma {:induction false} TargetsStep(channels: seq<Channel>, i: nat, skip: Option<Peer>, ms: seq<Message>)
    requires i < |channels|
    ensures Broadcast(Targets(channels[..i + 1], skip), ms) ==
      if channels[i].open && Some(channels[i].peer) != skip
      then Broadcast(Targets(channels[..i], skip), ms) + To(channels[i].peer, ms)
      else Broadcast(Targets(channels[..i], skip), ms)
  {
    hide To;
    assert channels[..i + 1][..i] == channels[..i];
    var before := Targets(channels[..i], skip);
    assert before + [] == before;
    assert (before + [channels[i].peer])[..|before|] == before;
  }

  lemma {:induction false} NothingAssembled()
    ensures Assembled([]) == []
  {
  }

  lemma {:induction false} AssembledNext(chunks: seq<bytes>, i: nat)
    requires i < |chunks|
    ensures Assembled(chunks[..i + 1]) == Assembled(chunks[..i]) + chunks[i]
  {
    assert chunks[..i + 1][..i] == chunks[..i];
  }

  lemma {:induction false} AssembledGrows(chunks: seq<bytes>, i: nat)
    requires i <= |chunks|
    ensures |Assembled(chunks[..i])| <= |Assembled(chunks)|
    decreases |chunks| - i
  {
    if i == |chunks| {
      assert chunks[..i] == chunks;
    } else {
      AssembledGrows(chunks, i + 1);
      assert chunks[..i + 1][..i] == chunks[..i];
    }
  }

  lemma {:induction false} CacheKeeps(c: Client, h: Header, buffer: bytes)
    ensures Cache(c, h, buffer).channels == c.channels && Cache(c, h, buffer).seen == c.seen
  {
  }

  lemma {:induction false} NoMessages()
    ensures MessagesOf([]) == []
  {
  }

  lemma {:induction false} NothingAfter(keyframe: Option<Segment>)
    ensures AfterKeyframe([], keyframe) == []
  {
  }

  lemma {:induction false} AfterStep(queue: seq<Segment>, i: nat, keyframe: Option<Segment>)
    requires i < |queue|
    ensures AfterKeyframe(queue[..i + 1], keyframe) ==
      if keyframe.Some? && queue[i].header.sequence > keyframe.value.header.sequence
      then AfterKeyframe(queue[..i], keyframe) + [queue[i]] else AfterKeyframe(queue[..i], keyframe)
  {
    assert queue[..i + 1][..i] == queue[..i];
    if keyframe.Some? {
      assert AfterKeyframe(queue[..i], keyframe) + [] == AfterKeyframe(queue[..i], keyframe);
    }
  }

  lemma {:induction false} SentOneMore(base: seq<Sent>, peer: Peer, info: seq<Message>, done: seq<Segment>, s: Segment)
    ensures base + To(peer, info + MessagesOf(done)) + To(peer, SegmentMessages(s.header, s.buffer))
         == base + To(peer, info + MessagesOf(done + [s]))
  {
    hide SegmentMessages;
    var a, b := info + MessagesOf(done), SegmentMessages(s.header, s.buffer);
    assert (done + [s])[..|done|] == done;
    assert info + MessagesOf(done + [s]) == a + b;
    ToConcat(peer, a, b);
  }
}
