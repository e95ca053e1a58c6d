/** A peer that vanishes in the middle of a chunked segment and comes back (web_viewer/webrtc-client.js, `onclose` and
    `onopen`): closing its channel forgets the pending header but not the half-received chunks. */
module Reconnect {
  import opened Bytes
  import opened Outcomes
  import opened ClientState
  import opened Framing

  predicate AllBinary(ms: seq<Message>) {
    forall i :: 0 <= i < |ms| ==> ms[i].Binary?
  }

  lemma {:induction false} PiecesAreBinary(buffer: bytes)
    ensures AllBinary(Pieces(buffer))
    decreases |buffer|
  {
    if |buffer| > MAX_CHUNK_SIZE {
      PiecesAreBinary(buffer[MAX_CHUNK_SIZE..]);
    }
  }

  /** While chunks are being collected, binary messages deliver nothing. */
  lemma {:induction false} BinaryCollects(v: View, p: Peer, ms: seq<Message>)
    requires v.chunks.Some? && AllBinary(ms)
    ensures PeerRun(v, p, ms).deliveries == [] && PeerRun(v, p, ms).view.chunks.Some?
    decreases |ms|
  {
    if ms != [] {
      assert ms[0].Binary?;
      BinaryCollects(PeerStep(v, p, ms[0]).view, p, ms[1..]);
    }
  }

  /** The first messages of a chunked segment, from the start marker on and short of the end marker. */
  lemma {:induction false} HalfASegment(v: View, p: Peer, h: Header, buffer: bytes, j: nat)
    requires |buffer| > MAX_CHUNK_SIZE && 2 <= j < |SegmentMessages(h, buffer)|
    ensures var r := PeerRun(v, p, SegmentMessages(h, buffer)[..j]);
            r.view.chunks.Some? && r.deliveries == []
  {
    hide Stored, PeerRun, Pieces;
    var pieces := Pieces(buffer);
    PiecesAreBinary(buffer);
    var front, some := [HeaderMessage(h), Text(ChunkStart(|buffer|))], pieces[..j - 2];
    assert SegmentMessages(h, buffer) == front + (pieces + [Text(ChunkEnd)]);
    assert SegmentMessages(h, buffer)[..j] == front + some;
    PeerRunOne(v, p, front[0]);
    var v1 := PeerStep(v, p, front[0]).view;
    StartStep(v1, p, |buffer|);
    PeerRunOne(v1, p, front[1]);
    PeerRunConcat(v, p, [front[0]], [front[1]]);
    assert [front[0]] + [front[1]] == front;
    PeerRunConcat(v, p, front, some);
    BinaryCollects(PeerRun(v, p, front).view, p, some);
  }

  lemma {:induction false} CloseView(c: Client, p: Peer)
    ensures ViewOf(CloseChannel(c, p), p) == View(ViewOf(c, p).chunks, None) && CloseChannel(c, p).delivered == c.delivered
  {
  }

  lemma {:induction false} OpenView(c: Client, p: Peer, now: int)
    ensures ViewOf(OpenChannel(c, p, now), p) == ViewOf(c, p) && OpenChannel(c, p, now).delivered == c.delivered
  {
    hide CachedMessages;
  }

  /** The channel closes and opens again. */
  function Again(c: Client, p: Peer, now: int): Client { OpenChannel(CloseChannel(c, p), p, now) }

  /** A run that reaches the left-over chunks: whatever other peers send meanwhile, a channel that closes inside a
      chunked segment leaves them behind for its successor. */
  lemma {:induction false} CutLeavesChunks(c: Client, events: seq<Event>, p: Peer, h: Header, buffer: bytes, j: nat, now: int)
    requires |buffer| > MAX_CHUNK_SIZE && 2 <= j < |SegmentMessages(h, buffer)|
    requires Project(events, p) == SegmentMessages(h, buffer)[..j]
    ensures var d := Again(Run(c, events), p, now);
            && ViewOf(d, p).chunks.Some? && ViewOf(d, p).header.None?
            && DeliveredFrom(d.delivered, p) == DeliveredFrom(c.delivered, p)
  {
    hide Run, DeliveredFrom, Project, PeerRun, SegmentMessages, CloseChannel, OpenChannel, ViewOf;
    Interleaved(c, events, p);
    HalfASegment(ViewOf(c, p), p, h, buffer, j);
    CloseView(Run(c, events), p);
    OpenView(CloseChannel(Run(c, events), p), p, now);
    assert DeliveredFrom(c.delivered, p) + [] == DeliveredFrom(c.delivered, p);
  }

  /** What the returning peer sends then is lost up to the first segment that is sent in chunks, so that all of it
      arrives exactly when there is nothing to send or its first segment is that long. */
  lemma {:induction false} ReturnIff(
      c: Client, events: seq<Event>, p: Peer, h: Header, buffer: bytes, j: nat, now: int, later: seq<Event>, segments: seq<Segment>)
    requires |buffer| > MAX_CHUNK_SIZE && 2 <= j < |SegmentMessages(h, buffer)|
    requires Project(events, p) == SegmentMessages(h, buffer)[..j]
    requires Project(later, p) == Encode(AsItems(segments)) && forall i :: 0 <= i < |segments| ==> segments[i].header.typed
    ensures var got := DeliveredFrom(Run(Again(Run(c, events), p, now), later).delivered, p);
            var before := DeliveredFrom(c.delivered, p);
            && got == before + Expected(AsItems(segments[FirstLong(segments)..]), p)
            && (got == before + Expected(AsItems(segments), p) <==> segments == [] || |segments[0].buffer| > MAX_CHUNK_SIZE)
  {
    hide Run, DeliveredFrom, Project, PeerRun, SegmentMessages, Again, ViewOf, Encode, Expected, AsItems, FirstLong;
    CutLeavesChunks(c, events, p, h, buffer, j, now);
    var d := Again(Run(c, events), p, now);
    Interleaved(d, later, p);
    StaleChunksSwallow(ViewOf(d, p), p, segments);
    StaleRoundTripIff(ViewOf(d, p), p, segments);
    var before, got, all := DeliveredFrom(c.delivered, p), PeerRun(ViewOf(d, p), p, Encode(AsItems(segments))).deliveries, Expected(AsItems(segments), p);
    SameTail(before, got, all);
  }

  lemma {:induction false} DropView(c: Client, p: Peer)
    ensures ViewOf(DropPeer(c, p), p) == View(None, ViewOf(c, p).header) && DropPeer(c, p).delivered == c.delivered
  {
  }

  /** The client hangs up itself; `onclose` may still follow, or not. Then the channel opens again. */
  function AgainAfterDrop(c: Client, p: Peer, closed: bool, now: int): Client {
    var d := DropPeer(c, p);
    OpenChannel(if closed then CloseChannel(d, p) else d, p, now)
  }

  /** Hanging up clears the chunks, so a return after it loses nothing: whatever was cut off before, all buffers the peer
      sends afterwards arrive in order, however the channels interleave. They arrive under their own headers exactly when
      no header was left over or the first segment has one that is recognised. */
  lemma {:induction false} ReturnAfterDropIff(
      c: Client, events: seq<Event>, p: Peer, closed: bool, now: int, later: seq<Event>, items: seq<Item>)
    requires Project(later, p) == Encode(items) && forall i :: 0 <= i < |items| ==> LegalItem(items[i])
    ensures var cut := Run(c, events);
            var before, got := DeliveredFrom(cut.delivered, p), DeliveredFrom(Run(AgainAfterDrop(cut, p, closed, now), later).delivered, p);
            && Buffers(got) == Buffers(before) + Buffers(Expected(items, p))
            && (got == before + Expected(items, p) <==> closed || p !in cut.pending || FirstTyped(items))
  {
    hide Run, DeliveredFrom, Project, PeerRun, CloseChannel, OpenChannel, DropPeer, Encode, Expected, Buffers, FirstTyped;
    var cut := Run(c, events);
    var d := DropPeer(cut, p);
    var e := if closed then CloseChannel(d, p) else d;
    PendingView(cut, p);
    hide ViewOf;
    DropView(cut, p);
    CloseView(d, p);
    OpenView(e, p, now);
    var f := AgainAfterDrop(cut, p, closed, now);
    Interleaved(f, later, p);
    var v := ViewOf(f, p);
    var before, own, all := DeliveredFrom(cut.delivered, p), PeerRun(v, p, Encode(items)).deliveries, Expected(items, p);
    if v.header.Some? {
      LeftHeaderIff(v, p, items);
    } else {
      ItemsArrive(p, items);
    }
    SameTail(before, own, all);
    BuffersConcat(before, own);
  }

  lemma {:induction false} PendingView(c: Client, p: Peer)
    ensures ViewOf(c, p).header.Some? <==> p in c.pending
  {
  }

  lemma {:induction false} SameTail(a: seq<Delivery>, x: seq<Delivery>, y: seq<Delivery>)
    ensures a + x == a + y <==> x == y
  {
    if a + x == a + y {
      assert (a + x)[|a|..] == (a + y)[|a|..];
    }
  }
}
