/** What a relay does with a segment it has not seen (web_viewer/webrtc-client.js, `relaySegmentToPeers`). */
module Relaying {
  import opened Bytes
  import opened Outcomes
  import opened ClientState
  import opened Replay

  lemma {:induction false} SkippedBroadcast(channels: seq<Channel>, from: Peer, ms: seq<Message>, p: Peer)
    ensures p != from && Absent(channels, p) ==> SentTo(Broadcast(Targets(channels, Some(from)), ms), p) == []
    ensures p != from && Connected(channels, p) ==> SentTo(Broadcast(Targets(channels, Some(from)), ms), p) == ms
    ensures p == from ==> SentTo(Broadcast(Targets(channels, Some(from)), ms), p) == []
    decreases |channels|
  {
    hide To, SentTo;
    if channels == [] {
      NothingToSend(p);
    } else {
      var init, last := channels[..|channels| - 1], channels[|channels| - 1];
      SkippedBroadcast(init, from, ms, p);
      var t := Targets(init, Some(from));
      if last.open && last.peer != from {
        assert (t + [last.peer])[..|t|] == t;
        SentToConcat(Broadcast(t, ms), To(last.peer, ms), p);
        SentToOne(last.peer, ms, p);
      } else {
        assert t + [] == t;
      }
      assert [] + ms == ms;
    }
  }

  /** Whether the client relays once the segment is accepted: an init segment may be what it was waiting for. */
  predicate Ready(c: Client, h: Header, buffer: bytes, from: Peer) {
    !c.isPublisher && Accept(c, h, buffer, from).canRelay
  }

  /** Every connected peer but the one it came from is sent the segment with one hop less, exactly when the client
      relays, has not seen the number and the ttl is not used up; the peer it came from is sent nothing. */
  lemma {:induction false} RelayedToOthers(c: Client, h: Header, buffer: bytes, from: Peer, p: Peer)
    requires p == from || Connected(c.channels, p)
    ensures SentTo(Process(c, h, buffer, from).sent, p) ==
      SentTo(c.sent, p)
      + if p != from && Ready(c, h, buffer, from) && h.sequence !in c.seen && Ttl(h) > 1
        then SegmentMessages(h.(typed := true, size := |buffer|, ttl := Some(Ttl(h) - 1), fromPeer := None), buffer)
        else []
  {
    hide SentTo, Connected, AddSeen, PushQueue, SegmentMessages, Broadcast, Targets;
    var c1 := Accept(c, h, buffer, from);
    var ms := SegmentMessages(RelayHeader(h, buffer), buffer);
    assert SentTo(c.sent, p) + [] == SentTo(c.sent, p);
    assert c1.sent == c.sent && c1.channels == c.channels && c1.seen == c.seen && c1.isPublisher == c.isPublisher;
    hide Accept, Absent;
    if Relays(c1, h) {
      SkippedBroadcast(c.channels, from, ms, p);
      SentToConcat(c.sent, Broadcast(RelayTargets(c1, h, from), ms), p);
      if Ttl(h) - 1 <= 0 {
        NobodyMeant(ms, p);
      }
    }
  }

  lemma {:induction false} NobodyMeant(ms: seq<Message>, p: Peer)
    ensures SentTo(Broadcast([], ms), p) == []
  {
  }
}
