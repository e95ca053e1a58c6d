/** The shared signaling state of the web server (node/src/web_server.rs) and its handlers, each proved against
    the step the protocol model takes. */
module SignalingServer {
  import opened Outcomes
  import opened Rooms
  import opened Signaling

  class SignalingState {
    var streams: Streams
    var peerSenders: Senders
    var streamLastActive: map<StreamId, nat>
    const config: Config

    constructor (config: Config)
      ensures Model() == Server(map[], map[], map[]) && this.config == config
    {
      streams, peerSenders, streamLastActive := map[], map[], map[];
      this.config := config;
    }

    function Model(): Server
      reads this
    {
      Server(streams, peerSenders, streamLastActive)
    }

    method TrySend(p: PeerId, m: Message)
      modifies this`peerSenders
      ensures peerSenders == Send(old(peerSenders), p, m)
    {
      if p in peerSenders {
        peerSenders := peerSenders[p := peerSenders[p] + [m]];
      }
    }

    /** The loop that notifies the given peers, one after another. */
    method Broadcast(peers: Room, m: Message)
      modifies this`peerSenders
      ensures peerSenders == SendAll(old(peerSenders), peers, m)
    {
      var i := 0;
      while i < |peers|
        invariant 0 <= i <= |peers|
        invariant peerSenders == SendAll(old(peerSenders), peers[..i], m)
      {
        TrySend(peers[i].id, m);
        assert peers[..i + 1][..i] == peers[..i];
        i := i + 1;
      }
      assert peers[..i] == peers;
    }

    /** Opening a connection registers its sender. */
    method Register(p: PeerId)
      modifies this`peerSenders
      ensures Model() == old(Model()).(senders := old(peerSenders)[p := []])
    {
      peerSenders := peerSenders[p := []];
    }

    method HandlePeerJoin(p: PeerId, current: Option<StreamId>, sid: StreamId, isPublisher: bool, allowed: bool, now: nat)
      returns (next: Option<StreamId>)
      modifies this
      ensures Handled(Model(), next) == Join(old(Model()), current, p, sid, isPublisher, allowed, now, config)
    {
      hide Retain, Find, ValidId, Send, SendAll;
      if !ValidId(sid, MAX_STREAM_ID) {
        TrySend(p, Error("Invalid stream ID"));
        return current;
      }
      if !allowed {
        TrySend(p, Error("You have been blocked from this node"));
        return current;
      }
      if sid !in streams && |streams| >= config.maxRooms {
        TrySend(p, Error("Max stream rooms reached"));
        return current;
      }
      if sid in streams {
        if !Has(streams[sid], p) && |streams[sid]| >= config.maxPeers {
          TrySend(p, Error("Stream room is full"));
          return current;
        }
      }
      var peers := if sid in streams then streams[sid] else [];
      peers := Retain(peers, p);
      peers := peers + [SignalingPeer(p, isPublisher, false)];
      streams := streams[sid := peers];
      streamLastActive := streamLastActive[sid := now];
      next := Some(sid);
      TrySend(p, PeerList(Retain(streams[sid], p)));
      Broadcast(Retain(streams[sid], p), PeerJoin(p, sid, isPublisher));
    }

    method HandlePeerUpdate(p: PeerId, current: Option<StreamId>, isPublisher: bool, canRelay: bool)
      modifies this
      ensures Model() == UpdateFlags(old(Model()), current, p, isPublisher, canRelay)
    {
      hide Retain, SendAll;
      var toNotify: Room := [];
      if current.Some? && current.value in streams {
        var peers := streams[current.value];
        var i := Find(peers, p);
        if i < |peers| {
          peers := peers[i := SignalingPeer(p, isPublisher, canRelay)];
        }
        streams := streams[current.value := peers];
        toNotify := Retain(peers, p);
      }
      NobodyToNotify(peerSenders, PeerUpdate(p, current, isPublisher, canRelay));
      if toNotify != [] {
        Broadcast(toNotify, PeerUpdate(p, current, isPublisher, canRelay));
      }
    }

    method CleanupSignalingPeer(p: PeerId, current: Option<StreamId>)
      modifies this
      ensures Model() == CleanupPeer(old(Model()), current, p)
    {
      hide Retain, SendAll;
      peerSenders := peerSenders - {p};
      if current.Some? && current.value in streams {
        var peers := Retain(streams[current.value], p);
        streams := streams[current.value := peers];
        Broadcast(peers, PeerLeave(p));
        if peers == [] {
          streams := streams - {current.value};
        }
      }
    }

    /** One text message of a connection. */
    method HandleSignalingMessage(p: PeerId, current: Option<StreamId>, r: Request, allowed: bool, now: nat) returns (next: Option<StreamId>)
      modifies this
      ensures Handled(Model(), next) == Handle(old(Model()), current, p, r, allowed, now, config)
      ensures r.OfferRequest? ==>
        if allowed && r.target.Some? then OnlyTo(old(peerSenders), peerSenders, r.target.value, Offer(p, r.target, r.sdp))
        else peerSenders == old(peerSenders)
      ensures r.AnswerRequest? ==> OnlyTo(old(peerSenders), peerSenders, r.answerTo, Answer(p, r.answerTo, r.sdp))
      ensures r.IceRequest? ==>
        OnlyTo(old(peerSenders), peerSenders, r.candidateFor, IceCandidate(p, r.candidateFor, r.candidate, r.sdpMid, r.sdpMLineIndex))
      ensures r.OfferRequest? || r.AnswerRequest? || r.IceRequest? ==>
        next == current && streams == old(streams) && streamLastActive == old(streamLastActive)
    {
      hide Join, UpdateFlags, CleanupPeer, Send, OnlyTo;
      next := current;
      match r {
        case JoinRequest(sid, isPublisher) => next := HandlePeerJoin(p, current, sid, isPublisher, allowed, now);
        case LeaveRequest =>
          CleanupSignalingPeer(p, current);
          next := None;
        case UpdateRequest(isPublisher, canRelay) => HandlePeerUpdate(p, current, isPublisher, canRelay);
        case OfferRequest(target, sdp) =>
          if allowed && target.Some? {
            SendIs(peerSenders, target.value, Offer(p, target, sdp));
            TrySend(target.value, Offer(p, target, sdp));
          }
        case AnswerRequest(target, sdp) =>
          SendIs(peerSenders, target, Answer(p, target, sdp));
          TrySend(target, Answer(p, target, sdp));
        case IceRequest(target, candidate, mid, index) =>
          SendIs(peerSenders, target, IceCandidate(p, target, candidate, mid, index));
          TrySend(target, IceCandidate(p, target, candidate, mid, index));
        case ServerOnlyRequest =>
        case MalformedRequest(error) => TrySend(p, Error("Invalid message format: " + error));
      }
    }

    /** Takes the peer out of every room, going through them in the order the hash map gives, which the ghost
        result records; answers the rooms it was in, with whoever remains there. */
    method RemoveEverywhere(p: PeerId) returns (affected: seq<(StreamId, Room)>, ghost order: seq<StreamId>)
      modifies this`streams
      ensures Enumerates(order, RoomsOf(old(streams), p))
      ensures IsAffected(affected, order, old(streams), p)
      ensures streams == Kick(old(streams), p)
    {
      hide Retain, Find, Has, Enumerates, IsAffected, PartlyRemoved, RoomsOf;
      affected, order := [], [];
      ghost var before := streams;
      var sids := streams.Keys;
      NoneAffected(before, p);
      while sids != {}
        invariant PartlyRemoved(streams, before, sids, p)
        invariant IsAffected(affected, order, before, p)
        invariant Enumerates(order, RoomsOf(before, p) - sids)
        decreases |sids|
      {
        var sid :| sid in sids;
        RoomIsNext(streams, before, sids, p, sid);
        if Has(streams[sid], p) {
          streams := streams[sid := Retain(streams[sid], p)];
          OneMoreAffected(affected, order, before, p, RoomsOf(before, p) - sids, sid);
          affected := affected + [(sid, streams[sid])];
          order := order + [sid];
        }
        sids := sids - {sid};
      }
      AllRemoved(streams, before, p);
      streams := map sid | sid in streams && streams[sid] != [] :: streams[sid];
    }

    method NotifyAffected(p: PeerId, affected: seq<(StreamId, Room)>, ghost order: seq<StreamId>, ghost before: Streams)
      requires IsAffected(affected, order, before, p)
      modifies this`peerSenders
      ensures peerSenders == NotifyRooms(old(peerSenders), before, p, order)
    {
      hide Retain, SendAll;
      var i := 0;
      while i < |affected|
        invariant 0 <= i <= |affected|
        invariant peerSenders == NotifyRooms(old(peerSenders), before, p, order[..i])
      {
        Broadcast(affected[i].1, PeerLeave(p));
        assert order[..i + 1][..i] == order[..i];
        i := i + 1;
      }
      assert order[..i] == order;
    }

    method KickPeerFromSignaling(p: PeerId) returns (ghost order: seq<StreamId>)
      modifies this
      ensures Enumerates(order, RoomsOf(old(streams), p))
      ensures Model() == KickPeer(old(Model()), p, order)
    {
      hide Enumerates, IsAffected, Kick, NotifyRooms;
      ghost var before := streams;
      var affected: seq<(StreamId, Room)>;
      affected, order := RemoveEverywhere(p);
      NotifyAffected(p, affected, order, before);
      peerSenders := peerSenders - {p};
    }

    /** One round of the idle cleanup task: rooms are visited in any order. */
    method IdleCleanup(now: nat, interval: nat)
      modifies this
      ensures Model() == IdleSweep(old(Model()), now, interval)
    {
      hide Stale, PartlySwept;
      ghost var before, stamps := streams, streamLastActive;
      var sids := streams.Keys;
      SweepBegins(streams, streamLastActive, now, interval);
      while sids != {}
        invariant PartlySwept(streams, streamLastActive, before, stamps, sids, now, interval)
        invariant peerSenders == old(peerSenders)
        decreases |sids|
      {
        var sid :| sid in sids;
        RoomIsSwept(streams, streamLastActive, before, stamps, sids, now, interval, sid);
        var keep := true;
        if streams[sid] == [] {
          streamLastActive := streamLastActive - {sid};
          keep := false;
        } else if sid in streamLastActive {
          if streamLastActive[sid] <= now && (now - streamLastActive[sid]) / 1000 > interval {
            streamLastActive := streamLastActive - {sid};
            keep := false;
          }
        }
        if !keep {
          streams := streams - {sid};
        }
        sids := sids - {sid};
      }
      SweepEnds(streams, streamLastActive, before, stamps, now, interval);
    }
  }

  /** The rooms are swept but for those `left` to visit. */
  ghost predicate PartlySwept(
    st: Streams, last: map<StreamId, nat>, before: Streams, stamps: map<StreamId, nat>, left: set<StreamId>, now: nat, interval: nat)
  {
    && left <= st.Keys <= before.Keys
    && (forall sid :: sid in st ==> st[sid] == before[sid])
    && (forall sid :: sid in before && sid !in left ==> (sid in st <==> before[sid] != [] && sid !in Stale(stamps, now, interval)))
    && last == stamps - (before.Keys - st.Keys)
  }

  lemma {:induction false} SweepBegins(st: Streams, last: map<StreamId, nat>, now: nat, interval: nat)
    ensures PartlySwept(st, last, st, last, st.Keys, now, interval)
  {
    hide Stale;
  }

  lemma {:induction false} RoomIsSwept(
    st: Streams, last: map<StreamId, nat>, before: Streams, stamps: map<StreamId, nat>, left: set<StreamId>, now: nat, interval: nat, sid: StreamId)
    requires PartlySwept(st, last, before, stamps, left, now, interval) && sid in left
    ensures sid in st && sid in before && st[sid] == before[sid]
    ensures var stale := sid in last && last[sid] <= now && (now - last[sid]) / 1000 > interval;
            && (st[sid] == [] || stale ==> PartlySwept(st - {sid}, last - {sid}, before, stamps, left - {sid}, now, interval))
            && (st[sid] != [] && !stale ==> PartlySwept(st, last, before, stamps, left - {sid}, now, interval))
  {
    StaleIff(stamps, now, interval, sid);
    hide Stale;
    assert last - {sid} == stamps - (before.Keys - (st - {sid}).Keys);
  }

  lemma {:induction false} SweepEnds(
    st: Streams, last: map<StreamId, nat>, before: Streams, stamps: map<StreamId, nat>, now: nat, interval: nat)
    requires PartlySwept(st, last, before, stamps, {}, now, interval)
    ensures st == Sweep(before, Stale(stamps, now, interval))
    ensures last == map sid | sid in stamps && (sid in before ==> sid in st) :: stamps[sid]
  {
    hide Stale;
  }

  lemma {:induction false} StaleIff(stamps: map<StreamId, nat>, now: nat, interval: nat, sid: StreamId)
    ensures sid in Stale(stamps, now, interval)
            <==> sid in stamps && stamps[sid] <= now && (now - stamps[sid]) / 1000 > interval
  {
  }

  /** The peer is out of every room but those `left` to visit. */
  ghost predicate PartlyRemoved(st: Streams, before: Streams, left: set<StreamId>, p: PeerId) {
    && st.Keys == before.Keys && left <= before.Keys
    && forall sid :: sid in before ==> st[sid] == if sid in left then before[sid] else Retain(before[sid], p)
  }

  lemma {:induction false} RoomIsNext(st: Streams, before: Streams, left: set<StreamId>, p: PeerId, sid: StreamId)
    requires PartlyRemoved(st, before, left, p) && sid in left
    ensures sid in st && sid in before && st[sid] == before[sid]
    ensures Has(before[sid], p) ==> PartlyRemoved(st[sid := Retain(before[sid], p)], before, left - {sid}, p)
    ensures Has(before[sid], p) ==> RoomsOf(before, p) - (left - {sid}) == RoomsOf(before, p) - left + {sid}
    ensures !Has(before[sid], p) ==> PartlyRemoved(st, before, left - {sid}, p)
    ensures !Has(before[sid], p) ==> RoomsOf(before, p) - (left - {sid}) == RoomsOf(before, p) - left
  {
    hide Retain, Has;
    RetainSize(before[sid], p);
  }

  lemma {:induction false} AllRemoved(st: Streams, before: Streams, p: PeerId)
    requires PartlyRemoved(st, before, {}, p)
    ensures (map sid | sid in st && st[sid] != [] :: st[sid]) == Kick(before, p)
    ensures RoomsOf(before, p) - {} == RoomsOf(before, p)
  {
    hide Retain, Has;
  }

  /** The affected rooms, in the order they were met, with whoever remains in them. */
  ghost predicate IsAffected(affected: seq<(StreamId, Room)>, order: seq<StreamId>, before: Streams, p: PeerId) {
    && |affected| == |order|
    && forall i :: 0 <= i < |order| ==> order[i] in before && affected[i] == (order[i], Retain(before[order[i]], p))
  }

  lemma {:induction false} NoneAffected(before: Streams, p: PeerId)
    ensures IsAffected([], [], before, p) && Enumerates([], RoomsOf(before, p) - before.Keys)
    ensures PartlyRemoved(before, before, before.Keys, p)
  {
  }

  lemma {:induction false} OneMoreAffected(affected: seq<(StreamId, Room)>, order: seq<StreamId>, before: Streams, p: PeerId, sids: set<StreamId>, sid: StreamId)
    requires IsAffected(affected, order, before, p) && Enumerates(order, sids) && sid !in sids && sid in before
    ensures IsAffected(affected + [(sid, Retain(before[sid], p))], order + [sid], before, p)
    ensures Enumerates(order + [sid], sids + {sid})
  {
    hide Retain;
    EnumeratesNext(order, sids, sid);
  }

  lemma {:induction false} NobodyToNotify(senders: Senders, m: Message)
    ensures SendAll(senders, [], m) == senders
  {
  }

  lemma {:induction false} EnumeratesNext(order: seq<StreamId>, sids: set<StreamId>, sid: StreamId)
    requires Enumerates(order, sids) && sid !in sids
    ensures Enumerates(order + [sid], sids + {sid})
  {
    var next := order + [sid];
    forall x | x in sids + {sid}
      ensures x in next
    {
      if x == sid {
        assert next[|order|] == sid;
      }
    }
  }
}
