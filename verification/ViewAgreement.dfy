/** Whole runs of the signaling server (node/src/web_server.rs): connections come and go, send requests, are
    kicked or swept away, and every member that still has a sender knows exactly who else is in its room. */
module ViewAgreement {
  import opened Outcomes
  import opened Rooms
  import opened Signaling

  /** The server, the `current_stream_id` of every open connection, and the peer ids given out so far. */
  datatype System = System(server: Server, conns: map<PeerId, Option<StreamId>>, used: set<PeerId>)

  const START: System := System(Server(map[], map[], map[]), map[], {})

  datatype Step =
    | Connect(p: PeerId)
    | Message(p: PeerId, request: Request, allowed: bool, now: nat)
    | Disconnect(p: PeerId)
    | KickStep(p: PeerId, order: seq<StreamId>)
    | SweepStep(now: nat, interval: nat)

  predicate InNoOtherRoom(st: Streams, p: PeerId, sid: StreamId) {
    forall other :: other in st && other != sid ==> !Has(st[other], p)
  }

  predicate Enabled(sys: System, step: Step) {
    match step
    case Connect(p) => p !in sys.used
    case Message(p, request, _, _) => p in sys.conns
    case Disconnect(p) => p in sys.conns
    case KickStep(p, order) => Enumerates(order, RoomsOf(sys.server.streams, p))
    case SweepStep(_, _) => true
  }

  /** A connection leaves its room before it joins a different one. */
  predicate LeavesFirst(sys: System, step: Step) {
    step.Message? && step.request.JoinRequest? ==> InNoOtherRoom(sys.server.streams, step.p, step.request.sid)
  }

  function Take(sys: System, step: Step, cfg: Config): System
    requires Enabled(sys, step)
  {
    match step
    case Connect(p) =>
      System(sys.server.(senders := sys.server.senders[p := []]), sys.conns[p := None], sys.used + {p})
    case Message(p, request, allowed, now) =>
      var h := Handle(sys.server, sys.conns[p], p, request, allowed, now, cfg);
      System(h.server, sys.conns[p := h.current], sys.used)
    case Disconnect(p) => System(CleanupPeer(sys.server, sys.conns[p], p), sys.conns - {p}, sys.used)
    case KickStep(p, order) => sys.(server := KickPeer(sys.server, p, order))
    case SweepStep(now, interval) => sys.(server := IdleSweep(sys.server, now, interval))
  }

  // ---------------------------------------------------------------- the invariant

  /** What a member has been told is the rest of its room, with the current flags. */
  ghost predicate Agrees(s: Server) {
    forall sid, p :: sid in s.streams && p in s.senders && Has(s.streams[sid], p)
      ==> Seen(s.senders[p]) == Members(s.streams[sid]) - {p}
  }

  ghost predicate Consistent(sys: System) {
    && (forall sid :: sid in sys.server.streams ==> Unique(sys.server.streams[sid]))
    && (forall sid, p :: sid in sys.server.streams && Has(sys.server.streams[sid], p)
          ==> p in sys.conns && sys.conns[p] == Some(sid))
    && sys.server.senders.Keys <= sys.conns.Keys <= sys.used
  }

  lemma {:induction false} HasRetain(room: Room, p: PeerId, q: PeerId)
    ensures Has(Retain(room, p), q) <==> Has(room, q) && q != p
  {
    MembersRetain(room, p);
    MembersAt(room, q);
    MembersAt(Retain(room, p), q);
  }

  /** A notification to the rest of a room, as one recipient sees it. */
  lemma {:induction false} NotifyAt(senders: Senders, room: Room, p: PeerId, m: Signaling.Message, q: PeerId)
    requires Unique(room)
    ensures var sent := SendAll(senders, Retain(room, p), m);
            && sent.Keys == senders.Keys
            && (q in senders ==> sent[q] == senders[q] + if Has(room, q) && q != p then [m] else [])
            && (q in senders ==> Seen(sent[q]) == if Has(room, q) && q != p then See(Seen(senders[q]), m) else Seen(senders[q]))
  {
    RetainIs(room, p);
    HasRetain(room, p, q);
    hide Retain, Unique, Find, SendAll, Seen, See;
    SendAllAt(senders, Retain(room, p), m, q);
    if q in senders {
      SeenNext(senders[q], m);
      assert senders[q] + [] == senders[q];
    }
  }

  lemma {:induction false} SendNeutral(s: Server, p: PeerId, m: Signaling.Message)
    requires Agrees(s) && (m.Error? || m.Offer? || m.Answer? || m.IceCandidate?)
    ensures Agrees(s.(senders := Send(s.senders, p, m)))
    ensures Send(s.senders, p, m).Keys == s.senders.Keys
  {
    if p in s.senders {
      SeenNext(s.senders[p], m);
      assert Seen(s.senders[p] + [m]) == Seen(s.senders[p]);
    }
    hide Seen, Members, Has;
    var sent := Send(s.senders, p, m);
    assert forall q :: q in s.senders ==> q in sent && Seen(sent[q]) == Seen(s.senders[q]);
    hide Send;
  }

  lemma {:induction false} EmptyRoom(q: PeerId)
    ensures !Has([], q) && Members([]) == map[] && Unique([])
  {
  }

  // ---------------------------------------------------------------- one step at a time

  lemma {:induction false} JoinRoom(room: Room, p: PeerId, isPublisher: bool, q: PeerId)
    requires Unique(room)
    ensures var joined := Retain(room, p) + [SignalingPeer(p, isPublisher, false)];
            && Unique(joined)
            && Members(joined) == Members(room)[p := Flags(isPublisher, false)]
            && (Has(joined, q) <==> Has(room, q) || q == p)
            && Members(Retain(joined, p)) == Members(room) - {p}
  {
    var x := SignalingPeer(p, isPublisher, false);
    EnterRoom(room, p, isPublisher);
    MembersRetain(room, p);
    MembersAppend(Retain(room, p), x);
    assert (Members(room) - {p})[p := Flags(isPublisher, false)] == Members(room)[p := Flags(isPublisher, false)];
    HasLast(Retain(room, p), x, q);
    HasRetain(room, p, q);
    MembersRetain(Retain(room, p) + [x], p);
    assert Members(room)[p := Flags(isPublisher, false)] - {p} == Members(room) - {p};
  }

  /** What an accepted join comes to, as one peer sees it. */
  ghost predicate JoinedAs(s: Server, next: Server, p: PeerId, sid: StreamId, isPublisher: bool, q: PeerId) {
    var room := if sid in s.streams then s.streams[sid] else [];
    var f := Flags(isPublisher, false);
    && next.senders.Keys == s.senders.Keys
    && sid in next.streams && Unique(next.streams[sid])
    && Members(next.streams[sid]) == Members(room)[p := f]
    && (Has(next.streams[sid], q) <==> Has(room, q) || q == p)
    && (q in s.senders && q == p ==> Seen(next.senders[q]) == Members(room) - {p})
    && (q in s.senders && q != p && Has(room, q) ==> Seen(next.senders[q]) == Seen(s.senders[q])[p := f])
    && (q in s.senders && q != p && !Has(room, q) ==> Seen(next.senders[q]) == Seen(s.senders[q]))
  }

  lemma {:induction false} JoinRefused(s: Server, current: Option<StreamId>, p: PeerId, sid: StreamId, isPublisher: bool, allowed: bool, now: nat, cfg: Config)
    requires JoinError(s, p, sid, allowed, cfg).Some?
    ensures var error := JoinError(s, p, sid, allowed, cfg).value;
            Join(s, current, p, sid, isPublisher, allowed, now, cfg) == Handled(s.(senders := Send(s.senders, p, Error(error))), current)
  {
    hide Retain, Send, SendAll, Find, ValidId;
  }

  lemma {:induction false} JoinAllowed(s: Server, p: PeerId, sid: StreamId, allowed: bool, cfg: Config)
    requires JoinError(s, p, sid, allowed, cfg).None?
    ensures allowed && JoinError(s, p, sid, true, cfg).None?
  {
  }

  lemma {:induction false} JoinIs(s: Server, current: Option<StreamId>, p: PeerId, sid: StreamId, isPublisher: bool, now: nat, cfg: Config)
    requires JoinError(s, p, sid, true, cfg).None?
    ensures var joined := Retain(if sid in s.streams then s.streams[sid] else [], p) + [SignalingPeer(p, isPublisher, false)];
            var others := Retain(joined, p);
            var h := Join(s, current, p, sid, isPublisher, true, now, cfg);
            && h.current == Some(sid)
            && h.server.streams == s.streams[sid := joined]
            && h.server.senders == SendAll(Send(s.senders, p, PeerList(others)), others, PeerJoin(p, sid, isPublisher))
  {
    hide Retain, Send, SendAll, Find, ValidId;
  }

  /** The list for the newcomer and the notification for the others, as one peer sees them. */
  lemma {:induction false} ListAndNotify(senders: Senders, joined: Room, p: PeerId, sid: StreamId, isPublisher: bool, q: PeerId)
    requires Unique(joined)
    ensures var others := Retain(joined, p);
            var sent := SendAll(Send(senders, p, PeerList(others)), others, PeerJoin(p, sid, isPublisher));
            && sent.Keys == senders.Keys
            && (q in senders && q == p ==> Seen(sent[q]) == See(Seen(senders[q]), PeerList(others)))
            && (q in senders && q != p && Has(joined, q) ==> Seen(sent[q]) == See(Seen(senders[q]), PeerJoin(p, sid, isPublisher)))
            && (q in senders && q != p && !Has(joined, q) ==> Seen(sent[q]) == Seen(senders[q]))
  {
    hide Retain, Unique, SendAll, Seen, See, Has;
    var list := PeerList(Retain(joined, p));
    NotifyAt(Send(senders, p, list), joined, p, PeerJoin(p, sid, isPublisher), q);
    if p in senders {
      SeenNext(senders[p], list);
    }
  }

  lemma {:induction false} JoinSeen(s: Server, current: Option<StreamId>, p: PeerId, sid: StreamId, isPublisher: bool, now: nat, cfg: Config, q: PeerId)
    requires JoinError(s, p, sid, true, cfg).None? && (sid in s.streams ==> Unique(s.streams[sid]))
    ensures JoinedAs(s, Join(s, current, p, sid, isPublisher, true, now, cfg).server, p, sid, isPublisher, q)
  {
    hide Retain, Members, Has, Find, Unique, Seen, Send, SendAll;
    var room := if sid in s.streams then s.streams[sid] else [];
    EmptyRoom(q);
    JoinRoom(room, p, isPublisher, q);
    JoinIs(s, current, p, sid, isPublisher, now, cfg);
    hide Join, JoinError;
    ListAndNotify(s.senders, Retain(room, p) + [SignalingPeer(p, isPublisher, false)], p, sid, isPublisher, q);
  }

  lemma {:induction false} JoinKeeps(sys: System, p: PeerId, sid: StreamId, isPublisher: bool, allowed: bool, now: nat, cfg: Config)
    requires Consistent(sys) && Agrees(sys.server) && p in sys.conns && InNoOtherRoom(sys.server.streams, p, sid)
    ensures var h := Join(sys.server, sys.conns[p], p, sid, isPublisher, allowed, now, cfg);
            var next := System(h.server, sys.conns[p := h.current], sys.used);
            Consistent(next) && Agrees(next.server)
  {
    var s, cur := sys.server, sys.conns[p];
    var error := JoinError(s, p, sid, allowed, cfg);
    hide Retain, Members, Seen, Send, SendAll, Find, Unique, Has, Join;
    if error.Some? {
      JoinRefused(s, cur, p, sid, isPublisher, allowed, now, cfg);
      RelayKeeps(sys, p, Error(error.value));
      assert sys.conns[p := cur] == sys.conns;
      hide Consistent, Agrees, JoinError;
    } else {
      JoinAllowed(s, p, sid, allowed, cfg);
      hide JoinError;
      AcceptedJoinKeeps(sys, p, sid, isPublisher, now, cfg);
    }
  }

  lemma {:induction false} AcceptedJoinKeeps(sys: System, p: PeerId, sid: StreamId, isPublisher: bool, now: nat, cfg: Config)
    requires Consistent(sys) && Agrees(sys.server) && p in sys.conns && InNoOtherRoom(sys.server.streams, p, sid)
    requires JoinError(sys.server, p, sid, true, cfg).None?
    ensures var h := Join(sys.server, sys.conns[p], p, sid, isPublisher, true, now, cfg);
            var next := System(h.server, sys.conns[p := h.current], sys.used);
            Consistent(next) && Agrees(next.server)
  {
    hide Retain, Members, Seen, Send, SendAll, Find, Unique, Has, Join, JoinError;
    var s, cur := sys.server, sys.conns[p];
    var h := Join(s, cur, p, sid, isPublisher, true, now, cfg);
    forall q
      ensures JoinedAs(s, h.server, p, sid, isPublisher, q)
    {
      JoinSeen(s, cur, p, sid, isPublisher, now, cfg, q);
    }
    JoinIs(s, cur, p, sid, isPublisher, now, cfg);
    hide JoinedAs, Consistent, Agrees;
    RoomAgrees(sys, System(h.server, sys.conns[p := h.current], sys.used), p, sid, isPublisher);
  }

  lemma {:induction false} RoomAgrees(sys: System, next: System, p: PeerId, sid: StreamId, isPublisher: bool)
    requires Consistent(sys) && Agrees(sys.server) && p in sys.conns && InNoOtherRoom(sys.server.streams, p, sid)
    requires forall q :: JoinedAs(sys.server, next.server, p, sid, isPublisher, q)
    requires sid in next.server.streams && next.server.streams == sys.server.streams[sid := next.server.streams[sid]]
    requires next.conns == sys.conns[p := Some(sid)] && next.used == sys.used
    ensures Consistent(next) && Agrees(next.server)
  {
    hide Members, Has, Unique, Seen;
    var s, t := sys.server, next.server;
    assert JoinedAs(s, t, p, sid, isPublisher, p);
    forall other, q | other in t.streams && Has(t.streams[other], q)
      ensures q in next.conns && next.conns[q] == Some(other)
      ensures q in t.senders ==> Seen(t.senders[q]) == Members(t.streams[other]) - {q}
    {
      assert JoinedAs(s, t, p, sid, isPublisher, q);
      EmptyRoom(q);
      if other == sid {
        HomeAgrees(sys, next, p, sid, isPublisher, q);
      } else {
        assert t.streams[other] == s.streams[other] && q != p;
      }
    }
  }

  /** The room that was joined. */
  lemma {:induction false} HomeAgrees(sys: System, next: System, p: PeerId, sid: StreamId, isPublisher: bool, q: PeerId)
    requires Consistent(sys) && Agrees(sys.server) && p in sys.conns && InNoOtherRoom(sys.server.streams, p, sid)
    requires JoinedAs(sys.server, next.server, p, sid, isPublisher, q)
    requires sid in next.server.streams && Has(next.server.streams[sid], q)
    requires next.conns == sys.conns[p := Some(sid)]
    ensures q in next.conns && next.conns[q] == Some(sid)
    ensures q in next.server.senders ==> Seen(next.server.senders[q]) == Members(next.server.streams[sid]) - {q}
  {
    hide Members, Has, Unique, Seen;
    EmptyRoom(q);
  }

  /** The hypothesis of `JoinKeeps` is needed: a connection that joins a second room stays in its first, and then
      the agreement survives exactly when it has no sender or nobody else is in either room. */
  lemma {:induction false} SecondRoomIff(sys: System, p: PeerId, home: StreamId, sid: StreamId, isPublisher: bool, now: nat, cfg: Config)
    requires Consistent(sys) && Agrees(sys.server) && p in sys.conns
    requires home in sys.server.streams && home != sid && Has(sys.server.streams[home], p)
    requires JoinError(sys.server, p, sid, true, cfg).None?
    ensures var st := sys.server.streams;
            Agrees(Join(sys.server, sys.conns[p], p, sid, isPublisher, true, now, cfg).server)
            <==> p !in sys.server.senders
                 || (Members(st[home]).Keys == {p} && (sid in st ==> Members(st[sid]) == map[]))
  {
    hide Retain, Members, Has, Find, Unique, Seen, Send, SendAll, ValidId, JoinError, Join;
    var s, cur := sys.server, sys.conns[p];
    var t := Join(s, cur, p, sid, isPublisher, true, now, cfg).server;
    JoinIs(s, cur, p, sid, isPublisher, now, cfg);
    forall q
      ensures JoinedAs(s, t, p, sid, isPublisher, q)
    {
      JoinSeen(s, cur, p, sid, isPublisher, now, cfg, q);
    }
    hide JoinedAs;
    if p in s.senders && Agrees(t) {
      TwoRoomsDisagree(sys, t, p, home, sid, isPublisher);
    }
    if p !in s.senders || (Members(s.streams[home]).Keys == {p} && (sid in s.streams ==> Members(s.streams[sid]) == map[])) {
      TwoRoomsAgree(sys, t, p, home, sid, isPublisher);
    }
  }

  lemma {:induction false} TwoRoomsDisagree(sys: System, t: Server, p: PeerId, home: StreamId, sid: StreamId, isPublisher: bool)
    requires Consistent(sys) && home in sys.server.streams && home != sid && Has(sys.server.streams[home], p)
    requires JoinedAs(sys.server, t, p, sid, isPublisher, p) && p in sys.server.senders && Agrees(t)
    requires sid in t.streams && t.streams == sys.server.streams[sid := t.streams[sid]]
    ensures var st := sys.server.streams;
            Members(st[home]).Keys == {p} && (sid in st ==> Members(st[sid]) == map[])
  {
    hide Members, Has, Find, Unique, Seen;
    var s := sys.server;
    EmptyRoom(p);
    assert t.streams[home] == s.streams[home];
    assert Seen(t.senders[p]) == Members(s.streams[home]) - {p};
    DisjointRooms(sys, home, sid, p);
  }

  lemma {:induction false} TwoRoomsAgree(sys: System, t: Server, p: PeerId, home: StreamId, sid: StreamId, isPublisher: bool)
    requires Consistent(sys) && Agrees(sys.server) && p in sys.conns
    requires home in sys.server.streams && home != sid && Has(sys.server.streams[home], p)
    requires forall q :: JoinedAs(sys.server, t, p, sid, isPublisher, q)
    requires sid in t.streams && t.streams == sys.server.streams[sid := t.streams[sid]]
    requires var st := sys.server.streams;
             p !in sys.server.senders || (Members(st[home]).Keys == {p} && (sid in st ==> Members(st[sid]) == map[]))
    ensures Agrees(t)
  {
    hide Members, Has, Find, Unique, Seen;
    var s := sys.server;
    var room := if sid in s.streams then s.streams[sid] else [];
    assert JoinedAs(s, t, p, sid, isPublisher, p);
    EmptyRoom(p);
    forall other, q | other in t.streams && Has(t.streams[other], q) && q in t.senders
      ensures Seen(t.senders[q]) == Members(t.streams[other]) - {q}
    {
      assert JoinedAs(s, t, p, sid, isPublisher, q);
      EmptyRoom(q);
      MembersAt(room, q);
      MembersAt(s.streams[home], q);
      if q == p && other != sid {
        assert sys.conns[p] == Some(other) == Some(home);
        assert Members(s.streams[home]) - {p} == map[];
      }
    }
  }

  lemma {:induction false} OneRoom(sys: System, a: StreamId, b: StreamId, q: PeerId)
    requires Consistent(sys) && a != b
    ensures a in sys.server.streams && b in sys.server.streams ==> !Has(sys.server.streams[a], q) || !Has(sys.server.streams[b], q)
  {
    hide Has, Unique;
    var st := sys.server.streams;
    if a in st && Has(st[a], q) {
      var home := sys.conns[q];
      assert home == Some(a);
      assert b in st && Has(st[b], q) ==> home == Some(b);
    }
  }

  lemma {:induction false} DisjointRooms(sys: System, home: StreamId, sid: StreamId, p: PeerId)
    requires Consistent(sys) && home in sys.server.streams && home != sid && Has(sys.server.streams[home], p)
    requires var room := if sid in sys.server.streams then sys.server.streams[sid] else [];
             Members(sys.server.streams[home]) - {p} == Members(room) - {p}
    ensures Members(sys.server.streams[home]).Keys == {p}
    ensures sid in sys.server.streams ==> Members(sys.server.streams[sid]) == map[]
  {
    hide Members, Has, Find, Unique;
    var st := sys.server.streams;
    var room := if sid in st then st[sid] else [];
    EmptyRoom(p);
    forall q
      ensures q in Members(st[home]) <==> q == p
      ensures q !in Members(room)
    {
      EmptyRoom(q);
      OneRoom(sys, home, sid, p);
      OneRoom(sys, home, sid, q);
      MembersAt(st[home], q);
      MembersAt(room, q);
      MembersAt(st[home], p);
      MembersAt(room, p);
      assert q in Members(st[home]) - {p} <==> q in Members(room) - {p};
    }
  }

  /** What a change of one room by one of its connections means to another peer. */
  ghost predicate ChangedFor(s: Server, t: Server, sid: StreamId, q: PeerId) {
    && (q in t.senders ==> q in s.senders)
    && (sid in t.streams && Has(t.streams[sid], q) ==>
          && sid in s.streams && Has(s.streams[sid], q)
          && (q in t.senders ==> Seen(t.senders[q]) == Members(t.streams[sid]) - {q}))
    && (sid in s.streams && !Has(s.streams[sid], q) && q in t.senders ==> Seen(t.senders[q]) == Seen(s.senders[q]))
  }

  lemma {:induction false} OneRoomChanges(sys: System, t: Server, sid: StreamId)
    requires Consistent(sys) && Agrees(sys.server) && sid in sys.server.streams
    requires t.streams.Keys <= sys.server.streams.Keys
    requires forall other :: other in t.streams && other != sid ==> t.streams[other] == sys.server.streams[other]
    requires sid in t.streams ==> Unique(t.streams[sid])
    requires forall q :: ChangedFor(sys.server, t, sid, q)
    ensures Agrees(t) && Consistent(sys.(server := t))
  {
    hide Members, Has, Find, Unique, Seen;
    forall other, q | other in t.streams && Has(t.streams[other], q)
      ensures other in sys.server.streams && Has(sys.server.streams[other], q)
      ensures q in t.senders ==> Seen(t.senders[q]) == Members(t.streams[other]) - {q}
    {
      assert ChangedFor(sys.server, t, sid, q);
      if other != sid {
        OneRoom(sys, other, sid, q);
      }
    }
    forall q | q in t.senders
      ensures q in sys.conns
    {
      assert ChangedFor(sys.server, t, sid, q);
    }
  }

  lemma {:induction false} UpdateKeeps(sys: System, p: PeerId, isPublisher: bool, canRelay: bool)
    requires Consistent(sys) && Agrees(sys.server) && p in sys.conns
    ensures var next := sys.(server := UpdateFlags(sys.server, sys.conns[p], p, isPublisher, canRelay));
            Consistent(next) && Agrees(next.server)
  {
    var s, cur := sys.server, sys.conns[p];
    var t := UpdateFlags(s, cur, p, isPublisher, canRelay);
    hide Members, Has, Find, Unique, Seen, Retain, SetFlags, SendAll;
    if cur.Some? && cur.value in s.streams {
      var sid := cur.value;
      var room := s.streams[sid];
      UpdateRoom(room, p, isPublisher, canRelay);
      forall q
        ensures ChangedFor(s, t, sid, q)
      {
        UpdateSeen(s.senders, room, sid, p, isPublisher, canRelay, q);
      }
      hide ChangedFor;
      OneRoomChanges(sys, t, sid);
    }
  }

  lemma {:induction false} UpdateSeen(senders: Senders, room: Room, sid: StreamId, p: PeerId, isPublisher: bool, canRelay: bool, q: PeerId)
    requires Unique(room)
    ensures var room' := SetFlags(room, p, isPublisher, canRelay);
            var sent := SendAll(senders, Retain(room', p), PeerUpdate(p, Some(sid), isPublisher, canRelay));
            && sent.Keys == senders.Keys
            && (Has(room', q) <==> Has(room, q))
            && (q in senders && Has(room, q) && Seen(senders[q]) == Members(room) - {q} ==> Seen(sent[q]) == Members(room') - {q})
            && (q in senders && !Has(room, q) ==> Seen(sent[q]) == Seen(senders[q]))
  {
    hide Members, Has, Find, Unique, Seen, Retain, SetFlags, SendAll;
    var room', f := SetFlags(room, p, isPublisher, canRelay), Flags(isPublisher, canRelay);
    UpdateRoom(room, p, isPublisher, canRelay);
    NotifyAt(senders, room', p, PeerUpdate(p, Some(sid), isPublisher, canRelay), q);
    HasMember(room, room', q);
    assert q != p ==> (Members(room) - {q})[p := f] == Members(room)[p := f] - {q};
    assert Members(room)[p := f] - {p} == Members(room) - {p};
  }

  lemma {:induction false} UpdateRoom(room: Room, p: PeerId, isPublisher: bool, canRelay: bool)
    requires Unique(room)
    ensures var room' := SetFlags(room, p, isPublisher, canRelay);
            && Unique(room')
            && Members(room') == (if p in Members(room) then Members(room)[p := Flags(isPublisher, canRelay)] else Members(room))
            && Members(room').Keys == Members(room).Keys
  {
    MembersSetFlags(room, p, isPublisher, canRelay);
  }

  lemma {:induction false} HasMember(room: Room, room': Room, q: PeerId)
    ensures Members(room).Keys == Members(room').Keys ==> (Has(room, q) <==> Has(room', q))
  {
    MembersAt(room, q);
    MembersAt(room', q);
  }

  lemma {:induction false} CleanupKeeps(sys: System, p: PeerId)
    requires Consistent(sys) && Agrees(sys.server) && p in sys.conns
    ensures var server := CleanupPeer(sys.server, sys.conns[p], p);
            && Agrees(server)
            && Consistent(System(server, sys.conns[p := None], sys.used))
            && Consistent(System(server, sys.conns - {p}, sys.used))
  {
    hide Members, Has, Find, Unique, Seen, Retain, SendAll;
    var s, cur := sys.server, sys.conns[p];
    var t := CleanupPeer(s, cur, p);
    if cur.Some? && cur.value in s.streams {
      LeaveKeeps(sys, cur.value, p);
      hide CleanupPeer, Agrees, Consistent;
    } else {
      forall sid | sid in s.streams
        ensures !Has(s.streams[sid], p)
      {
      }
    }
    assert p in sys.used;
    assert sys.used + {p} == sys.used;
    ForgetConnection(sys.(server := t), p);
  }

  lemma {:induction false} LeaveKeeps(sys: System, sid: StreamId, p: PeerId)
    requires Consistent(sys) && Agrees(sys.server) && p in sys.conns && sys.conns[p] == Some(sid) && sid in sys.server.streams
    ensures var t := CleanupPeer(sys.server, Some(sid), p);
            && Agrees(t) && Consistent(sys.(server := t)) && p !in t.senders
            && forall other :: other in t.streams ==> !Has(t.streams[other], p)
  {
    hide Members, Has, Find, Unique, Seen, Retain, SendAll;
    var s := sys.server;
    var t := CleanupPeer(s, Some(sid), p);
    var room := s.streams[sid];
    LeaveRoom(room, p, p);
    assert sid in t.streams ==> t.streams[sid] == Retain(room, p);
    assert t.senders == SendAll(s.senders - {p}, Retain(room, p), PeerLeave(p));
    assert t.streams.Keys <= s.streams.Keys && forall other :: other in t.streams && other != sid ==> t.streams[other] == s.streams[other];
    hide CleanupPeer, Agrees, Consistent;
    LeaveSeen(s.senders, room, p, p);
    forall q
      ensures ChangedFor(s, t, sid, q)
    {
      LeaveSeen(s.senders, room, p, q);
      if q in s.senders && Has(room, q) {
        AgreesAt(sys, sid, q);
      }
    }
    hide ChangedFor;
    OneRoomChanges(sys, t, sid);
    forall other | other in t.streams
      ensures !Has(t.streams[other], p)
    {
      if other != sid {
        OneRoom(sys, other, sid, p);
        HasHome(sys, other, p);
      }
    }
  }

  lemma {:induction false} AgreesAt(sys: System, sid: StreamId, q: PeerId)
    requires Agrees(sys.server) && sid in sys.server.streams && Has(sys.server.streams[sid], q) && q in sys.server.senders
    ensures Seen(sys.server.senders[q]) == Members(sys.server.streams[sid]) - {q}
  {
  }

  lemma {:induction false} HasHome(sys: System, sid: StreamId, q: PeerId)
    requires Consistent(sys) && sid in sys.server.streams && q in sys.conns
    ensures Has(sys.server.streams[sid], q) ==> sys.conns[q] == Some(sid)
  {
  }

  lemma {:induction false} ForgetConnection(sys: System, p: PeerId)
    requires Consistent(sys) && p !in sys.server.senders
    requires forall sid :: sid in sys.server.streams ==> !Has(sys.server.streams[sid], p)
    ensures Consistent(sys.(conns := sys.conns[p := None], used := sys.used + {p}))
    ensures Consistent(sys.(conns := sys.conns - {p}))
  {
    hide Has, Unique;
  }

  lemma {:induction false} LeaveSeen(senders: Senders, room: Room, p: PeerId, q: PeerId)
    requires Unique(room)
    ensures var sent := SendAll(senders - {p}, Retain(room, p), PeerLeave(p));
            && sent.Keys == senders.Keys - {p}
            && (Has(Retain(room, p), q) <==> Has(room, q) && q != p)
            && (q in sent && Has(room, q) && Seen(senders[q]) == Members(room) - {q} ==> Seen(sent[q]) == Members(Retain(room, p)) - {q})
            && (q in sent && !Has(room, q) ==> Seen(sent[q]) == Seen(senders[q]))
  {
    hide Members, Has, Find, Unique, Seen, Retain, SendAll;
    NotifyAt(senders - {p}, room, p, PeerLeave(p), q);
    LeaveRoom(room, p, q);
  }

  lemma {:induction false} LeaveRoom(room: Room, p: PeerId, q: PeerId)
    requires Unique(room)
    ensures Unique(Retain(room, p))
    ensures Has(Retain(room, p), q) <==> Has(room, q) && q != p
    ensures Members(Retain(room, p)) - {q} == See(Members(room) - {q}, PeerLeave(p))
  {
    hide Members, Retain, Find, Has, Unique;
    RetainIs(room, p);
    HasRetain(room, p, q);
    MembersRetain(room, p);
  }

  lemma {:induction false} KickKeeps(sys: System, p: PeerId, order: seq<StreamId>)
    requires Consistent(sys) && Agrees(sys.server) && Enumerates(order, RoomsOf(sys.server.streams, p))
    ensures var next := sys.(server := KickPeer(sys.server, p, order));
            Consistent(next) && Agrees(next.server)
  {
    var s := sys.server;
    var t := KickPeer(s, p, order);
    hide Members, Has, Find, Unique, Seen, Retain, SendAll;
    KickNotifies(sys, p, order);
    var sent := NotifyRooms(s.senders, s.streams, p, order);
    hide NotifyRooms;
    forall sid, q | sid in t.streams && Has(t.streams[sid], q)
      ensures q != p && q in sys.conns && sys.conns[q] == Some(sid)
      ensures q in t.senders ==> Seen(t.senders[q]) == Members(t.streams[sid]) - {q}
    {
      LeaveRoom(s.streams[sid], p, q);
      RetainSize(s.streams[sid], p);
      if order != [] {
        NotifyAt(s.senders, s.streams[order[0]], p, PeerLeave(p), q);
      }
    }
    forall sid | sid in t.streams
      ensures Unique(t.streams[sid])
    {
      LeaveRoom(s.streams[sid], p, p);
    }
  }

  /** A kicked peer is in one room at most. */
  lemma {:induction false} KickNotifies(sys: System, p: PeerId, order: seq<StreamId>)
    requires Consistent(sys) && Enumerates(order, RoomsOf(sys.server.streams, p))
    ensures var s := sys.server;
            var sent := NotifyRooms(s.senders, s.streams, p, order);
            && sent.Keys == s.senders.Keys
            && |order| <= 1
            && (order == [] ==> sent == s.senders && forall sid :: sid in s.streams ==> !Has(s.streams[sid], p))
            && (order != [] ==>
                  && order[0] in s.streams
                  && sent == SendAll(s.senders, Retain(s.streams[order[0]], p), PeerLeave(p))
                  && forall sid :: sid in s.streams ==> (Has(s.streams[sid], p) <==> sid == order[0]))
  {
    var s := sys.server;
    hide Has, Find, Unique, Retain, SendAll;
    if order != [] {
      assert forall i :: 0 <= i < |order| ==> order[i] in s.streams && Has(s.streams[order[i]], p);
      if |order| > 1 {
        OneRoom(sys, order[0], order[1], p);
        assert false;
      }
      assert order[..0] == [] && NotifyRooms(s.senders, s.streams, p, order[..0]) == s.senders;
      NotifyAt(s.senders, s.streams[order[0]], p, PeerLeave(p), p);
      assert forall sid :: sid in s.streams && Has(s.streams[sid], p) ==> sid in RoomsOf(s.streams, p);
    } else {
      assert forall sid :: sid in s.streams && Has(s.streams[sid], p) ==> sid in RoomsOf(s.streams, p);
    }
  }

  /** Every step keeps the agreement. */
  lemma {:induction false} StepKeeps(sys: System, step: Step, cfg: Config)
    requires Consistent(sys) && Agrees(sys.server) && Enabled(sys, step) && LeavesFirst(sys, step)
    ensures var next := Take(sys, step, cfg);
            Consistent(next) && Agrees(next.server)
  {
    hide Members, Has, Find, Unique, Seen, Retain, SendAll, Join, UpdateFlags, CleanupPeer, KickPeer, Send;
    match step {
      case Connect(p) =>
      case Message(p, request, allowed, now) => RequestKeeps(sys, p, request, allowed, now, cfg);
      case Disconnect(p) => CleanupKeeps(sys, p);
      case KickStep(p, order) => KickKeeps(sys, p, order);
      case SweepStep(now, interval) =>
    }
  }

  lemma {:induction false} RequestKeeps(sys: System, p: PeerId, r: Request, allowed: bool, now: nat, cfg: Config)
    requires Consistent(sys) && Agrees(sys.server) && p in sys.conns && LeavesFirst(sys, Message(p, r, allowed, now))
    ensures var next := Take(sys, Message(p, r, allowed, now), cfg);
            Consistent(next) && Agrees(next.server)
  {
    hide Members, Has, Find, Unique, Seen, Retain, SendAll, Join, UpdateFlags, CleanupPeer, Send, Consistent, Agrees;
    var s := sys.server;
    assert sys.conns[p := sys.conns[p]] == sys.conns;
    match r {
      case JoinRequest(sid, isPublisher) => JoinKeeps(sys, p, sid, isPublisher, allowed, now, cfg);
      case LeaveRequest => CleanupKeeps(sys, p);
      case UpdateRequest(isPublisher, canRelay) => UpdateKeeps(sys, p, isPublisher, canRelay);
      case OfferRequest(target, sdp) =>
        if target.Some? {
          RelayKeeps(sys, target.value, Offer(p, target, sdp));
        }
      case AnswerRequest(target, sdp) => RelayKeeps(sys, target, Answer(p, target, sdp));
      case IceRequest(target, candidate, mid, index) => RelayKeeps(sys, target, IceCandidate(p, target, candidate, mid, index));
      case ServerOnlyRequest =>
      case MalformedRequest(error) => RelayKeeps(sys, p, Error("Invalid message format: " + error));
    }
  }

  lemma {:induction false} RelayKeeps(sys: System, target: PeerId, m: Signaling.Message)
    requires Consistent(sys) && Agrees(sys.server) && (m.Error? || m.Offer? || m.Answer? || m.IceCandidate?)
    ensures var next := sys.(server := sys.server.(senders := Send(sys.server.senders, target, m)));
            Consistent(next) && Agrees(next.server)
  {
    SendNeutral(sys.server, target, m);
    hide Send, Agrees;
  }

  // ---------------------------------------------------------------- whole runs

  predicate Runs(sys: System, steps: seq<Step>, cfg: Config)
    decreases |steps|
  {
    steps == [] || (Enabled(sys, steps[0]) && LeavesFirst(sys, steps[0]) && Runs(Take(sys, steps[0], cfg), steps[1..], cfg))
  }

  function Final(sys: System, steps: seq<Step>, cfg: Config): System
    requires Runs(sys, steps, cfg)
    decreases |steps|
  {
    if steps == [] then sys else Final(Take(sys, steps[0], cfg), steps[1..], cfg)
  }

  lemma {:induction false} RunsKeep(sys: System, steps: seq<Step>, cfg: Config)
    requires Consistent(sys) && Agrees(sys.server) && Runs(sys, steps, cfg)
    ensures Consistent(Final(sys, steps, cfg)) && Agrees(Final(sys, steps, cfg).server)
    decreases |steps|
  {
    hide Consistent, Agrees, Take;
    if steps != [] {
      StepKeeps(sys, steps[0], cfg);
      RunsKeep(Take(sys, steps[0], cfg), steps[1..], cfg);
    }
  }

  /** After every run from an empty server, every member with a sender has been told exactly the other members of
      its room, with their flags. */
  lemma {:induction false} ViewsAgree(steps: seq<Step>, cfg: Config, sid: StreamId, p: PeerId)
    requires Runs(START, steps, cfg)
    ensures var s := Final(START, steps, cfg).server;
            sid in s.streams && p in s.senders && Has(s.streams[sid], p)
            ==> (forall q :: q in Seen(s.senders[p]) <==> q != p && Has(s.streams[sid], q))
                && (forall x :: x in s.streams[sid] && x.id != p ==>
                      x.id in Seen(s.senders[p]) && Seen(s.senders[p])[x.id] == Flags(x.isPublisher, x.canRelay))
  {
    RunsKeep(START, steps, cfg);
    ViewOfMember(Final(START, steps, cfg), sid, p);
  }

  lemma {:induction false} ViewOfMember(sys: System, sid: StreamId, p: PeerId)
    requires Consistent(sys) && Agrees(sys.server)
    ensures var s := sys.server;
            sid in s.streams && p in s.senders && Has(s.streams[sid], p)
            ==> (forall q :: q in Seen(s.senders[p]) <==> q != p && Has(s.streams[sid], q))
                && (forall x :: x in s.streams[sid] && x.id != p ==>
                      x.id in Seen(s.senders[p]) && Seen(s.senders[p])[x.id] == Flags(x.isPublisher, x.canRelay))
  {
    hide Seen, Members, Has, Unique;
    var s := sys.server;
    if sid in s.streams && p in s.senders && Has(s.streams[sid], p) {
      forall q
        ensures q in Seen(s.senders[p]) <==> q != p && Has(s.streams[sid], q)
      {
        MembersAt(s.streams[sid], q);
      }
      MembersAt(s.streams[sid], p);
    }
  }

  /** The section a request runs under the lock, if any. */
  function SectionOf(current: Option<StreamId>, p: PeerId, r: Request): Option<Section> {
    match r
    case JoinRequest(sid, isPublisher) => Some(EnterSection(p, sid, isPublisher))
    case LeaveRequest => if current.Some? then Some(RemoveSection(p, current.value)) else None
    case UpdateRequest(isPublisher, canRelay) =>
      if current.Some? then Some(UpdateSection(p, current.value, isPublisher, canRelay)) else None
    case _ => None
  }

  /** Each handler does to the room table what its section does, or nothing. */
  lemma {:induction false} RequestIsSection(s: Server, current: Option<StreamId>, p: PeerId, r: Request, allowed: bool, now: nat, cfg: Config)
    ensures var next := Handle(s, current, p, r, allowed, now, cfg).server.streams;
            next == s.streams || (SectionOf(current, p, r).Some? && next == Next(s.streams, SectionOf(current, p, r).value, cfg))
  {
    hide Retain, Has, Find, SendAll, Send, ValidId;
  }

  /** Each step does to the room table what at most one locked section does. */
  lemma {:induction false} StepIsSection(sys: System, step: Step, cfg: Config)
    requires Enabled(sys, step)
    ensures var st, next := sys.server.streams, Take(sys, step, cfg).server.streams;
            next == st || exists section :: next == Next(st, section, cfg)
  {
    hide Retain, Has, Find, SendAll, Send, NotifyRooms, Handle, RoomsOf;
    var s := sys.server;
    match step {
      case Connect(p) =>
      case Message(p, r, allowed, now) => RequestIsSection(s, sys.conns[p], p, r, allowed, now, cfg);
      case Disconnect(p) =>
        if sys.conns[p].Some? {
          assert Next(s.streams, RemoveSection(p, sys.conns[p].value), cfg) == Remove(s.streams, p, sys.conns[p].value);
        }
      case KickStep(p, order) => assert Next(s.streams, KickSection(p), cfg) == Kick(s.streams, p);
      case SweepStep(now, interval) =>
        var stale := Stale(s.lastActive, now, interval);
        assert Next(s.streams, SweepSection(stale), cfg) == Sweep(s.streams, stale);
    }
  }
}
