/** What each request puts into the logs of the signaling server (node/src/web_server.rs), message by message and peer by
    peer, and how long a join keeps a room alive. */
module SignalLogs {
  import opened Outcomes
  import opened Rooms
  import opened Signaling
  import opened ViewAgreement

  predicate InRoom(room: Room, q: PeerId) { exists i :: 0 <= i < |room| && room[i].id == q }

  /** Every registered member of the room but `p` has been told `m` once; the logs of all others are as they were. */
  predicate ToldTheRest(before: Senders, after: Senders, room: Room, p: PeerId, m: Signaling.Message) {
    forall q :: q in before && q != p ==>
      q in after && after[q] == if InRoom(room, q) then before[q] + [m] else before[q]
  }

  // ---------------------------------------------------------------- relayed requests

  /** Offers, answers and candidates reach the log of their target and no other, under the sender's id and with the
      text and fields as given; an offer is dropped exactly when its sender is blocked, or it names no target or one
      that is not registered. No room, timestamp or current stream changes. */
  lemma {:induction false} RelaysSay(s: Server, current: Option<StreamId>, p: PeerId, r: Request, allowed: bool, now: nat, cfg: Config)
    requires !r.JoinRequest? && !r.LeaveRequest? && !r.UpdateRequest?
    ensures var h := Handle(s, current, p, r, allowed, now, cfg);
            var logs := h.server.senders;
            && h.server.streams == s.streams && h.server.lastActive == s.lastActive && h.current == current
            && (r.OfferRequest? ==>
                  && (logs == s.senders <==> !allowed || r.target.None? || r.target.value !in s.senders)
                  && (allowed && r.target.Some? ==> OnlyTo(s.senders, logs, r.target.value, Offer(p, r.target, r.sdp))))
            && (r.AnswerRequest? ==>
                  && (logs == s.senders <==> r.answerTo !in s.senders)
                  && OnlyTo(s.senders, logs, r.answerTo, Answer(p, r.answerTo, r.sdp)))
            && (r.IceRequest? ==>
                  && (logs == s.senders <==> r.candidateFor !in s.senders)
                  && OnlyTo(s.senders, logs, r.candidateFor, IceCandidate(p, r.candidateFor, r.candidate, r.sdpMid, r.sdpMLineIndex)))
            && (r.ServerOnlyRequest? ==> logs == s.senders)
            && (r.MalformedRequest? ==> OnlyTo(s.senders, logs, p, Error("Invalid message format: " + r.error)))
  {
    match r {
      case OfferRequest(target, sdp) =>
        if target.Some? {
          SendIs(s.senders, target.value, Offer(p, target, sdp));
          SentOrNot(s.senders, target.value, Offer(p, target, sdp));
        }
      case AnswerRequest(target, sdp) =>
        SendIs(s.senders, target, Answer(p, target, sdp));
        SentOrNot(s.senders, target, Answer(p, target, sdp));
      case IceRequest(target, candidate, mid, index) =>
        SendIs(s.senders, target, IceCandidate(p, target, candidate, mid, index));
        SentOrNot(s.senders, target, IceCandidate(p, target, candidate, mid, index));
      case ServerOnlyRequest =>
      case MalformedRequest(error) => SendIs(s.senders, p, Error("Invalid message format: " + error));
    }
  }

  lemma {:induction false} SentOrNot(senders: Senders, to: PeerId, m: Signaling.Message)
    ensures Send(senders, to, m) == senders <==> to !in senders
  {
    if to in senders {
      assert |senders[to] + [m]| != |senders[to]|;
    }
  }

  // ---------------------------------------------------------------- joins

  /** Why a join is refused; the first reason counts. */
  ghost predicate BadName(sid: StreamId) {
    |sid| == 0 || |sid| > 128 || exists i :: 0 <= i < |sid| && !SafeChar(sid[i])
  }

  predicate NoRoomLeft(st: Streams, sid: StreamId, cfg: Config) { sid !in st && |st| >= cfg.maxRooms }

  predicate RoomIsFull(st: Streams, p: PeerId, sid: StreamId, cfg: Config) {
    sid in st && !InRoom(st[sid], p) && |st[sid]| >= cfg.maxPeers
  }

  /** A refused join tells the peer why and changes nothing else. */
  lemma {:induction false} RefusalSays(
      s: Server, current: Option<StreamId>, p: PeerId, sid: StreamId, isPublisher: bool, allowed: bool, now: nat, cfg: Config)
    requires BadName(sid) || !allowed || NoRoomLeft(s.streams, sid, cfg) || RoomIsFull(s.streams, p, sid, cfg)
    ensures var h := Handle(s, current, p, JoinRequest(sid, isPublisher), allowed, now, cfg);
            && h.server.streams == s.streams && h.server.lastActive == s.lastActive && h.current == current
            && OnlyTo(s.senders, h.server.senders, p, Error(
                 if BadName(sid) then "Invalid stream ID"
                 else if !allowed then "You have been blocked from this node"
                 else if NoRoomLeft(s.streams, sid, cfg) then "Max stream rooms reached"
                 else "Stream room is full"))
  {
    hide Find, Retain, SendAll, Send, SafeChar;
    if sid in s.streams {
      HasIff(s.streams[sid], p);
    }
    var error := JoinError(s, p, sid, allowed, cfg);
    SendIs(s.senders, p, Error(error.value));
  }

  lemma {:induction false} RoomsSame(room: Room, q: PeerId)
    ensures Has(room, q) <==> InRoom(room, q)
  {
    HasIff(room, q);
  }

  /** A notification to the others of a room. */
  lemma {:induction false} RestIsTold(senders: Senders, room: Room, p: PeerId, m: Signaling.Message)
    requires Unique(room)
    ensures var sent := SendAll(senders, Retain(room, p), m);
            && sent.Keys == senders.Keys && ToldTheRest(senders, sent, room, p, m)
            && (p in senders ==> sent[p] == senders[p])
  {
    hide Retain, SendAll, Has, Find, Seen;
    var sent := SendAll(senders, Retain(room, p), m);
    NotifyAt(senders, room, p, m, p);
    assert p in senders ==> senders[p] + [] == senders[p];
    forall q | q in senders && q != p
      ensures q in sent && sent[q] == if InRoom(room, q) then senders[q] + [m] else senders[q]
    {
      NotifyAt(senders, room, p, m, q);
      RoomsSame(room, q);
      assert senders[q] + [] == senders[q];
    }
  }

  /** Everybody else in the room before the join, in order. */
  function Others(room: Room, p: PeerId): Room {
    if room == [] then []
    else if room[0].id == p then Others(room[1..], p)
    else [room[0]] + Others(room[1..], p)
  }

  lemma {:induction false} RetainOne(x: SignalingPeer, p: PeerId)
    ensures Retain([x], p) == if x.id == p then [] else [x]
    ensures Retain([], p) == []
  {
    assert [x][..0] == [];
    assert [] + [x] == [x];
  }

  lemma {:induction false} OthersAre(room: Room, p: PeerId)
    ensures Retain(room, p) == Others(room, p)
  {
    hide Retain;
    if room == [] {
      RetainOne(SignalingPeer(p, false, false), p);
    } else {
      var x, rest := room[0], room[1..];
      assert [x] + rest == room;
      OthersAre(rest, p);
      RetainInOrder([x], rest, p);
      RetainOne(x, p);
      assert [] + Others(rest, p) == Others(rest, p);
    }
  }

  function RoomOf(st: Streams, sid: StreamId): Room { if sid in st then st[sid] else [] }

  /** An accepted join puts the peer at the end of the room as no relay, renews the room's timestamp, sends the peer the
      list of the others, and tells each of them about it. */
  lemma {:induction false} JoinSays(
      s: Server, current: Option<StreamId>, p: PeerId, sid: StreamId, isPublisher: bool, allowed: bool, now: nat, cfg: Config)
    requires !BadName(sid) && allowed && !NoRoomLeft(s.streams, sid, cfg) && !RoomIsFull(s.streams, p, sid, cfg)
    requires Unique(RoomOf(s.streams, sid))
    ensures var h := Handle(s, current, p, JoinRequest(sid, isPublisher), allowed, now, cfg);
            var room := RoomOf(s.streams, sid);
            && h.current == Some(sid)
            && h.server.streams == s.streams[sid := Others(room, p) + [SignalingPeer(p, isPublisher, false)]]
            && h.server.lastActive == s.lastActive[sid := now]
            && h.server.senders.Keys == s.senders.Keys
            && (p in s.senders ==> h.server.senders[p] == s.senders[p] + [PeerList(Others(room, p))])
            && ToldTheRest(s.senders, h.server.senders, room, p, PeerJoin(p, sid, isPublisher))
  {
    hide Find, Retain, SendAll, Send, Has, SafeChar, Unique, ToldTheRest;
    var room := RoomOf(s.streams, sid);
    RoomsSame(room, p);
    OthersAre(room, p);
    EnterRoom(room, p, isPublisher);
    var joined := Retain(room, p) + [SignalingPeer(p, isPublisher, false)];
    RetainInOrder(Retain(room, p), [SignalingPeer(p, isPublisher, false)], p);
    RetainTwice(room, p);
    RetainOne(SignalingPeer(p, isPublisher, false), p);
    assert Retain(joined, p) == Retain(room, p) + [] == Retain(room, p);
    var listed := Send(s.senders, p, PeerList(Retain(room, p)));
    SendIs(s.senders, p, PeerList(Retain(room, p)));
    RestIsTold(listed, room, p, PeerJoin(p, sid, isPublisher));
    JoinIs(s, current, p, sid, isPublisher, allowed, now, cfg);
    ToldAfter(s.senders, listed, SendAll(listed, Retain(room, p), PeerJoin(p, sid, isPublisher)), room, p, PeerJoin(p, sid, isPublisher), PeerList(Retain(room, p)));
  }

  lemma {:induction false} JoinIs(
      s: Server, current: Option<StreamId>, p: PeerId, sid: StreamId, isPublisher: bool, allowed: bool, now: nat, cfg: Config)
    requires !BadName(sid) && allowed && !NoRoomLeft(s.streams, sid, cfg) && !RoomIsFull(s.streams, p, sid, cfg)
    ensures var room := Retain(RoomOf(s.streams, sid), p) + [SignalingPeer(p, isPublisher, false)];
            var others := Retain(room, p);
            Handle(s, current, p, JoinRequest(sid, isPublisher), allowed, now, cfg)
            == Handled(
                 Server(s.streams[sid := room], SendAll(Send(s.senders, p, PeerList(others)), others, PeerJoin(p, sid, isPublisher)),
                        s.lastActive[sid := now]),
                 Some(sid))
  {
    hide Find, Retain, SendAll, Send, Has, SafeChar;
    RoomsSame(RoomOf(s.streams, sid), p);
  }

  lemma {:induction false} ToldAfter(a: Senders, b: Senders, c: Senders, room: Room, p: PeerId, m: Signaling.Message, n: Signaling.Message)
    requires OnlyTo(a, b, p, n) && ToldTheRest(b, c, room, p, m)
    ensures ToldTheRest(a, c, room, p, m)
  {
    hide InRoom;
  }

  lemma {:induction false} RetainTwice(room: Room, p: PeerId)
    ensures Retain(Retain(room, p), p) == Retain(room, p)
  {
    hide Retain;
    RetainIs(room, p);
    RetainSize(Retain(room, p), p);
    HasIff(Retain(room, p), p);
    assert forall i :: 0 <= i < |Retain(room, p)| ==> Retain(room, p)[i] in Retain(room, p);
  }

  // ---------------------------------------------------------------- updates

  /** The entry of one peer changed. */
  predicate EntrySet(before: Room, after: Room, p: PeerId, isPublisher: bool, canRelay: bool) {
    && |after| == |before|
    && forall i :: 0 <= i < |before| ==>
         after[i] == if before[i].id == p then SignalingPeer(p, isPublisher, canRelay) else before[i]
  }

  lemma {:induction false} SetFlagsIs(room: Room, p: PeerId, isPublisher: bool, canRelay: bool)
    requires Unique(room)
    ensures EntrySet(room, SetFlags(room, p, isPublisher, canRelay), p, isPublisher, canRelay)
  {
    HasIff(room, p);
  }

  lemma {:induction false} SameOthers(a: Room, b: Room, p: PeerId, isPublisher: bool, canRelay: bool)
    requires EntrySet(a, b, p, isPublisher, canRelay)
    ensures Retain(a, p) == Retain(b, p)
    decreases |a|
  {
    if a != [] {
      SameOthers(a[..|a| - 1], b[..|b| - 1], p, isPublisher, canRelay);
    }
  }

  /** An update sets the peer's own entry in its current room and tells every other member. */
  lemma {:induction false} UpdateSays(
      s: Server, current: Option<StreamId>, p: PeerId, isPublisher: bool, canRelay: bool, allowed: bool, now: nat, cfg: Config)
    requires current.Some? ==> Unique(RoomOf(s.streams, current.value))
    ensures var h := Handle(s, current, p, UpdateRequest(isPublisher, canRelay), allowed, now, cfg);
            && h.current == current && h.server.lastActive == s.lastActive && h.server.senders.Keys == s.senders.Keys
            && (current.None? || current.value !in s.streams ==> h.server == s)
            && (current.Some? && current.value in s.streams ==>
                  var room := s.streams[current.value];
                  && h.server.streams.Keys == s.streams.Keys
                  && EntrySet(room, h.server.streams[current.value], p, isPublisher, canRelay)
                  && (forall sid :: sid in s.streams && sid != current.value ==> h.server.streams[sid] == s.streams[sid])
                  && (p in s.senders ==> h.server.senders[p] == s.senders[p])
                  && ToldTheRest(s.senders, h.server.senders, room, p, PeerUpdate(p, current, isPublisher, canRelay)))
  {
    hide Find, Retain, SendAll, Has, SetFlags, Unique, ToldTheRest, EntrySet;
    if current.Some? && current.value in s.streams {
      var room := s.streams[current.value];
      SetFlagsIs(room, p, isPublisher, canRelay);
      SameOthers(room, SetFlags(room, p, isPublisher, canRelay), p, isPublisher, canRelay);
      RestIsTold(s.senders, room, p, PeerUpdate(p, current, isPublisher, canRelay));
    }
  }

  // ---------------------------------------------------------------- leaves

  /** A leave closes the peer's log, takes the peer out of its current room, which goes when nobody is left, and tells
      everybody who stays; a disconnect does the same. */
  lemma {:induction false} LeaveSays(s: Server, current: Option<StreamId>, p: PeerId, allowed: bool, now: nat, cfg: Config)
    requires current.Some? ==> Unique(RoomOf(s.streams, current.value))
    ensures var h := Handle(s, current, p, LeaveRequest, allowed, now, cfg);
            && h.server == CleanupPeer(s, current, p) && h.current.None?
            && h.server.lastActive == s.lastActive && h.server.senders.Keys == s.senders.Keys - {p}
            && (current.None? || current.value !in s.streams ==>
                  h.server.streams == s.streams && forall q :: q in s.senders && q != p ==> h.server.senders[q] == s.senders[q])
            && (current.Some? && current.value in s.streams ==>
                  var room := s.streams[current.value];
                  && (Others(room, p) == [] ==> h.server.streams == s.streams - {current.value})
                  && (Others(room, p) != [] ==> h.server.streams == s.streams[current.value := Others(room, p)])
                  && ToldTheRest(s.senders, h.server.senders, room, p, PeerLeave(p)))
  {
    hide Find, Retain, SendAll, Has, Unique;
    if current.Some? && current.value in s.streams {
      var room := s.streams[current.value];
      OthersAre(room, p);
      RestIsTold(s.senders - {p}, room, p, PeerLeave(p));
    }
  }

  // ---------------------------------------------------------------- kicks

  function Times(m: Signaling.Message, n: nat): (r: seq<Signaling.Message>)
    ensures |r| == n && forall i :: 0 <= i < n ==> r[i] == m
  {
    seq(n, i => m)
  }

  /** How many of these rooms a peer is in. */
  function Shared(st: Streams, order: seq<StreamId>, q: PeerId): nat {
    if order == [] then 0
    else
      Shared(st, order[..|order| - 1], q)
      + if order[|order| - 1] in st && InRoom(st[order[|order| - 1]], q) then 1 else 0
  }

  lemma {:induction false} TimesMore(log: seq<Signaling.Message>, m: Signaling.Message, n: nat)
    ensures (log + Times(m, n)) + [m] == log + Times(m, n + 1)
    ensures log + Times(m, 0) == log
  {
  }

  lemma {:induction false} RoomsTold(senders: Senders, st: Streams, p: PeerId, order: seq<StreamId>, q: PeerId)
    requires q != p && q in senders && forall sid :: sid in st ==> Unique(st[sid])
    ensures var sent := NotifyRooms(senders, st, p, order);
            q in sent && sent[q] == senders[q] + Times(PeerLeave(p), Shared(st, order, q))
    decreases |order|
  {
    hide Retain, SendAll, Has, InRoom, Unique;
    TimesMore(senders[q], PeerLeave(p), 0);
    if order != [] {
      var init, sid := order[..|order| - 1], order[|order| - 1];
      RoomsTold(senders, st, p, init, q);
      if sid in st {
        RestIsTold(NotifyRooms(senders, st, p, init), st[sid], p, PeerLeave(p));
        TimesMore(senders[q], PeerLeave(p), Shared(st, init, q));
      }
    }
  }

  lemma {:induction false} RoomsKeys(senders: Senders, st: Streams, p: PeerId, order: seq<StreamId>)
    ensures NotifyRooms(senders, st, p, order).Keys == senders.Keys
    decreases |order|
  {
    hide Retain, SendAll;
    if order != [] {
      var init, sid := order[..|order| - 1], order[|order| - 1];
      RoomsKeys(senders, st, p, init);
      if sid in st {
        AllKeys(NotifyRooms(senders, st, p, init), Retain(st[sid], p), PeerLeave(p));
      }
    }
  }

  lemma {:induction false} AllKeys(senders: Senders, room: Room, m: Signaling.Message)
    ensures SendAll(senders, room, m).Keys == senders.Keys
  {
    if room != [] {
      AllKeys(senders, room[..|room| - 1], m);
    }
  }

  /** A kick, in whatever order the rooms are gone through: the peer is in no room and has no log any more, rooms without
      anybody else are gone, and everybody else has been told once for each room shared with the peer. */
  lemma {:induction false} KickSays(s: Server, p: PeerId, order: seq<StreamId>, q: PeerId)
    requires Enumerates(order, RoomsOf(s.streams, p)) && forall sid :: sid in s.streams ==> Unique(s.streams[sid])
    ensures var t := KickPeer(s, p, order);
            && t.lastActive == s.lastActive && t.senders.Keys == s.senders.Keys - {p}
            && (forall sid :: sid in t.streams <==> sid in s.streams && Others(s.streams[sid], p) != [])
            && (forall sid :: sid in t.streams ==> t.streams[sid] == Others(s.streams[sid], p))
            && (q in s.senders && q != p ==>
                  t.senders[q] == s.senders[q] + Times(PeerLeave(p), |set sid | sid in s.streams && InRoom(s.streams[sid], p) && InRoom(s.streams[sid], q)|))
  {
    hide Retain, NotifyRooms, Has, InRoom, Unique, Enumerates, RoomsOf, Times;
    RoomsKeys(s.senders, s.streams, p, order);
    forall sid | sid in s.streams
      ensures Retain(s.streams[sid], p) == Others(s.streams[sid], p)
    {
      OthersAre(s.streams[sid], p);
    }
    if q in s.senders && q != p {
      RoomsTold(s.senders, s.streams, p, order, q);
      SharedIs(s.streams, p, order, q);
    }
  }

  lemma {:induction false} SharedIs(st: Streams, p: PeerId, order: seq<StreamId>, q: PeerId)
    requires Enumerates(order, RoomsOf(st, p))
    ensures Shared(st, order, q) == |set sid | sid in st && InRoom(st[sid], p) && InRoom(st[sid], q)|
  {
    hide Has, InRoom;
    forall sid | sid in st
      ensures Has(st[sid], p) <==> InRoom(st[sid], p)
    {
      RoomsSame(st[sid], p);
    }
    SharedCounts(st, order, q);
    assert (set sid | sid in order && sid in st && InRoom(st[sid], q)) == (set sid | sid in st && InRoom(st[sid], p) && InRoom(st[sid], q));
  }

  lemma {:induction false} SharedCounts(st: Streams, order: seq<StreamId>, q: PeerId)
    requires forall i, j :: 0 <= i < j < |order| ==> order[i] != order[j]
    ensures Shared(st, order, q) == |set sid | sid in order && sid in st && InRoom(st[sid], q)|
    decreases |order|
  {
    hide InRoom;
    if order != [] {
      var init, last := order[..|order| - 1], order[|order| - 1];
      SharedCounts(st, init, q);
      assert order == init + [last];
      var before := set sid | sid in init && sid in st && InRoom(st[sid], q);
      var after := set sid | sid in order && sid in st && InRoom(st[sid], q);
      assert last !in before;
      if last in st && InRoom(st[last], q) {
        assert after == before + {last};
      } else {
        assert after == before;
      }
    }
  }

  // ---------------------------------------------------------------- how long a join keeps a room

  /** The room, if it is still there, has somebody in it and was last joined at `at`. */
  predicate JoinedAt(s: Server, sid: StreamId, at: nat) {
    sid in s.streams ==> s.streams[sid] != [] && sid in s.lastActive && s.lastActive[sid] == at
  }

  predicate JoinsRoom(step: Step, sid: StreamId) {
    step.Message? && step.request.JoinRequest? && step.request.sid == sid
  }

  lemma {:induction false} RequestKeepsStamp(s: Server, current: Option<StreamId>, p: PeerId, r: Request, allowed: bool, now: nat, cfg: Config, sid: StreamId, at: nat)
    requires JoinedAt(s, sid, at) && !(r.JoinRequest? && r.sid == sid)
    ensures JoinedAt(Handle(s, current, p, r, allowed, now, cfg).server, sid, at)
  {
    hide Retain, Find, SendAll, Send, ValidId, Has;
  }

  lemma {:induction false} StepKeepsStamp(sys: System, step: Step, cfg: Config, sid: StreamId, at: nat)
    requires Enabled(sys, step) && JoinedAt(sys.server, sid, at) && !JoinsRoom(step, sid)
    ensures JoinedAt(Take(sys, step, cfg).server, sid, at)
  {
    hide Retain, SendAll, NotifyRooms, Handle, Stale, Has, Enumerates, RoomsOf;
    match step {
      case Connect(p) =>
      case Message(p, r, allowed, now) => RequestKeepsStamp(sys.server, sys.conns[p], p, r, allowed, now, cfg, sid, at);
      case Disconnect(p) =>
      case KickStep(p, order) =>
      case SweepStep(now, interval) =>
    }
  }

  lemma {:induction false} RunKeepsStamp(sys: System, steps: seq<Step>, cfg: Config, sid: StreamId, at: nat)
    requires Runs(sys, steps, cfg) && JoinedAt(sys.server, sid, at)
    requires forall i :: 0 <= i < |steps| ==> !JoinsRoom(steps[i], sid)
    ensures JoinedAt(Final(sys, steps, cfg).server, sid, at)
    decreases |steps|
  {
    hide Take, JoinedAt, JoinsRoom;
    if steps != [] {
      StepKeepsStamp(sys, steps[0], cfg, sid, at);
      RunKeepsStamp(Take(sys, steps[0], cfg), steps[1..], cfg, sid, at);
    }
  }

  /** An accepted join at `at`, then any steps but joins of that room, then an idle sweep: the room, if it is still there,
      is swept away exactly when more than the interval has passed since that join, in whole seconds. */
  lemma {:induction false} JoinSparesRoom(
      sys: System, p: PeerId, sid: StreamId, isPublisher: bool, at: nat, steps: seq<Step>, cfg: Config, now: nat, interval: nat)
    requires p in sys.conns && Unique(RoomOf(sys.server.streams, sid))
    requires !BadName(sid) && !NoRoomLeft(sys.server.streams, sid, cfg) && !RoomIsFull(sys.server.streams, p, sid, cfg)
    requires Runs(Take(sys, Message(p, JoinRequest(sid, isPublisher), true, at), cfg), steps, cfg)
    requires forall i :: 0 <= i < |steps| ==> !JoinsRoom(steps[i], sid)
    ensures var joined := Take(sys, Message(p, JoinRequest(sid, isPublisher), true, at), cfg);
            var before := Final(joined, steps, cfg);
            var swept := Take(before, SweepStep(now, interval), cfg);
            && sid in joined.server.streams
            && (sid in before.server.streams ==>
                  (sid in swept.server.streams <==> now < at || (now - at) / 1000 <= interval))
  {
    hide Runs, Final, Handle, Unique, JoinsRoom;
    var join := Message(p, JoinRequest(sid, isPublisher), true, at);
    var joined := Take(sys, join, cfg);
    JoinSays(sys.server, sys.conns[p], p, sid, isPublisher, true, at, cfg);
    RunKeepsStamp(joined, steps, cfg, sid, at);
    SweptIff(Final(joined, steps, cfg).server, sid, at, now, interval);
  }

  lemma {:induction false} SweptIff(s: Server, sid: StreamId, at: nat, now: nat, interval: nat)
    requires JoinedAt(s, sid, at)
    ensures sid in s.streams ==> (sid in IdleSweep(s, now, interval).streams <==> now < at || (now - at) / 1000 <= interval)
  {
  }
}
