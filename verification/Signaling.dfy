/** The signaling protocol of the web server (node/src/web_server.rs) with handlers run one at a time: from the
    notifications alone every member of a room knows who else is in it. */
module Signaling {
  import opened Outcomes
  import opened Rooms

  datatype Message =
    | PeerList(peers: seq<SignalingPeer>)
    | PeerJoin(peer: PeerId, stream: StreamId, isPublisher: bool)
    | PeerUpdate(peer: PeerId, current: Option<StreamId>, isPublisher: bool, canRelay: bool)
    | PeerLeave(peer: PeerId)
    | Offer(peer: PeerId, target: Option<PeerId>, sdp: string)
    | Answer(peer: PeerId, answerTo: PeerId, sdp: string)
    | IceCandidate(peer: PeerId, candidateFor: PeerId, candidate: string, sdpMid: Option<string>, sdpMLineIndex: Option<nat>)
    | Error(text: string)

  /** The messages sent to each registered peer, oldest first. */
  type Senders = map<PeerId, seq<Message>>

  datatype Server = Server(streams: Streams, senders: Senders, lastActive: map<StreamId, nat>)

  function Send(senders: Senders, p: PeerId, m: Message): Senders {
    if p in senders then senders[p := senders[p] + [m]] else senders
  }

  /** The log of `to` has grown by this message, if `to` is registered; all other logs are as they were. */
  predicate OnlyTo(before: Senders, after: Senders, to: PeerId, m: Message) {
    && after.Keys == before.Keys
    && (to in before ==> after[to] == before[to] + [m])
    && forall q :: q in before && q != to ==> after[q] == before[q]
  }

  lemma {:induction false} SendIs(senders: Senders, to: PeerId, m: Message)
    ensures OnlyTo(senders, Send(senders, to, m), to, m)
  {
  }

  function SendAll(senders: Senders, room: Room, m: Message): Senders {
    if room == [] then senders
    else Send(SendAll(senders, room[..|room| - 1], m), room[|room| - 1].id, m)
  }

  predicate SafeChar(c: char) {
    'a' <= c <= 'z' || 'A' <= c <= 'Z' || '0' <= c <= '9' || c == '-' || c == '_'
  }

  /** `validate_id`: a safe string is one byte per character. */
  predicate ValidId(id: string, maxLen: nat) {
    0 < |id| <= maxLen && forall i :: 0 <= i < |id| ==> SafeChar(id[i])
  }

  const MAX_STREAM_ID: nat := 128

  // ---------------------------------------------------------------- handlers

  datatype Handled = Handled(server: Server, current: Option<StreamId>)

  /** What refuses a join, if anything. */
  function JoinError(s: Server, p: PeerId, sid: StreamId, allowed: bool, cfg: Config): Option<string> {
    if !ValidId(sid, MAX_STREAM_ID) then Some("Invalid stream ID")
    else if !allowed then Some("You have been blocked from this node")
    else match Admit(s.streams, p, sid, cfg)
      case TooManyRooms => Some("Max stream rooms reached")
      case RoomFull => Some("Stream room is full")
      case Entered => None
  }

  function Join(s: Server, current: Option<StreamId>, p: PeerId, sid: StreamId, isPublisher: bool, allowed: bool, now: nat, cfg: Config): Handled {
    var error := JoinError(s, p, sid, allowed, cfg);
    if error.Some? then Handled(s.(senders := Send(s.senders, p, Error(error.value))), current)
    else
      var streams := Enter(s.streams, p, sid, isPublisher, cfg);
      var others := Retain(streams[sid], p);
      var listed := Send(s.senders, p, PeerList(others));
      Handled(
        Server(streams, SendAll(listed, others, PeerJoin(p, sid, isPublisher)), s.lastActive[sid := now]),
        Some(sid))
  }

  function UpdateFlags(s: Server, current: Option<StreamId>, p: PeerId, isPublisher: bool, canRelay: bool): Server {
    if current.None? || current.value !in s.streams then s
    else
      var streams := Update(s.streams, p, current.value, isPublisher, canRelay);
      Server(streams, SendAll(s.senders, Retain(streams[current.value], p), PeerUpdate(p, current, isPublisher, canRelay)), s.lastActive)
  }

  /** `cleanup_signaling_peer`: the sender goes first. */
  function CleanupPeer(s: Server, current: Option<StreamId>, p: PeerId): Server {
    var senders := s.senders - {p};
    if current.None? || current.value !in s.streams then s.(senders := senders)
    else
      Server(Remove(s.streams, p, current.value), SendAll(senders, Retain(s.streams[current.value], p), PeerLeave(p)), s.lastActive)
  }

  /** The rooms a peer is in. */
  function RoomsOf(st: Streams, p: PeerId): set<StreamId> { set sid | sid in st && Has(st[sid], p) }

  /** `order` is one way of going through the rooms of a peer, as the hash map may. */
  predicate Enumerates(order: seq<StreamId>, sids: set<StreamId>) {
    && (forall i :: 0 <= i < |order| ==> order[i] in sids)
    && (forall sid :: sid in sids ==> sid in order)
    && (forall i, j :: 0 <= i < j < |order| ==> order[i] != order[j])
  }

  function NotifyRooms(senders: Senders, st: Streams, p: PeerId, order: seq<StreamId>): Senders {
    if order == [] then senders
    else
      var init, sid := order[..|order| - 1], order[|order| - 1];
      var sent := NotifyRooms(senders, st, p, init);
      if sid in st then SendAll(sent, Retain(st[sid], p), PeerLeave(p)) else sent
  }

  /** `kick_peer_from_signaling`: the sender goes last. */
  function KickPeer(s: Server, p: PeerId, order: seq<StreamId>): Server {
    Server(Kick(s.streams, p), NotifyRooms(s.senders, s.streams, p, order) - {p}, s.lastActive)
  }

  /** Rooms not joined for longer than the interval; times are in milliseconds, the interval in seconds. */
  function Stale(lastActive: map<StreamId, nat>, now: nat, interval: nat): set<StreamId> {
    set sid | sid in lastActive && lastActive[sid] <= now && (now - lastActive[sid]) / 1000 > interval
  }

  function IdleSweep(s: Server, now: nat, interval: nat): Server {
    var streams := Sweep(s.streams, Stale(s.lastActive, now, interval));
    Server(streams, s.senders, map sid | sid in s.lastActive && (sid in s.streams ==> sid in streams) :: s.lastActive[sid])
  }

  datatype Request =
    | JoinRequest(sid: StreamId, isPublisher: bool)
    | LeaveRequest
    | UpdateRequest(isPublisher: bool, canRelay: bool)
    | OfferRequest(target: Option<PeerId>, sdp: string)
    | AnswerRequest(answerTo: PeerId, sdp: string)
    | IceRequest(candidateFor: PeerId, candidate: string, sdpMid: Option<string>, sdpMLineIndex: Option<nat>)
    | ServerOnlyRequest
    | MalformedRequest(error: string)

  /** One text message of a connection: `handle_signaling_message`, or the reply to text that does not parse. */
  function Handle(s: Server, current: Option<StreamId>, p: PeerId, r: Request, allowed: bool, now: nat, cfg: Config): Handled {
    match r
    case JoinRequest(sid, isPublisher) => Join(s, current, p, sid, isPublisher, allowed, now, cfg)
    case LeaveRequest => Handled(CleanupPeer(s, current, p), None)
    case UpdateRequest(isPublisher, canRelay) => Handled(UpdateFlags(s, current, p, isPublisher, canRelay), current)
    case OfferRequest(target, sdp) =>
      Handled(if allowed && target.Some? then s.(senders := Send(s.senders, target.value, Offer(p, target, sdp))) else s, current)
    case AnswerRequest(target, sdp) => Handled(s.(senders := Send(s.senders, target, Answer(p, target, sdp))), current)
    case IceRequest(target, candidate, mid, index) =>
      Handled(s.(senders := Send(s.senders, target, IceCandidate(p, target, candidate, mid, index))), current)
    case ServerOnlyRequest => Handled(s, current)
    case MalformedRequest(error) => Handled(s.(senders := Send(s.senders, p, Error("Invalid message format: " + error))), current)
  }

  // ---------------------------------------------------------------- what a client can rebuild

  datatype Flags = Flags(isPublisher: bool, canRelay: bool)

  type View = map<PeerId, Flags>

  function Members(room: Room): View {
    if room == [] then map[]
    else
      var x := room[|room| - 1];
      Members(room[..|room| - 1])[x.id := Flags(x.isPublisher, x.canRelay)]
  }

  function See(v: View, m: Message): View {
    match m
    case PeerList(peers) => Members(peers)
    case PeerJoin(p, _, isPublisher) => v[p := Flags(isPublisher, false)]
    case PeerUpdate(p, _, isPublisher, canRelay) => if p in v then v[p := Flags(isPublisher, canRelay)] else v
    case PeerLeave(p) => v - {p}
    case _ => v
  }

  function Seen(log: seq<Message>): View {
    if log == [] then map[] else See(Seen(log[..|log| - 1]), log[|log| - 1])
  }

  lemma {:induction false} SeenNext(log: seq<Message>, m: Message)
    ensures Seen(log + [m]) == See(Seen(log), m)
  {
    assert (log + [m])[..|log|] == log;
  }

  lemma {:induction false} MembersAt(room: Room, q: PeerId)
    ensures q in Members(room) <==> Has(room, q)
    ensures Unique(room) ==> forall x :: x in room ==> x.id in Members(room) && Members(room)[x.id] == Flags(x.isPublisher, x.canRelay)
  {
    if room != [] {
      var init, last := room[..|room| - 1], room[|room| - 1];
      assert room == init + [last];
      MembersAt(init, q);
      HasLast(init, last, q);
    }
  }

  /** The room's table of members without one of them. */
  lemma {:induction false} MembersRetain(room: Room, p: PeerId)
    ensures Members(Retain(room, p)) == Members(room) - {p}
  {
    if room != [] {
      var init, last := room[..|room| - 1], room[|room| - 1];
      MembersRetain(init, p);
      if last.id == p {
        assert Retain(room, p) == Retain(init, p);
        assert Members(room) - {p} == Members(init) - {p};
      } else {
        MembersAppend(Retain(init, p), last);
        assert (Members(init) - {p})[last.id := Flags(last.isPublisher, last.canRelay)] == Members(room) - {p};
      }
    }
  }

  lemma {:induction false} MembersAppend(room: Room, x: SignalingPeer)
    ensures Members(room + [x]) == Members(room)[x.id := Flags(x.isPublisher, x.canRelay)]
  {
    assert (room + [x])[..|room|] == room;
  }

  lemma {:induction false} MembersUpdate(room: Room, i: nat, x: SignalingPeer)
    requires Unique(room) && i < |room| && room[i].id == x.id
    ensures Members(room[i := x]) == Members(room)[x.id := Flags(x.isPublisher, x.canRelay)]
  {
    var n := |room| - 1;
    var init, last := room[..n], room[n];
    if i == n {
      assert room[i := x][..n] == init;
    } else {
      MembersUpdate(init, i, x);
      assert room[i := x][..n] == init[i := x];
      var a, b := Flags(x.isPublisher, x.canRelay), Flags(last.isPublisher, last.canRelay);
      assert last.id != x.id;
      assert Members(init)[x.id := a][last.id := b] == Members(init)[last.id := b][x.id := a];
    }
  }

  lemma {:induction false} MembersSetFlags(room: Room, p: PeerId, isPublisher: bool, canRelay: bool)
    requires Unique(room)
    ensures var r := SetFlags(room, p, isPublisher, canRelay);
            Members(r) == if p in Members(room) then Members(room)[p := Flags(isPublisher, canRelay)] else Members(room)
  {
    MembersAt(room, p);
    if Has(room, p) {
      MembersUpdate(room, Find(room, p), SignalingPeer(p, isPublisher, canRelay));
    }
  }

  /** A notification reaches every registered member once and nobody else. */
  lemma {:induction false} SendAllAt(senders: Senders, room: Room, m: Message, q: PeerId)
    requires Unique(room)
    ensures SendAll(senders, room, m).Keys == senders.Keys
    ensures q in senders ==> SendAll(senders, room, m)[q] == senders[q] + if Has(room, q) then [m] else []
  {
    if room != [] {
      var init, last := room[..|room| - 1], room[|room| - 1];
      assert room == init + [last];
      SendAllAt(senders, init, m, q);
      HasLast(init, last, q);
      HasIff(init, q);
      assert forall i :: 0 <= i < |init| ==> init[i].id == room[i].id != last.id;
    } else {
      assert q in senders ==> senders[q] + [] == senders[q];
    }
  }
}
