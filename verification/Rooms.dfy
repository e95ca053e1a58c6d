/** The signaling rooms of the web server (node/src/web_server.rs): what each section under the lock of the room
    table does to it, and what every interleaving of such sections keeps. */
module Rooms {
  type PeerId = nat
  type StreamId = string

  datatype SignalingPeer = SignalingPeer(id: PeerId, isPublisher: bool, canRelay: bool)

  type Room = seq<SignalingPeer>
  type Streams = map<StreamId, Room>

  datatype Config = Config(maxRooms: nat, maxPeers: nat)

  /** Index of the first entry of a peer, or the room's size. */
  function Find(room: Room, p: PeerId): (i: nat)
    ensures i <= |room|
    ensures i < |room| ==> room[i].id == p
    ensures forall j :: 0 <= j < i ==> room[j].id != p
  {
    if room == [] || room[0].id == p then 0 else 1 + Find(room[1..], p)
  }

  predicate Has(room: Room, p: PeerId) { Find(room, p) < |room| }

  /** `peers.retain(|p| p.peer_id != peer_id)` */
  function Retain(room: Room, p: PeerId): Room {
    if room == [] then []
    else Retain(room[..|room| - 1], p) + if room[|room| - 1].id == p then [] else [room[|room| - 1]]
  }

  datatype Admission = Entered | TooManyRooms | RoomFull

  function Admit(st: Streams, p: PeerId, sid: StreamId, cfg: Config): Admission {
    if sid !in st && |st| >= cfg.maxRooms then TooManyRooms
    else if sid in st && !Has(st[sid], p) && |st[sid]| >= cfg.maxPeers then RoomFull
    else Entered
  }

  /** The section of a join: capacity checks, then the peer moves to the end of the room. */
  function Enter(st: Streams, p: PeerId, sid: StreamId, isPublisher: bool, cfg: Config): Streams {
    if !Admit(st, p, sid, cfg).Entered? then st
    else
      var room := if sid in st then st[sid] else [];
      st[sid := Retain(room, p) + [SignalingPeer(p, isPublisher, false)]]
  }

  function SetFlags(room: Room, p: PeerId, isPublisher: bool, canRelay: bool): Room {
    var i := Find(room, p);
    if i < |room| then room[i := SignalingPeer(p, isPublisher, canRelay)] else room
  }

  /** The section of a flag update. */
  function Update(st: Streams, p: PeerId, sid: StreamId, isPublisher: bool, canRelay: bool): Streams {
    if sid in st then st[sid := SetFlags(st[sid], p, isPublisher, canRelay)] else st
  }

  /** The section of a leave. */
  function Remove(st: Streams, p: PeerId, sid: StreamId): Streams {
    if sid !in st then st
    else if Retain(st[sid], p) == [] then st - {sid}
    else st[sid := Retain(st[sid], p)]
  }

  /** The section of a kick. */
  function Kick(st: Streams, p: PeerId): Streams {
    map sid | sid in st && Retain(st[sid], p) != [] :: Retain(st[sid], p)
  }

  /** The section of the idle sweep. */
  function Sweep(st: Streams, stale: set<StreamId>): Streams {
    map sid | sid in st && st[sid] != [] && sid !in stale :: st[sid]
  }

  // ---------------------------------------------------------------- interleavings

  datatype Section =
    | EnterSection(p: PeerId, sid: StreamId, isPublisher: bool)
    | UpdateSection(p: PeerId, sid: StreamId, isPublisher: bool, canRelay: bool)
    | RemoveSection(p: PeerId, sid: StreamId)
    | KickSection(p: PeerId)
    | SweepSection(stale: set<StreamId>)

  function Next(st: Streams, s: Section, cfg: Config): Streams {
    match s
    case EnterSection(p, sid, pub) => Enter(st, p, sid, pub, cfg)
    case UpdateSection(p, sid, pub, relay) => Update(st, p, sid, pub, relay)
    case RemoveSection(p, sid) => Remove(st, p, sid)
    case KickSection(p) => Kick(st, p)
    case SweepSection(stale) => Sweep(st, stale)
  }

  function Run(st: Streams, run: seq<Section>, cfg: Config): Streams
    decreases |run|
  {
    if run == [] then st else Run(Next(st, run[0], cfg), run[1..], cfg)
  }

  predicate Unique(room: Room) {
    forall i, j :: 0 <= i < j < |room| ==> room[i].id != room[j].id
  }

  predicate RoomOk(room: Room, cfg: Config) {
    1 <= |room| <= cfg.maxPeers && Unique(room)
  }

  predicate RoomsOk(st: Streams, cfg: Config) {
    |st| <= cfg.maxRooms && forall sid :: sid in st ==> RoomOk(st[sid], cfg)
  }

  lemma {:induction false} HasIff(room: Room, p: PeerId)
    ensures Has(room, p) <==> exists i :: 0 <= i < |room| && room[i].id == p
  {
    if i :| 0 <= i < |room| && room[i].id == p {
      assert Find(room, p) <= i;
    }
  }

  /** A removal takes out exactly the entries of the peer and keeps ids unique. */
  lemma {:induction false} RetainIs(room: Room, p: PeerId)
    ensures forall x :: x in Retain(room, p) <==> x in room && x.id != p
    ensures |Retain(room, p)| <= |room|
    ensures Unique(room) ==> Unique(Retain(room, p))
  {
    RetainHolds(room, p);
    if Unique(room) {
      RetainUnique(room, p);
    }
  }

  /** What is left keeps its order. */
  lemma {:induction false} RetainInOrder(a: Room, b: Room, p: PeerId)
    ensures Retain(a + b, p) == Retain(a, p) + Retain(b, p)
    decreases |b|
  {
    if b == [] {
      assert a + b == a;
    } else {
      RetainInOrder(a, b[..|b| - 1], p);
      assert (a + b)[..|a + b| - 1] == a + b[..|b| - 1];
    }
  }

  lemma {:induction false} RetainHolds(room: Room, p: PeerId)
    ensures forall x :: x in Retain(room, p) <==> x in room && x.id != p
    ensures |Retain(room, p)| <= |room|
  {
    if room != [] {
      RetainHolds(room[..|room| - 1], p);
      assert room == room[..|room| - 1] + [room[|room| - 1]];
    }
  }

  lemma {:induction false} RetainUnique(room: Room, p: PeerId)
    requires Unique(room)
    ensures Unique(Retain(room, p))
  {
    if room != [] {
      var init, last := room[..|room| - 1], room[|room| - 1];
      RetainUnique(init, p);
      RetainHolds(init, p);
      assert forall x :: x in init ==> x.id != last.id;
      UniqueAppend(Retain(init, p), last);
    }
  }

  /** The size of a room with unique ids shrinks by one exactly when the peer was in it. */
  lemma {:induction false} RetainSize(room: Room, p: PeerId)
    ensures !Has(room, p) ==> Retain(room, p) == room
    ensures Unique(room) && Has(room, p) ==> |Retain(room, p)| == |room| - 1
  {
    if room != [] {
      var init, last := room[..|room| - 1], room[|room| - 1];
      assert room == init + [last];
      RetainSize(init, p);
      HasLast(init, last, p);
      HasIff(init, p);
    }
  }

  lemma {:induction false} HasLast(room: Room, x: SignalingPeer, p: PeerId)
    ensures Has(room + [x], p) <==> Has(room, p) || x.id == p
  {
    HasIff(room + [x], p);
    HasIff(room, p);
    assert (room + [x])[|room|] == x;
    assert forall i :: 0 <= i < |room| ==> (room + [x])[i] == room[i];
  }

  lemma {:induction false} UniqueAppend(room: Room, x: SignalingPeer)
    ensures Unique(room) && (forall y :: y in room ==> y.id != x.id) ==> Unique(room + [x])
  {
  }

  lemma {:induction false} EnterRoom(room: Room, p: PeerId, isPublisher: bool)
    requires Unique(room)
    ensures var r := Retain(room, p) + [SignalingPeer(p, isPublisher, false)];
            Unique(r) && |r| == if Has(room, p) then |room| else |room| + 1
  {
    RetainIs(room, p);
    RetainSize(room, p);
    UniqueAppend(Retain(room, p), SignalingPeer(p, isPublisher, false));
  }

  lemma {:induction false} FewerKeys(a: Streams, b: Streams)
    requires a.Keys <= b.Keys
    ensures |a| <= |b|
  {
    SubsetSize(a.Keys, b.Keys);
    assert |a.Keys| == |a| && |b.Keys| == |b|;
  }

  lemma {:induction false} SubsetSize(a: set<StreamId>, b: set<StreamId>)
    requires a <= b
    ensures |a| <= |b|
  {
    if x :| x in a {
      SubsetSize(a - {x}, b - {x});
    }
  }

  lemma {:induction false} EnterKeeps(st: Streams, p: PeerId, sid: StreamId, isPublisher: bool, cfg: Config)
    requires RoomsOk(st, cfg) && (cfg.maxPeers >= 1 || cfg.maxRooms == 0)
    ensures RoomsOk(Enter(st, p, sid, isPublisher, cfg), cfg)
  {
    if Admit(st, p, sid, cfg).Entered? {
      var room := if sid in st then st[sid] else [];
      EnterRoom(room, p, isPublisher);
      var next := Enter(st, p, sid, isPublisher, cfg);
      assert next.Keys == st.Keys + {sid} && |next| == |next.Keys| && |st| == |st.Keys|;
      assert RoomOk(next[sid], cfg);
    }
  }

  lemma {:induction false} SectionKeeps(st: Streams, s: Section, cfg: Config)
    requires RoomsOk(st, cfg) && (cfg.maxPeers >= 1 || cfg.maxRooms == 0)
    ensures RoomsOk(Next(st, s, cfg), cfg)
  {
    match s {
      case EnterSection(p, sid, pub) => EnterKeeps(st, p, sid, pub, cfg);
      case _ => ShrinkKeeps(st, s, cfg);
    }
  }

  lemma {:induction false} ShrinkKeeps(st: Streams, s: Section, cfg: Config)
    requires RoomsOk(st, cfg) && !s.EnterSection?
    ensures RoomsOk(Next(st, s, cfg), cfg)
  {
    var next := Next(st, s, cfg);
    FewerKeys(next, st);
    forall sid | sid in next
      ensures RoomOk(next[sid], cfg)
    {
      assert RoomOk(st[sid], cfg);
      if s.UpdateSection? {
        FlagsKeep(st[sid], s.p, s.isPublisher, s.canRelay);
      } else if !s.SweepSection? {
        RetainIs(st[sid], s.p);
      }
    }
  }

  lemma {:induction false} FlagsKeep(room: Room, p: PeerId, isPublisher: bool, canRelay: bool)
    ensures var r := SetFlags(room, p, isPublisher, canRelay);
            |r| == |room| && forall i :: 0 <= i < |room| ==> r[i].id == room[i].id
  {
  }

  lemma {:induction false} RunKeeps(st: Streams, run: seq<Section>, cfg: Config)
    requires RoomsOk(st, cfg) && (cfg.maxPeers >= 1 || cfg.maxRooms == 0)
    ensures RoomsOk(Run(st, run, cfg), cfg)
    decreases |run|
  {
    if run != [] {
      SectionKeeps(st, run[0], cfg);
      RunKeeps(Next(st, run[0], cfg), run[1..], cfg);
    }
  }

  /** Every interleaving of sections, from the empty table, keeps the caps, keeps peer ids unique and leaves no
      empty room -- exactly when a room may hold somebody or there may be no room at all: the size cap is not
      looked at when a join creates the room. */
  lemma {:induction false} InterleavingsKeepIff(cfg: Config)
    ensures (forall run :: RoomsOk(Run(map[], run, cfg), cfg)) <==> cfg.maxPeers >= 1 || cfg.maxRooms == 0
  {
    if cfg.maxPeers >= 1 || cfg.maxRooms == 0 {
      forall run
        ensures RoomsOk(Run(map[], run, cfg), cfg)
      {
        RunKeeps(map[], run, cfg);
      }
    } else {
      var join := EnterSection(0, "a", false);
      var st := Next(map[], join, cfg);
      assert Has([], 0) == false;
      assert st["a"] == Retain([], 0) + [SignalingPeer(0, false, false)];
      assert !RoomOk(st["a"], cfg);
      assert [join][1..] == [];
      assert Run(map[], [join], cfg) == st;
    }
  }

  /** Who may enter, and what it does: a member always, without changing the size of a full room; anybody else
      only below the caps. No other room changes. */
  lemma {:induction false} EnterIff(st: Streams, p: PeerId, sid: StreamId, isPublisher: bool, cfg: Config)
    requires RoomsOk(st, cfg)
    ensures var next := Enter(st, p, sid, isPublisher, cfg);
            && (Admit(st, p, sid, cfg).Entered? <==>
                  if sid in st then Has(st[sid], p) || |st[sid]| < cfg.maxPeers else |st| < cfg.maxRooms)
            && (!Admit(st, p, sid, cfg).Entered? ==> next == st)
            && (Admit(st, p, sid, cfg).Entered? ==>
                  sid in next && forall x :: x in next[sid] <==>
                    x == SignalingPeer(p, isPublisher, false) || (sid in st && x in st[sid] && x.id != p))
            && (sid in st && Has(st[sid], p) ==> |next[sid]| == |st[sid]|)
            && (forall other :: other != sid ==> (other in next <==> other in st) && (other in st ==> next[other] == st[other]))
  {
    var room := if sid in st then st[sid] else [];
    RetainIs(room, p);
    EnterRoom(room, p, isPublisher);
  }
}
