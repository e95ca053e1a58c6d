/** Late joiners (web_viewer/webrtc-client.js, `sendCachedDataToPeer`): what a publisher keeps, and which
    sequence numbers a peer sees that joins in the middle. */
module Replay {
  import opened Bytes
  import opened Outcomes
  import opened ClientState
  import opened Framing

  datatype Input = Input(buffer: bytes, kind: SegmentType, isKeyframe: bool, now: int)

  /** A publisher that has not sent anything yet, with whatever channels. */
  predicate Starting(c: Client) {
    c.isPublisher && c.nextSequence == 0 && c.queue == [] && c.keyframe.None?
  }

  function ForwardAll(c: Client, inputs: seq<Input>): Client
    decreases |inputs|
  {
    if inputs == [] then c
    else
      var i := inputs[|inputs| - 1];
      Forward(ForwardAll(c, inputs[..|inputs| - 1]), i.buffer, i.kind, i.isKeyframe, i.now)
  }

  /** Input `n` as the segment it becomes. */
  function Numbered(i: Input, n: nat): Segment {
    Segment(Header(true, i.kind, n, |i.buffer|, i.isKeyframe, i.now, Some(MAX_RELAY_TTL), None), i.buffer)
  }

  function Stream(inputs: seq<Input>, first: nat): (r: seq<Segment>)
    ensures |r| == |inputs|
    ensures forall k :: 0 <= k < |inputs| ==> r[k] == Numbered(inputs[k], first + k)
  {
    seq(|inputs|, k requires 0 <= k < |inputs| => Numbered(inputs[k], first + k))
  }

  predicate LastKeyAt(inputs: seq<Input>, k: nat) {
    k < |inputs| && inputs[k].isKeyframe && forall j :: k < j < |inputs| ==> !inputs[j].isKeyframe
  }

  function LastKey(inputs: seq<Input>): (k: Option<nat>)
    ensures k.Some? ==> k.value < |inputs|
  {
    if inputs == [] then None
    else if inputs[|inputs| - 1].isKeyframe then Some(|inputs| - 1)
    else LastKey(inputs[..|inputs| - 1])
  }

  lemma {:induction false} LastKeyIs(inputs: seq<Input>)
    ensures LastKey(inputs).Some? ==> LastKeyAt(inputs, LastKey(inputs).value)
    ensures LastKey(inputs).None? ==> forall j :: 0 <= j < |inputs| ==> !inputs[j].isKeyframe
  {
    if inputs != [] {
      LastKeyIs(inputs[..|inputs| - 1]);
    }
  }

  /** The bytes of the last init segment among the inputs. */
  function LastInit(inputs: seq<Input>): Option<bytes> {
    if inputs == [] then None
    else
      var i := inputs[|inputs| - 1];
      if i.kind == InitSegment || i.kind == InitVideo then Some(i.buffer) else LastInit(inputs[..|inputs| - 1])
  }

  /** The init segment a publisher has after these inputs. */
  function InitAfter(c0: Client, inputs: seq<Input>): Option<bytes> {
    if LastInit(inputs).Some? then LastInit(inputs) else c0.initSegment
  }

  /** A publisher's init segment is the latest one. */
  lemma {:induction false} PublisherInit(c: Client, inputs: seq<Input>)
    requires c.isPublisher
    ensures ForwardAll(c, inputs).isPublisher && ForwardAll(c, inputs).initSegment == InitAfter(c, inputs)
    decreases |inputs|
  {
    hide SegmentMessages, Broadcast, Targets, PushQueue;
    if inputs != [] {
      PublisherInit(c, inputs[..|inputs| - 1]);
    }
  }

  /** The queue is always the last min(n, 30) consecutive segments, and the keyframe the latest one. */
  lemma {:induction false} PublisherKeeps(c: Client, inputs: seq<Input>)
    requires Starting(c)
    ensures var r := ForwardAll(c, inputs);
            r.isPublisher && r.nextSequence == |inputs| && r.channels == c.channels && r.streamInfo == c.streamInfo
            && r.queue == LastOf(Stream(inputs, 0), MAX_SEGMENT_QUEUE_SIZE)
            && (forall k: nat :: LastKeyAt(inputs, k) ==> r.keyframe == Some(Stream(inputs, 0)[k]))
            && ((forall j :: 0 <= j < |inputs| ==> !inputs[j].isKeyframe) ==> r.keyframe.None?)
    decreases |inputs|
  {
    hide SegmentMessages, Broadcast, Targets;
    if inputs != [] {
      var before, i := inputs[..|inputs| - 1], inputs[|inputs| - 1];
      PublisherKeeps(c, before);
      var c1 := ForwardAll(c, before);
      var s := Numbered(i, |before|);
      assert Stream(inputs, 0) == Stream(before, 0) + [s];
      LastSegments(Stream(before, 0), s, MAX_SEGMENT_QUEUE_SIZE);
      KeyBefore(inputs);
    }
  }

  lemma {:induction false} KeyBefore(inputs: seq<Input>)
    requires inputs != []
    ensures var n := |inputs| - 1;
            forall k: nat :: LastKeyAt(inputs, k) ==> (k == n && inputs[n].isKeyframe) || (!inputs[n].isKeyframe && LastKeyAt(inputs[..n], k))
  {
  }

  lemma {:induction false} LastSegments(s: seq<Segment>, x: Segment, n: nat)
    requires n > 0
    ensures LastOf(LastOf(s, n) + [x], n) == LastOf(s + [x], n)
  {
  }

  function Later(a: nat, b: int): nat { if b <= a then a else b }

  lemma {:induction false} SliceSnoc<T>(s: seq<T>, from: nat, end: nat)
    requires from < end <= |s|
    ensures s[from..end] == s[from..end - 1] + [s[end - 1]]
  {
  }

  /** Everything after keyframe `k` that lies in the window. */
  function Behind(all: seq<Segment>, from: nat, end: nat, k: nat): seq<Segment>
    requires from <= end <= |all|
  {
    if Later(from, k + 1) <= end then all[Later(from, k + 1)..end] else []
  }

  lemma {:induction false} BehindStep(all: seq<Segment>, from: nat, end: nat, k: nat)
    requires from < end <= |all|
    ensures Behind(all, from, end, k) == Behind(all, from, end - 1, k) + if end - 1 > k then [all[end - 1]] else []
  {
    var start := Later(from, k + 1);
    if k < end - 1 {
      SliceSnoc(all, start, end);
    } else {
      assert Behind(all, from, end, k) == [] && Behind(all, from, end - 1, k) == [];
    }
  }

  lemma {:induction false} QueueStep(all: seq<Segment>, from: nat, end: nat, k: nat)
    requires from < end <= |all| && k < |all|
    requires forall j :: 0 <= j < |all| ==> all[j].header.sequence == j
    ensures AfterKeyframe(all[from..end], Some(all[k]))
         == AfterKeyframe(all[from..end - 1], Some(all[k])) + if end - 1 > k then [all[end - 1]] else []
  {
    var q := all[from..end];
    assert q[..|q| - 1] == all[from..end - 1] && q[|q| - 1] == all[end - 1];
  }

  /** What is queued behind keyframe `k`: everything after it that is still among the last 30. */
  lemma {:induction false} QueuedBehind(all: seq<Segment>, from: nat, end: nat, k: nat)
    requires from <= end <= |all| && k < |all|
    requires forall j :: 0 <= j < |all| ==> all[j].header.sequence == j
    ensures AfterKeyframe(all[from..end], Some(all[k])) == Behind(all, from, end, k)
    decreases end
  {
    if from < end {
      hide AfterKeyframe, Behind;
      QueuedBehind(all, from, end - 1, k);
      QueueStep(all, from, end, k);
      BehindStep(all, from, end, k);
    } else {
      assert all[from..end] == [];
    }
  }

  // ---------------------------------------------------------------- what the joiner sees

  function SegItems(segments: seq<Segment>): (r: seq<Item>)
    ensures |r| == |segments|
    ensures forall i :: 0 <= i < |segments| ==> r[i] == Seg(segments[i])
  {
    seq(|segments|, i requires 0 <= i < |segments| => Seg(segments[i]))
  }

  /** The last keyframe and what came behind it, as far as it is among the last 30. */
  function FromLastKey(inputs: seq<Input>): seq<Segment> {
    match LastKey(inputs)
    case Some(k) => [Numbered(inputs[k], k)] + Stream(inputs, 0)[Later(k + 1, |inputs| - MAX_SEGMENT_QUEUE_SIZE)..]
    case None => []
  }

  /** The front of a replay: the stream info, and the last init segment under a header of its own, numbered -1. */
  function ReplayFront(c0: Client, inputs: seq<Input>, now: int): seq<Item> {
    (match c0.streamInfo case Some(info) => [Note(StreamInfo(Some(info)))] case None => [])
    + (match InitAfter(c0, inputs)
       case Some(init) =>
         [Seg(Segment(Header(typed := true, segmentType := InitSegment, sequence := -1, size := |init|, isKeyframe := false,
                             timestamp := now, ttl := None, fromPeer := None), init))]
       case None => [])
  }

  /** A replay, from the inputs alone: behind the front come the last keyframe and what is left behind it, as they
      were sent. */
  function ReplayItems(c0: Client, inputs: seq<Input>, now: int): seq<Item> {
    ReplayFront(c0, inputs, now) + SegItems(FromLastKey(inputs))
  }

  /** The items of one replay. */
  function CachedItems(c: Client, now: int): seq<Item> {
    (if c.streamInfo.Some? then [Note(StreamInfo(c.streamInfo))] else []) + SegItems(CachedSegments(c, now))
  }

  /** The items of one replay, then the live ones. */
  function JoinerItems(c: Client, now: int, live: seq<Segment>): seq<Item> {
    CachedItems(c, now) + SegItems(live)
  }

  lemma {:induction false} EncodeConcat(a: seq<Item>, b: seq<Item>)
    ensures Encode(a + b) == Encode(a) + Encode(b)
    decreases |a|
  {
    hide ItemMessages;
    if a == [] {
      assert a + b == b;
    } else {
      EncodeConcat(a[1..], b);
      assert (a + b)[1..] == a[1..] + b && (a + b)[0] == a[0];
    }
  }

  lemma {:induction false} EncodeSegments(segments: seq<Segment>)
    ensures Encode(SegItems(segments)) == MessagesOf(segments)
    decreases |segments|
  {
    hide SegmentMessages;
    if segments != [] {
      var init, last := segments[..|segments| - 1], segments[|segments| - 1];
      EncodeSegments(init);
      assert SegItems(segments) == SegItems(init) + [Seg(last)];
      EncodeConcat(SegItems(init), [Seg(last)]);
      EncodeOne(Seg(last));
    }
  }

  lemma {:induction false} EncodeOne(i: Item)
    ensures Encode([i]) == ItemMessages(i)
  {
    hide ItemMessages;
    assert [i][1..] == [];
    assert ItemMessages(i) + [] == ItemMessages(i);
  }

  /** Messages sent to one peer. */
  function SentTo(log: seq<Sent>, p: Peer): seq<Message>
    decreases |log|
  {
    if log == [] then []
    else if log[|log| - 1].peer == p then SentTo(log[..|log| - 1], p) + [log[|log| - 1].message]
    else SentTo(log[..|log| - 1], p)
  }

  lemma {:induction false} SentToConcat(a: seq<Sent>, b: seq<Sent>, p: Peer)
    ensures SentTo(a + b, p) == SentTo(a, p) + SentTo(b, p)
    decreases |b|
  {
    if b == [] {
      assert a + b == a;
      assert SentTo(a, p) + [] == SentTo(a, p);
    } else {
      SentToConcat(a, b[..|b| - 1], p);
      assert (a + b)[..|a + b| - 1] == a + b[..|b| - 1];
    }
  }

  lemma {:induction false} SentToOne(q: Peer, ms: seq<Message>, p: Peer)
    ensures SentTo(To(q, ms), p) == if p == q then ms else []
    decreases |ms|
  {
    if ms != [] {
      SentToOne(q, ms[..|ms| - 1], p);
      assert To(q, ms)[..|ms| - 1] == To(q, ms[..|ms| - 1]);
      assert ms[..|ms| - 1] + [ms[|ms| - 1]] == ms;
    }
  }

  /** Exactly one channel goes to the peer, and it is open. */
  predicate Connected(channels: seq<Channel>, p: Peer) {
    channels != [] && (
      var last, init := channels[|channels| - 1], channels[..|channels| - 1];
      if last.peer == p then last.open && Absent(init, p) else Connected(init, p))
  }

  predicate Absent(channels: seq<Channel>, p: Peer) {
    forall i :: 0 <= i < |channels| ==> channels[i].peer != p
  }

  lemma {:induction false} NothingToSend(p: Peer)
    ensures SentTo([], p) == []
  {
  }

  lemma {:induction false} BroadcastReaches(channels: seq<Channel>, ms: seq<Message>, p: Peer)
    ensures Absent(channels, p) ==> SentTo(Broadcast(Targets(channels, None), ms), p) == []
    ensures Connected(channels, p) ==> SentTo(Broadcast(Targets(channels, None), ms), p) == ms
    decreases |channels|
  {
    hide To, SentTo;
    if channels == [] {
      NothingToSend(p);
    } else {
      var init, last := channels[..|channels| - 1], channels[|channels| - 1];
      BroadcastReaches(init, ms, p);
      var t := Targets(init, None);
      if last.open {
        assert (t + [last.peer])[..|t|] == t;
        SentToConcat(Broadcast(t, ms), To(last.peer, ms), p);
        SentToOne(last.peer, ms, p);
      } else {
        assert t + [] == t;
      }
      assert [] + ms == ms;
    }
  }

  /** Forwarding live segments sends a connected peer exactly those segments. */
  lemma {:induction false} LiveReaches(c: Client, inputs: seq<Input>, p: Peer)
    requires c.isPublisher && Connected(c.channels, p)
    ensures var r := ForwardAll(c, inputs);
            r.isPublisher && r.channels == c.channels && r.nextSequence == c.nextSequence + |inputs|
            && SentTo(r.sent, p) == SentTo(c.sent, p) + MessagesOf(Stream(inputs, c.nextSequence))
    decreases |inputs|
  {
    hide SegmentMessages, Broadcast, Targets, PushQueue, Connected, SentTo;
    var all := Stream(inputs, c.nextSequence);
    if inputs == [] {
      assert SentTo(c.sent, p) + [] == SentTo(c.sent, p);
    } else {
      var before, i := inputs[..|inputs| - 1], inputs[|inputs| - 1];
      LiveReaches(c, before, p);
      var c1 := ForwardAll(c, before);
      var s := Numbered(i, c1.nextSequence);
      assert all[..|before|] == Stream(before, c.nextSequence) && all[|before|] == s;
      var ms := SegmentMessages(s.header, s.buffer);
      BroadcastReaches(c1.channels, ms, p);
      SentToConcat(c1.sent, Broadcast(Targets(c1.channels, None), ms), p);
      assert (SentTo(c.sent, p) + MessagesOf(Stream(before, c.nextSequence))) + ms
          == SentTo(c.sent, p) + (MessagesOf(Stream(before, c.nextSequence)) + ms);
    }
  }

  /** A replay puts the cached items on the channel. */
  lemma {:induction false} CachedEncoded(c: Client, now: int)
    requires c.isPublisher || c.canRelay
    ensures Encode(CachedItems(c, now)) == CachedMessages(c, now)
  {
    hide Encode, MessagesOf, CachedSegments;
    var info := if c.streamInfo.Some? then [Note(StreamInfo(c.streamInfo))] else [];
    var cached := CachedSegments(c, now);
    EncodeSegments(cached);
    EncodeConcat(info, SegItems(cached));
    if c.streamInfo.Some? {
      EncodeOne(Note(StreamInfo(c.streamInfo)));
    } else {
      EncodeNothing();
      assert [] + CachedMessages(c, now) == CachedMessages(c, now);
    }
  }

  /** One replay followed by live forwarding puts the joiner's items on its channel. */
  lemma {:induction false} JoinerIsSent(c: Client, p: Peer, now: int, live: seq<Input>)
    requires c.isPublisher && Connected(c.channels, p) && SentTo(c.sent, p) == []
    ensures SentTo(ForwardAll(Send(c, p, CachedMessages(c, now)), live).sent, p)
         == Encode(JoinerItems(c, now, Stream(live, c.nextSequence)))
  {
    hide SegmentMessages, Encode, MessagesOf, CachedItems, CachedMessages, Connected, SentTo;
    var c1 := Send(c, p, CachedMessages(c, now));
    SentToConcat(c.sent, To(p, CachedMessages(c, now)), p);
    SentToOne(p, CachedMessages(c, now), p);
    LiveReaches(c1, live, p);
    var forwarded := Stream(live, c.nextSequence);
    CachedEncoded(c, now);
    EncodeSegments(forwarded);
    EncodeConcat(CachedItems(c, now), SegItems(forwarded));
    assert [] + CachedMessages(c, now) == CachedMessages(c, now);
  }

  lemma {:induction false} EncodeNothing()
    ensures Encode([]) == []
  {
  }

  /** The sequence numbers of the segments, without the -1 of a replayed init segment. */
  function Numbers(items: seq<Item>): seq<int> {
    if items == [] then []
    else if items[0].Seg? && items[0].segment.header.sequence >= 0 then [items[0].segment.header.sequence] + Numbers(items[1..])
    else Numbers(items[1..])
  }

  function Count(from: nat, end: nat): (r: seq<int>)
    ensures |r| == if from <= end then end - from else 0
    ensures forall i :: 0 <= i < |r| ==> r[i] == from + i
  {
    seq(if from <= end then end - from else 0, i requires 0 <= i => from + i)
  }

  lemma {:induction false} NumbersConcat(a: seq<Item>, b: seq<Item>)
    ensures Numbers(a + b) == Numbers(a) + Numbers(b)
    decreases |a|
  {
    if a == [] {
      assert a + b == b;
    } else {
      NumbersConcat(a[1..], b);
      assert (a + b)[1..] == a[1..] + b && (a + b)[0] == a[0];
    }
  }

  lemma {:induction false} NumbersOfRun(segments: seq<Segment>, first: nat)
    requires forall i :: 0 <= i < |segments| ==> segments[i].header.sequence == first + i
    ensures Numbers(SegItems(segments)) == Count(first, first + |segments|)
    decreases |segments|
  {
    if segments != [] {
      NumbersOfRun(segments[1..], first + 1);
      assert SegItems(segments)[1..] == SegItems(segments[1..]);
      assert [first as int] + Count(first + 1, first + |segments|) == Count(first, first + |segments|);
    }
  }

  predicate Increasing(s: seq<int>) {
    forall i, j :: 0 <= i < j < |s| ==> s[i] < s[j]
  }

  predicate GapFree(s: seq<int>) {
    forall i :: 0 <= i < |s| - 1 ==> s[i + 1] == s[i] + 1
  }

  /** A joiner that arrives after n segments, the last keyframe being number k, sees k, then what is still
      queued behind it, then everything live: strictly increasing, without duplicates, and gap-free exactly
      when at most maxSegmentQueueSize segments had followed the keyframe. */
  lemma {:induction false} LateJoiner(c0: Client, inputs: seq<Input>, k: nat, now: int, live: seq<Input>)
    requires Starting(c0) && LastKeyAt(inputs, k)
    ensures var n := |inputs|;
            var c := ForwardAll(c0, inputs);
            var numbers := Numbers(JoinerItems(c, now, Stream(live, n)));
            numbers == [k as int] + Count(Later(k + 1, n - MAX_SEGMENT_QUEUE_SIZE), n + |live|)
            && Increasing(numbers)
            && (GapFree(numbers) <==> n - 1 - k <= MAX_SEGMENT_QUEUE_SIZE)
  {
    hide ForwardAll, Numbers, AfterKeyframe, CachedSegments, JoinerItems, Increasing, GapFree, Count;
    var n := |inputs|;
    var c := ForwardAll(c0, inputs);
    PublisherKeeps(c0, inputs);
    CachedQueue(c, inputs, k);
    var all, start := Stream(inputs, 0), Later(k + 1, n - MAX_SEGMENT_QUEUE_SIZE);
    JoinerNumbers(c, now, all[k], all[start..n], Stream(live, n), start, n);
    CountJoins(k, start, n, n + |live|);
    Shape(k, start, n + |live|);
  }

  lemma {:induction false} CachedQueue(c: Client, inputs: seq<Input>, k: nat)
    requires k < |inputs| && c.keyframe == Some(Stream(inputs, 0)[k])
    requires c.queue == LastOf(Stream(inputs, 0), MAX_SEGMENT_QUEUE_SIZE)
    ensures var start := Later(k + 1, |inputs| - MAX_SEGMENT_QUEUE_SIZE);
            AfterKeyframe(c.queue, c.keyframe) == Stream(inputs, 0)[start..]
  {
    hide AfterKeyframe;
    var n, all := |inputs|, Stream(inputs, 0);
    var from := if n <= MAX_SEGMENT_QUEUE_SIZE then 0 else n - MAX_SEGMENT_QUEUE_SIZE;
    LastIsWindow(all, MAX_SEGMENT_QUEUE_SIZE);
    QueuedBehind(all, from, n, k);
    WholeTail(all, Later(from, k + 1));
  }

  lemma {:induction false} SegItemsConcat(a: seq<Segment>, b: seq<Segment>)
    ensures SegItems(a + b) == SegItems(a) + SegItems(b)
  {
  }

  /** The keyframe and queue of a publisher are those of its inputs. */
  lemma {:induction false} KeptFromKey(c0: Client, c: Client, inputs: seq<Input>)
    requires Starting(c0)
    requires c.keyframe == ForwardAll(c0, inputs).keyframe && c.queue == ForwardAll(c0, inputs).queue
    ensures (if c.keyframe.Some? then [c.keyframe.value] else []) + AfterKeyframe(c.queue, c.keyframe) == FromLastKey(inputs)
  {
    hide ForwardAll, AfterKeyframe, LastOf;
    PublisherKeeps(c0, inputs);
    LastKeyIs(inputs);
    match LastKey(inputs) {
      case Some(k) => CachedQueue(c, inputs, k);
      case None => NothingBehind(c);
    }
  }

  lemma {:induction false} NothingBehind(c: Client)
    requires c.keyframe.None?
    ensures (if c.keyframe.Some? then [c.keyframe.value] else []) + AfterKeyframe(c.queue, c.keyframe) == []
  {
  }

  /** What a publisher replays is the replay of its inputs. */
  lemma {:induction false} CachedIsReplay(c0: Client, c: Client, inputs: seq<Input>, now: int)
    requires Starting(c0) && c.isPublisher
    requires var d := ForwardAll(c0, inputs);
             c.streamInfo == d.streamInfo && c.initSegment == d.initSegment && c.keyframe == d.keyframe && c.queue == d.queue
    ensures CachedItems(c, now) == ReplayItems(c0, inputs, now)
    ensures CachedMessages(c, now) == Encode(ReplayItems(c0, inputs, now))
  {
    hide ForwardAll, AfterKeyframe, Encode, CachedMessages, SegItems, FromLastKey, InitAfter;
    KeptFromKey(c0, c, inputs);
    PublisherInit(c0, inputs);
    InfoKept(c0, inputs);
    CachedEncoded(c, now);
    var init := if c.initSegment.Some? then [Segment(InitHeader(c.initSegment.value, now), c.initSegment.value)] else [];
    Reassociate(init, if c.keyframe.Some? then [c.keyframe.value] else [], AfterKeyframe(c.queue, c.keyframe));
    SegItemsConcat(init, FromLastKey(inputs));
    InitItem(init);
    var info := if c.streamInfo.Some? then [Note(StreamInfo(c.streamInfo))] else [];
    Reassociate(info, SegItems(init), SegItems(FromLastKey(inputs)));
  }

  lemma {:induction false} InfoKept(c0: Client, inputs: seq<Input>)
    requires Starting(c0)
    ensures ForwardAll(c0, inputs).streamInfo == c0.streamInfo
  {
    hide ForwardAll;
    PublisherKeeps(c0, inputs);
  }

  lemma {:induction false} InitItem(init: seq<Segment>)
    requires |init| <= 1
    ensures SegItems(init) == if init == [] then [] else [Seg(init[0])]
  {
  }

  lemma {:induction false} LastIsWindow<T>(s: seq<T>, n: nat)
    ensures LastOf(s, n) == s[if |s| <= n then 0 else |s| - n..|s|]
  {
  }

  lemma {:induction false} WholeTail<T>(s: seq<T>, i: nat)
    requires i <= |s|
    ensures s[i..|s|] == s[i..]
  {
  }

  lemma {:induction false} CountJoins(k: nat, start: nat, n: nat, end: nat)
    requires start <= n <= end
    ensures [k as int] + Count(start, n) + Count(n, end) == [k as int] + Count(start, end)
  {
  }

  lemma {:induction false} Shape(k: nat, start: nat, end: nat)
    requires k < start <= end && (start == end ==> start == k + 1)
    ensures var s := [k as int] + Count(start, end);
            Increasing(s) && (GapFree(s) <==> start == k + 1)
  {
    var s := [k as int] + Count(start, end);
    if start < end && GapFree(s) {
      assert s[0 + 1] == s[0] + 1;
    }
  }

  lemma {:induction false} JoinerNumbers(c: Client, now: int, key: Segment, queued: seq<Segment>, live: seq<Segment>, start: nat, n: nat)
    requires c.keyframe == Some(key) && AfterKeyframe(c.queue, c.keyframe) == queued && key.header.sequence >= 0
    requires start + |queued| == n && forall i :: 0 <= i < |queued| ==> queued[i].header.sequence == start + i
    requires forall i :: 0 <= i < |live| ==> live[i].header.sequence == n + i
    ensures Numbers(JoinerItems(c, now, live)) == [key.header.sequence] + Count(start, n) + Count(n, n + |live|)
  {
    hide Numbers, AfterKeyframe;
    var info := if c.streamInfo.Some? then [Note(StreamInfo(c.streamInfo))] else [];
    var init := if c.initSegment.Some? then [Segment(InitHeader(c.initSegment.value, now), c.initSegment.value)] else [];
    assert CachedSegments(c, now) == init + [key] + queued;
    assert SegItems(init + [key] + queued) == SegItems(init) + [Seg(key)] + SegItems(queued);
    NumbersConcat(info + SegItems(CachedSegments(c, now)), SegItems(live));
    NumbersConcat(info, SegItems(CachedSegments(c, now)));
    NumbersConcat(SegItems(init) + [Seg(key)], SegItems(queued));
    NumbersConcat(SegItems(init), [Seg(key)]);
    NumbersOfRun(queued, start);
    NumbersOfRun(live, n);
    Uncounted(info);
    Uncounted(SegItems(init));
    NumbersOne(key);
  }

  lemma {:induction false} Uncounted(items: seq<Item>)
    requires |items| <= 1 && forall i :: 0 <= i < |items| ==> items[i].Note? || items[i].segment.header.sequence < 0
    ensures Numbers(items) == []
  {
    if items != [] {
      assert items[1..] == [];
    }
  }

  lemma {:induction false} NumbersOne(s: Segment)
    requires s.header.sequence >= 0
    ensures Numbers([Seg(s)]) == [s.header.sequence]
  {
    assert [Seg(s)][1..] == [];
  }

  /** Without a cached keyframe the queue is not replayed at all. */
  lemma {:induction false} NoKeyframeNoReplay(c0: Client, inputs: seq<Input>, now: int, live: seq<Input>)
    requires Starting(c0) && forall j :: 0 <= j < |inputs| ==> !inputs[j].isKeyframe
    ensures Numbers(JoinerItems(ForwardAll(c0, inputs), now, Stream(live, |inputs|))) == Count(|inputs|, |inputs| + |live|)
  {
    hide ForwardAll, Numbers;
    var c, n := ForwardAll(c0, inputs), |inputs|;
    PublisherKeeps(c0, inputs);
    var info := if c.streamInfo.Some? then [Note(StreamInfo(c.streamInfo))] else [];
    var cached := CachedSegments(c, now);
    NumbersConcat(info + SegItems(cached), SegItems(Stream(live, n)));
    NumbersConcat(info, SegItems(cached));
    NumbersOfRun(Stream(live, n), n);
    Uncounted(info);
    Uncounted(SegItems(cached));
    assert [] + [] + Count(n, n + |live|) == Count(n, n + |live|);
  }
}
