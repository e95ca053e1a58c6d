/** At-most-once relaying (web_viewer/webrtc-client.js, `addSeenSequence`): what the pruned seen set forgets,
    and how many times a segment is sent in a whole network. */
module Dedup {
  import opened Bytes
  import opened Outcomes
  import opened ClientState
  import opened Framing
  import opened Flood

  // ---------------------------------------------------------------- one relay

  datatype Received = Received(header: Header, buffer: bytes, peer: Peer)

  function ReceiveAll(c: Client, rs: seq<Received>): Client
    decreases |rs|
  {
    if rs == [] then c
    else
      var r := rs[|rs| - 1];
      Process(ReceiveAll(c, rs[..|rs| - 1]), r.header, r.buffer, r.peer)
  }

  /** The relay decision about the last of the received segments. */
  predicate RelaysLast(c: Client, rs: seq<Received>)
    requires rs != []
  {
    var r := rs[|rs| - 1];
    Relays(Accept(ReceiveAll(c, rs[..|rs| - 1]), r.header, r.buffer, r.peer), r.header)
  }

  /** The sequence numbers relayed, in order. */
  function RelayedKeys(c: Client, rs: seq<Received>): seq<int>
    decreases |rs|
  {
    if rs == [] then []
    else if RelaysLast(c, rs) then RelayedKeys(c, rs[..|rs| - 1]) + [rs[|rs| - 1].header.sequence]
    else RelayedKeys(c, rs[..|rs| - 1])
  }

  lemma {:induction false} LastOfConcat(s: seq<int>, t: seq<int>, n: nat)
    ensures LastOf(LastOf(s, n) + t, n) == LastOf(s + t, n)
  {
    var a, b := LastOf(LastOf(s, n) + t, n), LastOf(s + t, n);
    assert |a| == |b|;
    assert forall i :: 0 <= i < |a| ==> a[i] == b[i];
  }

  /** The seen set is always the most recently inserted sequence numbers, never above the cap. */
  lemma {:induction false} SeenIsRecent(c: Client, rs: seq<Received>)
    requires |c.seen| <= MAX_SEEN_SEQUENCES
    ensures ReceiveAll(c, rs).seen == LastOf(c.seen + RelayedKeys(c, rs), MAX_SEEN_SEQUENCES)
    ensures |ReceiveAll(c, rs).seen| <= MAX_SEEN_SEQUENCES
    decreases |rs|
  {
    hide LastOf;
    if rs == [] {
      assert c.seen + [] == c.seen;
      ShortLast(c.seen);
    } else {
      var before, r := rs[..|rs| - 1], rs[|rs| - 1];
      SeenIsRecent(c, before);
      var c1 := ReceiveAll(c, before);
      ProcessKeeps(c1, r.header, r.buffer, r.peer, true);
      AcceptKeeps(c1, r.header, r.buffer, r.peer);
      hide Accept, Process;
      if RelaysLast(c, rs) {
        assert r.header.sequence !in c1.seen;
        LastOfConcat(c.seen + RelayedKeys(c, before), [r.header.sequence], MAX_SEEN_SEQUENCES);
        assert (c.seen + RelayedKeys(c, before)) + [r.header.sequence] == c.seen + RelayedKeys(c, rs);
      }
    }
  }

  // ---------------------------------------------------------------- which segments a relay takes up

  function NumbersIn(rs: seq<Received>): seq<int> {
    if rs == [] then [] else NumbersIn(rs[..|rs| - 1]) + [rs[|rs| - 1].header.sequence]
  }

  function SegmentsIn(rs: seq<Received>): seq<Segment> {
    if rs == [] then [] else SegmentsIn(rs[..|rs| - 1]) + [Segment(rs[|rs| - 1].header, rs[|rs| - 1].buffer)]
  }

  /** The received segments with hops left whose number is not among the last ones taken up. */
  function TakenUp(seen: seq<int>, rs: seq<Received>): seq<Received>
    decreases |rs|
  {
    if rs == [] then []
    else
      var sofar, r := TakenUp(seen, rs[..|rs| - 1]), rs[|rs| - 1];
      var hopsLeft := r.header.ttl.None? || r.header.ttl.value > 0;
      if hopsLeft && r.header.sequence !in LastOf(seen + NumbersIn(sofar), MAX_SEEN_SEQUENCES) then sofar + [r] else sofar
  }

  lemma {:induction false} InSnoc(rs: seq<Received>, r: Received)
    ensures NumbersIn(rs + [r]) == NumbersIn(rs) + [r.header.sequence]
    ensures SegmentsIn(rs + [r]) == SegmentsIn(rs) + [Segment(r.header, r.buffer)]
  {
    assert (rs + [r])[..|rs|] == rs;
  }

  lemma {:induction false} LastSegments(s: seq<Segment>, t: seq<Segment>, n: nat)
    ensures LastOf(LastOf(s, n) + t, n) == LastOf(s + t, n)
  {
    var a, b := LastOf(LastOf(s, n) + t, n), LastOf(s + t, n);
    assert |a| == |b|;
    assert forall i :: 0 <= i < |a| ==> a[i] == b[i];
  }

  lemma {:induction false} RelayStep(c: Client, h: Header, buffer: bytes, p: Peer)
    requires c.canRelay && !c.isPublisher && |c.seen| <= MAX_SEEN_SEQUENCES
    ensures var d := Process(c, h, buffer, p);
            var taken := (h.ttl.None? || h.ttl.value > 0) && h.sequence !in c.seen;
            && d.canRelay && !d.isPublisher
            && d.seen == (if taken then LastOf(c.seen + [h.sequence], MAX_SEEN_SEQUENCES) else c.seen)
            && d.queue == (if taken then LastOf(c.queue + [Segment(h, buffer)], MAX_SEGMENT_QUEUE_SIZE) else c.queue)
            && (Relays(Accept(c, h, buffer, p), h) <==> taken)
  {
    hide Broadcast, Targets, LastOf, SegmentMessages;
  }

  lemma {:induction false} ShortQueue(s: seq<Segment>)
    requires |s| <= MAX_SEGMENT_QUEUE_SIZE
    ensures LastOf(s, MAX_SEGMENT_QUEUE_SIZE) == s
  {
  }

  /** A relay keeps the last 500 numbers and the last 30 segments of those it has taken up, which are the ones it
      sends on. */
  lemma {:induction false} RelayKeeps(c: Client, rs: seq<Received>)
    requires c.canRelay && !c.isPublisher && |c.seen| <= MAX_SEEN_SEQUENCES && |c.queue| <= MAX_SEGMENT_QUEUE_SIZE
    ensures var d := ReceiveAll(c, rs);
            var taken := TakenUp(c.seen, rs);
            && d.canRelay && !d.isPublisher
            && d.seen == LastOf(c.seen + NumbersIn(taken), MAX_SEEN_SEQUENCES)
            && d.queue == LastOf(c.queue + SegmentsIn(taken), MAX_SEGMENT_QUEUE_SIZE)
            && RelayedKeys(c, rs) == NumbersIn(taken)
    decreases |rs|
  {
    hide LastOf, Process, Relays, Accept;
    if rs == [] {
      assert c.seen + [] == c.seen && c.queue + [] == c.queue;
      ShortLast(c.seen);
      ShortQueue(c.queue);
    } else {
      var before, r := rs[..|rs| - 1], rs[|rs| - 1];
      RelayKeeps(c, before);
      var sofar := TakenUp(c.seen, before);
      RelayStep(ReceiveAll(c, before), r.header, r.buffer, r.peer);
      InSnoc(sofar, r);
      hide NumbersIn, SegmentsIn;
      LastOfConcat(c.seen + NumbersIn(sofar), [r.header.sequence], MAX_SEEN_SEQUENCES);
      Reassociate(c.seen, NumbersIn(sofar), [r.header.sequence]);
      LastSegments(c.queue + SegmentsIn(sofar), [Segment(r.header, r.buffer)], MAX_SEGMENT_QUEUE_SIZE);
      Reassociate(c.queue, SegmentsIn(sofar), [Segment(r.header, r.buffer)]);
    }
  }

  // ---------------------------------------------------------------- what it forgets

  lemma {:induction false} RecentHolds(s: seq<int>, n: nat, i: nat)
    requires i < |s|
    ensures |s| - i <= n ==> s[i] in LastOf(s, n)
  {
    if n < |s| && |s| - i <= n {
      assert LastOf(s, n)[i - (|s| - n)] == s[i];
    }
  }

  lemma {:induction false} RelaysOnlyUnseen(c: Client, rs: seq<Received>)
    requires rs != [] && |c.seen| <= MAX_SEEN_SEQUENCES && RelaysLast(c, rs)
    ensures rs[|rs| - 1].header.sequence !in LastOf(c.seen + RelayedKeys(c, rs[..|rs| - 1]), MAX_SEEN_SEQUENCES)
  {
    hide Accept, Process, LastOf;
    var before, r := rs[..|rs| - 1], rs[|rs| - 1];
    SeenIsRecent(c, before);
    AcceptKeeps(ReceiveAll(c, before), r.header, r.buffer, r.peer);
  }

  /** A relay forwards the same sequence number twice only after at least maxSeenSequences others. */
  lemma {:induction false} RelayedAgainOnlyLate(c: Client, rs: seq<Received>, i: nat, j: nat)
    requires |c.seen| <= MAX_SEEN_SEQUENCES
    requires i < j < |RelayedKeys(c, rs)| && RelayedKeys(c, rs)[i] == RelayedKeys(c, rs)[j]
    ensures j - i - 1 >= MAX_SEEN_SEQUENCES
    decreases |rs|
  {
    hide RelaysLast, LastOf;
    var before := rs[..|rs| - 1];
    var keys := RelayedKeys(c, before);
    if j < |keys| {
      assert RelayedKeys(c, rs)[i] == keys[i] && RelayedKeys(c, rs)[j] == keys[j];
      RelayedAgainOnlyLate(c, before, i, j);
    } else {
      RelaysOnlyUnseen(c, rs);
      var all := c.seen + keys;
      assert all[|c.seen| + i] == keys[i];
      RecentHolds(all, MAX_SEEN_SEQUENCES, |c.seen| + i);
    }
  }

  // ---------------------------------------------------------------- the whole network

  predicate SameKey(k: Copy, key: int) { k.header.sequence == key }

  function CountKey(copies: seq<Copy>, key: int): nat {
    if copies == [] then 0 else CountKey(copies[..|copies| - 1], key) + if SameKey(copies[|copies| - 1], key) then 1 else 0
  }

  /** The copies a step puts on the wire. */
  function SentBy(net: Net, s: Step): seq<Copy>
    requires Enabled(net, s)
  {
    match s
    case Arrive(i, dedup) =>
      var k := net.flight[i];
      if k.dst < |net.nodes| then Emitted(net.nodes[k.dst], k, dedup) else []
    case New(p, buffer, kind, isKeyframe, now) =>
      CopiesTo(p, Targets(net.nodes[p].channels, None), ForwardHeader(net.nodes[p], buffer, kind, isKeyframe, now), buffer, 1)
  }

  function SentInRun(net: Net, steps: seq<Step>, key: int): nat
    requires IsRun(net, steps)
    decreases |steps|
  {
    if steps == [] then 0 else CountKey(SentBy(net, steps[0]), key) + SentInRun(Take(net, steps[0]), steps[1..], key)
  }

  /** How many copies of `key` a client may still send: its degree, once. */
  function Allowance(c: Client, key: int): nat {
    if c.isPublisher then (if c.nextSequence <= key then |c.channels| else 0)
    else if key in c.seen then 0
    else |c.channels|
  }

  function Budget(nodes: seq<Client>, key: int): nat {
    if nodes == [] then 0 else Budget(nodes[..|nodes| - 1], key) + Allowance(nodes[|nodes| - 1], key)
  }

  function TotalDegree(nodes: seq<Client>): nat {
    if nodes == [] then 0 else TotalDegree(nodes[..|nodes| - 1]) + |nodes[|nodes| - 1].channels|
  }

  lemma {:induction false} BudgetWithinDegrees(nodes: seq<Client>, key: int)
    ensures Budget(nodes, key) <= TotalDegree(nodes)
  {
    if nodes != [] {
      BudgetWithinDegrees(nodes[..|nodes| - 1], key);
    }
  }

  lemma {:induction false} BudgetUpdate(nodes: seq<Client>, i: nat, c: Client, key: int)
    requires i < |nodes|
    ensures Budget(nodes[i := c], key) + Allowance(nodes[i], key) == Budget(nodes, key) + Allowance(c, key)
  {
    var init, n := nodes[..|nodes| - 1], |nodes| - 1;
    if i == n {
      assert nodes[i := c][..n] == init;
    } else {
      BudgetUpdate(init, i, c, key);
      assert nodes[i := c][..n] == init[i := c];
    }
  }

  lemma {:induction false} CountOfCopies(src: Peer, peers: seq<Peer>, h: Header, buffer: bytes, hops: nat, key: int)
    ensures CountKey(CopiesTo(src, peers, h, buffer, hops), key) == if h.sequence == key then |peers| else 0
    decreases |peers|
  {
    if peers != [] {
      var init := peers[..|peers| - 1];
      CountOfCopies(src, init, h, buffer, hops, key);
      assert CopiesTo(src, peers, h, buffer, hops)[..|init|] == CopiesTo(src, init, h, buffer, hops);
    }
  }

  /** What a step adds to the seen set of node `n`. */
  function AddedBy(net: Net, s: Step, n: nat): seq<int>
    requires Enabled(net, s)
  {
    if !s.Arrive? || net.flight[s.index].dst != n || n >= |net.nodes| then []
    else
      var k := net.flight[s.index];
      var h := Stored(k.header, k.src);
      if s.dedup && Relays(Accept(net.nodes[n], h, k.buffer, k.src), h) then [h.sequence] else []
  }

  /** The same for a whole run, oldest first. */
  function Added(net: Net, steps: seq<Step>, n: nat): seq<int>
    requires IsRun(net, steps)
    decreases |steps|
  {
    if steps == [] then [] else AddedBy(net, steps[0], n) + Added(Take(net, steps[0]), steps[1..], n)
  }

  /** Fewer than maxSeenSequences numbers are newer than `key`. */
  predicate FewNewer(s: seq<int>, key: int) {
    forall i :: 0 <= i < |s| && s[i] == key ==> |s| - i <= MAX_SEEN_SEQUENCES
  }

  predicate AllDedup(steps: seq<Step>) {
    forall i :: 0 <= i < |steps| && steps[i].Arrive? ==> steps[i].dedup
  }

  predicate CapsHold(net: Net) {
    forall n :: 0 <= n < |net.nodes| ==> |net.nodes[n].seen| <= MAX_SEEN_SEQUENCES
  }

  lemma {:induction false} AddUnseen(seen: seq<int>, key: int)
    requires key !in seen
    ensures AddSeen(seen, key) == LastOf(seen + [key], MAX_SEEN_SEQUENCES)
    ensures key in AddSeen(seen, key)
    ensures forall k :: k in AddSeen(seen, key) ==> k == key || k in seen
  {
    var r := AddSeen(seen, key);
    assert r[|r| - 1] == key;
  }

  /** One step appends what it adds and prunes the oldest entries. */
  lemma {:induction false} SeenStep(net: Net, s: Step, n: nat)
    requires Enabled(net, s) && n < |net.nodes| && CapsHold(net)
    ensures |Take(net, s).nodes| == |net.nodes| && CapsHold(Take(net, s))
    ensures Take(net, s).nodes[n].isPublisher == net.nodes[n].isPublisher
    ensures Take(net, s).nodes[n].seen == LastOf(net.nodes[n].seen + AddedBy(net, s, n), MAX_SEEN_SEQUENCES)
  {
    hide Accept, Relays, AddSeen, SegmentMessages, Broadcast, Targets, PushQueue, Emitted, ProcessWith;
    assert net.nodes[n].seen + [] == net.nodes[n].seen;
    match s {
      case Arrive(i, dedup) =>
        var k := net.flight[i];
        if k.dst < |net.nodes| {
          var node, h := net.nodes[k.dst], Stored(k.header, k.src);
          AcceptKeeps(node, h, k.buffer, k.src);
          ProcessKeeps(node, h, k.buffer, k.src, dedup);
          RelayedIsUnseen(node, h, k.buffer, k.src);
        }
      case New(_, _, _, _, _) =>
    }
  }

  lemma {:induction false} RelayedIsUnseen(c: Client, h: Header, buffer: bytes, from: Peer)
    ensures Relays(Accept(c, h, buffer, from), h) ==>
      h.sequence !in c.seen && AddSeen(c.seen, h.sequence) == LastOf(c.seen + [h.sequence], MAX_SEEN_SEQUENCES)
    ensures |AddSeen(c.seen, h.sequence)| <= MAX_SEEN_SEQUENCES
  {
    AcceptKeeps(c, h, buffer, from);
    if h.sequence !in c.seen {
      AddUnseen(c.seen, h.sequence);
    }
  }

  /** Over any run a seen set is the most recent of what it held and what was added. */
  lemma {:induction false} SeenHistory(net: Net, steps: seq<Step>, n: nat)
    requires IsRun(net, steps) && n < |net.nodes| && CapsHold(net)
    ensures |Final(net, steps).nodes| == |net.nodes|
    ensures Final(net, steps).nodes[n].seen == LastOf(net.nodes[n].seen + Added(net, steps, n), MAX_SEEN_SEQUENCES)
    decreases |steps|
  {
    hide AddedBy, LastOf, Take;
    var seen := net.nodes[n].seen;
    if steps == [] {
      assert seen + [] == seen;
      ShortLast(seen);
    } else {
      var next, a := Take(net, steps[0]), AddedBy(net, steps[0], n);
      SeenStep(net, steps[0], n);
      SeenHistory(next, steps[1..], n);
      var rest := Added(next, steps[1..], n);
      LastOfConcat(seen + a, rest, MAX_SEEN_SEQUENCES);
      Reassociate(seen, a, rest);
    }
  }

  lemma {:induction false} ShortLast(s: seq<int>)
    requires |s| <= MAX_SEEN_SEQUENCES
    ensures LastOf(s, MAX_SEEN_SEQUENCES) == s
  {
  }

  /** No step of the run makes a relay forget `key`. */
  ghost predicate Remembers(net: Net, steps: seq<Step>, key: int)
    requires IsRun(net, steps)
    decreases |steps|
  {
    steps == [] || (
      && (forall n :: 0 <= n < |net.nodes| && n < |Take(net, steps[0]).nodes| && !net.nodes[n].isPublisher && key in net.nodes[n].seen
            ==> key in Take(net, steps[0]).nodes[n].seen)
      && Remembers(Take(net, steps[0]), steps[1..], key))
  }

  lemma {:induction false} StaysSeen(seen: seq<int>, a: seq<int>, rest: seq<int>, key: int)
    requires FewNewer(seen + (a + rest), key)
    ensures key in seen ==> key in LastOf(seen + a, MAX_SEEN_SEQUENCES)
    ensures FewNewer(LastOf(seen + a, MAX_SEEN_SEQUENCES) + rest, key)
  {
    var all, kept := seen + (a + rest), LastOf(seen + a, MAX_SEEN_SEQUENCES);
    var off := |seen + a| - |kept|;
    assert forall i :: 0 <= i < |kept + rest| ==> (kept + rest)[i] == all[off + i];
    if i :| 0 <= i < |seen| && seen[i] == key {
      assert all[i] == key;
      assert (seen + a)[i] == key;
      RecentHolds(seen + a, MAX_SEEN_SEQUENCES, i);
    }
  }

  /** A relay to which fewer than maxSeenSequences newer numbers are added during the run does not forget. */
  lemma {:induction false} FewNewerRemembers(net: Net, steps: seq<Step>, key: int)
    requires IsRun(net, steps) && CapsHold(net)
    requires forall n :: 0 <= n < |net.nodes| && !net.nodes[n].isPublisher ==> FewNewer(net.nodes[n].seen + Added(net, steps, n), key)
    ensures Remembers(net, steps, key)
    decreases |steps|
  {
    hide AddedBy, LastOf, Take, FewNewer;
    if steps != [] {
      var next := Take(net, steps[0]);
      forall n | 0 <= n < |net.nodes|
        ensures n < |next.nodes| && next.nodes[n].isPublisher == net.nodes[n].isPublisher && |next.nodes| == |net.nodes|
        ensures !net.nodes[n].isPublisher && key in net.nodes[n].seen ==> key in next.nodes[n].seen
        ensures !net.nodes[n].isPublisher ==> FewNewer(next.nodes[n].seen + Added(next, steps[1..], n), key)
      {
        SeenStep(net, steps[0], n);
        if !net.nodes[n].isPublisher {
          StaysSeen(net.nodes[n].seen, AddedBy(net, steps[0], n), Added(next, steps[1..], n), key);
        }
      }
      SameNodes(net, steps[0]);
      FewNewerRemembers(next, steps[1..], key);
    }
  }

  lemma {:induction false} SameNodes(net: Net, s: Step)
    requires Enabled(net, s) && CapsHold(net)
    ensures |Take(net, s).nodes| == |net.nodes| && CapsHold(Take(net, s))
  {
    hide Accept, Relays, AddSeen, SegmentMessages, Broadcast, Targets, PushQueue, Emitted, ProcessWith;
    if s.Arrive? {
      var k := net.flight[s.index];
      if k.dst < |net.nodes| {
        SeenStep(net, s, k.dst);
      }
    }
  }

  /** A client that does not forget `key` pays for the copies it sends on with its allowance. */
  lemma {:induction false} NodeSpends(node: Client, k: Copy, key: int)
    requires var r := Process(node, Stored(k.header, k.src), k.buffer, k.src);
             !node.isPublisher && key in node.seen ==> key in r.seen
    ensures CountKey(Emitted(node, k, true), key) + Allowance(Process(node, Stored(k.header, k.src), k.buffer, k.src), key)
         <= Allowance(node, key)
  {
    hide Process, Accept, AddSeen, CountKey, CopiesTo;
    var h := Stored(k.header, k.src);
    var c1 := Accept(node, h, k.buffer, k.src);
    AcceptKeeps(node, h, k.buffer, k.src);
    ProcessKeeps(node, h, k.buffer, k.src, true);
    if Relays(c1, h) {
      AddUnseen(node.seen, h.sequence);
      CountOfCopies(k.dst, RelayTargets(c1, h, k.src), RelayHeader(h, k.buffer), k.buffer, k.hops + 1, key);
      hide Targets;
    } else {
      NothingCounted(key);
    }
  }

  lemma {:induction false} NothingCounted(key: int)
    ensures CountKey([], key) == 0
  {
  }

  lemma {:induction false} ArriveSpends(net: Net, i: nat, key: int)
    requires i < |net.flight|
    requires var k := net.flight[i];
             var r := Deliver(net, i, true);
             k.dst < |net.nodes| && !net.nodes[k.dst].isPublisher && key in net.nodes[k.dst].seen ==> key in r.nodes[k.dst].seen
    ensures CountKey(SentBy(net, Arrive(i, true)), key) + Budget(Deliver(net, i, true).nodes, key) <= Budget(net.nodes, key)
  {
    hide Process, Emitted, Allowance, Budget, CountKey;
    var k := net.flight[i];
    if k.dst < |net.nodes| {
      NodeSpends(net.nodes[k.dst], k, key);
      BudgetUpdate(net.nodes, k.dst, Process(net.nodes[k.dst], Stored(k.header, k.src), k.buffer, k.src), key);
    } else {
      NothingCounted(key);
    }
  }

  lemma {:induction false} NewSpends(net: Net, s: Step, key: int)
    requires s.New? && Enabled(net, s)
    ensures CountKey(SentBy(net, s), key) + Budget(Take(net, s).nodes, key) <= Budget(net.nodes, key)
  {
    hide SegmentMessages, Broadcast, Targets, PushQueue, Budget;
    var node := net.nodes[s.publisher];
    var h := ForwardHeader(node, s.buffer, s.kind, s.isKeyframe, s.now);
    BudgetUpdate(net.nodes, s.publisher, Forward(node, s.buffer, s.kind, s.isKeyframe, s.now), key);
    CountOfCopies(s.publisher, Targets(node.channels, None), h, s.buffer, 1, key);
  }

  /** As long as no relay forgets `key`, every copy of it that is ever sent is paid for by a node's degree. */
  lemma {:induction false} RememberedIsSentOnce(net: Net, steps: seq<Step>, key: int)
    requires IsRun(net, steps) && AllDedup(steps) && Remembers(net, steps, key)
    ensures SentInRun(net, steps, key) + Budget(Final(net, steps).nodes, key) <= Budget(net.nodes, key)
    decreases |steps|
  {
    hide SentBy, Budget, Deliver, Publish;
    if steps != [] {
      assert AllDedup(steps[1..]);
      match steps[0] {
        case Arrive(i, dedup) =>
          assert dedup;
          DeliverKeepsNodes(net, i);
          ArriveSpends(net, i, key);
        case New(_, _, _, _, _) => NewSpends(net, steps[0], key);
      }
      RememberedIsSentOnce(Take(net, steps[0]), steps[1..], key);
    }
  }

  lemma {:induction false} DeliverKeepsNodes(net: Net, i: nat)
    requires i < |net.flight|
    ensures |Deliver(net, i, true).nodes| == |net.nodes|
  {
    hide ProcessWith, Emitted;
  }

  /** For a stream of any length: when at every relay fewer than maxSeenSequences newer numbers are added after
      `key`, all copies of `key` that are ever sent stay within the sum of the node degrees. */
  lemma {:induction false} SentAtMostOnceEach(net: Net, steps: seq<Step>, key: int)
    requires IsRun(net, steps) && AllDedup(steps) && CapsHold(net)
    requires forall n :: 0 <= n < |net.nodes| && !net.nodes[n].isPublisher ==> FewNewer(net.nodes[n].seen + Added(net, steps, n), key)
    ensures SentInRun(net, steps, key) <= Budget(net.nodes, key) <= TotalDegree(net.nodes)
  {
    hide Added, FewNewer;
    FewNewerRemembers(net, steps, key);
    RememberedIsSentOnce(net, steps, key);
    BudgetWithinDegrees(net.nodes, key);
  }
}
