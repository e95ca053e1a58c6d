/** Admission control of the web server (node/src/web_server.rs): the lazily reset per-address rate limiter
    and the lock-free connection slots. */
module Admission {
  type Ip = nat

  datatype Bucket = Bucket(count: nat, start: nat)

  /** The limiter's settings: requests per window, and the window's length. */
  datatype Limits = Limits(max: nat, window: nat)

  /** `Instant::duration_since` never goes below zero. */
  function Since(now: nat, start: nat): nat { if now >= start then now - start else 0 }

  type Buckets = map<Ip, Bucket>

  datatype Decision = Decision(bucket: Bucket, allowed: bool)

  /** `check_rate_limit` on the bucket of one address. */
  function Decide(b: Buckets, ip: Ip, now: nat, l: Limits): Decision {
    var e := if ip in b then b[ip] else Bucket(0, now);
    if Since(now, e.start) >= l.window then Decision(Bucket(1, now), true)
    else if e.count >= l.max then Decision(e, false)
    else Decision(Bucket(e.count + 1, e.start), true)
  }

  function Check(b: Buckets, ip: Ip, now: nat, l: Limits): Buckets {
    b[ip := Decide(b, ip, now, l).bucket]
  }

  /** `cleanup_expired` */
  function Cleanup(b: Buckets, now: nat, l: Limits): Buckets {
    map ip | ip in b && Since(now, b[ip].start) < l.window :: b[ip]
  }

  class RateLimiterState {
    var buckets: Buckets
    const limits: Limits

    constructor (max: nat, window: nat)
      ensures buckets == map[] && limits == Limits(max, window)
    {
      buckets, limits := map[], Limits(max, window);
    }

    method CheckRateLimit(ip: Ip, now: nat) returns (allowed: bool)
      modifies this
      ensures buckets == Check(old(buckets), ip, now, limits)
      ensures allowed == Decide(old(buckets), ip, now, limits).allowed
    {
      if ip !in buckets {
        buckets := buckets[ip := Bucket(0, now)];
      }
      var entry := buckets[ip];
      if Since(now, entry.start) >= limits.window {
        buckets := buckets[ip := Bucket(1, now)];
        return true;
      }
      if entry.count >= limits.max {
        return false;
      }
      buckets := buckets[ip := Bucket(entry.count + 1, entry.start)];
      allowed := true;
    }

    method CleanupExpired(now: nat)
      modifies this
      ensures buckets == Cleanup(old(buckets), now, limits)
    {
      var ips := buckets.Keys;
      ghost var all := buckets;
      while ips != {}
        invariant ips <= buckets.Keys <= all.Keys
        invariant forall ip :: ip in buckets ==> buckets[ip] == all[ip]
        invariant forall ip :: ip in all && ip !in ips ==> (ip in buckets <==> Since(now, all[ip].start) < limits.window)
        decreases |ips|
      {
        var ip :| ip in ips;
        if Since(now, buckets[ip].start) >= limits.window {
          buckets := buckets - {ip};
        }
        ips := ips - {ip};
      }
    }
  }

  // ---------------------------------------------------------------- runs

  datatype Event = Request(ip: Ip, now: nat) | Sweep(now: nat)

  function Step(b: Buckets, e: Event, l: Limits): Buckets {
    match e
    case Request(ip, now) => Check(b, ip, now, l)
    case Sweep(now) => Cleanup(b, now, l)
  }

  /** The answers to the requests of a run. */
  function Answers(b: Buckets, es: seq<Event>, l: Limits): seq<bool>
    decreases |es|
  {
    if es == [] then []
    else
      (if es[0].Request? then [Decide(b, es[0].ip, es[0].now, l).allowed] else [])
      + Answers(Step(b, es[0], l), es[1..], l)
  }

  function WithoutSweeps(es: seq<Event>): seq<Event> {
    if es == [] then []
    else if es[0].Sweep? then WithoutSweeps(es[1..])
    else [es[0]] + WithoutSweeps(es[1..])
  }

  predicate Monotone(es: seq<Event>, from: nat)
    decreases |es|
  {
    es == [] || (from <= es[0].now && Monotone(es[1..], es[0].now))
  }

  /** `swept` lacks only buckets that have expired by `now`. */
  ghost predicate Swept(swept: Buckets, full: Buckets, now: nat, l: Limits) {
    && (forall ip :: ip in swept ==> ip in full && full[ip] == swept[ip])
    && (forall ip :: ip in full && ip !in swept ==> full[ip].start <= now && Since(now, full[ip].start) >= l.window)
  }

  lemma {:induction false} SweptDecides(swept: Buckets, full: Buckets, ip: Ip, before: nat, now: nat, l: Limits)
    requires Swept(swept, full, before, l) && before <= now && (l.max >= 1 || l.window == 0)
    ensures Decide(swept, ip, now, l) == Decide(full, ip, now, l)
    ensures Swept(Check(swept, ip, now, l), Check(full, ip, now, l), now, l)
  {
  }

  lemma {:induction false} SweptSweeps(swept: Buckets, full: Buckets, before: nat, now: nat, l: Limits)
    requires Swept(swept, full, before, l) && before <= now
    requires forall ip :: ip in full ==> full[ip].start <= before
    ensures Swept(Cleanup(swept, now, l), full, now, l)
  {
  }

  lemma {:induction false} CleanupUnseen(swept: Buckets, full: Buckets, es: seq<Event>, now: nat, l: Limits)
    requires l.max >= 1 || l.window == 0
    requires Swept(swept, full, now, l) && Monotone(es, now) && forall ip :: ip in full ==> full[ip].start <= now
    ensures Answers(swept, es, l) == Answers(full, WithoutSweeps(es), l)
    decreases |es|
  {
    if es != [] {
      match es[0] {
        case Request(ip, t) =>
          SweptDecides(swept, full, ip, now, t, l);
          CleanupUnseen(Check(swept, ip, t, l), Check(full, ip, t, l), es[1..], t, l);
          assert WithoutSweeps(es)[1..] == WithoutSweeps(es[1..]) && WithoutSweeps(es)[0] == es[0];
        case Sweep(t) =>
          SweptSweeps(swept, full, now, t, l);
          CleanupUnseen(Cleanup(swept, t, l), full, es[1..], t, l);
          assert [] + Answers(Cleanup(swept, t, l), es[1..], l) == Answers(Cleanup(swept, t, l), es[1..], l);
      }
    }
  }

  /** Background eviction can be inserted anywhere without changing an answer exactly when a window admits at
      least one request or has no length. */
  lemma {:induction false} CleanupUnseenIff(l: Limits)
    ensures (forall es :: Monotone(es, 0) ==> Answers(map[], es, l) == Answers(map[], WithoutSweeps(es), l))
            <==> l.max >= 1 || l.window == 0
  {
    if l.max >= 1 || l.window == 0 {
      forall es | Monotone(es, 0)
        ensures Answers(map[], es, l) == Answers(map[], WithoutSweeps(es), l)
      {
        CleanupUnseen(map[], map[], es, 0, l);
      }
    } else {
      CleanupSeen(l);
    }
  }

  /** The failing run: a limit of zero requests rejects a first request, and the expired bucket it leaves is
      what lets the second one pass -- unless it was evicted. */
  lemma {:induction false} CleanupSeen(l: Limits)
    requires l.max == 0 && l.window > 0
    ensures var es := [Request(0, 0), Sweep(l.window), Request(0, l.window)];
            Monotone(es, 0) && Answers(map[], es, l) != Answers(map[], WithoutSweeps(es), l)
  {
    var a, s, z := Request(0, 0), Sweep(l.window), Request(0, l.window);
    var es := [a, s, z];
    assert es[1..] == [s, z] && es[1..][1..] == [z] && es[1..][1..][1..] == [];
    assert Monotone([z], s.now) && Monotone([s, z], a.now) && Monotone(es, 0);
    assert WithoutSweeps([z]) == [z] && WithoutSweeps([s, z]) == [z] && WithoutSweeps(es) == [a] + [z];
    var b := Check(map[], 0, 0, l);
    assert b == map[0 := Bucket(0, 0)];
    assert Cleanup(b, l.window, l) == map[];
    assert Answers(map[], [z], l) == [false] + Answers(Check(map[], 0, l.window, l), [], l);
    assert Answers(b, [z], l) == [true] + Answers(Check(b, 0, l.window, l), [], l);
    var w := WithoutSweeps(es);
    assert w[0] == a && w[1..] == [z];
    assert Answers(map[], w, l) == [false] + Answers(b, [z], l);
    assert Answers(b, [s, z], l) == [] + Answers(map[], [z], l);
    assert Answers(map[], es, l) == [false] + Answers(b, [s, z], l);
    assert Answers(map[], w, l)[1] == true && Answers(map[], es, l)[1] == false;
  }

  // ---------------------------------------------------------------- the limiter in the server

  /** `rate_limit_middleware`: with a limit of zero nothing is asked, and no cleanup runs. */
  function Serve(b: Buckets, e: Event, l: Limits): Buckets {
    if l.max == 0 then b else Step(b, e, l)
  }

  function Passes(b: Buckets, ip: Ip, now: nat, l: Limits): bool {
    l.max == 0 || Decide(b, ip, now, l).allowed
  }

  function ServerAnswers(b: Buckets, es: seq<Event>, l: Limits): seq<bool>
    decreases |es|
  {
    if es == [] then []
    else (if es[0].Request? then [Passes(b, es[0].ip, es[0].now, l)] else []) + ServerAnswers(Serve(b, es[0], l), es[1..], l)
  }

  lemma {:induction false} AlwaysPasses(b: Buckets, es: seq<Event>, l: Limits)
    requires l.max == 0
    ensures ServerAnswers(b, es, l) == ServerAnswers(b, WithoutSweeps(es), l)
    ensures forall i :: 0 <= i < |ServerAnswers(b, es, l)| ==> ServerAnswers(b, es, l)[i]
    decreases |es|
  {
    if es != [] {
      AlwaysPasses(b, es[1..], l);
      if es[0].Request? {
        assert WithoutSweeps(es)[1..] == WithoutSweeps(es[1..]) && WithoutSweeps(es)[0] == es[0];
      }
    }
  }

  lemma {:induction false} AsksAlways(b: Buckets, es: seq<Event>, l: Limits)
    requires l.max > 0
    ensures ServerAnswers(b, es, l) == Answers(b, es, l)
    decreases |es|
  {
    if es != [] {
      AsksAlways(Step(b, es[0], l), es[1..], l);
    }
  }

  /** In the server the failing case cannot occur: whatever the limits, cleanup goes unnoticed. */
  lemma {:induction false} ServerCleanupUnseen(es: seq<Event>, l: Limits)
    requires Monotone(es, 0)
    ensures ServerAnswers(map[], es, l) == ServerAnswers(map[], WithoutSweeps(es), l)
  {
    hide ServerAnswers, Answers, WithoutSweeps;
    if l.max == 0 {
      AlwaysPasses(map[], es, l);
    } else {
      AsksAlways(map[], es, l);
      AsksAlways(map[], WithoutSweeps(es), l);
      CleanupUnseen(map[], map[], es, 0, l);
    }
  }

  // ---------------------------------------------------------------- how much is admitted

  function After(es: seq<Event>, l: Limits): Buckets
    decreases |es|
  {
    if es == [] then map[] else Step(After(es[..|es| - 1], l), es[|es| - 1], l)
  }

  /** The times at which requests of `ip` were admitted. */
  function Admitted(es: seq<Event>, ip: Ip, l: Limits): seq<nat>
    decreases |es|
  {
    if es == [] then [] else
      var before, e := es[..|es| - 1], es[|es| - 1];
      Admitted(before, ip, l)
      + if e.Request? && e.ip == ip && Decide(After(before, l), ip, e.now, l).allowed then [e.now] else []
  }

  /** The same, split where a request opened a new bucket window. */
  function Windows(es: seq<Event>, ip: Ip, l: Limits): seq<seq<nat>>
    decreases |es|
  {
    if es == [] then [] else
      var before, e := es[..|es| - 1], es[|es| - 1];
      NextWindows(After(before, l), Windows(before, ip, l), e, ip, l)
  }

  function NextWindows(b: Buckets, ws: seq<seq<nat>>, e: Event, ip: Ip, l: Limits): seq<seq<nat>> {
    if !(e.Request? && e.ip == ip && Decide(b, ip, e.now, l).allowed) then ws
    else if ws == [] || ip !in b || Since(e.now, b[ip].start) >= l.window then ws + [[e.now]]
    else ws[..|ws| - 1] + [ws[|ws| - 1] + [e.now]]
  }

  /** A window holds up to max admissions, from its first one until its length is over. */
  predicate WindowOk(w: seq<nat>, l: Limits) {
    1 <= |w| <= l.max && forall i :: 0 <= i < |w| ==> w[0] <= w[i] < w[0] + l.window
  }

  predicate WindowsOk(ws: seq<seq<nat>>, l: Limits) {
    && (forall k :: 0 <= k < |ws| ==> WindowOk(ws[k], l))
    && (forall k :: 0 <= k < |ws| - 1 ==> ws[k][0] + l.window <= ws[k + 1][0])
  }

  function LastTime(es: seq<Event>): nat { if es == [] then 0 else es[|es| - 1].now }

  predicate Chronological(es: seq<Event>) {
    forall i :: 0 <= i < |es| - 1 ==> es[i].now <= es[i + 1].now
  }

  /** The bucket of an address is its last window, or that window has expired. */
  predicate Tracks(b: Buckets, ws: seq<seq<nat>>, ip: Ip, now: nat, l: Limits) {
    && WindowsOk(ws, l)
    && (ip in b ==> ws != [])
    && (ws != [] ==>
          var last := ws[|ws| - 1];
          && WindowOk(last, l) && last[0] <= now
          && (ip in b ==> b[ip] == Bucket(|last|, last[0]))
          && (ip !in b ==> last[0] + l.window <= now))
  }

  /** Over every run with monotone time. */
  lemma {:induction false} BucketWindows(es: seq<Event>, ip: Ip, l: Limits)
    requires l.max >= 1 && l.window > 0 && Chronological(es)
    ensures Tracks(After(es, l), Windows(es, ip, l), ip, LastTime(es), l)
    decreases |es|
  {
    if es != [] {
      var before, e := es[..|es| - 1], es[|es| - 1];
      BucketWindows(before, ip, l);
      assert before != [] ==> LastTime(before) <= e.now;
      TracksStep(After(before, l), Windows(before, ip, l), ip, LastTime(before), e, l);
    }
  }

  /** A request is refused exactly when the last window of its address is full and still open. */
  lemma {:induction false} RefusedIff(es: seq<Event>, ip: Ip, now: nat, l: Limits)
    requires l.max >= 1 && l.window > 0 && Chronological(es) && LastTime(es) <= now
    ensures var ws := Windows(es, ip, l);
            !Decide(After(es, l), ip, now, l).allowed
            <==> ws != [] && |ws[|ws| - 1]| == l.max && now < ws[|ws| - 1][0] + l.window
  {
    BucketWindows(es, ip, l);
  }

  lemma {:induction false} TracksStep(b: Buckets, ws: seq<seq<nat>>, ip: Ip, before: nat, e: Event, l: Limits)
    requires l.max >= 1 && l.window > 0 && Tracks(b, ws, ip, before, l) && before <= e.now
    ensures Tracks(Step(b, e, l), NextWindows(b, ws, e, ip, l), ip, e.now, l)
  {
    FirstWindow(e.now, l);
    if ws != [] {
      LastWindowGrows(ws, e.now, l);
      NewWindow(ws, e.now, l);
    }
    hide WindowsOk;
  }

  lemma {:induction false} FirstWindow(now: nat, l: Limits)
    requires l.max >= 1 && l.window > 0
    ensures WindowsOk([[now]], l)
  {
  }

  lemma {:induction false} LastWindowGrows(ws: seq<seq<nat>>, now: nat, l: Limits)
    requires ws != [] && WindowsOk(ws, l)
    ensures var last := ws[|ws| - 1];
            |last| < l.max && last[0] <= now < last[0] + l.window ==> WindowsOk(ws[..|ws| - 1] + [last + [now]], l)
  {
    var last := ws[|ws| - 1];
    var grown := ws[..|ws| - 1] + [last + [now]];
    assert forall k :: 0 <= k < |ws| ==> grown[k][0] == ws[k][0];
    assert forall k :: 0 <= k < |ws| - 1 ==> grown[k] == ws[k];
  }

  lemma {:induction false} NewWindow(ws: seq<seq<nat>>, now: nat, l: Limits)
    requires ws != [] && WindowsOk(ws, l) && l.max >= 1 && l.window > 0
    ensures ws[|ws| - 1][0] + l.window <= now ==> WindowsOk(ws + [[now]], l)
  {
  }

  function Concat(ws: seq<seq<nat>>): seq<nat> {
    if ws == [] then [] else Concat(ws[..|ws| - 1]) + ws[|ws| - 1]
  }

  /** The windows are a partition of the admissions. */
  lemma {:induction false} WindowsAreAdmissions(es: seq<Event>, ip: Ip, l: Limits)
    ensures Concat(Windows(es, ip, l)) == Admitted(es, ip, l)
    decreases |es|
  {
    if es != [] {
      var before, e := es[..|es| - 1], es[|es| - 1];
      WindowsAreAdmissions(before, ip, l);
      var ws := Windows(before, ip, l);
      assert Concat(ws) + [] == Concat(ws);
      assert (ws + [[e.now]])[..|ws|] == ws;
      if ws != [] {
        var init, last := ws[..|ws| - 1], ws[|ws| - 1];
        assert (init + [last + [e.now]])[..|init|] == init;
        assert Concat(init) + (last + [e.now]) == (Concat(init) + last) + [e.now];
      }
    }
  }

  /** How many times fall into [lo, hi). */
  function CountIn(ts: seq<nat>, lo: nat, hi: nat): nat {
    if ts == [] then 0 else CountIn(ts[..|ts| - 1], lo, hi) + if lo <= ts[|ts| - 1] < hi then 1 else 0
  }

  lemma {:induction false} CountConcat(a: seq<nat>, b: seq<nat>, lo: nat, hi: nat)
    ensures CountIn(a + b, lo, hi) == CountIn(a, lo, hi) + CountIn(b, lo, hi)
    decreases |b|
  {
    if b == [] {
      assert a + b == a;
    } else {
      CountConcat(a, b[..|b| - 1], lo, hi);
      assert (a + b)[..|a + b| - 1] == a + b[..|b| - 1];
    }
  }

  lemma {:induction false} CountWindow(w: seq<nat>, lo: nat, hi: nat)
    ensures CountIn(w, lo, hi) <= |w|
    ensures (forall i :: 0 <= i < |w| ==> !(lo <= w[i] < hi)) ==> CountIn(w, lo, hi) == 0
    ensures w != [] && w[0] < lo ==> CountIn(w, lo, hi) <= |w| - 1
  {
    if w != [] {
      CountWindow(w[..|w| - 1], lo, hi);
      if |w| == 1 {
        assert w[..0] == [];
      }
    }
  }

  /** Windows that end before `lo` do not count. */
  lemma {:induction false} EarlierWindows(ws: seq<seq<nat>>, lo: nat, hi: nat, l: Limits)
    requires WindowsOk(ws, l)
    requires ws != [] ==> ws[|ws| - 1][0] + l.window <= lo
    ensures CountIn(Concat(ws), lo, hi) == 0
    decreases |ws|
  {
    if ws != [] {
      var init, last := ws[..|ws| - 1], ws[|ws| - 1];
      assert WindowOk(last, l);
      EarlierWindows(init, lo, hi, l);
      CountWindow(last, lo, hi);
      CountConcat(Concat(init), last, lo, hi);
    }
  }

  /** Two windows at most meet an interval of one window length, and the earlier one not with its first
      admission. */
  lemma {:induction false} IntervalBound(ws: seq<seq<nat>>, lo: nat, l: Limits)
    requires WindowsOk(ws, l) && l.max >= 1
    ensures CountIn(Concat(ws), lo, lo + l.window) <= 2 * l.max - 1
    decreases |ws|
  {
    if ws != [] {
      var hi := lo + l.window;
      var init, last := ws[..|ws| - 1], ws[|ws| - 1];
      assert WindowOk(last, l) && WindowsOk(init, l);
      CountConcat(Concat(init), last, lo, hi);
      CountWindow(last, lo, hi);
      if last[0] <= lo {
        if init != [] {
          assert init[|init| - 1][0] + l.window <= last[0];
        }
        EarlierWindows(init, lo, hi, l);
      } else if last[0] >= hi {
        IntervalBound(init, lo, l);
      } else if init != [] {
        assert init[|init| - 1][0] + l.window <= last[0];
        BeforeLastWindow(init, lo, l);
      }
    }
  }

  /** When the interval reaches past the end of the last window, only that window meets it, and not with its
      first admission. */
  lemma {:induction false} BeforeLastWindow(ws: seq<seq<nat>>, lo: nat, l: Limits)
    requires WindowsOk(ws, l) && ws != [] && l.max >= 1
    requires ws[|ws| - 1][0] < lo
    ensures CountIn(Concat(ws), lo, lo + l.window) <= l.max - 1
  {
    var hi := lo + l.window;
    var first, before := ws[|ws| - 1], ws[..|ws| - 1];
    assert WindowOk(first, l) && WindowsOk(before, l);
    if before != [] {
      assert before[|before| - 1][0] + l.window <= first[0];
    }
    CountConcat(Concat(before), first, lo, hi);
    CountWindow(first, lo, hi);
    EarlierWindows(before, lo, hi, l);
  }

  /** Over every run with monotone time, every bucket window admits at most max requests of an address, and
      every interval of one window length at most 2 * max - 1. */
  lemma {:induction false} AdmissionBound(es: seq<Event>, ip: Ip, lo: nat, l: Limits)
    requires l.max >= 1 && l.window > 0 && Chronological(es)
    ensures CountIn(Admitted(es, ip, l), lo, lo + l.window) <= 2 * l.max - 1
    ensures forall k :: 0 <= k < |Windows(es, ip, l)| ==> 1 <= |Windows(es, ip, l)[k]| <= l.max
  {
    BucketWindows(es, ip, l);
    WindowsAreAdmissions(es, ip, l);
    IntervalBound(Windows(es, ip, l), lo, l);
  }

  // ---------------------------------------------------------------- connection slots

  /** The shared counter of open connections, as one caller sees it when no other runs in between. */
  class ConnectionSlots {
    var counter: nat
    const max: nat

    constructor (max: nat)
      ensures counter == 0 && this.max == max
    {
      counter, this.max := 0, max;
    }

    method TryAcquire() returns (guard: bool)
      modifies this
      ensures guard <==> max == 0 || old(counter) < max
      ensures counter == old(counter) + if guard then 1 else 0
    {
      if max == 0 {
        counter := counter + 1;
        return true;
      }
      var prev := counter;
      counter := counter + 1;
      if prev >= max {
        counter := counter - 1;
        return false;
      }
      guard := true;
    }

    method DropGuard()
      requires counter > 0
      modifies this
      ensures counter == old(counter) - 1
    {
      counter := counter - 1;
    }
  }

  /** Where a connection attempt stands: between the two atomic operations of a rejection, or holding a guard. */
  datatype Attempt = Idle | Rejecting | Holding

  datatype Slots = Slots(counter: nat, attempts: seq<Attempt>)

  datatype SlotStep = Acquire(i: nat) | Undo(i: nat) | Release(i: nat)

  predicate SlotEnabled(s: Slots, step: SlotStep) {
    step.i < |s.attempts| &&
    match step
    case Acquire(i) => s.attempts[i].Idle?
    case Undo(i) => s.attempts[i].Rejecting? && s.counter > 0
    case Release(i) => s.attempts[i].Holding? && s.counter > 0
  }

  /** One atomic operation: fetch_add with its test (max 0 means unlimited), the fetch_sub of a rejection, or
      the fetch_sub of a guard's drop. */
  function SlotNext(s: Slots, step: SlotStep, max: nat): Slots
    requires SlotEnabled(s, step)
  {
    match step
    case Acquire(i) => Slots(s.counter + 1, s.attempts[i := if max == 0 || s.counter < max then Holding else Rejecting])
    case Undo(i) => Slots(s.counter - 1, s.attempts[i := Idle])
    case Release(i) => Slots(s.counter - 1, s.attempts[i := Idle])
  }

  predicate SlotRun(s: Slots, steps: seq<SlotStep>, max: nat)
    decreases |steps|
  {
    steps == [] || (SlotEnabled(s, steps[0]) && SlotRun(SlotNext(s, steps[0], max), steps[1..], max))
  }

  function SlotFinal(s: Slots, steps: seq<SlotStep>, max: nat): Slots
    requires SlotRun(s, steps, max)
    decreases |steps|
  {
    if steps == [] then s else SlotFinal(SlotNext(s, steps[0], max), steps[1..], max)
  }

  function CountOf(attempts: seq<Attempt>, a: Attempt): nat {
    if attempts == [] then 0 else CountOf(attempts[..|attempts| - 1], a) + if attempts[|attempts| - 1] == a then 1 else 0
  }

  lemma {:induction false} CountUpdate(attempts: seq<Attempt>, i: nat, new_: Attempt, a: Attempt)
    requires i < |attempts|
    ensures CountOf(attempts[i := new_], a) + (if attempts[i] == a then 1 else 0)
         == CountOf(attempts, a) + (if new_ == a then 1 else 0)
  {
    var init, n := attempts[..|attempts| - 1], |attempts| - 1;
    if i == n {
      assert attempts[i := new_][..n] == init;
    } else {
      CountUpdate(init, i, new_, a);
      assert attempts[i := new_][..n] == init[i := new_];
    }
  }

  lemma {:induction false} CountPositive(attempts: seq<Attempt>, i: nat)
    requires i < |attempts|
    ensures CountOf(attempts, attempts[i]) > 0
  {
    if i < |attempts| - 1 {
      CountPositive(attempts[..|attempts| - 1], i);
    }
  }

  /** The counter is the live guards plus the rejections not yet undone, and the guards stay within max. */
  predicate SlotsOk(s: Slots, max: nat) {
    && s.counter == CountOf(s.attempts, Holding) + CountOf(s.attempts, Rejecting)
    && (max > 0 ==> CountOf(s.attempts, Holding) <= max)
  }

  /** Under every interleaving. At quiescence the counter is therefore exact, and the atomic subtraction never
      meets zero. */
  lemma {:induction false} SlotsStayOk(s: Slots, steps: seq<SlotStep>, max: nat)
    requires SlotRun(s, steps, max) && SlotsOk(s, max)
    ensures var r := SlotFinal(s, steps, max);
            && SlotsOk(r, max)
            && (CountOf(r.attempts, Rejecting) == 0 ==> r.counter == CountOf(r.attempts, Holding))
            && (forall i :: 0 <= i < |r.attempts| && !r.attempts[i].Idle? ==> r.counter > 0)
    decreases |steps|
  {
    if steps == [] {
      forall i | 0 <= i < |s.attempts| && !s.attempts[i].Idle?
        ensures s.counter > 0
      {
        CountPositive(s.attempts, i);
      }
    } else {
      var i := steps[0].i;
      var next := SlotNext(s, steps[0], max);
      CountUpdate(s.attempts, i, next.attempts[i], Holding);
      CountUpdate(s.attempts, i, next.attempts[i], Rejecting);
      SlotsStayOk(next, steps[1..], max);
    }
  }

  /** After any run, an attempt is turned away exactly when guards and rejections that are not undone yet together
      fill the slots. */
  lemma {:induction false} RejectedIff(s: Slots, steps: seq<SlotStep>, i: nat, max: nat)
    requires SlotRun(s, steps, max) && SlotsOk(s, max) && SlotEnabled(SlotFinal(s, steps, max), Acquire(i))
    ensures var r := SlotFinal(s, steps, max);
            SlotNext(r, Acquire(i), max).attempts[i] == Rejecting
            <==> max > 0 && CountOf(r.attempts, Holding) + CountOf(r.attempts, Rejecting) >= max
  {
    hide CountOf;
    SlotsStayOk(s, steps, max);
  }

  /** At some moment of the run all slots were held at once. */
  predicate WasFull(s: Slots, steps: seq<SlotStep>, max: nat)
    requires SlotRun(s, steps, max)
    decreases |steps|
  {
    CountOf(s.attempts, Holding) == max || (steps != [] && WasFull(SlotNext(s, steps[0], max), steps[1..], max))
  }

  /** As long as not all slots are held at once, nobody is turned away. */
  lemma {:induction false} RejectionsFollowFull(s: Slots, steps: seq<SlotStep>, max: nat)
    requires SlotRun(s, steps, max) && SlotsOk(s, max) && max > 0 && CountOf(s.attempts, Rejecting) == 0
    ensures CountOf(SlotFinal(s, steps, max).attempts, Rejecting) > 0 ==> WasFull(s, steps, max)
    decreases |steps|
  {
    hide CountOf;
    if steps != [] && CountOf(s.attempts, Holding) < max {
      var i := steps[0].i;
      var next := SlotNext(s, steps[0], max);
      CountUpdate(s.attempts, i, next.attempts[i], Holding);
      CountUpdate(s.attempts, i, next.attempts[i], Rejecting);
      CountPositive(s.attempts, i);
      RejectionsFollowFull(next, steps[1..], max);
    }
  }

  /** Under every interleaving that starts without pending rejections: whoever is turned away comes after a moment at
      which all slots were held at once. */
  lemma {:induction false} RefusedOnlyAfterFull(s: Slots, steps: seq<SlotStep>, i: nat, max: nat)
    requires SlotRun(s, steps, max) && SlotsOk(s, max) && CountOf(s.attempts, Rejecting) == 0
    requires SlotEnabled(SlotFinal(s, steps, max), Acquire(i))
    ensures SlotNext(SlotFinal(s, steps, max), Acquire(i), max).attempts[i] == Rejecting ==> max > 0 && WasFull(s, steps, max)
  {
    hide CountOf, WasFull;
    RejectedIff(s, steps, i, max);
    SlotsStayOk(s, steps, max);
    if max > 0 {
      RejectionsFollowFull(s, steps, max);
      FullAtEnd(s, steps, max);
    }
  }

  lemma {:induction false} FullAtEnd(s: Slots, steps: seq<SlotStep>, max: nat)
    requires SlotRun(s, steps, max)
    ensures CountOf(SlotFinal(s, steps, max).attempts, Holding) == max ==> WasFull(s, steps, max)
    decreases |steps|
  {
    hide CountOf;
    if steps != [] {
      FullAtEnd(SlotNext(s, steps[0], max), steps[1..], max);
    }
  }

  /** So an attempt can fail although no guard is live: with one slot, the guard is dropped between the two
      operations of a rejection. */
  lemma {:induction false} SpuriousRejection()
    ensures var start, steps := Slots(0, [Idle, Idle, Idle]), [Acquire(0), Acquire(1), Release(0)];
            SlotRun(start, steps, 1)
            && var s := SlotFinal(start, steps, 1);
               CountOf(s.attempts, Holding) == 0 && SlotEnabled(s, Acquire(2))
               && SlotNext(s, Acquire(2), 1).attempts[2] == Rejecting
  {
    hide CountOf;
    var s0, steps := Slots(0, [Idle, Idle, Idle]), [Acquire(0), Acquire(1), Release(0)];
    var s1, s2, s3 := Slots(1, [Holding, Idle, Idle]), Slots(2, [Holding, Rejecting, Idle]), Slots(1, [Idle, Rejecting, Idle]);
    assert SlotNext(s0, steps[0], 1) == s1;
    assert SlotNext(s1, steps[1], 1) == s2;
    assert SlotNext(s2, steps[2], 1) == s3;
    SlotRunCons(s2, steps[2], [], 1);
    SlotRunCons(s1, steps[1], [steps[2]], 1);
    SlotRunCons(s0, steps[0], [steps[1], steps[2]], 1);
    assert [steps[2]] + [] == [steps[2]];
    assert [steps[1]] + [steps[2]] == [steps[1], steps[2]];
    assert [steps[0]] + [steps[1], steps[2]] == steps;
    CountSnoc([], Idle);
    CountSnoc([Idle], Rejecting);
    CountSnoc([Idle, Rejecting], Idle);
    assert [] + [Idle] == [Idle] && [Idle] + [Rejecting] == [Idle, Rejecting] && [Idle, Rejecting] + [Idle] == s3.attempts;
    NobodyHolds();
  }

  lemma {:induction false} SlotRunCons(s: Slots, step: SlotStep, rest: seq<SlotStep>, max: nat)
    requires SlotEnabled(s, step) && SlotRun(SlotNext(s, step, max), rest, max)
    ensures SlotRun(s, [step] + rest, max)
    ensures SlotFinal(s, [step] + rest, max) == SlotFinal(SlotNext(s, step, max), rest, max)
  {
    assert ([step] + rest)[1..] == rest;
  }

  lemma {:induction false} CountSnoc(attempts: seq<Attempt>, x: Attempt)
    ensures CountOf(attempts + [x], Holding) == CountOf(attempts, Holding) + if x == Holding then 1 else 0
  {
    assert (attempts + [x])[..|attempts|] == attempts;
  }

  lemma {:induction false} NobodyHolds()
    ensures CountOf([], Holding) == 0
  {
  }
}
