/**
 Two ways in which many coroutines share one socket: the HTTP/2 write queue
 (example/http2/src/dispatcher_coroutine.cpp, `enqueue_frame` and `writer_loop`)
 and the WebSocket write gate (example/http-websocket/src/dispatcher_coroutine.cpp,
 `WriteGate`).  Each block under a mutex is one atomic step; steps of different
 coroutines interleave in any order.
 */
module Writers {
  import opened Bytes

  type Text = seq<Byte>

  // --------------------------------------------------------------------------
  // The write queue
  // --------------------------------------------------------------------------

  /** A writer coroutine is between writes, or has a frame of its own to write. */
  datatype Writer = Idle | Writing(frame: Text)

  /** `accepted` and `wire` record history: frames enqueued, and what was written out of each. */
  datatype Queue = Queue(
    queue: seq<Text>, running: bool, closed: bool, writers: seq<Writer>, accepted: seq<Text>, wire: seq<Text>)

  /** A write puts out its frame, or the first n bytes of it when the socket fails: it then gives up without a word. */
  datatype QueueStep = Enqueue(frame: Text) | Take(i: nat) | Written(i: nat, n: nat) | Shut

  predicate QueueEnabled(s: Queue, e: QueueStep) {
    match e
    case Enqueue(_) => true
    case Take(i) => i < |s.writers| && s.writers[i].Idle?
    case Written(i, n) => i < |s.writers| && s.writers[i].Writing? && n <= |s.writers[i].frame|
    case Shut => true
  }

  function QueueApply(s: Queue, e: QueueStep): Queue
    requires QueueEnabled(s, e)
  {
    match e
    case Enqueue(frame) =>
      if s.closed then s
      else
        var s1 := s.(queue := s.queue + [frame], accepted := s.accepted + [frame]);
        if s.running then s1 else s1.(running := true, writers := s.writers + [Idle])
    case Take(i) =>
      if s.queue == [] then s.(running := false, writers := s.writers[..i] + s.writers[i + 1..])
      else s.(queue := s.queue[1..], writers := s.writers[i := Writing(s.queue[0])])
    case Written(i, n) => s.(wire := s.wire + [s.writers[i].frame[..n]], writers := s.writers[i := Idle])
    case Shut => s.(closed := true)
  }

  function QueueStart(): Queue { Queue([], false, false, [], [], []) }

  /** The frame being written, if there is a writer and it has one. */
  function InFlight(s: Queue): seq<Text> {
    if s.writers != [] && s.writers[0].Writing? then [s.writers[0].frame] else []
  }

  /** What went out of the first frames, one by one, and then the rest of the frames. */
  ghost predicate Follows(wire: seq<Text>, rest: seq<Text>, accepted: seq<Text>) {
    && |wire| + |rest| == |accepted| && rest == accepted[|wire|..]
    && forall j :: 0 <= j < |wire| ==> wire[j] <= accepted[j]
  }

  /** One writer exactly while `running` is set, always while frames wait, and no frame left out or reordered. */
  ghost predicate QueueInv(s: Queue) {
    && |s.writers| == (if s.running then 1 else 0)
    && (s.queue != [] ==> s.running)
    && Follows(s.wire, InFlight(s) + s.queue, s.accepted)
  }

  lemma FollowsMore(wire: seq<Text>, rest: seq<Text>, accepted: seq<Text>, frame: Text)
    requires Follows(wire, rest, accepted)
    ensures Follows(wire, rest + [frame], accepted + [frame])
  {
  }

  lemma FollowsOne(wire: seq<Text>, rest: seq<Text>, accepted: seq<Text>, out: Text)
    requires Follows(wire, rest, accepted) && rest != [] && out <= rest[0]
    ensures Follows(wire + [out], rest[1..], accepted) && accepted[|wire|] == rest[0]
  {
  }

  lemma EnqueueKeeps(s: Queue, frame: Text)
    requires QueueInv(s)
    ensures QueueInv(QueueApply(s, Enqueue(frame)))
  {
    hide Follows;
    var s' := QueueApply(s, Enqueue(frame));
    FollowsMore(s.wire, InFlight(s) + s.queue, s.accepted, frame);
    assert !s.closed ==> InFlight(s') == InFlight(s);
    assert !s.closed ==> InFlight(s') + s'.queue == (InFlight(s) + s.queue) + [frame];
  }

  lemma TakeKeeps(s: Queue, i: nat)
    requires QueueInv(s) && QueueEnabled(s, Take(i))
    ensures QueueInv(QueueApply(s, Take(i)))
  {
    hide Follows;
    var s' := QueueApply(s, Take(i));
    assert InFlight(s') + s'.queue == s.queue == InFlight(s) + s.queue;
  }

  lemma WrittenKeeps(s: Queue, i: nat, n: nat)
    requires QueueInv(s) && QueueEnabled(s, Written(i, n))
    ensures QueueInv(QueueApply(s, Written(i, n)))
  {
    hide Follows;
    var s', frame := QueueApply(s, Written(i, n)), s.writers[0].frame;
    FollowsOne(s.wire, [frame] + s.queue, s.accepted, frame[..n]);
    assert InFlight(s') + s'.queue == ([frame] + s.queue)[1..];
  }

  lemma QueueStepKeeps(s: Queue, e: QueueStep)
    requires QueueInv(s) && QueueEnabled(s, e)
    ensures QueueInv(QueueApply(s, e))
  {
    hide Follows;
    match e
    case Enqueue(frame) => EnqueueKeeps(s, frame);
    case Take(i) => TakeKeeps(s, i);
    case Written(i, n) => WrittenKeeps(s, i, n);
    case Shut =>
  }

  ghost predicate QueueReaches(s: Queue, es: seq<QueueStep>, s': Queue)
    decreases |es|
  {
    if es == [] then s == s' else QueueEnabled(s, es[0]) && QueueReaches(QueueApply(s, es[0]), es[1..], s')
  }

  lemma {:induction false} QueueRunKeeps(s: Queue, es: seq<QueueStep>, s': Queue)
    requires QueueInv(s) && QueueReaches(s, es, s')
    ensures QueueInv(s')
    decreases |es|
  {
    if es != [] {
      QueueStepKeeps(s, es[0]);
      QueueRunKeeps(QueueApply(s, es[0]), es[1..], s');
    }
  }

  /** No write of the run was broken off. */
  ghost predicate NoneFails(s: Queue, es: seq<QueueStep>)
    decreases |es|
  {
    es == [] ||
    (&& QueueEnabled(s, es[0]) && (es[0].Written? ==> es[0].n == |s.writers[es[0].i].frame|)
     && NoneFails(QueueApply(s, es[0]), es[1..]))
  }

  lemma WholeOne(wire: seq<Text>, out: Text, accepted: seq<Text>)
    requires |wire| < |accepted|
    ensures wire + [out] <= accepted <==> wire <= accepted && out == accepted[|wire|]
  {
    if wire + [out] <= accepted {
      assert forall j :: 0 <= j < |wire| ==> wire[j] == (wire + [out])[j] == accepted[j];
      assert (wire + [out])[|wire|] == out;
    }
  }

  lemma StaysWhole(s: Queue, e: QueueStep)
    requires QueueInv(s) && QueueEnabled(s, e)
    ensures QueueApply(s, e).wire <= QueueApply(s, e).accepted
            <==> s.wire <= s.accepted && (e.Written? ==> e.n == |s.writers[e.i].frame|)
  {
    if e.Written? {
      var frame := s.writers[e.i].frame;
      FollowsOne(s.wire, InFlight(s) + s.queue, s.accepted, frame[..e.n]);
      WholeOne(s.wire, frame[..e.n], s.accepted);
      assert frame[..e.n] == frame <==> e.n == |frame|;
    }
  }

  lemma {:induction false} WholeExactly(s: Queue, es: seq<QueueStep>, s': Queue)
    requires QueueInv(s) && QueueReaches(s, es, s')
    ensures s'.wire <= s'.accepted <==> s.wire <= s.accepted && NoneFails(s, es)
    decreases |es|
  {
    if es != [] {
      QueueStepKeeps(s, es[0]);
      StaysWhole(s, es[0]);
      hide QueueInv;
      WholeExactly(QueueApply(s, es[0]), es[1..], s');
    }
  }

  /**
   In every interleaving at most one writer exists, a non-empty queue has one, and the wire carries the beginnings
   of the accepted frames, one by one in the order they were enqueued: of all of them when no writer is left.  The
   frames are whole if and only if no write was broken off; the writer goes on after one that was.
   */
  lemma OneWriterInOrder(es: seq<QueueStep>, s: Queue)
    requires QueueReaches(QueueStart(), es, s)
    ensures |s.writers| <= 1 && (s.queue != [] ==> |s.writers| == 1)
    ensures |s.wire| <= |s.accepted| && forall j :: 0 <= j < |s.wire| ==> s.wire[j] <= s.accepted[j]
    ensures s.writers == [] ==> |s.wire| == |s.accepted|
    ensures s.wire <= s.accepted <==> NoneFails(QueueStart(), es)
  {
    QueueRunKeeps(QueueStart(), es, s);
    WholeExactly(QueueStart(), es, s);
  }

  // --------------------------------------------------------------------------
  // The write gate
  // --------------------------------------------------------------------------

  /** `owners` are the tasks past `acquire` and before `release`; `arrivals` and `grants` record history. */
  datatype Gate = Gate(held: bool, waiters: seq<nat>, owners: multiset<nat>, arrivals: seq<nat>, grants: seq<nat>)

  datatype GateStep = Acquire(t: nat) | Release(t: nat)

  predicate GateEnabled(g: Gate, e: GateStep) {
    e.Release? ==> e.t in g.owners
  }

  function GateApply(g: Gate, e: GateStep): Gate
    requires GateEnabled(g, e)
  {
    match e
    case Acquire(t) =>
      var g1 := g.(arrivals := g.arrivals + [t]);
      if !g.held then g1.(held := true, owners := g.owners + multiset{t}, grants := g.grants + [t])
      else g1.(waiters := g.waiters + [t])
    case Release(t) =>
      var g1 := g.(owners := g.owners - multiset{t});
      if g.waiters != [] then
        g1.(waiters := g.waiters[1..], owners := g1.owners + multiset{g.waiters[0]}, grants := g.grants + [g.waiters[0]])
      else g1.(held := false)
  }

  function GateStart(): Gate { Gate(false, [], multiset{}, [], []) }

  /** One owner exactly while held, no one waits for a free gate, and it is granted in order of arrival. */
  ghost predicate GateInv(g: Gate) {
    && |g.owners| == (if g.held then 1 else 0)
    && (g.waiters != [] ==> g.held)
    && g.grants + g.waiters == g.arrivals
  }

  lemma GateStepKeeps(g: Gate, e: GateStep)
    requires GateInv(g) && GateEnabled(g, e)
    ensures GateInv(GateApply(g, e))
  {
    if e.Acquire? {
      assert g.grants + (g.waiters + [e.t]) == (g.grants + g.waiters) + [e.t];
    } else if g.waiters != [] {
      assert (g.grants + [g.waiters[0]]) + g.waiters[1..] == g.grants + g.waiters;
    }
  }

  ghost predicate GateReaches(g: Gate, es: seq<GateStep>, g': Gate)
    decreases |es|
  {
    if es == [] then g == g' else GateEnabled(g, es[0]) && GateReaches(GateApply(g, es[0]), es[1..], g')
  }

  lemma {:induction false} GateRunKeeps(g: Gate, es: seq<GateStep>, g': Gate)
    requires GateInv(g) && GateReaches(g, es, g')
    ensures GateInv(g')
    decreases |es|
  {
    if es != [] {
      GateStepKeeps(g, es[0]);
      GateRunKeeps(GateApply(g, es[0]), es[1..], g');
    }
  }

  /** Mutual exclusion and first come, first served, in every interleaving. */
  lemma OneOwnerInOrder(es: seq<GateStep>, g: Gate)
    requires GateReaches(GateStart(), es, g)
    ensures |g.owners| <= 1 && (g.waiters != [] ==> |g.owners| == 1) && g.grants <= g.arrivals
  {
    GateRunKeeps(GateStart(), es, g);
    assert g.grants == (g.grants + g.waiters)[..|g.grants|];
  }
}
