/**
 The event loop's timers (src/platform/io_context.cpp, `add_timer_callback`,
 `cancel_timer`, `process_timers`, `compute_wait_timeout_ms`).

 The priority queue is a multiset from which an entry with the earliest deadline
 is taken.  Times are nanoseconds and the clock is a parameter.
 */
module Timers {

  const MILLISECOND: int := 1_000_000
  const MAX_INT: int := 0x7FFF_FFFF
  const DEFAULT_WAIT: int := 100

  datatype Entry = Entry(id: nat, nextFire: int, interval: int, repeat: bool)

  type Heap = multiset<Entry>

  /** The entry as it is queued again when it fires. */
  function Again(e: Entry, now: int): Entry { e.(nextFire := now + e.interval) }

  /** Each id has at most one entry, below the next id, and repeats by a positive interval. */
  ghost predicate Sound(heap: Heap, nextId: nat) {
    && (forall e :: e in heap ==> heap[e] == 1 && e.id < nextId && (e.repeat ==> e.interval > 0))
    && (forall e, f :: e in heap && f in heap && e.id == f.id ==> e == f)
  }

  predicate Earliest(heap: Heap, e: Entry) {
    e in heap && forall f :: f in heap ==> e.nextFire <= f.nextFire
  }

  lemma EarliestIn(heap: Heap, e: Entry)
    requires Earliest(heap, e)
    ensures e in heap
  {
  }

  lemma {:induction false} HasEarliest(heap: Heap) returns (e: Entry)
    requires |heap| > 0
    ensures Earliest(heap, e)
    decreases |heap|
  {
    e :| e in heap;
    var rest := heap - multiset{e};
    if |rest| > 0 {
      var f := HasEarliest(rest);
      assert forall g :: g in heap ==> g == e || g in rest;
      if f.nextFire < e.nextFire { e := f; }
    } else {
      assert forall g :: g in heap ==> g == e by { assert heap == multiset{e} + rest && rest == multiset{}; }
    }
  }

  /** The entries that are due. */
  ghost function Due(heap: Heap, now: int): Heap
    decreases |heap|
  {
    if heap == multiset{} then multiset{}
    else
      var e :| e in heap;
      (if e.nextFire <= now then multiset{e} else multiset{}) + Due(heap - multiset{e}, now)
  }

  lemma {:induction false} DueIs(heap: Heap, now: int, e: Entry)
    ensures Due(heap, now)[e] == if e.nextFire <= now then heap[e] else 0
    decreases |heap|
  {
    if heap != multiset{} {
      var f :| f in heap && Due(heap, now) == (if f.nextFire <= now then multiset{f} else multiset{}) + Due(heap - multiset{f}, now);
      DueIs(heap - multiset{f}, now, e);
    }
  }

  lemma DueWithout(heap: Heap, now: int, e: Entry)
    requires e in heap
    ensures Due(heap - multiset{e}, now) == Due(heap, now) - if e.nextFire <= now then multiset{e} else multiset{}
  {
    forall f ensures Due(heap - multiset{e}, now)[f]
                     == (Due(heap, now) - if e.nextFire <= now then multiset{e} else multiset{})[f] {
      DueIs(heap, now, f);
      DueIs(heap - multiset{e}, now, f);
    }
  }

  lemma DueWith(heap: Heap, now: int, e: Entry)
    requires e.nextFire > now
    ensures Due(heap + multiset{e}, now) == Due(heap, now)
  {
    forall f ensures Due(heap + multiset{e}, now)[f] == Due(heap, now)[f] {
      DueIs(heap, now, f);
      DueIs(heap + multiset{e}, now, f);
    }
  }

  // --------------------------------------------------------------------------
  // One pass over the queue
  // --------------------------------------------------------------------------

  /** Where an entry of the old queue is after a pass: fired, dropped as cancelled, or still there. */
  ghost predicate Accounted(old0: Heap, c0: set<nat>, heap: Heap, cancelled: set<nat>, fired: seq<Entry>, now: int, e: Entry)
    requires e in old0
  {
    || (e in heap && e !in fired)
    || (e in fired && e !in heap && e.id !in c0 && e.nextFire <= now && (e.repeat <==> Again(e, now) in heap))
    || (e.id in c0 && e.id !in cancelled && e !in heap && e !in fired)
  }

  ghost predicate AllAccounted(old0: Heap, c0: set<nat>, heap: Heap, cancelled: set<nat>, fired: seq<Entry>, now: int) {
    && (forall e :: e in old0 ==> Accounted(old0, c0, heap, cancelled, fired, now, e))
    && (forall e :: e in fired ==> e in old0)
    && (forall e :: e in old0 && e in heap && e.id in c0 ==> e.id in cancelled)
  }

  /** Entries that were not there before repeat one that fired, and are not due. */
  ghost predicate Renewed(old0: Heap, heap: Heap, fired: seq<Entry>, now: int) {
    forall e :: e in heap && e !in old0 ==> e.nextFire > now && exists f :: f in fired && f.repeat && e == Again(f, now)
  }

  /** Fired in order of deadline, each once, and nothing earlier is left. */
  ghost predicate Ordered(heap: Heap, fired: seq<Entry>) {
    && (forall e, f :: e in heap && f in fired ==> f.nextFire <= e.nextFire)
    && (forall i, j :: 0 <= i < j < |fired| ==> fired[i].nextFire <= fired[j].nextFire && fired[i] != fired[j])
  }

  /** The state of a pass: what it has taken out, and that nothing earlier is left. */
  ghost predicate Passing(old0: Heap, c0: set<nat>, heap: Heap, cancelled: set<nat>, fired: seq<Entry>, now: int) {
    && cancelled <= c0
    && AllAccounted(old0, c0, heap, cancelled, fired, now)
    && Renewed(old0, heap, fired, now)
    && Ordered(heap, fired)
  }

  lemma PopSound(heap: Heap, nextId: nat, e: Entry)
    requires Sound(heap, nextId) && e in heap
    ensures Sound(heap - multiset{e}, nextId) && e !in heap - multiset{e}
    ensures forall f :: f in heap - multiset{e} <==> f in heap && f != e
  {
    assert forall f :: (heap - multiset{e})[f] == if f == e then heap[f] - 1 else heap[f];
  }

  lemma PushSound(heap: Heap, nextId: nat, e: Entry)
    requires Sound(heap, nextId) && e.id < nextId && (e.repeat ==> e.interval > 0)
    requires forall f :: f in heap ==> f.id != e.id
    ensures Sound(heap + multiset{e}, nextId)
    ensures forall f :: f in heap + multiset{e} <==> f in heap || f == e
  {
    assert forall f :: (heap + multiset{e})[f] == if f == e then heap[f] + 1 else heap[f];
  }

  /** A cancelled entry is taken out with its mark. */
  lemma DropStep(old0: Heap, c0: set<nat>, heap: Heap, cancelled: set<nat>, fired: seq<Entry>, now: int, nextId: nat, e: Entry)
    requires Sound(old0, nextId) && Sound(heap, nextId) && Passing(old0, c0, heap, cancelled, fired, now)
    requires Earliest(heap, e) && e.id in cancelled
    ensures Passing(old0, c0, heap - multiset{e}, cancelled - {e.id}, fired, now)
  {
    PopSound(heap, nextId, e);
    FromOld(old0, c0, heap, cancelled, fired, now, e);
    var heap', cancelled' := heap - multiset{e}, cancelled - {e.id};
    forall f | f in old0 ensures Accounted(old0, c0, heap', cancelled', fired, now, f) {
      assert Accounted(old0, c0, heap, cancelled, fired, now, f);
      assert Again(f, now).id == f.id;
    }
  }

  /** An entry with a cancelled id was there before the pass. */
  lemma FromOld(old0: Heap, c0: set<nat>, heap: Heap, cancelled: set<nat>, fired: seq<Entry>, now: int, e: Entry)
    requires Passing(old0, c0, heap, cancelled, fired, now) && e in heap && (e.id in cancelled || e.nextFire <= now)
    ensures e in old0 && e !in fired
  {
    if e !in old0 {
      NotFromOld(old0, c0, heap, cancelled, fired, now, e);
    } else {
      assert Accounted(old0, c0, heap, cancelled, fired, now, e);
    }
  }

  /** An entry that was not there before the pass is a repetition of one that fired. */
  lemma NotFromOld(old0: Heap, c0: set<nat>, heap: Heap, cancelled: set<nat>, fired: seq<Entry>, now: int, e: Entry)
    requires Passing(old0, c0, heap, cancelled, fired, now) && e in heap && e !in old0
    ensures e.id !in c0 && e.nextFire > now
  {
    var f :| f in fired && f.repeat && e == Again(f, now);
    assert Accounted(old0, c0, heap, cancelled, fired, now, f);
  }

  /** The queue after an entry fires. */
  function Refired(heap: Heap, e: Entry, now: int): Heap {
    heap - multiset{e} + if e.repeat then multiset{Again(e, now)} else multiset{}
  }

  lemma RefiredHas(heap: Heap, nextId: nat, e: Entry, now: int)
    requires Sound(heap, nextId) && e in heap && e.nextFire <= now
    ensures Sound(Refired(heap, e, now), nextId) && e !in Refired(heap, e, now)
    ensures forall f :: f in Refired(heap, e, now) <==> (f in heap && f != e) || (e.repeat && f == Again(e, now))
  {
    PopSound(heap, nextId, e);
    var rest := heap - multiset{e};
    if e.repeat {
      forall f | f in rest ensures f.id != e.id {
      }
      PushSound(rest, nextId, Again(e, now));
    } else {
      assert Refired(heap, e, now) == rest;
    }
  }

  lemma FireAccounts(old0: Heap, c0: set<nat>, heap: Heap, cancelled: set<nat>, fired: seq<Entry>, now: int, nextId: nat, e: Entry, f: Entry)
    requires Sound(old0, nextId) && Sound(heap, nextId) && Passing(old0, c0, heap, cancelled, fired, now)
    requires Earliest(heap, e) && e.id !in cancelled && e.nextFire <= now && f in old0
    ensures Accounted(old0, c0, Refired(heap, e, now), cancelled, fired + [e], now, f)
  {
    FromOld(old0, c0, heap, cancelled, fired, now, e);
    RefiredHas(heap, nextId, e, now);
    assert Accounted(old0, c0, heap, cancelled, fired, now, f);
    assert e.id !in c0;
    assert Again(e, now).id == e.id && Again(f, now).id == f.id;
    if f == e {
      if !e.repeat && Again(e, now) in heap { assert Again(e, now) == e; }
    }
    hide Passing, Refired;
  }

  lemma FireStep(old0: Heap, c0: set<nat>, heap: Heap, cancelled: set<nat>, fired: seq<Entry>, now: int, nextId: nat, e: Entry)
    requires Sound(old0, nextId) && Sound(heap, nextId) && Passing(old0, c0, heap, cancelled, fired, now)
    requires Earliest(heap, e) && e.id !in cancelled && e.nextFire <= now
    ensures Passing(old0, c0, Refired(heap, e, now), cancelled, fired + [e], now)
  {
    FromOld(old0, c0, heap, cancelled, fired, now, e);
    RefiredHas(heap, nextId, e, now);
    assert e.repeat ==> e.interval > 0;
    FireAll(old0, c0, heap, cancelled, fired, now, nextId, e);
    FireRenews(old0, heap, Refired(heap, e, now), fired, now, e);
    FireOrders(heap, Refired(heap, e, now), fired, now, e);
    hide AllAccounted, Renewed, Ordered, Refired, Sound;
  }

  lemma FireAll(old0: Heap, c0: set<nat>, heap: Heap, cancelled: set<nat>, fired: seq<Entry>, now: int, nextId: nat, e: Entry)
    requires Sound(old0, nextId) && Sound(heap, nextId) && Passing(old0, c0, heap, cancelled, fired, now)
    requires Earliest(heap, e) && e.id !in cancelled && e.nextFire <= now
    ensures AllAccounted(old0, c0, Refired(heap, e, now), cancelled, fired + [e], now)
  {
    FromOld(old0, c0, heap, cancelled, fired, now, e);
    RefiredHas(heap, nextId, e, now);
    var heap', fired' := Refired(heap, e, now), fired + [e];
    forall f | f in old0 ensures Accounted(old0, c0, heap', cancelled, fired', now, f) {
      FireAccounts(old0, c0, heap, cancelled, fired, now, nextId, e, f);
    }
    hide Accounted, Refired, Ordered, Renewed;
    forall f | f in fired' ensures f in old0 {
    }
    forall f | f in old0 && f in heap' && f.id in c0 ensures f.id in cancelled {
      assert f in heap || f == Again(e, now);
      assert e.id in c0 ==> e.id in cancelled;
    }
  }

  lemma FireRenews(old0: Heap, heap: Heap, heap': Heap, fired: seq<Entry>, now: int, e: Entry)
    requires Renewed(old0, heap, fired, now) && e.nextFire <= now && (e.repeat ==> e.interval > 0)
    requires forall f :: f in heap' <==> (f in heap && f != e) || (e.repeat && f == Again(e, now))
    ensures Renewed(old0, heap', fired + [e], now)
  {
    forall f | f in heap' && f !in old0
      ensures f.nextFire > now && exists g :: g in fired + [e] && g.repeat && f == Again(g, now)
    {
      if f in heap {
        var g :| g in fired && g.repeat && f == Again(g, now);
        assert g in fired + [e];
      } else {
        assert e in fired + [e];
      }
    }
  }

  lemma FireOrders(heap: Heap, heap': Heap, fired: seq<Entry>, now: int, e: Entry)
    requires Ordered(heap, fired) && Earliest(heap, e) && e !in fired && e.nextFire <= now && (e.repeat ==> e.interval > 0)
    requires forall f :: f in heap' <==> (f in heap && f != e) || (e.repeat && f == Again(e, now))
    ensures Ordered(heap', fired + [e])
  {
    var fired' := fired + [e];
    forall g, f | g in heap' && f in fired' ensures f.nextFire <= g.nextFire {
      assert f in fired || f == e;
      assert f.nextFire <= e.nextFire;
    }
    forall i, j | 0 <= i < j < |fired'| ensures fired'[i].nextFire <= fired'[j].nextFire && fired'[i] != fired'[j] {
      assert fired'[i] in fired;
    }
  }

  // --------------------------------------------------------------------------
  // What a whole pass does
  // --------------------------------------------------------------------------

  /** Cancelled ids do not count. */
  ghost predicate Live(heap: Heap, cancelled: set<nat>, e: Entry) { e in heap && e.id !in cancelled }

  /** An id whose timer, if it is still queued, is marked as cancelled. */
  ghost predicate Dead(heap: Heap, cancelled: set<nat>, nextId: nat, id: nat) {
    id < nextId && forall e :: e in heap && e.id == id ==> id in cancelled
  }

  /** Exactly the due timers that are not cancelled fire, once each, earliest first. */
  ghost predicate FiresDue(old0: Heap, c0: set<nat>, fired: seq<Entry>, now: int) {
    && (forall e :: e in fired <==> Live(old0, c0, e) && e.nextFire <= now)
    && (forall i, j :: 0 <= i < j < |fired| ==> fired[i].nextFire <= fired[j].nextFire && fired[i] != fired[j])
  }

  /** What is live after a pass: what was live and not due, and the repetitions of what fired. */
  ghost predicate Requeued(old0: Heap, c0: set<nat>, heap: Heap, cancelled: set<nat>, fired: seq<Entry>, now: int) {
    forall x :: Live(heap, cancelled, x) <==>
      (Live(old0, c0, x) && x.nextFire > now) || (exists f :: f in fired && f.repeat && x == Again(f, now))
  }

  lemma PassDone(old0: Heap, c0: set<nat>, heap: Heap, cancelled: set<nat>, fired: seq<Entry>, now: int, nextId: nat)
    requires Sound(old0, nextId) && Passing(old0, c0, heap, cancelled, fired, now)
    requires forall e :: e in heap ==> e.nextFire > now
    ensures FiresDue(old0, c0, fired, now) && Requeued(old0, c0, heap, cancelled, fired, now)
  {
    forall e | e in old0 ensures Accounted(old0, c0, heap, cancelled, fired, now, e) {
    }
    forall x ensures Live(heap, cancelled, x) <==>
      (Live(old0, c0, x) && x.nextFire > now) || (exists f :: f in fired && f.repeat && x == Again(f, now))
    {
      if f :| f in fired && f.repeat && x == Again(f, now) {
        assert Accounted(old0, c0, heap, cancelled, fired, now, f);
      }
    }
  }

  /** A cancelled timer does not fire in a pass, and stays cancelled. */
  lemma DeadStays(old0: Heap, c0: set<nat>, heap: Heap, cancelled: set<nat>, fired: seq<Entry>, now: int, nextId: nat, id: nat)
    requires Passing(old0, c0, heap, cancelled, fired, now) && Dead(old0, c0, nextId, id)
    ensures Dead(heap, cancelled, nextId, id) && forall e :: e in fired ==> e.id != id
  {
    forall e | e in fired ensures e.id != id {
      assert Accounted(old0, c0, heap, cancelled, fired, now, e);
    }
    forall e | e in heap && e !in old0 ensures e.id != id {
      var f :| f in fired && f.repeat && e == Again(f, now);
      assert f.id != id;
    }
  }

  class TimerQueue {
    var timers: Heap
    var cancelled: set<nat>
    var nextId: nat

    ghost predicate Valid()
      reads this
    {
      Sound(timers, nextId)
    }

    constructor ()
      ensures Valid() && timers == multiset{} && cancelled == {} && nextId == 0
    {
      timers, cancelled, nextId := multiset{}, {}, 0;
    }

    /** Takes an entry with the earliest deadline; ties are open. */
    method Top() returns (e: Entry)
      requires |timers| > 0
      ensures Earliest(timers, e)
    {
      ghost var w := HasEarliest(timers);
      e :| e in timers && forall f :: f in timers ==> e.nextFire <= f.nextFire;
    }

    /** A new timer fires at least a millisecond from now and gets an id of its own. */
    method AddTimer(firstFire: int, interval: int, repeat: bool, now: int) returns (id: nat, wake: bool)
      requires Valid()
      modifies this`timers, this`nextId
      ensures Valid() && id == old(nextId) && nextId == id + 1
      ensures var e := Entry(id, if firstFire <= now then now + MILLISECOND else firstFire,
                             if repeat && interval <= 0 then MILLISECOND else interval, repeat);
              && timers == old(timers) + multiset{e}
              && (wake <==> forall f :: f in old(timers) ==> e.nextFire < f.nextFire)
      ensures forall d :: Dead(old(timers), cancelled, old(nextId), d) ==> Dead(timers, cancelled, nextId, d)
    {
      id := nextId;
      nextId := nextId + 1;
      var interval' := if repeat && interval <= 0 then MILLISECOND else interval;
      var first := if firstFire <= now then now + MILLISECOND else firstFire;
      wake := true;
      if |timers| > 0 {
        var top := Top();
        wake := first < top.nextFire;
      } else {
        assert timers == multiset{};
      }
      var e := Entry(id, first, interval', repeat);
      PushSound(timers, nextId, e);
      timers := timers + multiset{e};
    }

    method CancelTimer(id: nat)
      requires Valid()
      modifies this`cancelled
      ensures Valid() && cancelled == old(cancelled) + {id}
      ensures id < nextId ==> Dead(timers, cancelled, nextId, id)
      ensures forall d :: Dead(timers, old(cancelled), nextId, d) ==> Dead(timers, cancelled, nextId, d)
    {
      cancelled := cancelled + {id};
    }

    /**
     One pass while the loop runs.  `checks` is how many looks at the running flag still find it set: with none
     nothing happens; otherwise exactly the due timers that are not cancelled are taken out, in order, and of
     their callbacks those are posted that come before the stop, all of them without one.
     */
    method ProcessTimers(now: int, checks: nat) returns (fired: seq<Entry>, posted: seq<Entry>)
      requires Valid()
      modifies this`timers, this`cancelled
      ensures Valid() && cancelled <= old(cancelled)
      ensures checks == 0 ==> fired == [] && timers == old(timers) && cancelled == old(cancelled)
      ensures checks > 0 ==> FiresDue(old(timers), old(cancelled), fired, now)
      ensures checks > 0 ==> Requeued(old(timers), old(cancelled), timers, cancelled, fired, now)
      ensures posted <= fired && (checks >= |fired| + 2 ==> posted == fired)
      ensures checks < |fired| + 2 ==> |posted| == if checks < 2 then 0 else checks - 2
      ensures forall d :: Dead(old(timers), old(cancelled), nextId, d) ==>
                Dead(timers, cancelled, nextId, d) && forall e :: e in fired ==> e.id != d
    {
      hide *;
      fired, posted := [], [];
      if checks == 0 { return; }
      fired := Extract(now);
      if checks == 1 { return; }
      for i := 0 to |fired|
        invariant posted == fired[..if i <= checks - 2 then i else checks - 2]
      {
        if i + 2 >= checks { continue; }
        posted := posted + [fired[i]];
      }
    }

    /** Takes out exactly the due timers that are not cancelled, and terminates although repeats are queued again. */
    method Extract(now: int) returns (fired: seq<Entry>)
      requires Valid()
      modifies this`timers, this`cancelled
      ensures Valid() && cancelled <= old(cancelled)
      ensures FiresDue(old(timers), old(cancelled), fired, now)
      ensures Requeued(old(timers), old(cancelled), timers, cancelled, fired, now)
      ensures forall d :: Dead(old(timers), old(cancelled), nextId, d) ==>
                Dead(timers, cancelled, nextId, d) && forall e :: e in fired ==> e.id != d
    {
      hide Sound, Earliest;
      fired := [];
      ghost var h0, c0 := timers, cancelled;
      StartPass(timers, cancelled, now);
      hide Passing;
      while |timers| > 0
        invariant Sound(timers, nextId) && Passing(h0, c0, timers, cancelled, fired, now)
        decreases |Due(timers, now)|, |timers|
      {
        var e := Top();
        if e.id !in cancelled && e.nextFire > now {
          NoneDue(timers, e, now);
          break;
        }
        fired := Take(e, now, fired, h0, c0);
      }
      assert forall e :: e in timers ==> e.nextFire > now;
      PassDone(h0, c0, timers, cancelled, fired, now, nextId);
      Shrunk(h0, c0, timers, cancelled, fired, now);
      forall d | Dead(h0, c0, nextId, d)
        ensures Dead(timers, cancelled, nextId, d) && forall e :: e in fired ==> e.id != d
      {
        DeadStays(h0, c0, timers, cancelled, fired, now, nextId, d);
      }
    }

    /** Takes the earliest entry out: dropped if cancelled, else fired and queued again if it repeats. */
    method Take(e: Entry, now: int, fired0: seq<Entry>, ghost h0: Heap, ghost c0: set<nat>) returns (fired: seq<Entry>)
      requires Sound(h0, nextId) && Valid() && Passing(h0, c0, timers, cancelled, fired0, now)
      requires Earliest(timers, e) && (e.id in cancelled || e.nextFire <= now)
      modifies this`timers, this`cancelled
      ensures Valid() && Passing(h0, c0, timers, cancelled, fired, now)
      ensures |Due(timers, now)| < old(|Due(timers, now)|)
              || (|Due(timers, now)| == old(|Due(timers, now)|) && |timers| < old(|timers|))
    {
      hide Passing, Sound, Due, Earliest;
      EarliestIn(timers, e);
      PopSound(timers, nextId, e);
      DueWithout(timers, now, e);
      DueIs(timers, now, e);
      IntervalPositive(timers, nextId, e);
      if e.id in cancelled {
        DropStep(h0, c0, timers, cancelled, fired0, now, nextId, e);
        timers, cancelled := timers - multiset{e}, cancelled - {e.id};
        return fired0;
      }
      RefiredHas(timers, nextId, e, now);
      FireStep(h0, c0, timers, cancelled, fired0, now, nextId, e);
      fired := fired0 + [e];
      if e.repeat {
        DueWith(timers - multiset{e}, now, Again(e, now));
        timers := timers - multiset{e} + multiset{Again(e, now)};
      } else {
        assert timers - multiset{e} + multiset{} == timers - multiset{e};
        timers := timers - multiset{e};
      }
    }

    /** How long the loop may sleep: never past the earliest live deadline, and less than a millisecond short of it. */
    method ComputeWait(now: int) returns (ms: int)
      requires Valid()
      modifies this`timers, this`cancelled
      ensures Valid() && 0 <= ms <= MAX_INT
      ensures forall x :: Live(timers, cancelled, x) <==> Live(old(timers), old(cancelled), x)
      ensures forall x :: Live(timers, cancelled, x) ==> if x.nextFire <= now then ms == 0 else now + ms * MILLISECOND <= x.nextFire
      ensures (forall x :: !Live(timers, cancelled, x)) ==> ms == DEFAULT_WAIT
      ensures (exists x :: Live(timers, cancelled, x)) && ms < MAX_INT ==>
                exists x :: Live(timers, cancelled, x) && x.nextFire < now + (ms + 1) * MILLISECOND
    {
      hide Sound;
      while |timers| > 0
        invariant Sound(timers, nextId)
        invariant forall x :: Live(timers, cancelled, x) <==> Live(old(timers), old(cancelled), x)
        decreases |timers|
      {
        var e := Top();
        if e.id in cancelled {
          PopSound(timers, nextId, e);
          LiveWithout(timers, cancelled, nextId, e);
          timers, cancelled := timers - multiset{e}, cancelled - {e.id};
          continue;
        }
        assert Live(timers, cancelled, e);
        if e.nextFire <= now { return 0; }
        ms := (e.nextFire - now) / MILLISECOND;
        if ms > MAX_INT { ms := MAX_INT; }
        return;
      }
      assert timers == multiset{};
      ms := DEFAULT_WAIT;
    }
  }

  /** Dropping a cancelled entry with its mark changes nothing that is live. */
  lemma LiveWithout(heap: Heap, cancelled: set<nat>, nextId: nat, e: Entry)
    requires Sound(heap, nextId) && e in heap && e.id in cancelled
    ensures forall x :: Live(heap - multiset{e}, cancelled - {e.id}, x) <==> Live(heap, cancelled, x)
  {
    PopSound(heap, nextId, e);
  }

  lemma StartPass(heap: Heap, cancelled: set<nat>, now: int)
    ensures Passing(heap, cancelled, heap, cancelled, [], now)
  {
  }

  lemma Shrunk(old0: Heap, c0: set<nat>, heap: Heap, cancelled: set<nat>, fired: seq<Entry>, now: int)
    requires Passing(old0, c0, heap, cancelled, fired, now)
    ensures cancelled <= c0
  {
  }

  lemma NoneDue(heap: Heap, e: Entry, now: int)
    requires Earliest(heap, e) && e.nextFire > now
    ensures forall f :: f in heap ==> f.nextFire > now
  {
  }

  lemma IntervalPositive(heap: Heap, nextId: nat, e: Entry)
    requires Sound(heap, nextId) && e in heap
    ensures e.repeat ==> e.interval > 0
  {
  }
}
