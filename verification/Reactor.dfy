/**
 Buffered connections on the event loop (src/reactor/buffered_connection.cpp and
 src/platform/io_context.cpp, `set_io_handler`, `remove_io`,
 `process_io_events`), without TLS: which readiness interest is registered, and
 how many bytes are buffered.

 What the sockets answer and what the application does in its callbacks are
 inputs.  Readiness may be reported for any connection at any time, needed or not:
 which reports pass the table's generation check is the subject of `Descriptors`.
 Handlers run one after the other on the loop's thread.  What `on_closed` does
 comes last in an operation, so it is a posted action of its own.
 */
module Reactor {
  import opened Bytes
  import opened Sums

  /**
   `read` and `write` are the interests registered for the connection's descriptor.  History: the bytes the
   application asked to be written, the bytes the socket took, and whether the connection was cut off by a
   failure, an end of input or a plain close.
   */
  datatype Conn = Conn(
    started: bool, closed: bool, armed: bool, closeAfterFlush: bool, out: seq<Byte>, read: bool, write: bool,
    asked: seq<Byte>, wire: seq<Byte>, cut: bool)

  function NewConn(): Conn { Conn(false, false, false, false, [], false, false, [], [], false) }

  /** What a flush of a non-empty buffer comes to: all sent, or some bytes and then no more. */
  datatype Flush = Flushed | Blocked(sent: nat) | Failed(sent: nat)

  /** What the application can ask for. */
  datatype Action =
    | Start(id: nat)
    | Write(id: nat, data: seq<Byte>, flush: Flush)
    | Close(id: nat)
    | CloseAfterFlush(id: nat)

  /** What a read returns: bytes, with what the application does about them, or the end. */
  datatype Recv = Got(actions: seq<Action>) | Again | Gone

  /** A handler taken out of the table and still to be called. */
  datatype Due = Due(id: nat, readable: bool)

  datatype System = System(conns: map<nat, Conn>, gauge: int, due: seq<Due>)

  // --------------------------------------------------------------------------
  // One connection
  // --------------------------------------------------------------------------

  /** The bytes left after a flush. */
  function Left(out: seq<Byte>, f: Flush): (rest: seq<Byte>)
    ensures |rest| <= |out| && rest == out[|out| - |rest|..]
  {
    match f
    case Flushed => []
    case Blocked(n) => if n < |out| then out[n..] else []
    case Failed(n) => if n < |out| then out[n..] else []
  }

  /** The bytes the socket took. */
  function Sent(out: seq<Byte>, f: Flush): seq<Byte> { out[..|out| - |Left(out, f)|] }

  /** A flush that blocks or fails leaves something unsent. */
  predicate Possible(out: seq<Byte>, f: Flush) {
    match f
    case Flushed => true
    case Blocked(n) => n < |out|
    case Failed(n) => n < |out|
  }

  function Drain(c: Conn, f: Flush): Conn { c.(out := Left(c.out, f), wire := c.wire + Sent(c.out, f)) }

  /** What an operation makes of a connection, and the sum of the adjustments it reports to the gauge. */
  datatype Outcome = Outcome(conn: Conn, reported: int)

  /** `report_buffered_delta`: what the queue has grown by since it held `before` bytes. */
  function Delta(c: Conn, before: nat): int { |c.out| - before }

  /** One adjustment after another. */
  function After(reported: int, o: Outcome): Outcome { o.(reported := reported + o.reported) }

  /** `close`: bytes still queued are taken off the gauge. */
  function Shut(c: Conn): Outcome {
    if c.closed then Outcome(c, 0) else Outcome(c.(closed := true, read := false, write := false), -|c.out|)
  }

  function CutOff(c: Conn): Outcome {
    if c.closed then Outcome(c, 0) else var o := Shut(c); o.(conn := o.conn.(cut := true))
  }

  function Arm(c: Conn): Conn { if c.armed then c else c.(armed := true, read := true, write := true) }

  /** `write`, once the bytes are queued and, if they are the only ones, a flush was tried. */
  function AfterWrite(c: Conn, f: Flush, before: nat): Outcome {
    match f
    case Failed(_) => After(Delta(c, before), CutOff(c))
    case Flushed => Outcome(c, Delta(c, before))
    case Blocked(_) => Outcome(Arm(c), Delta(c, before))
  }

  function OnWrite(c: Conn, data: seq<Byte>, f: Flush): Outcome {
    if c.closed || data == [] then Outcome(c, 0)
    else
      var c0 := c.(out := c.out + data, asked := c.asked + data);
      if c.out == [] then AfterWrite(Drain(c0, f), f, |c.out|) else AfterWrite(c0, Blocked(0), |c.out|)
  }

  /** `on_writable`, after its flush. */
  function AfterFlush(c: Conn, f: Flush, before: nat): Outcome {
    match f
    case Failed(_) => After(Delta(c, before), CutOff(c))
    case Flushed =>
      if c.closeAfterFlush then After(Delta(c, before), Shut(c))
      else Outcome(c.(armed := false, read := true), Delta(c, before))
    case Blocked(_) => Outcome(c.(read := true, write := true), Delta(c, before))
  }

  function OnWritable(c: Conn, f: Flush): Outcome {
    if c.closed then Outcome(c, 0)
    else
      var g := if c.out == [] then Flushed else f;
      AfterFlush(Drain(c, g), g, |c.out|)
  }

  function OnCloseAfterFlush(c: Conn): Outcome {
    if c.closed then Outcome(c, 0)
    else if c.out == [] then Shut(c)
    else Outcome(c.(closeAfterFlush := true), 0)
  }

  /** After the last read: interest is registered again, in writing too if it was armed. */
  function Rearm(c: Conn): Outcome {
    Outcome(if c.closed then c else c.(read := true, write := c.write || c.armed), 0)
  }

  function OnStart(c: Conn): Outcome { Outcome(if c.closed then c else c.(started := true, read := true), 0) }

  // --------------------------------------------------------------------------
  // The loop
  // --------------------------------------------------------------------------

  /** Bytes a connection counts in the gauge. */
  function Held(c: Conn): nat { if c.closed then 0 else |c.out| }

  function Helds(conns: map<nat, Conn>): map<nat, nat> { map id | id in conns :: Held(conns[id]) }

  /** A connection becomes what an operation made of it, and the gauge is adjusted by what was reported. */
  function Put(s: System, id: nat, o: Outcome): System {
    s.(conns := s.conns[id := o.conn], gauge := s.gauge + o.reported)
  }

  predicate ActionEnabled(s: System, a: Action) {
    a.id in s.conns && (a.Write? && s.conns[a.id].out == [] ==> Possible(a.data, a.flush))
  }

  function Act(s: System, a: Action): System
    requires a.id in s.conns
  {
    var c := s.conns[a.id];
    match a
    case Start(id) => Put(s, id, OnStart(c))
    case Write(id, data, f) => Put(s, id, OnWrite(c, data, f))
    case Close(id) => Put(s, id, CutOff(c))
    case CloseAfterFlush(id) => Put(s, id, OnCloseAfterFlush(c))
  }

  /** The actions happen in order; each is possible when its turn comes. */
  ghost predicate Acts(s: System, acts: seq<Action>, s': System)
    decreases |acts|
  {
    if acts == [] then s == s'
    else ActionEnabled(s, acts[0]) && Acts(Act(s, acts[0]), acts[1..], s')
  }

  /** `on_readable`: reads until there is nothing more, then registers interest again. */
  ghost predicate Reads(s: System, id: nat, rs: seq<Recv>, s': System)
    requires id in s.conns
    decreases |rs|
  {
    if s.conns[id].closed then s' == s
    else if rs == [] || rs[0].Again? then s' == Put(s, id, Rearm(s.conns[id]))
    else if rs[0].Gone? then s' == Put(s, id, CutOff(s.conns[id]))
    else exists s1 :: Acts(s, rs[0].actions, s1) && id in s1.conns && Reads(s1, id, rs[1..], s')
  }

  datatype Event =
    | Open(id: nat)
    | Poll(ready: seq<Due>)
    | Callback(rs: seq<Recv>, flush: Flush)
    | Posted(a: Action)
    | Destroy(id: nat)

  /** Taking a ready handler out of the table clears its registration. */
  function Fire(s: System, d: Due): System {
    if d.id !in s.conns then s
    else
      var c := s.conns[d.id];
      if d.readable then
        if c.read then s.(conns := s.conns[d.id := c.(read := false)], due := s.due + [d]) else s
      else
        if c.write then s.(conns := s.conns[d.id := c.(write := false)], due := s.due + [d]) else s
  }

  function FireAll(s: System, ds: seq<Due>): System
    decreases |ds|
  {
    if ds == [] then s else FireAll(Fire(s, ds[0]), ds[1..])
  }

  /** Neither the table nor a handler about to run refers to the connection, so that it may be destroyed. */
  ghost predicate Unreferenced(s: System, id: nat) {
    id in s.conns && !s.conns[id].read && !s.conns[id].write && forall d :: d in s.due ==> d.id != id
  }

  /** One step of the loop: new handlers are only taken out once all earlier ones have run. */
  ghost predicate Next(s: System, e: Event, s': System) {
    match e
    case Open(id) =>
      id !in s.conns && s' == s.(conns := s.conns[id := NewConn()])
    case Poll(ready) => s.due == [] && s' == FireAll(s, ready)
    case Posted(a) => ActionEnabled(s, a) && s' == Act(s, a)
    case Destroy(id) => Unreferenced(s, id) && s' == s.(conns := s.conns - {id})
    case Callback(rs, f) =>
      && s.due != [] && s.due[0].id in s.conns
      && var d := s.due[0];
         var s1 := s.(due := s.due[1..]);
         if d.readable then Reads(s1, d.id, rs, s')
         else Possible(s.conns[d.id].out, f) && s' == Put(s1, d.id, OnWritable(s.conns[d.id], f))
  }

  // --------------------------------------------------------------------------
  // What every step keeps
  // --------------------------------------------------------------------------

  /**
   A closed connection is not registered; an open one is armed exactly while bytes are queued.  What was
   asked for is what was sent and then what is queued, and nothing is left unless the connection was cut off.
   */
  predicate ConnOk(c: Conn) {
    && (if c.closed then !c.read && !c.write && (c.cut || c.out == [])
        else c.armed == (c.out != []) && (c.closeAfterFlush ==> c.out != []))
    && c.asked == c.wire + c.out
  }

  /** The interests an open connection needs are registered, or the handler is about to run. */
  ghost predicate Covered(c: Conn, id: nat, owed: set<Due>) {
    !c.closed ==>
      && (c.started ==> c.read || Due(id, true) in owed)
      && (c.out != [] ==> c.write || Due(id, false) in owed)
  }

  /** `owed` are the handlers that have been taken out and have not finished. */
  ghost predicate Inv(s: System, owed: set<Due>) {
    && (forall id :: id in s.conns ==> ConnOk(s.conns[id]) && Covered(s.conns[id], id, owed))
    && s.gauge == Total(Helds(s.conns))
  }

  ghost function Owed(s: System): set<Due> { set d | d in s.due }

  lemma GaugeMoves(conns: map<nat, Conn>, id: nat, c: Conn)
    ensures Total(Helds(conns[id := c])) == Total(Helds(conns)) + Held(c) - if id in conns then Held(conns[id]) else 0
  {
    assert Helds(conns[id := c]) == Helds(conns)[id := Held(c)];
    TotalUpdate(Helds(conns), id, Held(c));
  }

  /** The adjustments reported are what the connection now counts for, less what it counted for before. */
  predicate Balanced(c: Conn, o: Outcome) { o.reported == Held(o.conn) - Held(c) }

  /** What an operation must do to keep the invariant. */
  ghost predicate Keeps(c: Conn, id: nat, o: Outcome, owed: set<Due>) {
    ConnOk(o.conn) && Covered(o.conn, id, owed) && Balanced(c, o)
  }

  lemma PutKeeps(s: System, id: nat, o: Outcome, owed: set<Due>)
    requires Inv(s, owed) && id in s.conns && Keeps(s.conns[id], id, o, owed)
    ensures Inv(Put(s, id, o), owed)
  {
    GaugeMoves(s.conns, id, o.conn);
    hide Helds, Total, ConnOk, Covered;
  }

  /** A connection that may be destroyed counts for nothing. */
  lemma DestroyKeeps(s: System, id: nat)
    requires Inv(s, Owed(s)) && Unreferenced(s, id)
    ensures Inv(s.(conns := s.conns - {id}), Owed(s))
  {
    assert ConnOk(s.conns[id]) && Covered(s.conns[id], id, Owed(s)) && Held(s.conns[id]) == 0;
    assert Helds(s.conns - {id}) == Helds(s.conns) - {id};
    TotalRemove(Helds(s.conns), id);
    hide Total, Helds;
  }

  lemma DrainKeeps(c: Conn, f: Flush)
    ensures var d := Drain(c, f); d.wire + d.out == c.wire + c.out
  {
  }

  lemma LeftOver(out: seq<Byte>, f: Flush)
    requires out != [] && Possible(out, f)
    ensures Left(out, f) == [] <==> f.Flushed?
  {
  }

  lemma WriteKeeps(c: Conn, id: nat, data: seq<Byte>, f: Flush, owed: set<Due>)
    requires ConnOk(c) && Covered(c, id, owed) && (c.out == [] ==> Possible(data, f))
    ensures Keeps(c, id, OnWrite(c, data, f), owed)
  {
    hide Left, Sent;
    var c0 := c.(out := c.out + data, asked := c.asked + data);
    assert c0.wire + c0.out == c0.asked;
    if c.out == [] {
      assert c0.out == data;
      DrainKeeps(c0, f);
      if data != [] { LeftOver(data, f); }
    }
  }

  lemma ActKeeps(s: System, a: Action, owed: set<Due>)
    requires Inv(s, owed) && ActionEnabled(s, a)
    ensures Inv(Act(s, a), owed)
  {
    var c := s.conns[a.id];
    assert ConnOk(c) && Covered(c, a.id, owed);
    match a
    case Start(id) => PutKeeps(s, id, OnStart(c), owed);
    case Write(id, data, f) =>
      WriteKeeps(c, id, data, f, owed);
      PutKeeps(s, id, OnWrite(c, data, f), owed);
    case Close(id) => PutKeeps(s, id, CutOff(c), owed);
    case CloseAfterFlush(id) => PutKeeps(s, id, OnCloseAfterFlush(c), owed);
  }

  lemma ActFrame(s: System, a: Action)
    requires a.id in s.conns
    ensures Act(s, a).due == s.due && Act(s, a).conns.Keys == s.conns.Keys
  {
  }

  lemma {:induction false} ActsKeep(s: System, acts: seq<Action>, s': System, owed: set<Due>)
    requires Inv(s, owed) && Acts(s, acts, s')
    ensures Inv(s', owed) && s'.due == s.due && s'.conns.Keys == s.conns.Keys
    decreases |acts|
  {
    if acts != [] {
      ActKeeps(s, acts[0], owed);
      ActFrame(s, acts[0]);
      hide Inv, Act;
      ActsKeep(Act(s, acts[0]), acts[1..], s', owed);
    }
  }

  /** A finished read handler owes nothing any more: its interest is registered again, or it is closed. */
  lemma {:induction false} ReadsKeep(s: System, id: nat, rs: seq<Recv>, s': System, owed: set<Due>)
    requires id in s.conns && Inv(s, owed + {Due(id, true)}) && Reads(s, id, rs, s')
    ensures Inv(s', owed) && s'.due == s.due && s'.conns.Keys == s.conns.Keys
    decreases |rs|
  {
    var c, more := s.conns[id], owed + {Due(id, true)};
    assert ConnOk(c) && Covered(c, id, more);
    if c.closed {
      Paid(s, id, true, owed);
    } else if rs == [] || rs[0].Again? {
      PutKeeps(s, id, Rearm(c), more);
      Paid(s', id, true, owed);
    } else if rs[0].Gone? {
      PutKeeps(s, id, CutOff(c), more);
      Paid(s', id, true, owed);
    } else {
      var s1 :| Acts(s, rs[0].actions, s1) && id in s1.conns && Reads(s1, id, rs[1..], s');
      ActsKeep(s, rs[0].actions, s1, more);
      hide Inv;
      ReadsKeep(s1, id, rs[1..], s', owed);
    }
  }

  /** An obligation can be dropped once the connection is covered without it. */
  lemma Paid(s: System, id: nat, readable: bool, owed: set<Due>)
    requires Inv(s, owed + {Due(id, readable)}) && id in s.conns && Covered(s.conns[id], id, owed)
    ensures Inv(s, owed)
  {
    hide Total, Helds;
    forall j | j in s.conns ensures ConnOk(s.conns[j]) && Covered(s.conns[j], j, owed) {
      assert Covered(s.conns[j], j, owed + {Due(id, readable)});
    }
  }

  lemma WritableKeeps(c: Conn, id: nat, f: Flush, owed: set<Due>)
    requires ConnOk(c) && Covered(c, id, owed + {Due(id, false)}) && Possible(c.out, f)
    ensures Keeps(c, id, OnWritable(c, f), owed)
  {
    DrainKeeps(c, f);
    DrainKeeps(c, Flushed);
  }

  lemma FireKeeps(s: System, d: Due)
    requires Inv(s, Owed(s))
    ensures Inv(Fire(s, d), Owed(Fire(s, d)))
  {
    var s' := Fire(s, d);
    if s' != s {
      var c := s'.conns[d.id];
      assert d in s'.due && forall x :: x in s.due ==> x in s'.due;
      GaugeMoves(s.conns, d.id, c);
      hide Total, Helds;
      forall j | j in s'.conns ensures ConnOk(s'.conns[j]) && Covered(s'.conns[j], j, Owed(s')) {
        assert Covered(s.conns[j], j, Owed(s));
      }
    }
  }

  lemma {:induction false} FireAllKeeps(s: System, ds: seq<Due>)
    requires Inv(s, Owed(s))
    ensures Inv(FireAll(s, ds), Owed(FireAll(s, ds)))
    decreases |ds|
  {
    if ds != [] {
      FireKeeps(s, ds[0]);
      hide Inv, Fire;
      FireAllKeeps(Fire(s, ds[0]), ds[1..]);
    }
  }

  lemma CallbackKeeps(s: System, rs: seq<Recv>, f: Flush, s': System)
    requires Inv(s, Owed(s)) && Next(s, Callback(rs, f), s')
    ensures Inv(s', Owed(s'))
  {
    var d := s.due[0];
    var s1 := s.(due := s.due[1..]);
    var owed := Owed(s1);
    assert Owed(s) <= owed + {d} by {
      forall x | x in s.due ensures x == d || x in s1.due {
        var i :| 0 <= i < |s.due| && s.due[i] == x;
        if i > 0 { assert s1.due[i - 1] == x; }
      }
    }
    More(s1, Owed(s), owed + {d});
    if d.readable {
      ReadsKeep(s1, d.id, rs, s', owed);
    } else {
      WritableKeeps(s.conns[d.id], d.id, f, owed);
      Covered2(OnWritable(s.conns[d.id], f).conn, d.id, owed, owed + {d});
      PutKeeps(s1, d.id, OnWritable(s.conns[d.id], f), owed + {d});
      Paid(s', d.id, false, owed);
    }
  }

  lemma Covered2(c: Conn, id: nat, owed: set<Due>, more: set<Due>)
    requires Covered(c, id, owed) && owed <= more
    ensures Covered(c, id, more)
  {
  }

  lemma More(s: System, owed: set<Due>, more: set<Due>)
    requires Inv(s, owed) && owed <= more
    ensures Inv(s, more)
  {
    hide Total, Helds;
  }

  lemma NextKeeps(s: System, e: Event, s': System)
    requires Inv(s, Owed(s)) && Next(s, e, s')
    ensures Inv(s', Owed(s'))
  {
    match e
    case Open(id) =>
      GaugeMoves(s.conns, id, NewConn());
      hide Total, Helds;
    case Poll(ready) => FireAllKeeps(s, ready);
    case Posted(a) =>
      ActKeeps(s, a, Owed(s));
      ActFrame(s, a);
    case Callback(rs, f) => CallbackKeeps(s, rs, f, s');
    case Destroy(id) => DestroyKeeps(s, id);
  }

  ghost predicate Reaches(s: System, es: seq<Event>, ss: seq<System>)
    decreases |es|
  {
    |ss| == |es| && (es == [] || (Next(s, es[0], ss[0]) && Reaches(ss[0], es[1..], ss[1..])))
  }

  lemma {:induction false} RunKeeps(s: System, es: seq<Event>, ss: seq<System>)
    requires Inv(s, Owed(s)) && Reaches(s, es, ss)
    ensures forall i :: 0 <= i < |ss| ==> Inv(ss[i], Owed(ss[i]))
    decreases |es|
  {
    hide Inv, Next, Owed;
    if es != [] {
      NextKeeps(s, es[0], ss[0]);
      RunKeeps(ss[0], es[1..], ss[1..]);
      assert forall i :: 0 < i < |ss| ==> ss[i] == ss[1..][i - 1];
    }
  }

  lemma EveryState(es: seq<Event>, ss: seq<System>, i: nat)
    requires Reaches(System(map[], 0, []), es, ss) && i < |ss|
    ensures Inv(ss[i], Owed(ss[i]))
  {
    var s0 := System(map[], 0, []);
    assert Helds(s0.conns) == map[];
    RunKeeps(s0, es, ss);
  }

  /**
   In every run, whenever no handler is waiting to be called: every open, started connection has read
   interest registered, and write interest if bytes are queued; no closed connection is registered.
   */
  lemma NoLostWakeup(es: seq<Event>, ss: seq<System>, i: nat, id: nat)
    requires Reaches(System(map[], 0, []), es, ss) && i < |ss| && ss[i].due == [] && id in ss[i].conns
    ensures var c := ss[i].conns[id];
            if c.closed then !c.read && !c.write else (c.started ==> c.read) && (c.out != [] ==> c.write)
  {
    EveryState(es, ss, i);
    assert Owed(ss[i]) == {};
    assert ConnOk(ss[i].conns[id]) && Covered(ss[i].conns[id], id, {});
  }

  /**
   In every run, at any moment, the adjustments reported so far add up to the bytes queued on open connections,
   connections destroyed without being closed included.
   */
  lemma GaugeIsSum(es: seq<Event>, ss: seq<System>, i: nat)
    requires Reaches(System(map[], 0, []), es, ss) && i < |ss|
    ensures ss[i].gauge == Total(Helds(ss[i].conns))
    ensures forall id :: id in ss[i].conns ==> Held(ss[i].conns[id]) <= ss[i].gauge
  {
    EveryState(es, ss, i);
    forall id | id in ss[i].conns ensures Held(ss[i].conns[id]) <= ss[i].gauge {
      TotalRemove(Helds(ss[i].conns), id);
    }
  }

  /**
   In every run, at any moment: the socket has taken exactly the bytes the application wrote, in order, up to
   those still queued; and a connection that closed without being cut off has sent all of them.
   */
  lemma SentInOrder(es: seq<Event>, ss: seq<System>, i: nat, id: nat)
    requires Reaches(System(map[], 0, []), es, ss) && i < |ss| && id in ss[i].conns
    ensures var c := ss[i].conns[id];
            c.asked == c.wire + c.out && (c.closed && !c.cut ==> c.wire == c.asked)
  {
    EveryState(es, ss, i);
    var c := ss[i].conns[id];
    assert ConnOk(c);
    assert c.closed && !c.cut ==> c.wire + [] == c.wire;
  }
}
