/**
 What becomes of a stream whose announced end was overtaken: from every such state
 of every run of `Transfer` there is a way on in which the receiver rejects it.
 */
module TransferEnds {
  import opened Bytes
  import R = Reassembly
  import opened SendQueue
  import opened Flight
  import opened Transfer
  import opened TransferSteps
  import opened TransferSafety

  // --------------------------------------------------------------------------
  // Continuations
  // --------------------------------------------------------------------------

  /** One more event at the end of a continuation. */
  lemma Go(s0: System, es: seq<Event>, s: System, e: Event) returns (es': seq<Event>, s': System)
    requires Inv(s0) && Reaches(s0, es, s) && Enabled(s, e)
    ensures Inv(s) && WellFormed(s) && s' == Apply(s, e) && Inv(s') && Reaches(s0, es', s')
  {
    hide Inv, Enabled, Apply;
    InvHolds(s0, es, s);
    StepKeeps(s, e);
    es', s' := es + [e], Apply(s, e);
    ReachesThen(s0, es, s, e);
  }

  /** What a continuation leaves as it is, or only adds to. */
  ghost predicate Later(s: System, s': System, id: nat) {
    && id in s.streams && id in s'.streams && s.log <= s'.log
    && s'.streams[id].written == s.streams[id].written && s'.streams[id].finQueued == s.streams[id].finQueued
    && (Overtaken(s', id) ==> Overtaken(s, id))
  }

  lemma LaterThen(a: System, b: System, c: System, id: nat)
    requires Later(a, b, id) && Later(b, c, id)
    ensures Later(a, c, id)
  {
    hide Overtaken;
  }

  /** A frame that announces the end announces the end of what is written. */
  lemma PulledLater(s: System, s': System, id: nat, f: Frame)
    requires id in s.streams && id in s'.streams && s.log <= s'.log <= s.log + {f}
    requires s'.streams[id].written == s.streams[id].written && s'.streams[id].finQueued == s.streams[id].finQueued
    requires f.fin ==> f.End() == |s.streams[id].written|
    ensures Later(s, s', id)
  {
    if Overtaken(s', id) {
      var g :| g in s'.log && Announces(g, id) && g.End() < |s'.streams[id].written|;
      assert g in s.log;
    }
  }

  lemma PulledEnd(st: Send, maxBytes: nat, maxFresh: nat)
    requires Sound(st)
    ensures var (st', p) := Pull(st, maxBytes, maxFresh);
            st'.finQueued == st.finQueued && st'.written == st.written && (p.fin ==> p.off + |p.data| == |st.written|)
  {
  }

  /** The same past and the same receiver. */
  predicate SamePast(s: System, s': System) {
    && s'.packets == s.packets && s'.sent == s.sent && s'.ranges == s.ranges && s'.got == s.got && s'.failed == s.failed
    && s'.acks == s.acks && s'.out == s.out
  }

  /** A pull that hands out something, or finds nothing to hand out. */
  lemma GoPull(s0: System, es0: seq<Event>, s: System, id: nat, room: nat, credit: nat) returns (es: seq<Event>, s': System)
    requires Inv(s0) && Reaches(s0, es0, s) && id in s.streams
    ensures Inv(s) && Sound(s.streams[id]) && Inv(s') && Reaches(s0, es, s')
    ensures var (st, p) := Pull(s.streams[id], room, credit);
            && (p.data == [] && !p.fin ==> s' == s)
            && (p.data != [] || p.fin ==>
                  && s'.streams == s.streams[id := st] && s'.log == s.log + {FrameOf(id, p)}
                  && s'.building == s.building + [FrameOf(id, p)])
    ensures s'.rcv == s.rcv && SamePast(s, s') && Later(s, s', id)
  {
    hide Inv, Reaches, Pull, Sound;
    es, s' := Go(s0, es0, s, PullInto(id, room, credit));
    PulledEnd(s.streams[id], room, credit);
    PulledLater(s, s', id, FrameOf(id, Pull(s.streams[id], room, credit).1));
  }

  lemma GoRaise(s0: System, es0: seq<Event>, s: System, id: nat, limit: nat) returns (es: seq<Event>, s': System)
    requires Inv(s0) && Reaches(s0, es0, s) && id in s.streams && id in s.rcv && limit > s.rcv[id].limit
    ensures Inv(s') && Reaches(s0, es, s') && s'.log == s.log && s'.building == s.building && SamePast(s, s')
    ensures s'.streams == s.streams[id := Grant(s.streams[id], limit)]
  {
    hide Inv, Reaches, Apply, Grant, WellFormed;
    es, s' := Go(s0, es0, s, RaiseLimit(id, limit));
    ApplyRaise(s, id, limit);
    var mid := s';
    es, s' := Go(s0, es, mid, GrantArrives(id, limit));
    ApplyGrant(mid, id, limit);
  }

  /** The lost ranges of one stream are sent again, one whole range at a time. */
  lemma {:induction false} Drain(s0: System, es0: seq<Event>, s: System, id: nat) returns (es: seq<Event>, s': System)
    requires Inv(s0) && Reaches(s0, es0, s) && id in s.streams
    ensures Inv(s') && Reaches(s0, es, s') && Later(s, s', id) && s'.streams[id].lost == []
    decreases |s.streams[id].lost|
  {
    hide Inv, Reaches, Pull, Sound;
    InvHolds(s0, es0, s);
    if s.streams[id].lost == [] {
      es, s' := es0, s;
    } else {
      var st := s.streams[id];
      es, s' := GoPull(s0, es0, s, id, st.lost[0].len, 0);
      PullsRange(st);
      var mid := s';
      es, s' := Drain(s0, es, mid, id);
      LaterThen(s, mid, s', id);
    }
  }

  lemma PullsRange(st: Send)
    requires Sound(st) && st.lost != []
    ensures var (st', p) := Pull(st, st.lost[0].len, 0);
            && p.data != [] && st'.written == st.written && st'.finQueued == st.finQueued
            && |st'.lost| < |st.lost|
  {
    assert 0 < st.lost[0].len;
  }

  /** Everything written is sent: the limit is raised on both sides and the rest pulled. */
  lemma SendRest(s0: System, es0: seq<Event>, s: System, id: nat) returns (es: seq<Event>, s': System)
    requires Inv(s0) && Reaches(s0, es0, s) && id in s.streams && s.streams[id].lost == []
    ensures Inv(s') && Reaches(s0, es, s') && Later(s, s', id) && s'.streams[id].next == |s.streams[id].written|
    ensures s'.streams[id].lost == [] && (s.streams[id].finQueued ==> s'.streams[id].finSent)
  {
    hide Inv, Reaches, Pull, Sound;
    InvHolds(s0, es0, s);
    Alike(s, id);
    var st := s.streams[id];
    var limit, all := s.rcv[id].limit + |st.written| + 1, |st.written| + 1;
    es, s' := GoRaise(s0, es0, s, id, limit);
    assert s'.streams[id] == st.(limit := limit);
    var mid := s';
    es, s' := GoPull(s0, es, mid, id, all, all);
    PullsAll(mid.streams[id], all);
    GrantLater(s, mid, id);
    LaterThen(s, mid, s', id);
  }

  lemma GrantLater(s: System, s': System, id: nat)
    requires id in s.streams && id in s'.streams && s'.log == s.log
    requires s'.streams[id] == s.streams[id].(limit := s'.streams[id].limit)
    ensures Later(s, s', id)
  {
  }

  lemma PullsAll(st: Send, all: nat)
    requires Sound(st) && st.lost == [] && all > |st.written| && st.limit > |st.written|
    ensures var (st', p) := Pull(st, all, all);
            && st'.next == |st.written| && st'.written == st.written && (p.data == [] && !p.fin ==> st' == st)
            && st'.lost == [] && st'.finQueued == st.finQueued && (st.finQueued ==> st'.finSent)
  {
  }

  lemma Alike(s: System, id: nat)
    requires Inv(s) && id in s.streams
    ensures id in s.rcv && id in s.out && s.streams[id].limit <= s.rcv[id].limit
  {
    assert Faithful(s.streams[id], s.rcv[id], s.out[id]);
  }

  // --------------------------------------------------------------------------
  // What a packet does to one stream
  // --------------------------------------------------------------------------

  ghost predicate Receives(r: R.Recv) { r.phase !in {R.ResetRecvd, R.ResetRead} }

  /** A known final size stays what it is. */
  lemma {:induction false} SizeStays(rcv: Receivers, fs: seq<Frame>, id: nat)
    requires id in rcv && Receives(rcv[id]) && Limited(rcv, fs, id)
    ensures var rcv' := DeliverFrames(rcv, fs).0;
            && id in rcv' && Receives(rcv'[id]) && rcv'[id].limit == rcv[id].limit
            && (rcv[id].finalSize.Some? ==> rcv'[id].finalSize == rcv[id].finalSize)
    decreases |fs|
  {
    hide R.Deliver;
    if fs != [] {
      if fs[0].id == id { DeliverSize(rcv[id], fs[0]); }
      var rcv1 := if fs[0].id in rcv then rcv[fs[0].id := R.Deliver(rcv[fs[0].id], fs[0].off, fs[0].data, fs[0].fin).0] else rcv;
      SizeStays(rcv1, fs[1..], id);
    }
  }

  /** The frames of the stream are within the receiver's limit. */
  ghost predicate Limited(rcv: Receivers, fs: seq<Frame>, id: nat)
    requires id in rcv
  {
    forall j :: 0 <= j < |fs| && fs[j].id == id ==> fs[j].End() <= rcv[id].limit
  }

  /** A packet with a frame that announces the end fixes the size there, or the stream is rejected. */
  lemma {:induction false} EndArrives(rcv: Receivers, fs: seq<Frame>, f: Frame)
    requires f.id in rcv && Receives(rcv[f.id]) && Limited(rcv, fs, f.id) && f in fs && f.fin
    ensures var (rcv', rejected) := DeliverFrames(rcv, fs);
            f.id in rejected || (f.id in rcv' && rcv'[f.id].finalSize == Some(f.End()))
    decreases |fs|
  {
    hide R.Deliver;
    var g := fs[0];
    var rcv1 := if g.id in rcv then rcv[g.id := R.Deliver(rcv[g.id], g.off, g.data, g.fin).0] else rcv;
    if g.id == f.id { DeliverSize(rcv[f.id], g); }
    if g == f { SizeStays(rcv1, fs[1..], f.id); } else { EndArrives(rcv1, fs[1..], f); }
  }

  /** A packet with a frame beyond the known size is rejected. */
  lemma {:induction false} BeyondRejected(rcv: Receivers, fs: seq<Frame>, f: Frame)
    requires f.id in rcv && Receives(rcv[f.id]) && Limited(rcv, fs, f.id) && f in fs
    requires rcv[f.id].finalSize.Some? && f.End() > rcv[f.id].finalSize.value
    ensures f.id in DeliverFrames(rcv, fs).1
    decreases |fs|
  {
    hide R.Deliver;
    var g := fs[0];
    var rcv1 := if g.id in rcv then rcv[g.id := R.Deliver(rcv[g.id], g.off, g.data, g.fin).0] else rcv;
    if g.id == f.id { DeliverSize(rcv[f.id], g); }
    if g != f { BeyondRejected(rcv1, fs[1..], f); }
  }

  lemma PacketLimited(s: System, pn: nat, id: nat)
    requires Inv(s) && id in s.streams && pn < |s.packets|
    ensures id in s.rcv && Receives(s.rcv[id]) && Limited(s.rcv, s.packets[pn], id)
  {
    Alike(s, id);
    assert Faithful(s.streams[id], s.rcv[id], s.out[id]);
    InvWellFormed(s);
    forall j | 0 <= j < |s.packets[pn]| && s.packets[pn][j].id == id ensures s.packets[pn][j].End() <= s.rcv[id].limit {
      assert Carries(s.streams, s.packets[pn][j]);
    }
  }

  lemma FindPacket(s: System, f: Frame) returns (pn: nat)
    requires LogInv(s) && s.building == [] && f in s.log
    ensures pn < |s.packets| && f in s.packets[pn]
  {
    pn :| pn < |s.packets| && f in s.packets[pn];
  }

  // --------------------------------------------------------------------------
  // An overtaken stream can be rejected
  // --------------------------------------------------------------------------

  /** The frame that announced the end arrives, then one that ends beyond it. */
  lemma BothArrive(s0: System, es0: seq<Event>, s: System, f: Frame, g: Frame) returns (es: seq<Event>, s': System)
    requires Inv(s0) && Reaches(s0, es0, s) && s.building == [] && f.id in s.streams && LogInv(s)
    requires f in s.log && f.fin && g in s.log && g.id == f.id && f.End() < g.End()
    ensures Reaches(s0, es, s') && f.id in s'.failed
  {
    hide Reaches, Inv, DeliverFrames;
    InvHolds(s0, es0, s);
    var id := f.id;
    var p := FindPacket(s, f);
    var q := FindPacket(s, g);
    PacketLimited(s, p, id);
    EndArrives(s.rcv, s.packets[p], f);
    es, s' := Go(s0, es0, s, Arrive(p));
    if id !in s'.failed {
      PacketLimited(s', q, id);
      BeyondRejected(s'.rcv, s'.packets[q], g);
      es, s' := Go(s0, es, s', Arrive(q));
    }
  }

  /**
   From every reachable state in which a stream is overtaken there is a continuation after which the receiver has
   rejected a frame of it; with `EndIsTrue`, only overtaken streams are ever rejected.
   */
  lemma OvertakenCanFail(s0: System, es0: seq<Event>, s: System, id: nat) returns (es: seq<Event>, s': System)
    requires Init(s0) && Reaches(s0, es0, s) && Overtaken(s, id)
    ensures Reaches(s, es, s') && id in s'.failed
  {
    assert Reaches(s, [], s);
    hide Reaches, Init, Inv;
    InitHolds(s0);
    InvHolds(s0, es0, s);
    var f :| f in s.log && Announces(f, id) && f.End() < |s.streams[id].written|;
    es, s' := Drain(s, [], s, id);
    es, s' := SendRest(s, es, s', id);
    var g := LastFrame(s', id);
    es, s' := GoSeal(s, es, s');
    es, s' := BothArrive(s, es, s', f, g);
  }

  lemma GoSeal(s0: System, es0: seq<Event>, s: System) returns (es: seq<Event>, s': System)
    requires Inv(s0) && Reaches(s0, es0, s)
    ensures Inv(s') && Reaches(s0, es, s') && s'.building == [] && s'.log == s.log && s'.streams == s.streams && LogInv(s')
  {
    hide Reaches, Inv;
    es, s' := Go(s0, es0, s, Seal(true, 0));
    LogOf(s');
  }

  lemma LastFrame(s: System, id: nat) returns (g: Frame)
    requires Inv(s) && id in s.streams && s.streams[id].next > 0
    ensures g in s.log && g.id == id && g.End() == s.streams[id].next
  {
    assert Reached(s.log, id, s.streams[id].next);
    g :| g in s.log && g.id == id && g.End() == s.streams[id].next;
  }

  lemma LogOf(s: System)
    requires Inv(s)
    ensures LogInv(s)
  {
  }

  // --------------------------------------------------------------------------
  // Every stream can be overtaken
  // --------------------------------------------------------------------------

  lemma GoWrite(s0: System, es0: seq<Event>, s: System, id: nat, bytes: seq<Byte>, fin: bool) returns (es: seq<Event>, s': System)
    requires Inv(s0) && Reaches(s0, es0, s) && id in s.streams
    ensures Inv(s') && Reaches(s0, es, s')
    ensures s' == s.(streams := s.streams[id := Write(s.streams[id], bytes, fin)])
  {
    hide Reaches, Inv, Write;
    es, s' := Go(s0, es0, s, WriteTo(id, bytes, fin));
  }

  /** The frame just pulled goes out alone and is declared lost. */
  lemma GoLose(s0: System, es0: seq<Event>, s: System, f: Frame) returns (es: seq<Event>, s': System)
    requires Inv(s0) && Reaches(s0, es0, s) && s.building == [f] && s.sent == [] && f.id in s.streams
    ensures Inv(s') && Reaches(s0, es, s') && s'.building == [] && s'.sent == [] && s'.log == s.log
    ensures s'.streams == s.streams[f.id := Lose(s.streams[f.id], f.off, |f.data|)]
  {
    hide Reaches, Inv, Lose;
    es, s' := Go(s0, es0, s, Seal(true, 0));
    var mid := s';
    assert |mid.sent| == 1 && mid.sent[0].frames == [f];
    es, s' := Go(s0, es, mid, DeclareLost(0));
    assert [f][1..] == [];
    assert LoseFrames(mid.streams, [f]) == mid.streams[f.id := Lose(mid.streams[f.id], f.off, |f.data|)];
  }

  lemma Begin(s0: System, id: nat)
    requires Init(s0) && id in s0.streams
    ensures Inv(s0) && Reaches(s0, [], s0) && id in s0.rcv && s0.building == [] && s0.sent == []
    ensures s0.streams[id] == Fresh(s0.streams[id].limit) && s0.streams[id].limit <= s0.rcv[id].limit
  {
    InitHolds(s0);
  }

  /** A byte goes out and is lost. */
  lemma LoseFirst(s0: System, id: nat, w: seq<Byte>, limit: nat) returns (es: seq<Event>, s: System)
    requires Init(s0) && id in s0.streams && id in s0.rcv && |w| == 1 && limit == s0.rcv[id].limit + 1
    ensures Inv(s0) && Inv(s) && Reaches(s0, es, s) && id in s.streams && s.building == [] && s.sent == []
    ensures s.streams[id] == Fresh(limit).(written := w, phase := Sending, next := 1, lost := [Range(0, 1)])
  {
    Begin(s0, id);
    SlipSteps(limit, w);
    hide Reaches, Init, Inv, Pull, Write, Lose, Sound, Outstanding, Slips;
    es, s := GoRaise(s0, [], s0, id, limit);
    assert s.streams[id] == Fresh(limit);
    es, s := GoWrite(s0, es, s, id, w, false);
    var mid := s;
    es, s := GoPull(s0, es, mid, id, 1, 1);
    assert s.building == [Frame(id, 0, w, false)];
    es, s := GoLose(s0, es, s, Frame(id, 0, w, false));
  }

  /** From every start, every stream can come to be overtaken: a lost byte goes out again with the FIN, then one more is written. */
  lemma CanBeOvertaken(s0: System, id: nat, a: Byte, b: Byte) returns (es: seq<Event>, s: System)
    requires Init(s0) && id in s0.streams
    ensures Reaches(s0, es, s) && Overtaken(s, id)
  {
    Begin(s0, id);
    var w, limit := [a], s0.rcv[id].limit + 1;
    SlipSteps(limit, w);
    hide Reaches, Init, Inv, Pull, Write, Lose, Sound, Outstanding, Slips;
    es, s := LoseFirst(s0, id, w, limit);
    es, s := GoWrite(s0, es, s, id, [], true);
    var mid := s;
    es, s := GoPull(s0, es, mid, id, 1, 1);
    assert Frame(id, 0, w, true) in s.log && Announces(Frame(id, 0, w, true), id);
    OneMore(s.streams[id], b);
    es, s := GoWrite(s0, es, s, id, [b], false);
  }

  lemma OneMore(s: Send, b: Byte)
    requires Writable(s)
    ensures |Write(s, [b], false).written| == |s.written| + 1
  {
  }

  /** So from every start there is, for every stream, a run in which a late write makes the receiver reject it. */
  lemma LateWriteIsRejected(s0: System, id: nat) returns (es: seq<Event>, s: System)
    requires Init(s0) && id in s0.streams
    ensures Reaches(s0, es, s) && id in s.failed
  {
    hide Init, Inv, Overtaken, Reaches;
    var fs, t;
    es, s := CanBeOvertaken(s0, id, 7, 8);
    fs, t := OvertakenCanFail(s0, es, s, id);
    ReachesConcat(s0, es, s, fs, t);
    es, s := es + fs, t;
  }
}
