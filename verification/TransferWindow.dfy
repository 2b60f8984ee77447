/**
 The connection's own window on top of `Transfer`: the sender pulls fresh bytes
 only within the largest limit it has been given (connection.cpp, `build_and_send`),
 and the receiver charges every frame for the bytes by which it raises its stream
 (`on_stream_frame`) against the limit it has advertised.
 */
module TransferWindow {
  import opened Sums
  import R = Reassembly
  import opened SendQueue
  import opened Flight
  import opened Transfer
  import opened TransferSteps
  import S = Sender
  import C = ConnWindow

  datatype World = World(sys: System, sendMax: nat, window: nat)

  datatype Step =
    | Do(e: Event)
    | Advertise(limit: nat)
    | LimitArrives(limit: nat)

  /** Fresh bytes of all streams together. */
  ghost function Sent(s: System): nat { Total(S.Nexts(s.streams)) }

  ghost function Charged(rcv: Receivers): nat { Total(C.Highs(rcv)) }

  ghost predicate Can(w: World, e: Step) {
    match e
    case Do(e) => WellFormed(w.sys) && Enabled(w.sys, e) && (e.PullInto? ==> Sent(w.sys) + e.maxFresh <= w.sendMax)
    case Advertise(limit) => limit > w.window
    case LimitArrives(limit) => limit <= w.window
  }

  ghost function Take(w: World, e: Step): World
    requires Can(w, e)
  {
    match e
    case Do(e) => w.(sys := Apply(w.sys, e))
    case Advertise(limit) => w.(window := limit)
    case LimitArrives(limit) => if limit > w.sendMax then w.(sendMax := limit) else w
  }

  ghost predicate Runs(w: World, es: seq<Step>, w': World)
    decreases |es|
  {
    if es == [] then w == w' else Can(w, es[0]) && Runs(Take(w, es[0]), es[1..], w')
  }

  ghost predicate Start(w: World) { Init(w.sys) && w.sendMax <= w.window }

  ghost predicate Within(w: World) {
    && Inv(w.sys) && Sent(w.sys) <= w.sendMax <= w.window && Below(w.sys.streams, w.sys.rcv)
  }

  /** No stream has received beyond what was sent of it. */
  ghost predicate Below(streams: Streams, rcv: Receivers) {
    forall id :: id in rcv ==> id in streams && rcv[id].highWater <= streams[id].next
  }

  // --------------------------------------------------------------------------
  // What every step keeps
  // --------------------------------------------------------------------------

  /** Send offsets only grow, and by no more than `credit` altogether. */
  ghost predicate Moved(a: Streams, b: Streams, credit: nat) {
    && a.Keys == b.Keys && (forall id :: id in a ==> a[id].next <= b[id].next)
    && Total(S.Nexts(b)) <= Total(S.Nexts(a)) + credit
  }

  lemma SameNexts(a: Streams, b: Streams)
    requires a.Keys == b.Keys && forall id :: id in a ==> a[id].next == b[id].next
    ensures Moved(a, b, 0)
  {
    assert S.Nexts(a) == S.Nexts(b);
  }

  lemma PullMoved(s: System, id: nat, maxBytes: nat, maxFresh: nat)
    requires WellFormed(s) && id in s.streams
    ensures Moved(s.streams, Apply(s, PullInto(id, maxBytes, maxFresh)).streams, maxFresh)
  {
    hide Total;
    S.PullSent(s.streams, id, maxBytes, maxFresh);
    SameNexts(s.streams, s.streams);
  }

  lemma FramesMoved(s: System, i: nat)
    requires i < |s.sent|
    ensures Moved(s.streams, AckFrames(s.streams, s.sent[i].frames), 0)
    ensures Moved(s.streams, LoseFrames(s.streams, s.sent[i].frames), 0)
  {
    hide AckFrames, LoseFrames, Moved;
    AckFramesOnly(s.streams, s.sent[i].frames);
    LoseFramesOnly(s.streams, s.sent[i].frames);
    SameNexts(s.streams, AckFrames(s.streams, s.sent[i].frames));
    SameNexts(s.streams, LoseFrames(s.streams, s.sent[i].frames));
  }

  /** Only a pull moves a send offset, and by no more than its credit. */
  lemma StepMoves(s: System, e: Event)
    requires WellFormed(s) && Enabled(s, e)
    ensures Moved(s.streams, Apply(s, e).streams, if e.PullInto? then e.maxFresh else 0)
  {
    hide WellFormed, Moved, Pull, AckFrames, LoseFrames;
    match e
    case WriteTo(id, bytes, fin) => SameNexts(s.streams, Apply(s, e).streams);
    case PullInto(id, maxBytes, maxFresh) => PullMoved(s, id, maxBytes, maxFresh);
    case AckArrives(_, i) => FramesMoved(s, i);
    case DeclareLost(i) => FramesMoved(s, i);
    case GrantArrives(id, limit) => SameNexts(s.streams, Apply(s, e).streams);
    case _ => SameNexts(s.streams, s.streams);
  }

  /** Delivering frames that were sent leaves every stream behind its sender. */
  lemma {:induction false} DeliverBehind(streams: Streams, rcv: Receivers, fs: seq<Frame>)
    requires Below(streams, rcv) && forall j :: 0 <= j < |fs| ==> Carries(streams, fs[j])
    ensures Below(streams, DeliverFrames(rcv, fs).0) && DeliverFrames(rcv, fs).0.Keys == rcv.Keys
    decreases |fs|
  {
    hide R.Deliver;
    if fs != [] {
      if fs[0].id in rcv {
        assert Carries(streams, fs[0]);
        HighWater(rcv[fs[0].id], fs[0]);
        DeliverBehind(streams, rcv[fs[0].id := R.Deliver(rcv[fs[0].id], fs[0].off, fs[0].data, fs[0].fin).0], fs[1..]);
      } else {
        DeliverBehind(streams, rcv, fs[1..]);
      }
    }
  }

  lemma HighWater(r: R.Recv, f: Frame)
    ensures var r' := R.Deliver(r, f.off, f.data, f.fin).0;
            r'.highWater == r.highWater || r'.highWater == f.End() > r.highWater
  {
    hide R.Absorb;
  }

  lemma StepBehind(s: System, e: Event)
    requires Inv(s) && WellFormed(s) && Enabled(s, e) && Below(s.streams, s.rcv)
    ensures Below(Apply(s, e).streams, Apply(s, e).rcv)
  {
    hide Inv, WellFormed, Total, Apply, Enabled, S.Nexts;
    StepMoves(s, e);
    var rcv := Apply(s, e).rcv;
    if e.Arrive? {
      ApplyArrive(s, e.pn);
      CarriedPacket(s, e.pn);
      DeliverBehind(s.streams, s.rcv, s.packets[e.pn]);
    } else {
      SameHighs(s, e);
    }
    assert Below(s.streams, rcv);
  }

  lemma ApplyArrive(s: System, pn: nat)
    requires WellFormed(s) && Enabled(s, Arrive(pn))
    ensures pn < |s.packets| && Apply(s, Arrive(pn)).rcv == DeliverFrames(s.rcv, s.packets[pn]).0
  {
    hide DeliverFrames, WellFormed;
  }

  lemma SameHighs(s: System, e: Event)
    requires WellFormed(s) && Enabled(s, e) && !e.Arrive?
    ensures forall id :: id in Apply(s, e).rcv ==> id in s.rcv && Apply(s, e).rcv[id].highWater == s.rcv[id].highWater
  {
    hide WellFormed, Pull, AckFrames, LoseFrames, Write, Grant, R.Run;
  }

  lemma CarriedPacket(s: System, pn: nat)
    requires Inv(s) && pn < |s.packets|
    ensures forall j :: 0 <= j < |s.packets[pn]| ==> Carries(s.streams, s.packets[pn][j])
  {
    hide Conserved, Nested, RecvInv, LinkInv, FinInv, LogInv, AckInv, Carries;
    assert forall j :: 0 <= j < |s.packets[pn]| ==> s.packets[pn][j] in s.log;
  }

  lemma TakeKeeps(w: World, e: Step)
    requires Within(w) && Can(w, e)
    ensures Within(Take(w, e))
  {
    hide Inv, WellFormed, Below, Enabled, Apply, Total;
    if e.Do? {
      StepKeeps(w.sys, e.e);
      StepMoves(w.sys, e.e);
      StepBehind(w.sys, e.e);
    }
  }

  lemma {:induction false} RunKeeps(w: World, es: seq<Step>, w': World)
    requires Within(w) && Runs(w, es, w')
    ensures Within(w')
    decreases |es|
  {
    hide Within, Can, Take;
    if es != [] {
      TakeKeeps(w, es[0]);
      RunKeeps(Take(w, es[0]), es[1..], w');
    }
  }

  lemma StartWithin(w: World)
    requires Start(w)
    ensures Within(w)
  {
    InitHolds(w.sys);
    hide Inv;
    NoneSent(S.Nexts(w.sys.streams));
  }

  lemma {:induction false} NoneSent(m: map<nat, nat>)
    requires forall k :: k in m ==> m[k] == 0
    ensures Total(m) == 0
    decreases |m|
  {
    if m != map[] {
      var k :| k in m;
      TotalRemove(m, k);
      NoneSent(m - {k});
    }
  }

  // --------------------------------------------------------------------------
  // The receiver never refuses
  // --------------------------------------------------------------------------

  /** Each frame of a packet raises its stream by no more than the connection's window has left. */
  ghost predicate Affordable(rcv: Receivers, fs: seq<Frame>, window: nat)
    decreases |fs|
  {
    fs != [] ==>
      if fs[0].id !in rcv then Affordable(rcv, fs[1..], window)
      else
        var r := rcv[fs[0].id];
        && (fs[0].End() > r.highWater ==> Charged(rcv) + fs[0].End() - r.highWater <= window)
        && Affordable(rcv[fs[0].id := R.Deliver(r, fs[0].off, fs[0].data, fs[0].fin).0], fs[1..], window)
  }

  lemma ChargeFits(streams: Streams, rcv: Receivers, f: Frame, window: nat)
    requires Below(streams, rcv) && rcv.Keys == streams.Keys && Carries(streams, f) && f.id in rcv
    requires Total(S.Nexts(streams)) <= window && f.End() > rcv[f.id].highWater
    ensures Charged(rcv) + f.End() - rcv[f.id].highWater <= window
  {
    var highs := C.Highs(rcv)[f.id := f.End()];
    TotalUpdate(C.Highs(rcv), f.id, f.End());
    TotalBelow(highs, S.Nexts(streams));
  }

  lemma {:induction false} PacketFits(streams: Streams, rcv: Receivers, fs: seq<Frame>, window: nat)
    requires Below(streams, rcv) && rcv.Keys == streams.Keys && Total(S.Nexts(streams)) <= window
    requires forall j :: 0 <= j < |fs| ==> Carries(streams, fs[j])
    ensures Affordable(rcv, fs, window)
    decreases |fs|
  {
    hide R.Deliver, Total;
    if fs != [] {
      var f := fs[0];
      assert Carries(streams, f);
      HighWater(rcv[f.id], f);
      if f.End() > rcv[f.id].highWater { ChargeFits(streams, rcv, f, window); }
      PacketFits(streams, rcv[f.id := R.Deliver(rcv[f.id], f.off, f.data, f.fin).0], fs[1..], window);
    }
  }

  /**
   In every run, whichever packet arrives next, this sender never makes this receiver refuse a frame for the
   connection's flow control; and what was received, what was sent and both limits stay in order.
   */
  lemma NeverRefused(w0: World, es: seq<Step>, w: World, pn: nat)
    requires Start(w0) && Runs(w0, es, w) && pn < |w.sys.packets|
    ensures Affordable(w.sys.rcv, w.sys.packets[pn], w.window)
    ensures Charged(w.sys.rcv) <= Sent(w.sys) <= w.sendMax <= w.window
  {
    hide Inv, Init, Runs, Affordable, Total;
    StartWithin(w0);
    RunKeeps(w0, es, w);
    SameStreams(w.sys);
    CarriedPacket(w.sys, pn);
    PacketFits(w.sys.streams, w.sys.rcv, w.sys.packets[pn], w.window);
    TotalBelow(C.Highs(w.sys.rcv), S.Nexts(w.sys.streams));
  }

  lemma SameStreams(s: System)
    requires Inv(s)
    ensures s.rcv.Keys == s.streams.Keys
  {
  }
}
