/**
 How a stream of `Transfer` can come to its end: from every state of every run all
 that was written can still be delivered, and the receiver knows where the stream
 ends exactly when a frame that says so has arrived.
 */
module TransferCompletion {
  import opened Bytes
  import R = Reassembly
  import opened SendQueue
  import opened Flight
  import opened AckRanges
  import opened Transfer
  import opened TransferSteps
  import opened TransferSafety
  import opened TransferEnds

  // --------------------------------------------------------------------------
  // When the receiver knows the final size
  // --------------------------------------------------------------------------

  ghost predicate HasFin(fs: seq<Frame>, id: nat) { exists j :: 0 <= j < |fs| && Announces(fs[j], id) }

  /** A packet with the FIN of the stream has arrived. */
  ghost predicate FinGot(got: set<nat>, packets: seq<seq<Frame>>, id: nat) {
    exists pn :: pn in got && pn < |packets| && HasFin(packets[pn], id)
  }

  ghost predicate Announced(log: set<Frame>, id: nat) { exists f :: f in log && Announces(f, id) }

  ghost predicate SizeInv(s: System) {
    forall id :: id in s.rcv ==> (s.rcv[id].finalSize.Some? <==> FinGot(s.got, s.packets, id))
  }

  ghost predicate SentInv(s: System) { forall id :: id in s.streams && s.streams[id].finSent ==> Announced(s.log, id) }

  /** A packet makes the size known exactly if it has the FIN. */
  lemma {:induction false} DeliverKnows(rcv: Receivers, fs: seq<Frame>, id: nat)
    requires id in rcv && Receives(rcv[id]) && Limited(rcv, fs, id)
    ensures id in DeliverFrames(rcv, fs).0
    ensures DeliverFrames(rcv, fs).0[id].finalSize.Some? <==> rcv[id].finalSize.Some? || HasFin(fs, id)
    decreases |fs|
  {
    hide R.Deliver;
    if fs != [] {
      var g := fs[0];
      var rcv1 := if g.id in rcv then rcv[g.id := R.Deliver(rcv[g.id], g.off, g.data, g.fin).0] else rcv;
      if g.id == id { DeliverSize(rcv[id], g); }
      DeliverKnows(rcv1, fs[1..], id);
      FinFirst(fs, id);
    }
  }

  lemma FinFirst(fs: seq<Frame>, id: nat)
    requires fs != []
    ensures HasFin(fs, id) <==> Announces(fs[0], id) || HasFin(fs[1..], id)
  {
    if HasFin(fs, id) {
      var j :| 0 <= j < |fs| && Announces(fs[j], id);
      assert j > 0 ==> fs[1..][j - 1] == fs[j];
    }
    if HasFin(fs[1..], id) {
      var j :| 0 <= j < |fs[1..]| && Announces(fs[1..][j], id);
      assert fs[j + 1] == fs[1..][j];
    }
  }

  lemma ArriveSizes(s: System, pn: nat)
    requires Inv(s) && SizeInv(s) && WellFormed(s) && pn < |s.packets|
    ensures SizeInv(Apply(s, Arrive(pn)))
  {
    hide Inv, WellFormed, HasFin, DeliverFrames, Capped, Record;
    var s' := Apply(s, Arrive(pn));
    forall id | id in s'.rcv ensures s'.rcv[id].finalSize.Some? <==> FinGot(s'.got, s'.packets, id) {
      ReceiversStay(s, pn, id);
      PacketLimited(s, pn, id);
      DeliverKnows(s.rcv, s.packets[pn], id);
      OneMoreGot(s.got, s.packets, pn, id);
    }
  }

  lemma ReceiversStay(s: System, pn: nat, id: nat)
    requires Inv(s) && WellFormed(s) && pn < |s.packets| && id in Apply(s, Arrive(pn)).rcv
    ensures id in s.streams
  {
    StepKeeps(s, Arrive(pn));
    SameReceivers(Apply(s, Arrive(pn)));
  }

  lemma OneMoreGot(got: set<nat>, packets: seq<seq<Frame>>, pn: nat, id: nat)
    requires pn < |packets|
    ensures FinGot(got + {pn}, packets, id) <==> FinGot(got, packets, id) || HasFin(packets[pn], id)
  {
    hide HasFin;
  }

  /** A packet that has not been sent has not arrived. */
  lemma SealSizes(s: System, s': System)
    requires SizeInv(s) && (forall pn :: pn in s.got ==> pn < |s.packets|)
    requires s'.rcv == s.rcv && s'.got == s.got && s'.packets == s.packets + [s.building]
    ensures SizeInv(s')
  {
    hide HasFin;
    forall id | id in s.rcv ensures FinGot(s'.got, s'.packets, id) <==> FinGot(s.got, s.packets, id) {
      if FinGot(s.got, s.packets, id) {
        var pn :| pn in s.got && pn < |s.packets| && HasFin(s.packets[pn], id);
        assert s'.packets[pn] == s.packets[pn];
      }
      if FinGot(s'.got, s'.packets, id) {
        var pn :| pn in s'.got && pn < |s'.packets| && HasFin(s'.packets[pn], id);
        assert s'.packets[pn] == s.packets[pn];
      }
    }
  }

  lemma ReadSizes(s: System, id: nat)
    requires Inv(s) && SizeInv(s) && WellFormed(s) && Enabled(s, ReadFrom(id))
    ensures SizeInv(Apply(s, ReadFrom(id)))
  {
    hide FinGot, R.Read, WellFormed, SendInv, AckInv, LinkInv, FinInv, LogInv, Whole;
    assert Faithful(s.streams[id], s.rcv[id], s.out[id]);
    ReadGot(s.streams[id], s.rcv[id], s.out[id]);
  }

  lemma GotSent(s: System)
    requires Inv(s)
    ensures forall pn :: pn in s.got ==> pn < |s.packets|
  {
  }

  lemma SizeStep(s: System, e: Event)
    requires Inv(s) && SizeInv(s) && WellFormed(s) && Enabled(s, e)
    ensures SizeInv(Apply(s, e))
  {
    hide FinGot, Pull, Write, AckFrames, LoseFrames, Grant, R.Read, DeliverFrames, Record, Capped, AckOf, Walk, WellFormed,
         Inv;
    GotSent(s);
    match e
    case WriteTo(id, bytes, fin) =>
    case PullInto(id, maxBytes, maxFresh) =>
    case Seal(ackEliciting, sentAt) => SealSizes(s, Apply(s, e));
    case Arrive(pn) => ArriveSizes(s, pn);
    case ReadFrom(id) => ReadSizes(s, id);
    case SendAck(delay) =>
    case AckArrives(a, i) =>
    case DeclareLost(i) =>
    case RaiseLimit(id, limit) =>
    case GrantArrives(id, limit) =>
  }

  // --------------------------------------------------------------------------
  // A FIN that counts as sent was sent
  // --------------------------------------------------------------------------

  lemma {:induction false} LoseFin(streams: Streams, fs: seq<Frame>, id: nat)
    requires id in streams
    ensures id in LoseFrames(streams, fs) && (LoseFrames(streams, fs)[id].finSent ==> streams[id].finSent)
    decreases |fs|
  {
    if fs != [] { LoseFin(LoseFrame(streams, fs[0]), fs[1..], id); }
  }

  lemma PullFin(st: Send, maxBytes: nat, maxFresh: nat)
    requires Sound(st)
    ensures var (st', p) := Pull(st, maxBytes, maxFresh); st'.finSent ==> st.finSent || p.fin
  {
  }

  lemma PullSends(s: System, id: nat, maxBytes: nat, maxFresh: nat)
    requires SentInv(s) && WellFormed(s) && id in s.streams
    ensures SentInv(Apply(s, PullInto(id, maxBytes, maxFresh)))
  {
    hide Pull, Sound, Descending;
    var s' := Apply(s, PullInto(id, maxBytes, maxFresh));
    PullFin(s.streams[id], maxBytes, maxFresh);
    forall i | i in s'.streams && s'.streams[i].finSent ensures Announced(s'.log, i) {
      if s.streams[i].finSent {
        var f :| f in s.log && Announces(f, i);
      } else {
        var f := FrameOf(id, Pull(s.streams[id], maxBytes, maxFresh).1);
        assert f in s'.log && Announces(f, i);
      }
    }
  }

  lemma LoseSends(s: System, i: nat)
    requires SentInv(s) && WellFormed(s) && i < |s.sent|
    ensures SentInv(Apply(s, DeclareLost(i)))
  {
    hide LoseFrames, Announced, WellFormed;
    var s' := Apply(s, DeclareLost(i));
    LoseFramesOnly(s.streams, s.sent[i].frames);
    forall id | id in s'.streams && s'.streams[id].finSent ensures Announced(s'.log, id) {
      LoseFin(s.streams, s.sent[i].frames, id);
    }
  }

  lemma AckSends(s: System, a: AckFrame, i: nat)
    requires SentInv(s) && WellFormed(s) && Enabled(s, AckArrives(a, i))
    ensures SentInv(Apply(s, AckArrives(a, i)))
  {
    hide AckFrames, Announced, WellFormed;
    AckFramesOnly(s.streams, s.sent[i].frames);
  }

  lemma SentStep(s: System, e: Event)
    requires SentInv(s) && WellFormed(s) && Enabled(s, e)
    ensures SentInv(Apply(s, e))
  {
    hide Announced, Pull, AckFrames, LoseFrames, R.Read, DeliverFrames, Record, Capped, AckOf, Walk, WellFormed;
    match e
    case WriteTo(id, bytes, fin) =>
    case PullInto(id, maxBytes, maxFresh) => PullSends(s, id, maxBytes, maxFresh);
    case Seal(ackEliciting, sentAt) =>
    case Arrive(pn) =>
    case ReadFrom(id) =>
    case SendAck(delay) =>
    case AckArrives(a, i) => AckSends(s, a, i);
    case DeclareLost(i) => LoseSends(s, i);
    case RaiseLimit(id, limit) =>
    case GrantArrives(id, limit) =>
  }

  lemma {:induction false} EndHolds(s: System, es: seq<Event>, s': System)
    requires Inv(s) && SizeInv(s) && SentInv(s) && Reaches(s, es, s')
    ensures Inv(s') && SizeInv(s') && SentInv(s')
    decreases |es|
  {
    hide Inv, SizeInv, SentInv, WellFormed, Enabled, Apply;
    if es != [] {
      StepKeeps(s, es[0]);
      SizeStep(s, es[0]);
      SentStep(s, es[0]);
      EndHolds(Apply(s, es[0]), es[1..], s');
    }
  }

  lemma EveryRun(s0: System, es: seq<Event>, s: System)
    requires Init(s0) && Reaches(s0, es, s)
    ensures Inv(s) && SizeInv(s) && SentInv(s)
  {
    InitHolds(s0);
    assert SizeInv(s0) && SentInv(s0);
    hide Inv, SizeInv, SentInv, Init;
    EndHolds(s0, es, s);
  }

  /** In every run the receiver knows the final size of a stream exactly if a packet with its FIN has arrived. */
  lemma SizeKnownExactly(s0: System, es: seq<Event>, s: System, id: nat)
    requires Init(s0) && Reaches(s0, es, s) && id in s.streams
    ensures id in s.rcv && (s.rcv[id].finalSize.Some? <==> FinGot(s.got, s.packets, id))
  {
    EveryRun(s0, es, s);
    SameReceivers(s);
  }

  /** So it does once an acknowledgement names a packet with the FIN. */
  lemma AcknowledgedEndIsKnown(s0: System, es: seq<Event>, s: System, id: nat, a: AckFrame, pn: nat)
    requires Init(s0) && Reaches(s0, es, s) && id in s.streams && a in s.acks && pn in Walk(a)
    ensures pn < |s.packets| && (HasFin(s.packets[pn], id) ==> id in s.rcv && s.rcv[id].finalSize.Some?)
  {
    hide Reaches, Init;
    SizeKnownExactly(s0, es, s, id);
    EveryRun(s0, es, s);
    assert Walk(a) <= s.got;
  }

  // --------------------------------------------------------------------------
  // Data Recvd without the FIN
  // --------------------------------------------------------------------------

  /** The byte goes out, then the FIN by itself, and then the acknowledgement of the byte comes. */
  lemma FinAckedByData(limit: nat, w: seq<Byte>)
    requires |w| == 1 && limit >= 1
    ensures var s1 := Fresh(limit).(written := w, phase := Sending);
            var s2 := s1.(next := 1);
            var s3 := s2.(finQueued := true);
            var s4 := s3.(finSent := true, phase := DataSent);
            && Write(Fresh(limit), w, false) == s1 && Sound(s1) && Pull(s1, 1, 1) == (s2, Pulled(0, w, false))
            && Write(s2, [], true) == s3 && Sound(s3) && Pull(s3, 1, 1) == (s4, Pulled(1, [], true))
            && Ack(s4, 0, 1).phase == DataRecvd
  {
    assert [] + w == w && w + [] == w && w[0..1] == w && w[1..1] == [];
    var s4 := Fresh(limit).(written := w, phase := DataSent, next := 1, finQueued := true, finSent := true);
    assert AllAcked(Mark(s4, 0, 1));
  }

  /** The packet that is the first to be sent and to arrive is acknowledged. */
  lemma GoAck(s0: System, es0: seq<Event>, s: System, fs: seq<Frame>) returns (es: seq<Event>, s': System)
    requires Inv(s0) && Reaches(s0, es0, s) && s.packets == [fs] && |s.sent| == 1 && s.sent[0].pn == 0
    requires s.sent[0].frames == fs && s.ranges == [] && s.got == {}
    ensures Inv(s') && Reaches(s0, es, s') && s'.packets == [fs] && s'.got == {0}
    ensures s'.streams == AckFrames(s.streams, fs)
  {
    hide Reaches, Inv, DeliverFrames, Record, Capped, AckOf, Walk, AckFrames;
    es, s' := Go(s0, es0, s, Arrive(0));
    FirstRecorded();
    var mid := s';
    assert mid.ranges == Capped(Record([], 0)) && mid.sent == s.sent && mid.streams == s.streams;
    AckRoundTrip(mid.ranges, 0);
    es, s' := Go(s0, es, mid, SendAck(0));
    es, s' := Go(s0, es, s', AckArrives(AckOf(mid.ranges, 0), 0));
  }

  lemma FirstRecorded()
    ensures Descending(Capped(Record([], 0))) && Capped(Record([], 0)) != [] && Pns(Capped(Record([], 0))) == {0}
  {
    RecordAdds([], 0);
    assert Pns([]) == {};
  }

  /**
   From every start, for every stream, there is a run in which the sender reaches Data Recvd and the receiver, which
   has every byte, does not know that the stream has ended: the FIN counts as acknowledged by a frame without it.
   */
  lemma DeliveredWithoutEnd(s0: System, id: nat, b: Byte) returns (es: seq<Event>, s: System)
    requires Init(s0) && id in s0.streams
    ensures Reaches(s0, es, s) && id in s.streams && s.streams[id].phase == DataRecvd
    ensures id in s.rcv && s.rcv[id].finalSize == None
  {
    Begin(s0, id);
    var w, limit := [b], s0.rcv[id].limit + 1;
    FinAckedByData(limit, w);
    assert s0.packets == [] && s0.ranges == [] && s0.got == {};
    hide Reaches, Init, Inv, Pull, Write, Ack, Sound, AckFrames, Later;
    var f := Frame(id, 0, w, false);
    es, s := GoData(s0, id, w, limit);
    es, s := GoWrite(s0, es, s, id, [], true);
    var mid := s;
    es, s := GoPull(s0, es, mid, id, 1, 1);
    es, s := GoAck(s0, es, s, [f]);
    AckOnly(mid.streams[id := mid.streams[id].(finSent := true, phase := DataSent)], f);
    NoFin(f, id);
    SizeKnownExactly(s0, es, s, id);
  }

  /** The byte is written and sent in a packet of its own. */
  lemma GoData(s0: System, id: nat, w: seq<Byte>, limit: nat) returns (es: seq<Event>, s: System)
    requires Init(s0) && id in s0.streams && id in s0.rcv && |w| == 1 && limit == s0.rcv[id].limit + 1
    ensures Inv(s0) && Inv(s) && Reaches(s0, es, s) && id in s.streams && s.building == []
    ensures s.streams[id] == Fresh(limit).(written := w, phase := Sending, next := 1)
    ensures s.packets == [[Frame(id, 0, w, false)]] && |s.sent| == 1 && s.sent[0].pn == 0
    ensures s.sent[0].frames == [Frame(id, 0, w, false)] && s.ranges == [] && s.got == {}
  {
    Begin(s0, id);
    FinAckedByData(limit, w);
    assert s0.packets == [] && s0.ranges == [] && s0.got == {};
    hide Reaches, Init, Inv, Pull, Write, Ack, Sound, Later;
    es, s := GoRaise(s0, [], s0, id, limit);
    assert s.streams[id] == Fresh(limit);
    es, s := GoWrite(s0, es, s, id, w, false);
    var mid := s;
    es, s := GoPull(s0, es, mid, id, 1, 1);
    assert s.building == [Frame(id, 0, w, false)];
    es, s := GoFirst(s0, es, s, Frame(id, 0, w, false));
  }

  lemma GoFirst(s0: System, es0: seq<Event>, s: System, f: Frame) returns (es: seq<Event>, s': System)
    requires Inv(s0) && Reaches(s0, es0, s) && s.building == [f] && s.packets == [] && s.sent == []
    ensures Inv(s') && Reaches(s0, es, s') && s'.building == [] && s'.packets == [[f]]
    ensures |s'.sent| == 1 && s'.sent[0].pn == 0 && s'.sent[0].frames == [f]
    ensures s'.streams == s.streams && s'.ranges == s.ranges && s'.got == s.got
  {
    hide Reaches, Inv;
    es, s' := Go(s0, es0, s, Seal(true, 0));
  }

  lemma AckOnly(streams: Streams, f: Frame)
    requires f.id in streams
    ensures AckFrames(streams, [f]) == streams[f.id := Ack(streams[f.id], f.off, |f.data|)]
  {
    hide Ack;
    assert [f][1..] == [];
  }

  lemma NoFin(f: Frame, id: nat)
    requires !f.fin
    ensures !FinGot({0}, [[f]], id)
  {
  }

  // --------------------------------------------------------------------------
  // Everything written can still be delivered
  // --------------------------------------------------------------------------

  /** All packets sent so far arrive, from number n on. */
  lemma {:induction false} ArriveAll(s0: System, es0: seq<Event>, s: System, n: nat) returns (es: seq<Event>, s': System)
    requires Inv(s0) && Reaches(s0, es0, s) && n <= |s.packets| && forall pn: nat :: pn < n ==> pn in s.got
    ensures Inv(s') && Reaches(s0, es, s') && forall pn: nat :: pn < |s.packets| ==> pn in s'.got
    ensures s' == s.(rcv := s'.rcv, failed := s'.failed, got := s'.got, ranges := s'.ranges)
    decreases |s.packets| - n
  {
    hide Reaches, Inv, DeliverFrames, Record, Capped;
    if n == |s.packets| {
      InvHolds(s0, es0, s);
      es, s' := es0, s;
    } else {
      es, s' := Go(s0, es0, s, Arrive(n));
      es, s' := ArriveAll(s0, es, s', n + 1);
    }
  }

  lemma {:induction false} FrameWith(fs: seq<Frame>, id: nat, k: nat) returns (j: nat)
    requires CountFrames(fs, id, k) > 0
    ensures j < |fs| && fs[j].Has(id, k)
  {
    if fs[0].Has(id, k) { j := 0; } else { j := FrameWith(fs[1..], id, k); j := j + 1; }
  }

  lemma {:induction false} PacketWith(ps: seq<Packet>, id: nat, k: nat) returns (i: nat, j: nat)
    requires CountSent(ps, id, k) > 0
    ensures i < |ps| && j < |ps[i].frames| && ps[i].frames[j].Has(id, k)
  {
    if CountFrames(ps[0].frames, id, k) > 0 {
      j := FrameWith(ps[0].frames, id, k);
      i := 0;
    } else {
      i, j := PacketWith(ps[1..], id, k);
      i := i + 1;
    }
  }

  /** With every packet arrived and nothing waiting to be sent, the receiver has every byte. */
  lemma AllArrived(s: System, id: nat, k: nat)
    requires Inv(s) && id in s.streams && id !in s.failed && s.building == [] && s.streams[id].lost == []
    requires k < s.streams[id].next && forall pn: nat :: pn < |s.packets| ==> pn in s.got
    ensures id in s.rcv && R.Got(s.rcv[id], k)
  {
    ByteAccounted(s, id, k);
    if k !in s.streams[id].acked {
      assert CountSent(s.sent, id, k) > 0;
      var i, j := PacketWith(s.sent, id, k);
      assert Arrived(s.rcv, s.sent[i].frames[j]);
    }
  }

  lemma FinArrived(s: System, id: nat)
    requires Inv(s) && SizeInv(s) && SentInv(s) && id in s.streams && s.streams[id].finSent && s.building == []
    requires forall pn: nat :: pn < |s.packets| ==> pn in s.got
    ensures id in s.rcv && s.rcv[id].finalSize.Some?
  {
    SameReceivers(s);
    LogOf(s);
    hide SendInv, RecvInv, AckInv, LinkInv, FinInv;
    var f :| f in s.log && Announces(f, id);
    var pn := FindPacket(s, f);
    var j :| 0 <= j < |s.packets[pn]| && s.packets[pn][j] == f;
    assert HasFin(s.packets[pn], id);
  }

  /** Once all packets have arrived, the rest is read. */
  lemma GoRead(s0: System, es0: seq<Event>, s: System, id: nat) returns (es: seq<Event>, s': System)
    requires Inv(s0) && Reaches(s0, es0, s) && id in s.streams && !Overtaken(s, id) && s.building == []
    requires s.streams[id].lost == [] && s.streams[id].next == |s.streams[id].written|
    requires forall pn: nat :: pn < |s.packets| ==> pn in s.got
    ensures Inv(s') && Reaches(s0, es, s') && s'.streams == s.streams && s'.log == s.log
    ensures id in s'.out && s'.out[id] == s.streams[id].written
    ensures id in s.rcv && id in s'.rcv && s'.rcv[id].finalSize == s.rcv[id].finalSize
  {
    hide Reaches, Inv, Overtaken, R.Read, R.Got, Faithful;
    InvHolds(s0, es0, s);
    EndTrue(s, id);
    FaithfulNow(s, id);
    forall k: nat | k < |s.streams[id].written| ensures R.Got(s.rcv[id], k) { AllArrived(s, id, k); }
    RestIsRead(s.streams[id], s.rcv[id], s.out[id]);
    ReadGot(s.streams[id], s.rcv[id], s.out[id]);
    es, s' := Go(s0, es0, s, ReadFrom(id));
  }

  lemma FaithfulNow(s: System, id: nat)
    requires Inv(s) && id in s.streams
    ensures id in s.rcv && id in s.out && Faithful(s.streams[id], s.rcv[id], s.out[id])
  {
  }

  lemma RestIsRead(st: Send, r: R.Recv, out: seq<Byte>)
    requires Faithful(st, r, out) && forall k: nat :: k < |st.written| ==> R.Got(r, k)
    ensures out + R.Read(r).1.data == st.written
  {
    forall k | r.readOff <= k < |st.written| ensures k in r.held { assert R.Got(r, k); }
    RestOf(r.held, r.readOff, st.written);
    assert st.written == st.written[..r.readOff] + st.written[r.readOff..];
  }

  /**
   From every state of every run there is, for every stream no announced end of which was overtaken, a way on after
   which the receiving application has read everything written so far; and, if the stream was closed, has been told
   that it is over.
   */
  lemma CanComplete(s0: System, es0: seq<Event>, s: System, id: nat) returns (es: seq<Event>, s': System)
    requires Init(s0) && Reaches(s0, es0, s) && id in s.streams && !Overtaken(s, id)
    ensures Reaches(s, es, s') && id in s'.streams && s'.streams[id].written == s.streams[id].written
    ensures id in s'.out && s'.out[id] == s.streams[id].written
    ensures s.streams[id].finQueued ==> id in s'.rcv && s'.rcv[id].phase == R.DataRead
  {
    assert Reaches(s, [], s);
    EveryRun(s0, es0, s);
    hide Reaches, Init, Inv, SizeInv, SentInv, Overtaken;
    es, s' := Drain(s, [], s, id);
    var t := s';
    es, s' := SendRest(s, es, t, id);
    var u := s';
    LaterThen(s, t, u, id);
    es, s' := GoSeal(s, es, u);
    var v := s';
    es, s' := ArriveAll(s, es, v, 0);
    SameOvertaken(u, s', id);
    var x := s';
    if s.streams[id].finQueued {
      EndHolds(s, es, x);
      FinArrived(x, id);
    }
    es, s' := GoRead(s, es, x, id);
    SameOvertaken(x, s', id);
    EndTrue(s', id);
  }

  lemma SameOvertaken(s: System, s': System, id: nat)
    requires s'.log == s.log && s'.streams == s.streams
    ensures Overtaken(s', id) <==> Overtaken(s, id)
  {
  }
}
