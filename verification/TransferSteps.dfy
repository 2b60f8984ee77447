/**
 Every event of `Transfer` keeps its invariant.  One section per group of events.
 */
module TransferSteps {
  import opened Bytes
  import R = Reassembly
  import opened SendQueue
  import opened Flight
  import opened AckRanges
  import opened Transfer

  // --------------------------------------------------------------------------
  // Exclusive places
  // --------------------------------------------------------------------------

  lemma {:induction false} FramesHas(fs: seq<Frame>, i: int, id: nat, k: nat)
    requires 0 <= i < |fs| && fs[i].Has(id, k)
    ensures CountFrames(fs, id, k) >= 1
  {
    if i > 0 { FramesHas(fs[1..], i - 1, id, k); }
  }

  lemma {:induction false} SentHas(ps: seq<Packet>, i: int, j: int, id: nat, k: nat)
    requires 0 <= i < |ps| && 0 <= j < |ps[i].frames| && ps[i].frames[j].Has(id, k)
    ensures CountSent(ps, id, k) >= 1
  {
    if i > 0 { SentHas(ps[1..], i - 1, j, id, k); } else { FramesHas(ps[0].frames, j, id, k); }
  }

  /** A byte of the frame being built is nowhere else. */
  lemma Exclusive(streams: Streams, fs: seq<Frame>, f: Frame, ps: seq<Packet>, k: nat)
    requires Conserved(streams, fs + [f], ps) && f.id in streams && f.off <= k < f.End()
    ensures forall i :: 0 <= i < |streams[f.id].lost| ==> !streams[f.id].lost[i].Has(k)
    ensures forall i :: 0 <= i < |fs| ==> !fs[i].Has(f.id, k)
    ensures forall i, j :: 0 <= i < |ps| && 0 <= j < |ps[i].frames| ==> !ps[i].frames[j].Has(f.id, k)
  {
    assert ByteConserved(streams, fs + [f], ps, f.id, k);
    FramesConcat(fs, [f], f.id, k);
    forall i | 0 <= i < |streams[f.id].lost| ensures !streams[f.id].lost[i].Has(k) {
      if streams[f.id].lost[i].Has(k) { LostHas(streams[f.id].lost, i, k); }
    }
    forall i | 0 <= i < |fs| ensures !fs[i].Has(f.id, k) {
      if fs[i].Has(f.id, k) { FramesHas(fs, i, f.id, k); }
    }
    forall i, j | 0 <= i < |ps| && 0 <= j < |ps[i].frames| ensures !ps[i].frames[j].Has(f.id, k) {
      if ps[i].frames[j].Has(f.id, k) { SentHas(ps, i, j, f.id, k); }
    }
  }

  // --------------------------------------------------------------------------
  // Nesting
  // --------------------------------------------------------------------------

  lemma FitsInside(log: set<Frame>, id: nat, lo: nat, hi: nat, lo': nat, hi': nat)
    requires Fits(log, id, lo, hi) && lo <= lo' && hi' <= hi
    ensures Fits(log, id, lo', hi')
  {
  }

  /** A range that shares no byte with the new frame, or is the new frame, still fits. */
  lemma FitsOneMore(log: set<Frame>, id: nat, lo: nat, hi: nat, f: Frame)
    requires Fits(log, id, lo, hi)
    requires (forall k: nat :: f.Has(id, k) ==> !(lo <= k < hi)) || (f.off <= lo && hi <= f.End())
    ensures Fits(log + {f}, id, lo, hi)
  {
  }

  /** What a pull hands out fits: it is cut from a lost range, or lies beyond everything sent. */
  lemma PulledFits(s: System, id: nat, maxBytes: nat, maxFresh: nat)
    requires SendInv(s) && id in s.streams
    ensures var (st, p) := Pull(s.streams[id], maxBytes, maxFresh);
            && Fits(s.log, id, p.off, p.off + |p.data|)
            && forall i :: 0 <= i < |st.lost| ==> Fits(s.log, id, st.lost[i].off, st.lost[i].End())
  {
    var st0 := s.streams[id];
    var (st, p) := Pull(st0, maxBytes, maxFresh);
    if maxBytes > 0 && st0.lost != [] {
      var r := st0.lost[0];
      assert Fits(s.log, id, r.off, r.End());
      FitsInside(s.log, id, r.off, r.End(), p.off, p.off + |p.data|);
      forall i | 0 <= i < |st.lost| ensures Fits(s.log, id, st.lost[i].off, st.lost[i].End()) {
        if |st.lost| == |st0.lost| && i == 0 {
          FitsInside(s.log, id, r.off, r.End(), st.lost[0].off, st.lost[0].End());
        } else {
          assert st.lost[i] == st0.lost[if |st.lost| == |st0.lost| then i else i + 1];
        }
      }
    } else {
      assert forall g :: g in s.log ==> Carries(s.streams, g);
    }
  }

  /** A range that shares no byte with the new frame fits as before. */
  lemma StillFits(s: System, streams': Streams, f: Frame, id: nat, lo: nat, hi: nat)
    requires Conserved(streams', s.building + [f], s.sent) && f.id in streams' && Fits(s.log, id, lo, hi)
    requires || (id in streams' && exists i :: 0 <= i < |streams'[id].lost| && streams'[id].lost[i].off == lo && streams'[id].lost[i].End() == hi)
             || (exists i :: 0 <= i < |s.building| && s.building[i].id == id && s.building[i].off == lo && s.building[i].End() == hi)
             || (exists i, j :: 0 <= i < |s.sent| && 0 <= j < |s.sent[i].frames| && s.sent[i].frames[j].id == id
                             && s.sent[i].frames[j].off == lo && s.sent[i].frames[j].End() == hi)
    ensures Fits(s.log + {f}, id, lo, hi)
  {
    hide Conserved, Fits;
    forall k: nat | f.Has(id, k) ensures !(lo <= k < hi) {
      Exclusive(streams', s.building, f, s.sent, k);
    }
    FitsOneMore(s.log, id, lo, hi, f);
  }

  lemma PullNested(s: System, id: nat, maxBytes: nat, maxFresh: nat)
    requires SendInv(s) && id in s.streams
    ensures var (st, p) := Pull(s.streams[id], maxBytes, maxFresh);
            var f := FrameOf(id, p);
            Nested(s.(streams := s.streams[id := st], building := s.building + [f], log := s.log + {f}))
  {
    PulledFits(s, id, maxBytes, maxFresh);
    PullConserved(s.streams, id, maxBytes, maxFresh, s.building, s.sent);
    hide Pull, Conserved, Fits, Carries;
    var (st, p) := Pull(s.streams[id], maxBytes, maxFresh);
    var f := FrameOf(id, p);
    var s' := s.(streams := s.streams[id := st], building := s.building + [f], log := s.log + {f});
    FitsOneMore(s.log, id, f.off, f.End(), f);
    forall id', i | id' in s'.streams && 0 <= i < |s'.streams[id'].lost|
      ensures Fits(s'.log, id', s'.streams[id'].lost[i].off, s'.streams[id'].lost[i].End())
    {
      var r := s'.streams[id'].lost[i];
      StillFits(s, s'.streams, f, id', r.off, r.End());
    }
    forall i | 0 <= i < |s.building| ensures FitsFrame(s'.log, s.building[i]) {
      StillFits(s, s'.streams, f, s.building[i].id, s.building[i].off, s.building[i].End());
    }
    forall i, j | 0 <= i < |s.sent| && 0 <= j < |s.sent[i].frames| ensures FitsFrame(s'.log, s.sent[i].frames[j]) {
      var g := s.sent[i].frames[j];
      StillFits(s, s'.streams, f, g.id, g.off, g.End());
    }
  }

  // --------------------------------------------------------------------------
  // The sender writes, pulls and seals
  // --------------------------------------------------------------------------

  /** Streams only gain bytes at the end and move their send offset forward. */
  ghost predicate Grown(a: Streams, b: Streams) {
    a.Keys == b.Keys && forall id :: id in a ==>
      && a[id].written <= b[id].written && a[id].next <= b[id].next <= |b[id].written|
      && a[id].limit == b[id].limit
  }

  lemma CarriesStays(a: Streams, b: Streams, f: Frame)
    requires Grown(a, b) && Carries(a, f)
    ensures Carries(b, f)
  {
    assert a[f.id].written[f.off..f.End()] == b[f.id].written[f.off..f.End()];
  }

  lemma RecvStays(s: System, s': System)
    requires RecvInv(s) && Grown(s.streams, s'.streams)
    requires s'.rcv == s.rcv && s'.out == s.out && s.log <= s'.log
    ensures RecvInv(s')
  {
    hide R.Sound, Arrived, R.Got;
    forall id | id in s'.rcv ensures Faithful(s'.streams[id], s'.rcv[id], s'.out[id]) {
      assert Faithful(s.streams[id], s.rcv[id], s.out[id]);
      assert s.streams[id].written[..s.rcv[id].readOff] == s'.streams[id].written[..s.rcv[id].readOff];
    }
    forall id: nat, k: nat | id in s'.rcv ensures Whole(s'.rcv, s'.log, id, k) {
      assert Whole(s.rcv, s.log, id, k);
    }
  }

  lemma LinkStays(s: System, s': System)
    requires LinkInv(s)
    requires s'.rcv == s.rcv && s'.got == s.got && s'.failed == s.failed
    requires forall i :: 0 <= i < |s'.sent| && s'.sent[i].pn in s'.got ==> s'.sent[i] in s.sent
    requires forall id :: id in s'.streams ==> id in s.streams && s'.streams[id].acked <= s.streams[id].acked
    ensures LinkInv(s')
  {
    hide Arrived, R.Got;
    forall i, j | 0 <= i < |s'.sent| && s'.sent[i].pn in s'.got && 0 <= j < |s'.sent[i].frames|
      ensures s'.sent[i].frames[j].id in s'.failed || Arrived(s'.rcv, s'.sent[i].frames[j])
    {
      var n :| 0 <= n < |s.sent| && s.sent[n] == s'.sent[i];
    }
  }

  /** Frames and written bytes only become more, so what was announced, and overtaken, stays so. */
  lemma FinStays(s: System, s': System)
    requires FinInv(s) && s.log <= s'.log && s'.failed == s.failed
    requires s'.streams.Keys == s.streams.Keys && s'.rcv.Keys == s.rcv.Keys
    requires forall id :: id in s.streams ==> |s.streams[id].written| <= |s'.streams[id].written|
    requires forall id :: id in s.rcv ==> s'.rcv[id].finalSize == s.rcv[id].finalSize
    ensures FinInv(s')
  {
    forall id | id in s'.rcv && s'.rcv[id].finalSize.Some?
      ensures SizeSent(s'.log, id, s'.rcv[id].finalSize.value)
    {
      assert SizeSent(s.log, id, s.rcv[id].finalSize.value);
    }
    forall id | id in s'.failed ensures Overtaken(s', id) { OvertakenStays(s, s', id); }
  }

  lemma OvertakenStays(s: System, s': System, id: nat)
    requires Overtaken(s, id) && s.log <= s'.log && s'.streams.Keys == s.streams.Keys
    requires forall i :: i in s.streams ==> |s.streams[i].written| <= |s'.streams[i].written|
    ensures Overtaken(s', id)
  {
  }

  lemma LogStays(s: System, s': System)
    requires LogInv(s) && s'.log == s.log && s'.building == s.building && s'.packets == s.packets
    requires s'.streams.Keys == s.streams.Keys && forall id :: id in s.streams ==> s'.streams[id].next == s.streams[id].next
    ensures LogInv(s')
  {
    hide Packed, Reached;
  }

  lemma StreamsSound(streams: Streams, fs: seq<Frame>, ps: seq<Packet>)
    requires Conserved(streams, fs, ps)
    ensures forall id :: id in streams ==> Sound(streams[id])
  {
  }

  lemma WriteGrows(streams: Streams, id: nat, bytes: seq<Byte>, fin: bool)
    requires id in streams && forall i :: i in streams ==> Sound(streams[i])
    ensures Grown(streams, streams[id := Write(streams[id], bytes, fin)])
  {
  }

  lemma WriteKeeps(s: System, id: nat, bytes: seq<Byte>, fin: bool)
    requires Inv(s) && WellFormed(s) && id in s.streams
    ensures Inv(Apply(s, WriteTo(id, bytes, fin)))
  {
    hide Conserved, Nested, Recorded, LinkInv, Sound, Carries, FinInv, LogInv, Faithful, Whole;
    StreamsSound(s.streams, s.building, s.sent);
    var s' := Apply(s, WriteTo(id, bytes, fin));
    WriteConserved(s.streams, id, bytes, fin, s.building, s.sent);
    WriteGrows(s.streams, id, bytes, fin);
    forall f | f in s'.log ensures Carries(s'.streams, f) { CarriesStays(s.streams, s'.streams, f); }
    SameNesting(s, s');
    RecvStays(s, s');
    LinkStays(s, s');
    FinStays(s, s');
    LogStays(s, s');
  }

  lemma SameNesting(s: System, s': System)
    requires Nested(s) && Recorded(s)
    requires s'.log == s.log && s'.building == s.building && s'.sent == s.sent && s'.packets == s.packets
    requires s'.streams.Keys == s.streams.Keys && forall id :: id in s.streams ==> s'.streams[id].lost == s.streams[id].lost
    ensures Nested(s') && Recorded(s')
  {
  }

  lemma PullOne(s: Send, maxBytes: nat, maxFresh: nat)
    requires Sound(s)
    ensures var (st, p) := Pull(s, maxBytes, maxFresh);
            && st.written == s.written && st.acked == s.acked && st.limit == s.limit
            && s.next <= st.next <= |s.written|
            && p.off + |p.data| <= st.next && p.data == s.written[p.off..p.off + |p.data|]
            && (st.next == s.next || st.next == p.off + |p.data|)
  {
    if maxBytes > 0 && s.lost != [] { assert s.lost[0].End() <= s.next; }
  }

  lemma PullGrows(streams: Streams, id: nat, maxBytes: nat, maxFresh: nat)
    requires id in streams && forall i :: i in streams ==> Sound(streams[i])
    ensures var (st, p) := Pull(streams[id], maxBytes, maxFresh);
            && Grown(streams, streams[id := st])
            && Carries(streams[id := st], FrameOf(id, p))
            && st.acked == streams[id].acked && st.written == streams[id].written
            && (st.next == streams[id].next || st.next == p.off + |p.data|)
  {
    PullOne(streams[id], maxBytes, maxFresh);
    hide Pull;
    assert forall i :: i in streams ==> Sound(streams[i]);
  }

  lemma PullKeeps(s: System, id: nat, maxBytes: nat, maxFresh: nat)
    requires Inv(s) && WellFormed(s) && id in s.streams
    ensures Inv(Apply(s, PullInto(id, maxBytes, maxFresh)))
  {
    hide Conserved, Nested, LinkInv, Sound, Carries, Pull, Faithful, Whole, FinInv, LogInv;
    StreamsSound(s.streams, s.building, s.sent);
    var s' := Apply(s, PullInto(id, maxBytes, maxFresh));
    if s' != s {
      PullNested(s, id, maxBytes, maxFresh);
      PullConserved(s.streams, id, maxBytes, maxFresh, s.building, s.sent);
      PullGrows(s.streams, id, maxBytes, maxFresh);
      forall f | f in s'.log ensures Carries(s'.streams, f) {
        if f in s.log { CarriesStays(s.streams, s'.streams, f); }
      }
      RecvStays(s, s');
      LinkStays(s, s');
      FinStays(s, s');
      PullLogs(s, s', id, s'.building[|s.building|]);
    }
  }

  lemma PullLogs(s: System, s': System, id: nat, f: Frame)
    requires LogInv(s) && id in s.streams && f.id == id
    requires s'.log == s.log + {f} && s'.building == s.building + [f] && s'.packets == s.packets
    requires id in s'.streams && s'.streams == s.streams[id := s'.streams[id]]
    requires s'.streams[id].next == s.streams[id].next || s'.streams[id].next == f.End()
    ensures LogInv(s')
  {
    hide Packed;
    assert s'.building[|s.building|] == f;
    forall i | i in s'.streams && s'.streams[i].next > 0 ensures Reached(s'.log, i, s'.streams[i].next) {
      if s'.streams[i].next == s.streams[i].next { assert Reached(s.log, i, s.streams[i].next); }
    }
  }

  lemma SealKeeps(s: System, ackEliciting: bool, sentAt: int)
    requires Inv(s) && WellFormed(s)
    ensures Inv(Apply(s, Seal(ackEliciting, sentAt)))
  {
    hide Fits, Conserved, Sound, Carries, LinkInv, FinInv, LogInv;
    StreamsSound(s.streams, s.building, s.sent);
    var s' := Apply(s, Seal(ackEliciting, sentAt));
    PutOnRecord(s.streams, s.building, s.sent, s'.sent[|s.sent|]);
    assert forall i :: 0 <= i < |s.sent| ==> s'.sent[i] == s.sent[i];
    LinkStays(s, s');
    FinStays(s, s');
    SealLogs(s, s');
  }

  lemma SealLogs(s: System, s': System)
    requires LogInv(s) && s'.log == s.log && s'.building == [] && s'.packets == s.packets + [s.building]
    requires s'.streams == s.streams
    ensures LogInv(s')
  {
    hide Reached;
    forall f | f in s'.log ensures Packed(s'.packets, f) {
      if f in s.building {
        assert f in s'.packets[|s.packets|];
      } else {
        var p :| 0 <= p < |s.packets| && f in s.packets[p];
        assert f in s'.packets[p];
      }
    }
  }

  // --------------------------------------------------------------------------
  // A packet arrives
  // --------------------------------------------------------------------------

  /** Nothing received is ever forgotten. */
  ghost predicate Monotone(a: Receivers, b: Receivers) {
    a.Keys == b.Keys && forall id, k: nat :: id in a && R.Got(a[id], k) ==> R.Got(b[id], k)
  }

  lemma ArrivedStays(a: Receivers, b: Receivers, f: Frame)
    requires Monotone(a, b) && Arrived(a, f)
    ensures Arrived(b, f)
  {
  }

  /** What one frame does to what a stream has received. */
  lemma DeliverGot(r: R.Recv, f: Frame)
    requires R.Sound(r) && r.phase !in {R.ResetRecvd, R.ResetRead}
    ensures var (r', ok) := R.Deliver(r, f.off, f.data, f.fin);
            && (forall k: nat :: R.Got(r, k) ==> R.Got(r', k))
            && (forall k: nat :: R.Got(r', k) && !R.Got(r, k) ==>
                  f.off <= k < f.End() && forall j: nat :: f.off <= j < f.End() ==> R.Got(r', j))
            && (ok && !R.Shadowed(r, f.off, f.data) ==> forall j: nat :: f.off <= j < f.End() ==> R.Got(r', j))
  {
    if !R.Rejects(r, f.End(), f.fin) {
      R.CoverageExact(r, f.off, f.data, f.fin);
      hide R.Shadowed, R.Absorb;
    }
  }

  /** Bytes held after a frame are the old ones or the frame's own. */
  lemma DeliverBytes(s: Send, r: R.Recv, out: seq<Byte>, f: Frame)
    requires Faithful(s, r, out) && s.next <= s.limit
    requires f.End() <= s.next <= |s.written| && f.data == s.written[f.off..f.End()]
    ensures Faithful(s, R.Deliver(r, f.off, f.data, f.fin).0, out)
  {
    hide R.Absorb, R.Sound;
    R.DeliverSound(r, f.off, f.data, f.fin);
    R.AbsorbAgrees(r.held, r.readOff, f.off, f.data, s.written);
  }

  /** A frame whose range nests in everything sent is never shadowed by a shorter chunk. */
  lemma NeverShadowed(s: System, f: Frame)
    requires RecvInv(s) && f.id in s.rcv && FitsFrame(s.log, f)
    ensures !R.Shadowed(s.rcv[f.id], f.off, f.data)
  {
    var r := s.rcv[f.id];
    var put := R.PutOff(r.readOff, f.off);
    if R.StartsChunk(r.held, put) && put < f.End() {
      assert R.Got(r, put) && Whole(s.rcv, s.log, f.id, put);
      var g :| g in s.log && g.Has(f.id, put) && Arrived(s.rcv, g);
      forall k | put < k < f.End() ensures k in r.held {
        assert R.Got(r, k);
      }
    }
  }

  function DeliverFrame(s: System, f: Frame): System {
    if f.id !in s.rcv then s
    else
      var (r, ok) := R.Deliver(s.rcv[f.id], f.off, f.data, f.fin);
      s.(rcv := s.rcv[f.id := r], failed := if ok then s.failed else s.failed + {f.id})
  }

  lemma DeliverOne(s: System, f: Frame)
    requires RecvInv(s) && f in s.log && Carries(s.streams, f) && f.id in s.rcv && Sound(s.streams[f.id])
    ensures RecvInv(DeliverFrame(s, f)) && Monotone(s.rcv, DeliverFrame(s, f).rcv)
    ensures FitsFrame(s.log, f) && f.id !in DeliverFrame(s, f).failed ==> Arrived(DeliverFrame(s, f).rcv, f)
  {
    hide R.Sound, R.Deliver, R.Shadowed, Fits, Sound;
    var s' := DeliverFrame(s, f);
    var r := s.rcv[f.id];
    assert Faithful(s.streams[f.id], r, s.out[f.id]);
    SendLimits(s.streams[f.id]);
    DeliverGot(r, f);
    DeliverBytes(s.streams[f.id], r, s.out[f.id], f);
    if FitsFrame(s.log, f) { NeverShadowed(s, f); }
    assert Monotone(s.rcv, s'.rcv);
    forall id: nat, k: nat | id in s'.rcv ensures Whole(s'.rcv, s'.log, id, k) {
      DeliverWhole(s, s', f, id, k);
    }
  }

  lemma SendLimits(s: Send)
    requires Sound(s)
    ensures s.next <= s.limit
  {
  }

  lemma DeliverWhole(s: System, s': System, f: Frame, id: nat, k: nat)
    requires id in s.rcv && id in s'.rcv && Whole(s.rcv, s.log, id, k)
    requires Monotone(s.rcv, s'.rcv) && s'.log == s.log && f in s.log
    requires R.Got(s'.rcv[id], k) && !R.Got(s.rcv[id], k) ==> f.Has(id, k) && Arrived(s'.rcv, f)
    ensures Whole(s'.rcv, s'.log, id, k)
  {
    if R.Got(s'.rcv[id], k) && R.Got(s.rcv[id], k) {
      var g :| g in s.log && g.Has(id, k) && Arrived(s.rcv, g);
      ArrivedStays(s.rcv, s'.rcv, g);
    }
  }

  /** A frame is rejected only if one that announced the end, or it itself, is overtaken. */
  lemma DeliverFin(s: System, f: Frame)
    requires FinInv(s) && RecvInv(s) && f in s.log && Carries(s.streams, f) && f.id in s.rcv && Sound(s.streams[f.id])
    requires forall g :: g in s.log ==> Carries(s.streams, g)
    ensures FinInv(DeliverFrame(s, f))
  {
    hide RecvInv, Sound, R.Deliver, Carries, Overtaken;
    var s', r := DeliverFrame(s, f), s.rcv[f.id];
    WithinLimit(s, f);
    DeliverSize(r, f);
    RejectedOvertaken(s, f);
    forall id | id in s'.failed ensures Overtaken(s', id) {
      if id in s.failed { OvertakenStays(s, s', id); } else { OvertakenStays(s, s', f.id); }
    }
    forall id | id in s'.rcv && s'.rcv[id].finalSize.Some?
      ensures SizeSent(s'.log, id, s'.rcv[id].finalSize.value)
    {
      if id != f.id || s'.rcv[id].finalSize == r.finalSize {
        assert SizeSent(s.log, id, s.rcv[id].finalSize.value);
      } else {
        assert Announces(f, id);
      }
    }
  }

  lemma WithinLimit(s: System, f: Frame)
    requires RecvInv(s) && Carries(s.streams, f) && f.id in s.rcv && Sound(s.streams[f.id])
    ensures s.rcv[f.id].phase !in {R.ResetRecvd, R.ResetRead} && f.End() <= s.rcv[f.id].limit
  {
    assert Faithful(s.streams[f.id], s.rcv[f.id], s.out[f.id]);
    SendLimits(s.streams[f.id]);
    hide R.Sound, Sound;
  }

  lemma RejectedOvertaken(s: System, f: Frame)
    requires FinInv(s) && f in s.log && Carries(s.streams, f) && f.id in s.rcv
    requires forall g :: g in s.log ==> Carries(s.streams, g)
    ensures var size := s.rcv[f.id].finalSize;
            size.Some? && (f.End() > size.value || (f.fin && f.End() != size.value)) ==> Overtaken(s, f.id)
  {
    var size := s.rcv[f.id].finalSize;
    if size.Some? {
      assert SizeSent(s.log, f.id, size.value);
      var g :| g in s.log && Announces(g, f.id) && g.End() == size.value;
      assert Carries(s.streams, g);
      assert f.fin ==> Announces(f, f.id);
    }
  }

  /** The final size after a frame, and when the frame is rejected. */
  lemma DeliverSize(r: R.Recv, f: Frame)
    requires r.phase !in {R.ResetRecvd, R.ResetRead} && f.End() <= r.limit
    ensures var (r', ok) := R.Deliver(r, f.off, f.data, f.fin);
            && r'.phase !in {R.ResetRecvd, R.ResetRead} && r'.limit == r.limit
            && (!ok <==> r.finalSize.Some? && (f.End() > r.finalSize.value || (f.fin && f.End() != r.finalSize.value)))
            && (r.finalSize.Some? ==> r'.finalSize == r.finalSize)
            && (r.finalSize.None? ==> r'.finalSize == if f.fin then Some(f.End()) else None)
  {
    hide R.Absorb;
  }

  ghost predicate Deliverable(s: System, fs: seq<Frame>) {
    forall j :: 0 <= j < |fs| ==> fs[j] in s.log && Carries(s.streams, fs[j]) && fs[j].id in s.rcv && Sound(s.streams[fs[j].id])
  }

  lemma {:induction false} DeliverAll(s: System, fs: seq<Frame>)
    requires RecvInv(s) && FinInv(s) && Deliverable(s, fs) && forall g :: g in s.log ==> Carries(s.streams, g)
    ensures var (rcv, rejected) := DeliverFrames(s.rcv, fs);
            var s' := s.(rcv := rcv, failed := s.failed + rejected);
            && RecvInv(s') && FinInv(s') && Monotone(s.rcv, rcv)
            && (forall j :: 0 <= j < |fs| && FitsFrame(s.log, fs[j]) ==> fs[j].id in s'.failed || Arrived(rcv, fs[j]))
    decreases |fs|
  {
    hide RecvInv, FinInv, Monotone, Arrived, Fits, Carries, Sound, R.Deliver;
    MonotoneTrans(s.rcv, s.rcv, s.rcv);
    if fs == [] {
      assert s.failed + {} == s.failed;
      assert s.(rcv := s.rcv, failed := s.failed + {}) == s;
    } else {
      var mid := DeliverFrame(s, fs[0]);
      DeliverOne(s, fs[0]);
      DeliverFin(s, fs[0]);
      MonotoneKeys(s.rcv, mid.rcv);
      DeliverAll(mid, fs[1..]);
      var (rcv, rejected) := DeliverFrames(s.rcv, fs);
      MonotoneTrans(s.rcv, mid.rcv, rcv);
      var s' := s.(rcv := rcv, failed := s.failed + rejected);
      var more := DeliverFrames(mid.rcv, fs[1..]).1;
      assert s.failed + rejected == mid.failed + more;
      assert s' == mid.(rcv := rcv, failed := mid.failed + more);
      forall j | 0 <= j < |fs| && FitsFrame(s.log, fs[j]) ensures fs[j].id in s'.failed || Arrived(rcv, fs[j]) {
        if j > 0 {
          assert fs[j] == fs[1..][j - 1];
        } else if fs[0].id !in s'.failed {
          ArrivedStays(mid.rcv, rcv, fs[0]);
        }
      }
    }
  }

  lemma MonotoneTrans(a: Receivers, b: Receivers, c: Receivers)
    requires (Monotone(a, b) && Monotone(b, c)) || a == b == c
    ensures Monotone(a, c)
  {
  }

  lemma MonotoneKeys(a: Receivers, b: Receivers)
    requires Monotone(a, b)
    ensures a.Keys == b.Keys
  {
  }

  lemma ArriveKeeps(s: System, pn: nat)
    requires Inv(s) && WellFormed(s) && pn < |s.packets|
    ensures Inv(Apply(s, Arrive(pn)))
  {
    hide Conserved, Nested, Sound, Carries, Fits, Arrived, Monotone, R.Deliver, DeliverFrames, Capped, Record, Descending, LogInv;
    StreamsSound(s.streams, s.building, s.sent);
    var s' := Apply(s, Arrive(pn));
    Delivering(s, pn);
    DeliverAll(s, s.packets[pn]);
    assert SendInv(s') by { SameNesting(s, s'); }
    ArriveLinks(s, s', pn);
    ArriveAcks(s, s', pn);
    ReceivedAlike(s.(rcv := s'.rcv, failed := s'.failed), s');
    LogStays(s, s');
    hide SendInv, RecvInv, LinkInv, FinInv, AckInv;
  }

  lemma ReceivedAlike(s: System, s': System)
    requires RecvInv(s) && FinInv(s)
    requires s' == s.(got := s'.got, ranges := s'.ranges)
    ensures RecvInv(s') && FinInv(s')
  {
  }

  lemma ArriveAcks(s: System, s': System, pn: nat)
    requires AckInv(s) && pn < |s.packets|
    requires s'.ranges == Capped(Record(s.ranges, pn)) && s'.got == s.got + {pn}
    requires s'.packets == s.packets && s'.acks == s.acks
    ensures AckInv(s')
  {
    hide Capped, Record, Descending, Pns, Walk;
    RecordAdds(s.ranges, pn);
    CapSubset(Record(s.ranges, pn));
  }

  lemma Delivering(s: System, pn: nat)
    requires SendInv(s) && s.streams.Keys == s.rcv.Keys && pn < |s.packets|
    ensures Deliverable(s, s.packets[pn])
  {
    hide Nested, Fits;
    StreamsSound(s.streams, s.building, s.sent);
    hide Conserved, Sound;
    forall j | 0 <= j < |s.packets[pn]| ensures s.packets[pn][j] in s.log && Carries(s.streams, s.packets[pn][j]) {
    }
  }

  lemma CapSubset(rs: seq<PnRange>)
    requires Descending(rs)
    ensures Descending(Capped(rs)) && Pns(Capped(rs)) <= Pns(rs)
  {
    if |rs| > MAX_ACK_RANGES {
      Prefix(rs, MAX_ACK_RANGES);
      assert rs == rs[..MAX_ACK_RANGES] + rs[MAX_ACK_RANGES..];
      PnsConcat(rs[..MAX_ACK_RANGES], rs[MAX_ACK_RANGES..]);
    }
  }

  lemma ArriveLinks(s: System, s': System, pn: nat)
    requires SendInv(s) && LinkInv(s) && pn < |s.packets|
    requires s'.streams == s.streams && s'.sent == s.sent && s'.got == s.got + {pn} && s.failed <= s'.failed
    requires Monotone(s.rcv, s'.rcv)
    requires forall j :: 0 <= j < |s.packets[pn]| && FitsFrame(s.log, s.packets[pn][j]) ==>
               s.packets[pn][j].id in s'.failed || Arrived(s'.rcv, s.packets[pn][j])
    ensures LinkInv(s')
  {
    hide Conserved, Sound, Carries, Fits, Arrived, R.Got;
    forall i, j | 0 <= i < |s'.sent| && s'.sent[i].pn in s'.got && 0 <= j < |s'.sent[i].frames|
      ensures s'.sent[i].frames[j].id in s'.failed || Arrived(s'.rcv, s'.sent[i].frames[j])
    {
      if s.sent[i].pn in s.got && s.sent[i].frames[j].id !in s'.failed {
        ArrivedStays(s.rcv, s'.rcv, s.sent[i].frames[j]);
      }
    }
  }

  // --------------------------------------------------------------------------
  // The receiver reads, acknowledges and raises limits
  // --------------------------------------------------------------------------

  lemma SameGot(s: System, s': System)
    requires s.rcv.Keys == s'.rcv.Keys
    requires forall id, k: nat :: id in s.rcv ==> (R.Got(s'.rcv[id], k) <==> R.Got(s.rcv[id], k))
    requires s'.log == s.log
    ensures Monotone(s.rcv, s'.rcv)
    ensures forall id: nat, k: nat :: id in s.rcv && Whole(s.rcv, s.log, id, k) ==> Whole(s'.rcv, s'.log, id, k)
  {
    hide R.Got;
    forall id: nat, k: nat | id in s.rcv && Whole(s.rcv, s.log, id, k) ensures Whole(s'.rcv, s'.log, id, k) {
      if R.Got(s'.rcv[id], k) {
        var g :| g in s.log && g.Has(id, k) && Arrived(s.rcv, g);
        ArrivedStays(s.rcv, s'.rcv, g);
      }
    }
  }

  /** Bytes handed out are the ones written between the old and the new read cursor. */
  lemma ReadBytes(written: seq<Byte>, r: R.Recv, end: nat, data: seq<Byte>)
    requires forall k :: k in r.held ==> k < |written| && r.held[k] == written[k]
    requires r.readOff <= |written| && end == r.readOff + |data|
    requires forall j :: r.readOff <= j < end ==> j in r.held && r.held[j] == data[j - r.readOff]
    ensures end <= |written| && written[..end] == written[..r.readOff] + data
  {
    if r.readOff < end { assert end - 1 in r.held; }
    assert forall i :: 0 <= i < |data| ==> r.held[r.readOff + i] == data[i];
  }

  lemma ReadFaithful(s: Send, r: R.Recv, out: seq<Byte>)
    requires Faithful(s, r, out)
    ensures Faithful(s, R.Read(r).0, out + R.Read(r).1.data)
  {
    R.ReadSound(r);
    R.ReadMoves(r);
    var (r', res) := R.Read(r);
    assert r'.limit == r.limit && r'.phase in {r.phase, R.DataRead};
    hide R.Sound, R.Read;
    ReadBytes(s.written, r, r'.readOff, res.data);
  }

  /** One receiving stream changes without losing or gaining anything received. */
  lemma OneReceiver(s: System, s': System, id: nat, r: R.Recv)
    requires RecvInv(s) && id in s.rcv && s'.rcv == s.rcv[id := r]
    requires s'.streams == s.streams && s'.log == s.log && s'.out.Keys == s.out.Keys
    requires Faithful(s.streams[id], r, s'.out[id])
    requires forall i :: i in s.out && i != id ==> s'.out[i] == s.out[i]
    requires forall k: nat :: R.Got(r, k) <==> R.Got(s.rcv[id], k)
    ensures RecvInv(s') && Monotone(s.rcv, s'.rcv)
  {
    hide R.Got, Whole, Faithful, Monotone;
    SameGot(s, s');
  }

  lemma ReadKeeps(s: System, id: nat)
    requires Inv(s) && WellFormed(s) && Enabled(s, ReadFrom(id))
    ensures Inv(Apply(s, ReadFrom(id)))
  {
    hide Apply, Conserved, Nested, Recorded, Sound, Carries, R.Sound, Descending, Pns, R.Read, Whole, Monotone, FinInv,
         LogInv, LinkInv, R.Got, Faithful;
    StreamsSound(s.streams, s.building, s.sent);
    var r, read := R.Read(s.rcv[id]).0, R.Read(s.rcv[id]).1;
    var s' := s.(rcv := s.rcv[id := r], out := s.out[id := s.out[id] + read.data]);
    assert Apply(s, ReadFrom(id)) == s' by { ApplyRead(s, id); }
    ReadFaithful(s.streams[id], s.rcv[id], s.out[id]);
    ReadGot(s.streams[id], s.rcv[id], s.out[id]);
    SameNesting(s, s');
    OneReceiver(s, s', id, r);
    ReceiverLinks(s, s');
    FinStays(s, s');
    LogStays(s, s');
  }

  lemma ApplyRead(s: System, id: nat)
    requires Enabled(s, ReadFrom(id))
    requires WellFormed(s)
    ensures var (r, read) := R.Read(s.rcv[id]);
            Apply(s, ReadFrom(id)) == s.(rcv := s.rcv[id := r], out := s.out[id := s.out[id] + read.data])
  {
  }

  lemma ReadGot(s: Send, r: R.Recv, out: seq<Byte>)
    requires Faithful(s, r, out)
    ensures forall k: nat :: R.Got(R.Read(r).0, k) <==> R.Got(r, k)
    ensures R.Read(r).0.finalSize == r.finalSize
  {
    R.ReadMoves(r);
  }

  lemma ReceiverLinks(s: System, s': System)
    requires LinkInv(s) && Monotone(s.rcv, s'.rcv)
    requires s'.streams == s.streams && s'.sent == s.sent && s'.got == s.got && s'.failed == s.failed
    ensures LinkInv(s')
  {
    hide Arrived, R.Got;
    forall i, j | 0 <= i < |s'.sent| && s'.sent[i].pn in s'.got && 0 <= j < |s'.sent[i].frames|
      ensures s'.sent[i].frames[j].id in s'.failed || Arrived(s'.rcv, s'.sent[i].frames[j])
    {
      if s.sent[i].frames[j].id !in s.failed { ArrivedStays(s.rcv, s'.rcv, s.sent[i].frames[j]); }
    }
  }

  lemma SendAckKeeps(s: System, delay: nat)
    requires Inv(s) && WellFormed(s) && s.ranges != []
    ensures Inv(Apply(s, SendAck(delay)))
  {
    hide Conserved, Nested, Recorded, Sound, Carries, Faithful, Whole, LinkInv, FinInv, LogInv, Descending, Pns, Walk, AckOf;
    StreamsSound(s.streams, s.building, s.sent);
    var s' := Apply(s, SendAck(delay));
    AckRoundTrip(s.ranges, delay);
    SameNesting(s, s');
    GrownSame(s.streams);
    RecvStays(s, s');
    LinkStays(s, s');
    FinStays(s, s');
    LogStays(s, s');
  }

  lemma GrownSame(streams: Streams)
    requires forall id :: id in streams ==> Sound(streams[id])
    ensures Grown(streams, streams)
  {
  }

  lemma RaiseKeeps(s: System, id: nat, limit: nat)
    requires Inv(s) && WellFormed(s) && Enabled(s, RaiseLimit(id, limit))
    ensures Inv(Apply(s, RaiseLimit(id, limit)))
  {
    hide Apply, Conserved, Nested, Recorded, Sound, Carries, R.Sound, Descending, Pns, Whole, Monotone, FinInv, LinkInv,
         LogInv, Faithful, R.Got;
    StreamsSound(s.streams, s.building, s.sent);
    var r := s.rcv[id].(limit := limit);
    var s' := s.(rcv := s.rcv[id := r]);
    assert Apply(s, RaiseLimit(id, limit)) == s' by { ApplyRaise(s, id, limit); }
    RaiseFaithful(s.streams[id], s.rcv[id], s.out[id], limit);
    SameNesting(s, s');
    OneReceiver(s, s', id, r);
    ReceiverLinks(s, s');
    FinStays(s, s');
    LogStays(s, s');
  }

  lemma ApplyRaise(s: System, id: nat, limit: nat)
    requires Enabled(s, RaiseLimit(id, limit))
    requires WellFormed(s)
    ensures Apply(s, RaiseLimit(id, limit)) == s.(rcv := s.rcv[id := s.rcv[id].(limit := limit)])
  {
  }

  lemma RaiseFaithful(s: Send, r: R.Recv, out: seq<Byte>, limit: nat)
    requires Faithful(s, r, out) && limit > r.limit
    ensures Faithful(s, r.(limit := limit), out)
    ensures forall k: nat :: R.Got(r.(limit := limit), k) <==> R.Got(r, k)
  {
  }

  // --------------------------------------------------------------------------
  // Acknowledgements, losses and grants reach the sender
  // --------------------------------------------------------------------------

  lemma FewerPackets(s: System, i: nat, streams': Streams)
    requires SendInv(s) && i < |s.sent| && Grown(s.streams, streams')
    requires Conserved(streams', s.building, s.sent[..i] + s.sent[i + 1..])
    requires forall id, r :: id in streams' && r in streams'[id].lost ==> Fits(s.log, id, r.off, r.End())
    ensures SendInv(s.(streams := streams', sent := s.sent[..i] + s.sent[i + 1..]))
  {
    hide Conserved, Fits, Carries, Sound;
    var s' := s.(streams := streams', sent := s.sent[..i] + s.sent[i + 1..]);
    forall f | f in s'.log ensures Carries(s'.streams, f) { CarriesStays(s.streams, s'.streams, f); }
    assert forall n :: 0 <= n < |s'.sent| ==> s'.sent[n] == s.sent[if n < i then n else n + 1];
  }

  lemma AckedGrows(a: Streams, b: Streams)
    requires AllOnlyAcked(a, b) && forall id :: id in a ==> Sound(a[id])
    ensures Grown(a, b)
  {
  }

  lemma RequeuedGrows(a: Streams, b: Streams)
    requires AllOnlyRequeued(a, b) && forall id :: id in a ==> Sound(a[id])
    ensures Grown(a, b)
  {
  }

  lemma AckKeeps(s: System, a: AckFrame, i: nat)
    requires Inv(s) && WellFormed(s) && Enabled(s, AckArrives(a, i))
    ensures Inv(Apply(s, AckArrives(a, i)))
  {
    hide Conserved, Sound, Carries, Fits, Arrived, Descending, Pns, Walk, Faithful, Whole, FinInv, LogInv, AckFrames;
    StreamsSound(s.streams, s.building, s.sent);
    var s', fs := Apply(s, AckArrives(a, i)), s.sent[i].frames;
    TakeOut(s.streams, s.building, s.sent, i);
    AckFramesConserved(s.streams, fs, s.building, s'.sent);
    AckFramesOnly(s.streams, fs);
    AckedGrows(s.streams, s'.streams);
    SameLostFits(s, s'.streams);
    FewerPackets(s, i, s'.streams);
    RecvStays(s, s');
    AckLinks(s, s', i);
    FinStays(s, s');
    LogStays(s, s');
  }

  lemma SameLostFits(s: System, streams': Streams)
    requires Nested(s) && AllOnlyAcked(s.streams, streams')
    ensures forall id, r :: id in streams' && r in streams'[id].lost ==> Fits(s.log, id, r.off, r.End())
  {
    hide Fits;
    forall id, r | id in streams' && r in streams'[id].lost ensures Fits(s.log, id, r.off, r.End()) {
      assert OnlyAcked(s.streams[id], streams'[id]);
      var n :| 0 <= n < |s.streams[id].lost| && s.streams[id].lost[n] == r;
    }
  }

  lemma AckLinks(s: System, s': System, i: nat)
    requires LinkInv(s) && i < |s.sent| && s.sent[i].pn in s.got
    requires s'.rcv == s.rcv && s'.got == s.got && s'.failed == s.failed
    requires s'.sent == s.sent[..i] + s.sent[i + 1..] && s'.streams == AckFrames(s.streams, s.sent[i].frames)
    ensures LinkInv(s')
  {
    hide R.Got;
    AckFramesOnly(s.streams, s.sent[i].frames);
    assert forall n :: 0 <= n < |s'.sent| ==> s'.sent[n] == s.sent[if n < i then n else n + 1];
    forall id, k: nat | id in s'.streams && id in s'.rcv && id !in s'.failed && k in s'.streams[id].acked
      ensures R.Got(s'.rcv[id], k)
    {
      if k !in s.streams[id].acked {
        var j :| 0 <= j < |s.sent[i].frames| && s.sent[i].frames[j].Has(id, k);
        assert Arrived(s.rcv, s.sent[i].frames[j]);
      }
    }
  }

  lemma LoseKeeps(s: System, i: nat)
    requires Inv(s) && WellFormed(s) && Enabled(s, DeclareLost(i))
    ensures Inv(Apply(s, DeclareLost(i)))
  {
    hide Conserved, Sound, Carries, Fits, Arrived, Descending, Pns, Faithful, Whole, FinInv, LogInv, LoseFrames;
    StreamsSound(s.streams, s.building, s.sent);
    var s', fs := Apply(s, DeclareLost(i)), s.sent[i].frames;
    TakeOut(s.streams, s.building, s.sent, i);
    LoseFramesConserved(s.streams, fs, s.building, s'.sent);
    LoseFramesOnly(s.streams, fs);
    RequeuedGrows(s.streams, s'.streams);
    NewLostFits(s, i);
    FewerPackets(s, i, s'.streams);
    RecvStays(s, s');
    assert forall n :: 0 <= n < |s'.sent| ==> s'.sent[n] == s.sent[if n < i then n else n + 1];
    LinkStays(s, s');
    FinStays(s, s');
    LogStays(s, s');
  }

  lemma NewLostFits(s: System, i: nat)
    requires Nested(s) && i < |s.sent|
    ensures var streams' := LoseFrames(s.streams, s.sent[i].frames);
            forall id, r :: id in streams' && r in streams'[id].lost ==> Fits(s.log, id, r.off, r.End())
  {
    var fs := s.sent[i].frames;
    var streams' := LoseFrames(s.streams, fs);
    LoseFramesOnly(s.streams, fs);
    hide Fits, LoseFrames;
    forall id, r | id in streams' && r in streams'[id].lost ensures Fits(s.log, id, r.off, r.End()) {
      if r in s.streams[id].lost {
        var n :| 0 <= n < |s.streams[id].lost| && s.streams[id].lost[n] == r;
      } else {
        var j :| 0 <= j < |fs| && fs[j].id == id && r == Range(fs[j].off, |fs[j].data|);
        assert FitsFrame(s.log, fs[j]);
      }
    }
  }

  lemma GrantKeeps(s: System, id: nat, limit: nat)
    requires Inv(s) && WellFormed(s) && Enabled(s, GrantArrives(id, limit))
    ensures Inv(Apply(s, GrantArrives(id, limit)))
  {
    hide Apply, Conserved, Nested, Recorded, Sound, Descending, Pns, LinkInv, FinInv, LogInv, RecvInv, Grant, Carries;
    StreamsSound(s.streams, s.building, s.sent);
    var s' := s.(streams := s.streams[id := Grant(s.streams[id], limit)]);
    assert Apply(s, GrantArrives(id, limit)) == s' by { ApplyGrant(s, id, limit); }
    GrantConserved(s.streams, id, limit, s.building, s.sent);
    GrantOnly(s.streams[id], limit);
    SameNesting(s, s');
    forall f | f in s'.log ensures Carries(s'.streams, f) { GrantCarries(s.streams, id, limit, f); }
    GrantRecv(s, id, limit, s');
    LinkStays(s, s');
    SameReceivers(s);
    FinStays(s, s');
    LogStays(s, s');
  }

  lemma ApplyGrant(s: System, id: nat, limit: nat)
    requires Enabled(s, GrantArrives(id, limit))
    requires WellFormed(s)
    ensures Apply(s, GrantArrives(id, limit)) == s.(streams := s.streams[id := Grant(s.streams[id], limit)])
  {
  }

  lemma GrantOnly(s: Send, limit: nat)
    ensures Grant(s, limit) == s.(limit := Grant(s, limit).limit)
  {
  }

  lemma GrantCarries(streams: Streams, id: nat, limit: nat, f: Frame)
    requires id in streams && Carries(streams, f)
    ensures Carries(streams[id := Grant(streams[id], limit)], f)
  {
  }

  lemma SameReceivers(s: System)
    requires RecvInv(s)
    ensures s.streams.Keys == s.rcv.Keys
  {
  }

  lemma GrantRecv(s: System, id: nat, limit: nat, s': System)
    requires RecvInv(s) && id in s.streams && id in s.rcv && limit <= s.rcv[id].limit
    requires s' == s.(streams := s.streams[id := Grant(s.streams[id], limit)])
    ensures RecvInv(s')
  {
    hide R.Sound, R.Got, Whole;
    forall i | i in s'.rcv ensures Faithful(s'.streams[i], s'.rcv[i], s'.out[i]) {
      assert Faithful(s.streams[i], s.rcv[i], s.out[i]);
    }
    assert forall i: nat, k: nat :: i in s'.rcv ==> Whole(s.rcv, s.log, i, k);
  }

  // --------------------------------------------------------------------------
  // All events
  // --------------------------------------------------------------------------

  lemma InitHolds(s: System)
    requires Init(s)
    ensures Inv(s)
  {
    InitSends(s);
    InitReceives(s);
    hide SendInv, RecvInv;
  }

  lemma InitSends(s: System)
    requires Init(s)
    ensures SendInv(s)
  {
    assert Conserved(s.streams, s.building, s.sent) by {
      forall id: nat, k: nat ensures ByteConserved(s.streams, s.building, s.sent, id, k) {
      }
    }
    hide Conserved, Sound;
  }

  lemma InitReceives(s: System)
    requires Init(s)
    ensures RecvInv(s)
  {
    forall id | id in s.rcv ensures Faithful(s.streams[id], s.rcv[id], s.out[id]) {
    }
    hide Faithful, Arrived;
  }

  lemma InvWellFormed(s: System)
    requires Inv(s)
    ensures WellFormed(s)
  {
    StreamsSound(s.streams, s.building, s.sent);
  }

  lemma StepKeeps(s: System, e: Event)
    requires Inv(s) && Enabled(s, e)
    ensures WellFormed(s) && Inv(Apply(s, e))
  {
    InvWellFormed(s);
    hide SendInv, RecvInv, LinkInv, FinInv, AckInv, LogInv, WellFormed;
    match e
    case WriteTo(id, bytes, fin) => WriteKeeps(s, id, bytes, fin);
    case PullInto(id, maxBytes, maxFresh) => PullKeeps(s, id, maxBytes, maxFresh);
    case Seal(ackEliciting, sentAt) => SealKeeps(s, ackEliciting, sentAt);
    case Arrive(pn) => ArriveKeeps(s, pn);
    case ReadFrom(id) => ReadKeeps(s, id);
    case SendAck(delay) => SendAckKeeps(s, delay);
    case AckArrives(a, i) => AckKeeps(s, a, i);
    case DeclareLost(i) => LoseKeeps(s, i);
    case RaiseLimit(id, limit) => RaiseKeeps(s, id, limit);
    case GrantArrives(id, limit) => GrantKeeps(s, id, limit);
  }
}
