/**
 End to end: one sending connection, a network that may drop, delay, duplicate
 and reorder packets and acknowledgements, and the receiving connection.

 The sender is the state kept by `Sender.Connection`, each stream of the receiver
 is the state kept by `RecvSide.RecvSide`, and the receiver's packet-number space
 is the state kept by `AckRanges.PnSpace`.  Packets and ACK frames never leave the
 network, so any of them can arrive any number of times, in any order, or never.
 */
module Transfer {
  import opened Bytes
  import R = Reassembly
  import opened SendQueue
  import opened Flight
  import opened AckRanges

  type Receivers = map<nat, R.Recv>

  datatype System = System(
    streams: Streams,
    building: seq<Frame>,
    sent: seq<Packet>,
    log: set<Frame>,             // every frame ever pulled
    packets: seq<seq<Frame>>,    // every packet ever sent, by packet number
    rcv: Receivers,
    out: map<nat, seq<Byte>>,    // every byte the receiving application has read
    ranges: seq<PnRange>,
    got: set<nat>,               // packets the receiver has processed
    acks: set<AckFrame>,         // every ACK frame ever sent
    failed: set<nat>)            // streams of which the receiver rejected a frame

  datatype Event =
    | WriteTo(id: nat, bytes: seq<Byte>, fin: bool)
    | PullInto(id: nat, maxBytes: nat, maxFresh: nat)
    | Seal(ackEliciting: bool, sentAt: int)
    | Arrive(pn: nat)
    | ReadFrom(id: nat)
    | SendAck(delay: nat)
    | AckArrives(a: AckFrame, i: nat)
    | DeclareLost(i: nat)
    | RaiseLimit(id: nat, limit: nat)
    | GrantArrives(id: nat, limit: nat)

  predicate Enabled(s: System, e: Event) {
    match e
    case WriteTo(id, _, _) => id in s.streams
    case PullInto(id, _, _) => id in s.streams
    case Seal(_, _) => true
    case Arrive(pn) => pn < |s.packets|
    case ReadFrom(id) => id in s.rcv && id in s.out
    case SendAck(_) => s.ranges != []
    case AckArrives(a, i) => a in s.acks && i < |s.sent| && s.sent[i].pn in Walk(a)
    case DeclareLost(i) => i < |s.sent|
    case RaiseLimit(id, limit) => id in s.rcv && limit > s.rcv[id].limit
    case GrantArrives(id, limit) => id in s.streams && id in s.rcv && limit <= s.rcv[id].limit
  }

  /** The receiver processes the frames of one packet in order; the streams whose frames it rejected. */
  function DeliverFrames(rcv: Receivers, fs: seq<Frame>): (res: (Receivers, set<nat>)) {
    if fs == [] then (rcv, {})
    else if fs[0].id !in rcv then DeliverFrames(rcv, fs[1..])
    else
      var (r, ok) := R.Deliver(rcv[fs[0].id], fs[0].off, fs[0].data, fs[0].fin);
      var (rcv', rejected) := DeliverFrames(rcv[fs[0].id := r], fs[1..]);
      (rcv', if ok then rejected else rejected + {fs[0].id})
  }

  /** What `Apply` needs of a state; every reachable state has it. */
  ghost predicate WellFormed(s: System) {
    (forall id :: id in s.streams ==> Sound(s.streams[id])) && Descending(s.ranges)
  }

  function Apply(s: System, e: Event): System
    requires Enabled(s, e) && WellFormed(s)
  {
    match e
    case WriteTo(id, bytes, fin) =>
      s.(streams := s.streams[id := Write(s.streams[id], bytes, fin)])
    case PullInto(id, maxBytes, maxFresh) =>
      var (st, p) := Pull(s.streams[id], maxBytes, maxFresh);
      if p.data == [] && !p.fin then s
      else s.(streams := s.streams[id := st],
              building := s.building + [FrameOf(id, p)],
              log := s.log + {FrameOf(id, p)})
    case Seal(ackEliciting, sentAt) =>
      s.(sent := s.sent + [Packet(|s.packets|, s.building, ackEliciting, sentAt)],
         packets := s.packets + [s.building],
         building := [])
    case Arrive(pn) =>
      var (rcv, rejected) := DeliverFrames(s.rcv, s.packets[pn]);
      s.(rcv := rcv, failed := s.failed + rejected, got := s.got + {pn},
         ranges := Capped(Record(s.ranges, pn)))
    case ReadFrom(id) =>
      var (r, read) := R.Read(s.rcv[id]);
      s.(rcv := s.rcv[id := r], out := s.out[id := s.out[id] + read.data])
    case SendAck(delay) => s.(acks := s.acks + {AckOf(s.ranges, delay)})
    case AckArrives(_, i) =>
      s.(streams := AckFrames(s.streams, s.sent[i].frames), sent := s.sent[..i] + s.sent[i + 1..])
    case DeclareLost(i) =>
      s.(streams := LoseFrames(s.streams, s.sent[i].frames), sent := s.sent[..i] + s.sent[i + 1..])
    case RaiseLimit(id, limit) => s.(rcv := s.rcv[id := s.rcv[id].(limit := limit)])
    case GrantArrives(id, limit) => s.(streams := s.streams[id := Grant(s.streams[id], limit)])
  }

  /** Any set of streams, nothing sent, and no send limit above what the receiver allows. */
  ghost predicate Init(s: System) {
    && s.streams.Keys == s.rcv.Keys == s.out.Keys
    && (forall id :: id in s.streams ==>
          && s.streams[id] == Fresh(s.streams[id].limit)
          && s.rcv[id] == R.Recv(map[], 0, 0, s.rcv[id].limit, None, None, R.Receiving)
          && s.streams[id].limit <= s.rcv[id].limit
          && s.out[id] == [])
    && s.building == [] && s.sent == [] && s.log == {} && s.packets == []
    && s.ranges == [] && s.got == {} && s.acks == {} && s.failed == {}
  }

  // --------------------------------------------------------------------------
  // The invariant
  // --------------------------------------------------------------------------

  /** The frame carries bytes of its stream that have been sent. */
  ghost predicate Carries(streams: Streams, f: Frame) {
    && f.id in streams
    && f.End() <= streams[f.id].next <= |streams[f.id].written|
    && f.data == streams[f.id].written[f.off..f.End()]
  }

  /** Every logged frame of the stream that meets [lo, hi) contains all of it. */
  ghost predicate Fits(log: set<Frame>, id: nat, lo: nat, hi: nat) {
    forall g: Frame, k: nat :: g in log && g.Has(id, k) && lo <= k < hi ==> g.off <= lo && hi <= g.End()
  }

  ghost predicate FitsFrame(log: set<Frame>, f: Frame) {
    Fits(log, f.id, f.off, f.End())
  }

  /** Retransmission never widens a frame: what is still to be acknowledged nests in what was sent. */
  ghost predicate Nested(s: System) {
    && (forall id, i :: id in s.streams && 0 <= i < |s.streams[id].lost| ==>
          Fits(s.log, id, s.streams[id].lost[i].off, s.streams[id].lost[i].End()))
    && (forall i :: 0 <= i < |s.building| ==> FitsFrame(s.log, s.building[i]))
    && (forall i, j :: 0 <= i < |s.sent| && 0 <= j < |s.sent[i].frames| ==> FitsFrame(s.log, s.sent[i].frames[j]))
  }

  ghost predicate Recorded(s: System) {
    && (forall i :: 0 <= i < |s.building| ==> s.building[i] in s.log)
    && (forall p, j :: 0 <= p < |s.packets| && 0 <= j < |s.packets[p]| ==> s.packets[p][j] in s.log)
    && (forall i :: 0 <= i < |s.sent| ==> s.sent[i].pn < |s.packets| && s.packets[s.sent[i].pn] == s.sent[i].frames)
  }

  ghost predicate SendInv(s: System) {
    && Conserved(s.streams, s.building, s.sent)
    && Recorded(s)
    && (forall f :: f in s.log ==> Carries(s.streams, f))
    && Nested(s)
  }

  /** All bytes of the frame have reached the receiving stream. */
  ghost predicate Arrived(rcv: Receivers, f: Frame) {
    f.id in rcv && forall k: nat :: f.off <= k < f.End() ==> R.Got(rcv[f.id], k)
  }

  /** Every byte received came in a frame of which every byte was received. */
  ghost predicate Whole(rcv: Receivers, log: set<Frame>, id: nat, k: nat)
    requires id in rcv
  {
    R.Got(rcv[id], k) ==> exists g :: g in log && g.Has(id, k) && Arrived(rcv, g)
  }

  /** What a receiving stream holds and has handed out is what was written. */
  ghost predicate Faithful(s: Send, r: R.Recv, out: seq<Byte>) {
    && R.Sound(r) && r.phase !in {R.ResetRecvd, R.ResetRead}
    && s.limit <= r.limit
    && r.readOff <= |s.written| && out == s.written[..r.readOff]
    && (forall k :: k in r.held ==> k < |s.written| && r.held[k] == s.written[k])
  }

  ghost predicate RecvInv(s: System) {
    && s.streams.Keys == s.rcv.Keys == s.out.Keys
    && (forall id :: id in s.rcv ==> Faithful(s.streams[id], s.rcv[id], s.out[id]))
    && (forall id: nat, k: nat :: id in s.rcv ==> Whole(s.rcv, s.log, id, k))
  }

  ghost predicate AckInv(s: System) {
    && Descending(s.ranges)
    && Pns(s.ranges) <= s.got
    && (forall p :: p in s.got ==> p < |s.packets|)
    && (forall a :: a in s.acks ==> Walk(a) <= s.got)
  }

  /** Unless the receiver rejected a frame of the stream, what is acknowledged or can be acknowledged has arrived. */
  ghost predicate LinkInv(s: System) {
    && (forall i, j :: 0 <= i < |s.sent| && s.sent[i].pn in s.got && 0 <= j < |s.sent[i].frames| ==>
          s.sent[i].frames[j].id in s.failed || Arrived(s.rcv, s.sent[i].frames[j]))
    && (forall id, k: nat :: id in s.streams && id in s.rcv && id !in s.failed && k in s.streams[id].acked ==>
          R.Got(s.rcv[id], k))
  }

  /** A frame that announces the end of the stream ends before what has been written by now. */
  ghost predicate Overtaken(s: System, id: nat) {
    id in s.streams && exists f :: f in s.log && Announces(f, id) && f.End() < |s.streams[id].written|
  }

  predicate Announces(f: Frame, id: nat) { f.id == id && f.fin }

  /** The receiver learned a final size from a frame that was sent, and rejects only overtaken streams. */
  ghost predicate FinInv(s: System) {
    && (forall id :: id in s.rcv && s.rcv[id].finalSize.Some? ==> SizeSent(s.log, id, s.rcv[id].finalSize.value))
    && (forall id :: id in s.failed ==> Overtaken(s, id))
  }

  ghost predicate SizeSent(log: set<Frame>, id: nat, size: nat) {
    exists f :: f in log && Announces(f, id) && f.End() == size
  }

  /** Every logged frame is in a packet or about to be, and a logged frame ends at each send offset. */
  ghost predicate LogInv(s: System) {
    && (forall f :: f in s.log ==> f in s.building || Packed(s.packets, f))
    && (forall id :: id in s.streams && s.streams[id].next > 0 ==> Reached(s.log, id, s.streams[id].next))
  }

  ghost predicate Packed(packets: seq<seq<Frame>>, f: Frame) { exists p :: 0 <= p < |packets| && f in packets[p] }

  ghost predicate Reached(log: set<Frame>, id: nat, end: nat) { exists f :: f in log && f.id == id && f.End() == end }

  ghost predicate Inv(s: System) {
    SendInv(s) && RecvInv(s) && AckInv(s) && LinkInv(s) && FinInv(s) && LogInv(s)
  }
}
