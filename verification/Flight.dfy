/**
 Conservation of stream bytes on the sending side of a connection.

 Every byte below a stream's `next` offset is in exactly one place: acknowledged,
 queued for retransmission, or inside a frame of a packet still on record.  This
 module states that and shows that pulling, acknowledging and losing keep it.
 */
module Flight {
  import opened Bytes
  import opened SendQueue

  /** A STREAM frame as the sender records it. */
  datatype Frame = Frame(id: nat, off: nat, data: seq<Byte>, fin: bool) {
    function End(): nat { off + |data| }

    predicate Has(sid: nat, k: nat) { id == sid && off <= k < End() }
  }

  /** A sent packet that is neither acknowledged nor declared lost. */
  datatype Packet = Packet(pn: nat, frames: seq<Frame>, ackEliciting: bool, sentAt: int)

  ghost function CountLost(rs: seq<Range>, k: nat): nat {
    if rs == [] then 0 else One(rs[0].Has(k)) + CountLost(rs[1..], k)
  }

  ghost function CountFrames(fs: seq<Frame>, id: nat, k: nat): nat {
    if fs == [] then 0 else One(fs[0].Has(id, k)) + CountFrames(fs[1..], id, k)
  }

  ghost function CountSent(ps: seq<Packet>, id: nat, k: nat): nat {
    if ps == [] then 0 else CountFrames(ps[0].frames, id, k) + CountSent(ps[1..], id, k)
  }

  /** Places in which byte k of stream id is being held by frames `fs` and packets `ps`. */
  ghost function InFlight(fs: seq<Frame>, ps: seq<Packet>, id: nat, k: nat): nat {
    CountFrames(fs, id, k) + CountSent(ps, id, k)
  }

  type Streams = map<nat, Send>

  ghost predicate ByteConserved(streams: Streams, fs: seq<Frame>, ps: seq<Packet>, id: nat, k: nat) {
    if id in streams then
      One(k in streams[id].acked) + CountLost(streams[id].lost, k) + InFlight(fs, ps, id, k)
      == One(k < streams[id].next)
    else InFlight(fs, ps, id, k) == 0
  }

  /** `fs` are frames pulled into a packet being built; `ps` are the packets on record. */
  ghost predicate Conserved(streams: Streams, fs: seq<Frame>, ps: seq<Packet>) {
    && (forall id :: id in streams ==> Sound(streams[id]))
    && (forall id: nat, k: nat :: ByteConserved(streams, fs, ps, id, k))
  }

  // --------------------------------------------------------------------------
  // Counting
  // --------------------------------------------------------------------------

  lemma {:induction false} LostConcat(a: seq<Range>, b: seq<Range>, k: nat)
    ensures CountLost(a + b, k) == CountLost(a, k) + CountLost(b, k)
  {
    if a == [] {
      assert a + b == b;
    } else {
      assert (a + b)[1..] == a[1..] + b;
      LostConcat(a[1..], b, k);
    }
  }

  lemma {:induction false} FramesConcat(a: seq<Frame>, b: seq<Frame>, id: nat, k: nat)
    ensures CountFrames(a + b, id, k) == CountFrames(a, id, k) + CountFrames(b, id, k)
  {
    if a == [] {
      assert a + b == b;
    } else {
      assert (a + b)[1..] == a[1..] + b;
      FramesConcat(a[1..], b, id, k);
    }
  }

  lemma {:induction false} SentConcat(a: seq<Packet>, b: seq<Packet>, id: nat, k: nat)
    ensures CountSent(a + b, id, k) == CountSent(a, id, k) + CountSent(b, id, k)
  {
    if a == [] {
      assert a + b == b;
    } else {
      assert (a + b)[1..] == a[1..] + b;
      SentConcat(a[1..], b, id, k);
    }
  }

  lemma {:induction false} LostHas(rs: seq<Range>, i: int, k: nat)
    requires 0 <= i < |rs| && rs[i].Has(k)
    ensures CountLost(rs, k) >= 1
  {
    if i > 0 { LostHas(rs[1..], i - 1, k); }
  }

  /** Taking packet i off the record moves its frames out of the count. */
  lemma SentSplit(ps: seq<Packet>, i: nat, id: nat, k: nat)
    requires i < |ps|
    ensures CountSent(ps, id, k) == CountSent(ps[..i] + ps[i + 1..], id, k) + CountFrames(ps[i].frames, id, k)
  {
    assert ps == ps[..i] + ([ps[i]] + ps[i + 1..]);
    SentConcat(ps[..i], [ps[i]] + ps[i + 1..], id, k);
    SentConcat([ps[i]], ps[i + 1..], id, k);
    SentConcat(ps[..i], ps[i + 1..], id, k);
  }

  // --------------------------------------------------------------------------
  // One frame changes place
  // --------------------------------------------------------------------------

  function AckFrame(streams: Streams, f: Frame): Streams {
    if f.id in streams then streams[f.id := Ack(streams[f.id], f.off, |f.data|)] else streams
  }

  function LoseFrame(streams: Streams, f: Frame): Streams {
    if f.id in streams then streams[f.id := Lose(streams[f.id], f.off, |f.data|)] else streams
  }

  /** A frame in flight covers bytes that are sent, not acknowledged and not queued for resending. */
  lemma FrameOutstanding(streams: Streams, f: Frame, fs: seq<Frame>, ps: seq<Packet>)
    requires Conserved(streams, [f] + fs, ps) && f.id in streams
    ensures Outstanding(streams[f.id], f.off, |f.data|)
  {
    var s := streams[f.id];
    if |f.data| > 0 { ByteOutstanding(streams, f, fs, ps, f.End() - 1); }
    forall k | f.off <= k < f.off + |f.data| ensures k !in s.acked {
      ByteOutstanding(streams, f, fs, ps, k);
    }
    forall i, k | 0 <= i < |s.lost| && f.off <= k < f.off + |f.data| ensures !s.lost[i].Has(k) {
      ByteOutstanding(streams, f, fs, ps, k);
      if s.lost[i].Has(k) { LostHas(s.lost, i, k); }
    }
  }

  lemma ByteOutstanding(streams: Streams, f: Frame, fs: seq<Frame>, ps: seq<Packet>, k: nat)
    requires Conserved(streams, [f] + fs, ps) && f.id in streams && f.off <= k < f.off + |f.data|
    ensures k < streams[f.id].next && k !in streams[f.id].acked && CountLost(streams[f.id].lost, k) == 0
  {
    assert ByteConserved(streams, [f] + fs, ps, f.id, k);
    FramesConcat([f], fs, f.id, k);
  }

  lemma AckConserved(streams: Streams, f: Frame, fs: seq<Frame>, ps: seq<Packet>)
    requires Conserved(streams, [f] + fs, ps)
    ensures Conserved(AckFrame(streams, f), fs, ps)
  {
    if f.id in streams {
      FrameOutstanding(streams, f, fs, ps);
      AckSound(streams[f.id], f.off, |f.data|);
    }
    forall id: nat, k: nat ensures ByteConserved(AckFrame(streams, f), fs, ps, id, k) {
      assert ByteConserved(streams, [f] + fs, ps, id, k);
      FramesConcat([f], fs, id, k);
    }
  }

  lemma LoseConserved(streams: Streams, f: Frame, fs: seq<Frame>, ps: seq<Packet>)
    requires Conserved(streams, [f] + fs, ps)
    ensures Conserved(LoseFrame(streams, f), fs, ps)
  {
    if f.id in streams {
      FrameOutstanding(streams, f, fs, ps);
      LoseSound(streams[f.id], f.off, |f.data|);
    }
    forall id: nat, k: nat ensures ByteConserved(LoseFrame(streams, f), fs, ps, id, k) {
      assert ByteConserved(streams, [f] + fs, ps, id, k);
      FramesConcat([f], fs, id, k);
      if f.id in streams {
        LostConcat(streams[f.id].lost, [Range(f.off, |f.data|)], k);
      }
    }
  }

  function FrameOf(id: nat, p: Pulled): Frame {
    Frame(id, p.off, p.data, p.fin)
  }

  /** A pull moves bytes from the resend queue, or from the unsent tail, into one frame. */
  lemma PullMoves(s: Send, maxBytes: nat, maxFresh: nat, k: nat)
    requires Sound(s)
    ensures var (s', p) := Pull(s, maxBytes, maxFresh);
            && s'.acked == s.acked && s'.written == s.written
            && One(p.off <= k < p.off + |p.data|) + CountLost(s'.lost, k) + One(k < s.next)
               == CountLost(s.lost, k) + One(k < s'.next)
  {
    if s.lost != [] {
      var r := s.lost[0];
      var rest := s.lost[1..];
      assert forall x: Range :: ([x] + rest)[1..] == rest;
    }
  }

  lemma PullConserved(streams: Streams, id: nat, maxBytes: nat, maxFresh: nat, fs: seq<Frame>, ps: seq<Packet>)
    requires Conserved(streams, fs, ps) && id in streams
    ensures var (s', p) := Pull(streams[id], maxBytes, maxFresh);
            Conserved(streams[id := s'], fs + [FrameOf(id, p)], ps)
  {
    var (s', p) := Pull(streams[id], maxBytes, maxFresh);
    PullSound(streams[id], maxBytes, maxFresh);
    var streams', fs' := streams[id := s'], fs + [FrameOf(id, p)];
    forall id': nat, k: nat ensures ByteConserved(streams', fs', ps, id', k) {
      assert ByteConserved(streams, fs, ps, id', k);
      FramesConcat(fs, [FrameOf(id, p)], id', k);
      PullMoves(streams[id], maxBytes, maxFresh, k);
    }
  }

  /** The frame carries exactly the bytes written at its offset, and a FIN only at the end of them. */
  ghost predicate Authentic(streams: Streams, f: Frame) {
    && f.id in streams
    && f.End() <= |streams[f.id].written|
    && f.data == streams[f.id].written[f.off..f.End()]
    && (f.fin ==> streams[f.id].finQueued && f.End() == |streams[f.id].written|)
  }

  lemma PullAuthentic(streams: Streams, id: nat, maxBytes: nat, maxFresh: nat)
    requires id in streams && Sound(streams[id])
    ensures var (s', p) := Pull(streams[id], maxBytes, maxFresh);
            Authentic(streams[id := s'], FrameOf(id, p))
  {
  }

  // --------------------------------------------------------------------------
  // Whole packets
  // --------------------------------------------------------------------------

  function AckFrames(streams: Streams, fs: seq<Frame>): Streams {
    if fs == [] then streams else AckFrames(AckFrame(streams, fs[0]), fs[1..])
  }

  function LoseFrames(streams: Streams, fs: seq<Frame>): Streams {
    if fs == [] then streams else LoseFrames(LoseFrame(streams, fs[0]), fs[1..])
  }

  /** Two ways of holding the same frames conserve the same streams. */
  lemma SamePlaces(streams: Streams, fs: seq<Frame>, ps: seq<Packet>, fs': seq<Frame>, ps': seq<Packet>)
    requires Conserved(streams, fs, ps)
    requires forall id: nat, k: nat :: InFlight(fs', ps', id, k) == InFlight(fs, ps, id, k)
    ensures Conserved(streams, fs', ps')
  {
    forall id: nat, k: nat ensures ByteConserved(streams, fs', ps', id, k) {
      assert ByteConserved(streams, fs, ps, id, k);
    }
  }

  /** Packet i is taken off the record, its frames in hand. */
  lemma TakeOut(streams: Streams, fs: seq<Frame>, ps: seq<Packet>, i: nat)
    requires Conserved(streams, fs, ps) && i < |ps|
    ensures Conserved(streams, ps[i].frames + fs, ps[..i] + ps[i + 1..])
  {
    forall id: nat, k: nat
      ensures InFlight(ps[i].frames + fs, ps[..i] + ps[i + 1..], id, k) == InFlight(fs, ps, id, k)
    {
      SentSplit(ps, i, id, k);
      FramesConcat(ps[i].frames, fs, id, k);
    }
    SamePlaces(streams, fs, ps, ps[i].frames + fs, ps[..i] + ps[i + 1..]);
  }

  /** The packet built from `fs` goes on record. */
  lemma PutOnRecord(streams: Streams, fs: seq<Frame>, ps: seq<Packet>, p: Packet)
    requires Conserved(streams, fs, ps) && p.frames == fs
    ensures Conserved(streams, [], ps + [p])
  {
    forall id: nat, k: nat ensures InFlight([], ps + [p], id, k) == InFlight(fs, ps, id, k) {
      SentConcat(ps, [p], id, k);
    }
    SamePlaces(streams, fs, ps, [], ps + [p]);
  }

  lemma {:induction false} AckFramesConserved(streams: Streams, fs: seq<Frame>, rest: seq<Frame>, ps: seq<Packet>)
    requires Conserved(streams, fs + rest, ps)
    ensures Conserved(AckFrames(streams, fs), rest, ps)
    decreases |fs|
  {
    if fs == [] {
      assert fs + rest == rest;
    } else {
      assert fs + rest == [fs[0]] + (fs[1..] + rest);
      AckConserved(streams, fs[0], fs[1..] + rest, ps);
      AckFramesConserved(AckFrame(streams, fs[0]), fs[1..], rest, ps);
    }
  }

  lemma {:induction false} LoseFramesConserved(streams: Streams, fs: seq<Frame>, rest: seq<Frame>, ps: seq<Packet>)
    requires Conserved(streams, fs + rest, ps)
    ensures Conserved(LoseFrames(streams, fs), rest, ps)
    decreases |fs|
  {
    if fs == [] {
      assert fs + rest == rest;
    } else {
      assert fs + rest == [fs[0]] + (fs[1..] + rest);
      LoseConserved(streams, fs[0], fs[1..] + rest, ps);
      LoseFramesConserved(LoseFrame(streams, fs[0]), fs[1..], rest, ps);
    }
  }

  // --------------------------------------------------------------------------
  // Streams coming and going
  // --------------------------------------------------------------------------

  lemma OpenConserved(streams: Streams, id: nat, limit: nat, fs: seq<Frame>, ps: seq<Packet>)
    requires Conserved(streams, fs, ps) && id !in streams
    ensures Conserved(streams[id := Fresh(limit)], fs, ps)
  {
    var streams' := streams[id := Fresh(limit)];
    forall id': nat, k: nat ensures ByteConserved(streams', fs, ps, id', k) {
      assert ByteConserved(streams, fs, ps, id', k);
    }
  }

  lemma WriteConserved(streams: Streams, id: nat, bytes: seq<Byte>, fin: bool, fs: seq<Frame>, ps: seq<Packet>)
    requires Conserved(streams, fs, ps) && id in streams
    ensures Conserved(streams[id := Write(streams[id], bytes, fin)], fs, ps)
  {
    var streams' := streams[id := Write(streams[id], bytes, fin)];
    forall id': nat, k: nat ensures ByteConserved(streams', fs, ps, id', k) {
      assert ByteConserved(streams, fs, ps, id', k);
    }
  }

  lemma GrantConserved(streams: Streams, id: nat, limit: nat, fs: seq<Frame>, ps: seq<Packet>)
    requires Conserved(streams, fs, ps) && id in streams
    ensures Conserved(streams[id := Grant(streams[id], limit)], fs, ps)
  {
    var streams' := streams[id := Grant(streams[id], limit)];
    forall id': nat, k: nat ensures ByteConserved(streams', fs, ps, id', k) {
      assert ByteConserved(streams, fs, ps, id', k);
    }
  }

  /** No byte of the stream is in a packet on record. */
  ghost predicate NoneInFlight(ps: seq<Packet>, id: nat) { forall k: nat :: CountSent(ps, id, k) == 0 }

  /** A stream can be dropped and every account still balances, if and only if nothing of it is in flight. */
  lemma RetireConserved(streams: Streams, id: nat, ps: seq<Packet>)
    requires Conserved(streams, [], ps) && id in streams
    ensures Conserved(streams - {id}, [], ps) <==> NoneInFlight(ps, id)
  {
    if NoneInFlight(ps, id) {
      forall id': nat, k: nat ensures ByteConserved(streams - {id}, [], ps, id', k) {
        assert ByteConserved(streams, [], ps, id', k);
      }
    }
    if Conserved(streams - {id}, [], ps) {
      forall k: nat ensures CountSent(ps, id, k) == 0 { assert ByteConserved(streams - {id}, [], ps, id, k); }
    }
  }

  /** Nothing is in flight of a stream whose bytes are all acknowledged, or of which none was sent. */
  lemma DoneInFlight(streams: Streams, id: nat, ps: seq<Packet>)
    requires Conserved(streams, [], ps) && id in streams && (streams[id].phase == DataRecvd || streams[id].next == 0)
    ensures NoneInFlight(ps, id)
  {
    forall k: nat ensures CountSent(ps, id, k) == 0 { assert ByteConserved(streams, [], ps, id, k); }
  }

  // --------------------------------------------------------------------------
  // What each operation may change in a stream
  // --------------------------------------------------------------------------

  ghost predicate OnlyAcked(a: Send, b: Send) {
    && a.acked <= b.acked
    && b == a.(acked := b.acked, finAcked := b.finAcked, phase := b.phase)
  }

  ghost predicate OnlyRequeued(a: Send, b: Send) {
    b == a.(lost := b.lost, finSent := b.finSent)
  }

  ghost predicate AllOnlyAcked(a: Streams, b: Streams) {
    a.Keys == b.Keys && forall id :: id in a ==> OnlyAcked(a[id], b[id])
  }

  ghost predicate AllOnlyRequeued(a: Streams, b: Streams) {
    a.Keys == b.Keys && forall id :: id in a ==> OnlyRequeued(a[id], b[id])
  }

  /** A pull changes a stream only by moving bytes into frames. */
  ghost predicate OnlySent(a: Send, b: Send) {
    && b == a.(lost := b.lost, next := b.next, finSent := b.finSent, phase := b.phase)
    && a.next <= b.next
  }

  ghost predicate AllOnlySent(a: Streams, b: Streams) {
    a.Keys == b.Keys && forall id :: id in a ==> OnlySent(a[id], b[id])
  }

  lemma SentTrans(a: Streams, b: Streams, c: Streams)
    requires (AllOnlySent(a, b) && AllOnlySent(b, c)) || a == b == c
    ensures AllOnlySent(a, c)
  {
  }

  lemma RequeuedTrans(a: Streams, b: Streams, c: Streams)
    requires (AllOnlyRequeued(a, b) && AllOnlyRequeued(b, c)) || a == b == c
    ensures AllOnlyRequeued(a, c)
  {
  }

  lemma OnlyAckedTrans(a: Streams, b: Streams, c: Streams)
    requires (AllOnlyAcked(a, b) && AllOnlyAcked(b, c)) || a == b == c
    ensures AllOnlyAcked(a, c)
  {
  }

  /** Acknowledging a packet adds its own bytes to the acknowledged sets, and nothing else. */
  lemma {:induction false} AckFramesOnly(streams: Streams, fs: seq<Frame>)
    ensures AllOnlyAcked(streams, AckFrames(streams, fs))
    ensures forall id, k :: id in streams && k in AckFrames(streams, fs)[id].acked ==>
              k in streams[id].acked || exists j :: 0 <= j < |fs| && fs[j].Has(id, k)
    decreases |fs|
  {
    if fs != [] {
      var mid := AckFrame(streams, fs[0]);
      AckFramesOnly(mid, fs[1..]);
      forall id, k | id in streams && k in AckFrames(streams, fs)[id].acked
        ensures k in streams[id].acked || exists j :: 0 <= j < |fs| && fs[j].Has(id, k)
      {
        if k !in mid[id].acked {
          var j :| 0 <= j < |fs[1..]| && fs[1..][j].Has(id, k);
          assert fs[j + 1].Has(id, k);
        } else if k !in streams[id].acked {
          assert fs[0].Has(id, k);
        }
      }
    }
  }

  /** Losing a packet queues its own frames, each as one range, behind what was queued before. */
  lemma {:induction false} LoseFramesOnly(streams: Streams, fs: seq<Frame>)
    ensures AllOnlyRequeued(streams, LoseFrames(streams, fs))
    ensures forall id, r :: id in streams && r in LoseFrames(streams, fs)[id].lost ==>
              r in streams[id].lost || exists j :: 0 <= j < |fs| && fs[j].id == id && r == Range(fs[j].off, |fs[j].data|)
    decreases |fs|
  {
    if fs != [] {
      var mid := LoseFrame(streams, fs[0]);
      LoseFramesOnly(mid, fs[1..]);
      forall id, r | id in streams && r in LoseFrames(streams, fs)[id].lost
        ensures r in streams[id].lost || exists j :: 0 <= j < |fs| && fs[j].id == id && r == Range(fs[j].off, |fs[j].data|)
      {
        if r !in mid[id].lost {
          var j :| 0 <= j < |fs[1..]| && fs[1..][j].id == id && r == Range(fs[1..][j].off, |fs[1..][j].data|);
          assert fs[j + 1].id == id && r == Range(fs[j + 1].off, |fs[j + 1].data|);
        } else if r !in streams[id].lost {
          assert fs[0].id == id && r == Range(fs[0].off, |fs[0].data|);
        }
      }
    }
  }
}
