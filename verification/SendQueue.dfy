/**
 The send side of a QUIC stream (stream.cpp, `Stream::write`, `pull_send`,
 `on_acked`, `on_lost`), stated over the whole sequence of bytes ever written.

 The abstract state `Send` never discards a byte: it keeps everything written
 and the set of acknowledged offsets.  The class `SendSide.SendSide` keeps the
 program's compacting buffer instead and is proved to refine it.
 */
module SendQueue {
  import opened Bytes

  datatype SendPhase = Ready | Sending | DataSent | DataRecvd | ResetSent | ResetRecvd

  /** `len` bytes from offset `off`. */
  datatype Range = Range(off: nat, len: nat) {
    function End(): nat { off + len }

    predicate Has(k: nat) { off <= k < End() }
  }

  datatype Send = Send(
    written: seq<Byte>,
    acked: set<nat>,
    lost: seq<Range>,
    next: nat,
    limit: nat,
    finQueued: bool,
    finSent: bool,
    finAcked: bool,
    phase: SendPhase)

  /** What a pull hands to the packet builder. */
  datatype Pulled = Pulled(off: nat, data: seq<Byte>, fin: bool)

  function Fresh(limit: nat): Send {
    Send([], {}, [], 0, limit, false, false, false, Ready)
  }

  predicate AllAcked(s: Send) {
    forall k :: 0 <= k < |s.written| ==> k in s.acked
  }

  /** Only bytes that were sent are acknowledged or lost, never both, and within the peer's limit. */
  ghost predicate Sound(s: Send) {
    && s.next <= |s.written| && s.next <= s.limit
    && (forall k :: k in s.acked ==> k < s.next)
    && (forall i :: 0 <= i < |s.lost| ==> 0 < s.lost[i].len && s.lost[i].End() <= s.next)
    && (forall i, k :: 0 <= i < |s.lost| && k in s.acked ==> !s.lost[i].Has(k))
    && (s.phase in {DataSent, DataRecvd} ==> s.finQueued && s.next == |s.written|)
    && (s.phase == DataRecvd ==> AllAcked(s))
    && (s.phase == Ready ==> s.written == [] && !s.finQueued)
    && (s.finSent ==> s.finQueued)
  }

  /** The bytes of [off, off+len) are outstanding: sent, not acknowledged, not waiting for resend. */
  ghost predicate Outstanding(s: Send, off: nat, len: nat) {
    && (len > 0 ==> off + len <= s.next)
    && (forall k :: off <= k < off + len ==> k !in s.acked)
    && (forall i, k :: 0 <= i < |s.lost| && off <= k < off + len ==> !s.lost[i].Has(k))
  }

  // --------------------------------------------------------------------------
  // Operations
  // --------------------------------------------------------------------------

  predicate Writable(s: Send) {
    s.phase in {Ready, Sending}
  }

  function Write(s: Send, bytes: seq<Byte>, fin: bool): Send {
    if !Writable(s) then s
    else s.(written := s.written + bytes, finQueued := s.finQueued || fin, phase := Sending)
  }

  function Min(a: nat, b: nat): nat {
    if a < b then a else b
  }

  /** How many never-sent bytes the stream, packet and connection limits allow. */
  function FreshTake(s: Send, maxBytes: nat, maxFresh: nat): (n: nat)
    requires s.next <= |s.written|
    ensures n <= maxBytes && n <= maxFresh && s.next + n <= |s.written|
    ensures s.next <= s.limit ==> s.next + n <= s.limit
  {
    if s.next >= s.limit then 0
    else Min(Min(maxBytes, s.limit - s.next), Min(|s.written| - s.next, maxFresh))
  }

  function Pull(s: Send, maxBytes: nat, maxFresh: nat): (res: (Send, Pulled))
    requires Sound(s)
  {
    if maxBytes == 0 then (s, Pulled(0, [], false))
    else if s.lost != [] then
      var r := s.lost[0];
      var take := Min(maxBytes, r.len);
      var fin := s.finQueued && r.off + take == |s.written|;
      (s.(lost := if take == r.len then s.lost[1..] else [Range(r.off + take, r.len - take)] + s.lost[1..],
          finSent := s.finSent || fin),
       Pulled(r.off, s.written[r.off..r.off + take], fin))
    else
      var take := FreshTake(s, maxBytes, maxFresh);
      var fin := s.finQueued && !s.finSent && s.next + take == |s.written|;
      (s.(next := s.next + take,
          finSent := s.finSent || fin,
          phase := if fin && s.phase == Sending then DataSent else s.phase),
       Pulled(if take == 0 && !fin then 0 else s.next, s.written[s.next..s.next + take], fin))
  }

  function Advance(s: Send): Send {
    if s.phase == DataSent && AllAcked(s) && s.finAcked then s.(phase := DataRecvd) else s
  }

  /** An acknowledged frame, before the send state is allowed to advance. */
  function Mark(s: Send, off: nat, len: nat): Send {
    s.(acked := s.acked + Span(off, off + len),
       finAcked := s.finAcked || (s.finSent && (len == 0 || off + len >= |s.written|)))
  }

  function Ack(s: Send, off: nat, len: nat): Send {
    if len == 0 && !s.finSent then s else Advance(Mark(s, off, len))
  }

  function Lose(s: Send, off: nat, len: nat): Send {
    s.(lost := if len > 0 then s.lost + [Range(off, len)] else s.lost,
       finSent := s.finSent && off + len < |s.written|)
  }

  function Grant(s: Send, limit: nat): Send {
    if limit > s.limit then s.(limit := limit) else s
  }

  // --------------------------------------------------------------------------
  // What every operation keeps
  // --------------------------------------------------------------------------

  lemma WriteSound(s: Send, bytes: seq<Byte>, fin: bool)
    requires Sound(s)
    ensures Sound(Write(s, bytes, fin))
  {
  }

  lemma PullSound(s: Send, maxBytes: nat, maxFresh: nat)
    requires Sound(s)
    ensures Sound(Pull(s, maxBytes, maxFresh).0)
  {
    if maxBytes > 0 && s.lost != [] {
      var s' := Pull(s, maxBytes, maxFresh).0;
      forall i, k | 0 <= i < |s'.lost| && k in s'.acked ensures !s'.lost[i].Has(k) {
        assert !s.lost[0].Has(k);
        var j := if |s'.lost| == |s.lost| then i else i + 1;
        assert !s.lost[j].Has(k);
      }
    }
  }

  lemma AckSound(s: Send, off: nat, len: nat)
    requires Sound(s) && Outstanding(s, off, len)
    ensures Sound(Mark(s, off, len)) && Sound(Ack(s, off, len))
  {
  }

  lemma LoseSound(s: Send, off: nat, len: nat)
    requires Sound(s) && Outstanding(s, off, len)
    ensures Sound(Lose(s, off, len))
  {
    assert len > 0 ==> off + len - 1 !in s.acked;
  }

  function Lengths(rs: seq<Range>): nat { if rs == [] then 0 else rs[0].len + Lengths(rs[1..]) }

  /** How much could be sent now: everything lost, and the fresh bytes within the peer's limit. */
  function Sendable(s: Send): nat
    requires Sound(s)
  {
    Lengths(s.lost) + Min(|s.written|, s.limit) - s.next
  }

  /** A pull takes what it hands out, and nothing else, off what is left to send, and hands out something while it may. */
  lemma PullDrains(s: Send, maxBytes: nat, maxFresh: nat)
    requires Sound(s)
    ensures var (s', p) := Pull(s, maxBytes, maxFresh);
            && Sound(s') && Sendable(s) == |p.data| + Sendable(s')
            && |p.data| <= maxBytes && s'.next - s.next <= maxFresh
            && p.off + |p.data| <= |s.written| && p.data == s.written[p.off..p.off + |p.data|]
            && (maxBytes > 0 && maxFresh > 0 && Sendable(s) > 0 ==> p.data != [])
  {
    PullSound(s, maxBytes, maxFresh);
    var (s', p) := Pull(s, maxBytes, maxFresh);
    if maxBytes > 0 && s.lost != [] {
      var r, take := s.lost[0], Min(maxBytes, s.lost[0].len);
      assert 0 < r.len && r.End() <= s.next;
      assert take < r.len ==> s'.lost[1..] == s.lost[1..];
      hide Sound, FreshTake;
    } else {
      assert s.lost == [] ==> Lengths(s.lost) == 0;
      hide Lengths;
    }
  }

  /**
   The pull that puts the FIN on a retransmission while the stream is still in the sending phase: the one branch
   that sets `finSent` without leaving that phase.
   */
  predicate Slips(s: Send, maxBytes: nat) {
    && maxBytes > 0 && s.lost != [] && s.phase == Sending && s.finQueued
    && s.lost[0].off + Min(maxBytes, s.lost[0].len) == |s.written|
  }

  /** The stream has announced its end and still accepts bytes. */
  predicate Slipped(s: Send) { s.finSent && Writable(s) }

  /** A stream that was closed to the application once its FIN was sent stays so, if and only if the pull does not slip. */
  lemma FinClosesStream(s: Send, maxBytes: nat, maxFresh: nat)
    requires Sound(s) && !Slipped(s)
    ensures Slipped(Pull(s, maxBytes, maxFresh).0) <==> Slips(s, maxBytes)
  {
  }

  /** All that was written is lost and the stream then closed: the pull that sends it again slips. */
  lemma SlipSteps(limit: nat, w: seq<Byte>)
    requires w != [] && |w| <= limit
    ensures var s1 := Fresh(limit).(written := w, phase := Sending);
            var s2 := s1.(next := |w|);
            var s3 := s2.(lost := [Range(0, |w|)]);
            var s4 := s3.(finQueued := true);
            && Sound(Fresh(limit)) && Write(Fresh(limit), w, false) == s1
            && Sound(s1) && Pull(s1, |w|, |w|) == (s2, Pulled(0, w, false))
            && Sound(s2) && Outstanding(s2, 0, |w|) && Lose(s2, 0, |w|) == s3
            && Sound(s3) && Write(s3, [], true) == s4
            && Sound(s4) && Slips(s4, |w|)
            && Pull(s4, |w|, |w|) == (s4.(lost := [], finSent := true), Pulled(0, w, true))
  {
    assert [] + w == w && w + [] == w && w[0..|w|] == w;
  }
}
