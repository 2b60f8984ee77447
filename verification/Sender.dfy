/**
 The connection's sending bookkeeping (connection.cpp): packets on record, ACK
 processing, loss detection, probe timeout, and the collection of STREAM frames
 into a packet under stream and connection flow control.

 Streams are held as values; each is the abstract state refined by
 `SendSide.SendSide`.
 */
module Sender {
  import opened Bytes
  import opened SendQueue
  import opened Flight
  import opened AckRanges
  import opened Sums
  import M = Moves

  const PACKET_THRESHOLD: nat := 3
  const STREAM_BUDGET: nat := 1100

  // --------------------------------------------------------------------------
  // Packets on record
  // --------------------------------------------------------------------------

  /** Packet numbers increase, from lo on and below the bound. */
  ghost predicate Ascending(ps: seq<Packet>, lo: nat, bound: nat) {
    ps != [] ==> lo <= ps[0].pn < bound && Ascending(ps[1..], ps[0].pn + 1, bound)
  }

  lemma {:induction false} AscendingFrom(ps: seq<Packet>, lo: nat, lo': nat, bound: nat, bound': nat)
    requires Ascending(ps, lo, bound) && lo' <= lo && bound <= bound'
    ensures Ascending(ps, lo', bound')
  {
    if ps != [] { AscendingFrom(ps[1..], ps[0].pn + 1, ps[0].pn + 1, bound, bound'); }
  }

  lemma {:induction false} AscendingAt(ps: seq<Packet>, i: nat, lo: nat, bound: nat)
    requires Ascending(ps, lo, bound) && i < |ps|
    ensures lo <= ps[i].pn < bound
    ensures forall j :: i < j < |ps| ==> ps[i].pn < ps[j].pn
  {
    if i > 0 {
      AscendingAt(ps[1..], i - 1, ps[0].pn + 1, bound);
      assert forall j :: i < j < |ps| ==> ps[j] == ps[1..][j - 1];
    } else {
      forall j | 0 < j < |ps| ensures ps[0].pn < ps[j].pn {
        AscendingAt(ps[1..], j - 1, ps[0].pn + 1, bound);
      }
    }
  }

  lemma {:induction false} AscendingAppend(ps: seq<Packet>, p: Packet, lo: nat, bound: nat)
    requires Ascending(ps, lo, bound) && bound <= p.pn && lo <= p.pn
    ensures Ascending(ps + [p], lo, p.pn + 1)
  {
    if ps != [] {
      AscendingAppend(ps[1..], p, ps[0].pn + 1, bound);
      assert (ps + [p])[1..] == ps[1..] + [p];
    }
  }

  /** The packets whose number is not in s, in order. */
  ghost function Without(ps: seq<Packet>, s: set<nat>): seq<Packet> {
    if ps == [] then []
    else if ps[0].pn in s then Without(ps[1..], s)
    else [ps[0]] + Without(ps[1..], s)
  }

  lemma {:induction false} WithoutConcat(a: seq<Packet>, b: seq<Packet>, s: set<nat>)
    ensures Without(a + b, s) == Without(a, s) + Without(b, s)
  {
    if a == [] {
      assert a + b == b;
    } else {
      assert (a + b)[1..] == a[1..] + b;
      WithoutConcat(a[1..], b, s);
    }
  }

  lemma {:induction false} WithoutNone(ps: seq<Packet>, s: set<nat>)
    requires forall i :: 0 <= i < |ps| ==> ps[i].pn !in s
    ensures Without(ps, s) == ps
  {
    if ps != [] { WithoutNone(ps[1..], s); }
  }

  lemma {:induction false} WithoutAll(ps: seq<Packet>, s: set<nat>)
    requires forall i :: 0 <= i < |ps| ==> ps[i].pn in s
    ensures Without(ps, s) == []
  {
    if ps != [] { WithoutAll(ps[1..], s); }
  }

  lemma {:induction false} WithoutTwice(ps: seq<Packet>, s: set<nat>, t: set<nat>)
    ensures Without(Without(ps, s), t) == Without(ps, s + t)
  {
    if ps != [] {
      WithoutTwice(ps[1..], s, t);
      if ps[0].pn !in s {
        assert Without(ps, s)[1..] == Without(ps[1..], s);
      }
    }
  }

  lemma {:induction false} WithoutAscending(ps: seq<Packet>, s: set<nat>, lo: nat, bound: nat)
    requires Ascending(ps, lo, bound)
    ensures Ascending(Without(ps, s), lo, bound)
  {
    if ps != [] {
      WithoutAscending(ps[1..], s, ps[0].pn + 1, bound);
      if ps[0].pn in s {
        AscendingFrom(Without(ps[1..], s), ps[0].pn + 1, lo, bound, bound);
      }
    }
  }

  /** Cutting out exactly the packets of s. */
  lemma WithoutMiddle(ps: seq<Packet>, a: nat, b: nat, s: set<nat>)
    requires a <= b <= |ps|
    requires forall i :: 0 <= i < |ps| ==> (ps[i].pn in s <==> a <= i < b)
    ensures Without(ps, s) == ps[..a] + ps[b..]
  {
    hide Without;
    var x, y, z := ps[..a], ps[a..b], ps[b..];
    assert ps == x + (y + z);
    WithoutConcat(x, y + z, s);
    WithoutConcat(y, z, s);
    WithoutNone(x, s);
    WithoutAll(y, s);
    WithoutNone(z, s);
  }

  /** The packets that are not dropped, in order. */
  ghost function Keep(ps: seq<Packet>, drop: Packet -> bool): seq<Packet> {
    if ps == [] then []
    else Keep(ps[..|ps| - 1], drop) + if drop(ps[|ps| - 1]) then [] else [ps[|ps| - 1]]
  }

  /** Section 6.1 of RFC 9002: too far behind the largest acknowledged packet, or sent too long ago. */
  predicate Overdue(p: Packet, largest: nat, cutoff: int) {
    p.pn < largest && (largest - p.pn >= PACKET_THRESHOLD || p.sentAt <= cutoff)
  }

  ghost function OverdueFor(largest: nat, cutoff: int): Packet -> bool {
    p => Overdue(p, largest, cutoff)
  }

  ghost function Eliciting(): Packet -> bool {
    (p: Packet) => p.ackEliciting
  }

  lemma {:induction false} KeepAscending(ps: seq<Packet>, drop: Packet -> bool, bound: nat)
    requires Ascending(ps, 0, bound)
    ensures Ascending(Keep(ps, drop), 0, bound)
    ensures Keep(ps, drop) != [] ==> Keep(ps, drop)[|Keep(ps, drop)| - 1].pn < bound
    decreases |ps|
  {
    if ps != [] {
      var init, p := ps[..|ps| - 1], ps[|ps| - 1];
      AscendingInit(ps, 0, bound);
      KeepAscending(init, drop, p.pn);
      AscendingFrom(Keep(init, drop), 0, 0, p.pn, bound);
      if drop(p) {
        assert Keep(ps, drop) == Keep(init, drop);
      } else {
        AscendingAppend(Keep(init, drop), p, 0, p.pn);
        AscendingFrom(Keep(init, drop) + [p], 0, 0, p.pn + 1, bound);
      }
    }
  }

  lemma {:induction false} AscendingInit(ps: seq<Packet>, lo: nat, bound: nat)
    requires Ascending(ps, lo, bound) && ps != []
    ensures lo <= ps[|ps| - 1].pn < bound
    ensures Ascending(ps[..|ps| - 1], lo, ps[|ps| - 1].pn)
  {
    if |ps| > 1 {
      AscendingInit(ps[1..], ps[0].pn + 1, bound);
      assert ps[..|ps| - 1][1..] == ps[1..][..|ps| - 2];
    }
  }

  /** Dropping nothing from the tail. */
  lemma {:induction false} KeepTail(a: seq<Packet>, b: seq<Packet>, drop: Packet -> bool)
    requires forall i :: 0 <= i < |b| ==> !drop(b[i])
    ensures Keep(a + b, drop) == Keep(a, drop) + b
    decreases |b|
  {
    if b == [] {
      assert a + b == a;
    } else {
      var init := b[..|b| - 1];
      KeepTail(a, init, drop);
      assert (a + b)[..|a + b| - 1] == a + init;
      assert init + [b[|b| - 1]] == b;
    }
  }

  /** A record whose first `past` packets have been filtered. */
  ghost function Filtered(ps: seq<Packet>, past: nat, drop: Packet -> bool): (r: seq<Packet>)
    requires past <= |ps|
    ensures |r| == |Keep(ps[..past], drop)| + |ps| - past
  {
    Keep(ps[..past], drop) + ps[past..]
  }

  lemma KeepStart(ps: seq<Packet>, drop: Packet -> bool)
    ensures Filtered(ps, 0, drop) == ps && Keep(ps[..0], drop) == []
  {
  }

  /** Looking at one more packet: it is passed over, or taken out. */
  lemma KeepStep(ps: seq<Packet>, past: nat, drop: Packet -> bool)
    requires past < |ps|
    ensures var now, it := Filtered(ps, past, drop), |Keep(ps[..past], drop)|;
            && it < |now| && now[it] == ps[past]
            && (drop(ps[past]) ==>
                  Filtered(ps, past + 1, drop) == now[..it] + now[it + 1..] && |Keep(ps[..past + 1], drop)| == it)
            && (!drop(ps[past]) ==> Filtered(ps, past + 1, drop) == now && |Keep(ps[..past + 1], drop)| == it + 1)
  {
    assert ps[..past + 1][..past] == ps[..past];
    assert ps[past..] == [ps[past]] + ps[past + 1..];
  }

  /** Once nothing further is to be dropped, the record is the filtered one. */
  lemma KeepRest(ps: seq<Packet>, past: nat, drop: Packet -> bool)
    requires past <= |ps| && forall i :: past <= i < |ps| ==> !drop(ps[i])
    ensures Filtered(ps, past, drop) == Keep(ps, drop)
  {
    assert ps == ps[..past] + ps[past..];
    KeepTail(ps[..past], ps[past..], drop);
  }

  ghost function Nexts(streams: Streams): map<nat, nat> {
    map id | id in streams :: streams[id].next
  }

  /** Stream bytes in the frames. */
  function Carried(fs: seq<Frame>): nat { if fs == [] then 0 else Carried(fs[..|fs| - 1]) + |fs[|fs| - 1].data| }

  lemma CarriedMore(fs: seq<Frame>, f: Frame)
    ensures Carried(fs + [f]) == Carried(fs) + |f.data|
  {
    assert (fs + [f])[..|fs|] == fs;
  }

  /** With so much room left in the packet and on the connection, the stream has nothing more to send. */
  ghost predicate UsedUp(s: Send, room: int, credit: int) {
    && Sound(s) && room >= 0 && credit >= 0
    && (room > 0 ==> Pull(s, room, credit).1.data == [] && !Pull(s, room, credit).1.fin)
  }

  lemma PullAgain(s: Send, room: nat, credit: nat)
    requires Sound(s) && room > 0 && Pull(s, room, credit).1.data == []
    ensures UsedUp(Pull(s, room, credit).0, room, credit) && Pull(s, room, credit).0.next == s.next
    ensures !Pull(s, room, credit).1.fin ==> Pull(s, room, credit).0 == s
  {
    PullSound(s, room, credit);
  }

  lemma NoRoom(s: Send, credit: nat)
    requires Sound(s)
    ensures UsedUp(s, 0, credit)
  {
  }

  lemma WalkStart(f: AckFrame)
    ensures Walk(f) == if f.firstRange > f.largestAcked then {}
                       else Span(f.largestAcked - f.firstRange, f.largestAcked + 1)
                            + WalkFrom(f.largestAcked - f.firstRange, f.ranges[0..])
  {
    assert f.ranges[0..] == f.ranges;
  }

  /** One more range of the frame, or the end of the walk where the range would go below zero. */
  lemma WalkNext(lo: nat, rs: seq<AckGap>, i: nat)
    requires i < |rs|
    ensures WalkFrom(lo, rs[i..]) ==
            if lo < rs[i].gap + 2 || rs[i].length > lo - rs[i].gap - 2 then {}
            else
              var hi := lo - rs[i].gap - 2;
              Span(hi - rs[i].length, hi + 1) + WalkFrom(hi - rs[i].length, rs[i + 1..])
  {
    assert rs[i..][1..] == rs[i + 1..];
  }

  lemma WalkDone(lo: nat, rs: seq<AckGap>)
    ensures WalkFrom(lo, rs[|rs|..]) == {}
  {
  }

  class Connection {
    var streams: Streams
    var sent: seq<Packet>
    var nextPn: nat
    var largestAcked: Option<nat>
    var sendMax: nat
    var sendTotal: nat
    var anyAckElicitingSent: bool
    var lastAckElicitingSend: int
    ghost var retiredNext: nat

    ghost predicate Valid()
      reads this
    {
      && Conserved(streams, [], sent)
      && Ascending(sent, 0, nextPn)
      && sendTotal == retiredNext + Total(Nexts(streams)) <= sendMax
    }

    ghost function Now(): M.Hold
      reads this
    {
      M.Hold(streams, [], sent, nextPn)
    }

    constructor ()
      ensures Valid() && streams == map[] && sent == [] && nextPn == 0
    {
      streams, sent, nextPn, largestAcked, retiredNext := map[], [], 0, None, 0;
      sendMax, sendTotal, anyAckElicitingSent, lastAckElicitingSend := 0, 0, false, 0;
    }

    /** Get-or-create: a stream that is not on record starts with nothing written or sent. */
    method EnsureStream(id: nat, limit: nat)
      requires Valid()
      modifies this`streams
      ensures Valid()
      ensures streams == if id in old(streams) then old(streams) else old(streams)[id := Fresh(limit)]
    {
      hide Conserved, Total;
      if id !in streams {
        OpenConserved(streams, id, limit, [], sent);
        TotalUpdate(Nexts(streams), id, 0);
        assert Nexts(streams[id := Fresh(limit)]) == Nexts(streams)[id := 0];
        streams := streams[id := Fresh(limit)];
      }
    }

    method WriteStream(id: nat, limit: nat, bytes: seq<Byte>, fin: bool)
      requires Valid()
      modifies this`streams
      ensures Valid()
      ensures id in streams
      ensures var s := if id in old(streams) then old(streams)[id] else Fresh(limit);
              streams == old(streams)[id := Write(s, bytes, fin)]
      ensures id in old(streams) ==> M.Leads(old(Now()), {}, Now())
    {
      hide Conserved, Total;
      if id in streams { M.Single(Now(), M.Writes(id, bytes, fin), {}); }
      EnsureStream(id, limit);
      WriteConserved(streams, id, bytes, fin, [], sent);
      assert Nexts(streams[id := Write(streams[id], bytes, fin)]) == Nexts(streams);
      streams := streams[id := Write(streams[id], bytes, fin)];
    }

    /** MAX_DATA: the connection limit only ever grows. */
    method OnMaxData(maximum: nat)
      requires Valid()
      modifies this`sendMax
      ensures Valid()
      ensures sendMax == if maximum > old(sendMax) then maximum else old(sendMax)
    {
      if maximum > sendMax {
        sendMax := maximum;
      }
    }

    /** A stream is dropped: every account still balances, if and only if nothing of it is in flight. */
    method Retire(id: nat)
      requires Valid() && id in streams
      modifies this`streams, this`retiredNext
      ensures Valid() <==> NoneInFlight(sent, id)
      ensures streams == old(streams) - {id}
    {
      hide Conserved, Total, NoneInFlight;
      RetireConserved(streams, id, sent);
      TotalRemove(Nexts(streams), id);
      assert Nexts(streams - {id}) == Nexts(streams) - {id};
      retiredNext := retiredNext + streams[id].next;
      streams := streams - {id};
    }

    /** Every stream on record acknowledges the frames of packet i, which then leaves the record. */
    method AckEntry(i: nat)
      requires Conserved(streams, [], sent) && i < |sent|
      modifies this`streams, this`sent
      ensures Conserved(streams, [], sent)
      ensures sent == old(sent[..i] + sent[i + 1..])
      ensures AllOnlyAcked(old(streams), streams)
      ensures streams == AckFrames(old(streams), old(sent[i].frames))
    {
      hide Conserved;
      var fs := sent[i].frames;
      TakeOut(streams, [], sent, i);
      assert fs + [] == fs;
      AckFramesConserved(streams, fs, [], sent[..i] + sent[i + 1..]);
      var j := 0;
      assert fs[0..] == fs;
      while j < |fs|
        invariant j <= |fs| && sent == old(sent)
        invariant AckFrames(streams, fs[j..]) == AckFrames(old(streams), fs)
        invariant AllOnlyAcked(old(streams), streams)
      {
        var f := fs[j];
        assert fs[j..][1..] == fs[j + 1..];
        if f.id in streams {
          streams := streams[f.id := Ack(streams[f.id], f.off, |f.data|)];
        }
        j := j + 1;
      }
      sent := sent[..i] + sent[i + 1..];
    }

    /** Acknowledges every packet on record numbered lo..hi. */
    method AckRange(lo: nat, hi: nat)
      requires Conserved(streams, [], sent) && Ascending(sent, 0, nextPn)
      modifies this`streams, this`sent
      ensures Conserved(streams, [], sent) && Ascending(sent, 0, nextPn)
      ensures sent == Without(old(sent), Span(lo, hi + 1))
      ensures AllOnlyAcked(old(streams), streams)
      ensures M.Leads(old(Now()), Span(lo, hi + 1), Now())
    {
      hide Conserved, Without, AllOnlyAcked, Ascending, M.Leads;
      OnlyAckedTrans(streams, streams, streams);
      M.Stays(Now(), Span(lo, hi + 1));
      if lo > hi {
        assert Span(lo, hi + 1) == {};
        WithoutNone(sent, {});
        return;
      }
      var it := 0;
      while it < |sent| && sent[it].pn < lo
        invariant it <= |sent|
        invariant forall k :: 0 <= k < it ==> sent[k].pn < lo
      {
        it := it + 1;
      }
      ghost var past := it;
      ghost var ps := sent;
      if it < |ps| { AscendingAt(ps, it, 0, nextPn); }
      while it < |sent| && sent[it].pn <= hi
        invariant it <= past <= |ps| && sent == ps[..it] + ps[past..]
        invariant forall k :: it <= k < past ==> lo <= ps[k].pn <= hi
        invariant Conserved(streams, [], sent) && AllOnlyAcked(old(streams), streams)
        invariant M.Leads(old(Now()), Span(lo, hi + 1), Now())
        decreases |sent|
      {
        ghost var before, was := streams, Now();
        assert sent[it] == ps[past];
        AckEntry(it);
        OnlyAckedTrans(old(streams), before, streams);
        AckMoves(old(Now()), was, it, Span(lo, hi + 1), Now());
        past := past + 1;
      }
      if past < |ps| { assert sent[it] == ps[past]; AscendingAt(ps, past, 0, nextPn); }
      WithoutMiddle(ps, it, past, Span(lo, hi + 1));
      WithoutAscending(ps, Span(lo, hi + 1), 0, nextPn);
    }

    /** Acknowledges every packet on record that the frame names, and no other. */
    method AckWalk(f: AckFrame)
      requires Conserved(streams, [], sent) && Ascending(sent, 0, nextPn)
      modifies this`streams, this`sent
      ensures Conserved(streams, [], sent) && Ascending(sent, 0, nextPn)
      ensures sent == Without(old(sent), Walk(f))
      ensures AllOnlyAcked(old(streams), streams)
      ensures M.Leads(old(Now()), Walk(f), Now())
    {
      hide Conserved, Without, AllOnlyAcked, Ascending, Span, Walk, WalkFrom, M.Leads;
      OnlyAckedTrans(streams, streams, streams);
      M.Stays(Now(), Walk(f));
      WalkStart(f);
      if f.firstRange > f.largestAcked {
        WithoutNone(sent, {});
        return;
      }
      var hi: nat := f.largestAcked;
      var lo: nat := hi - f.firstRange;
      AckRange(lo, hi);
      ghost var done := Span(lo, hi + 1);
      M.Widen(old(Now()), done, Walk(f), Now());
      var i := 0;
      while i < |f.ranges|
        invariant i <= |f.ranges|
        invariant done + WalkFrom(lo, f.ranges[i..]) == Walk(f)
        invariant Conserved(streams, [], sent) && Ascending(sent, 0, nextPn)
        invariant sent == Without(old(sent), done) && AllOnlyAcked(old(streams), streams)
        invariant M.Leads(old(Now()), Walk(f), Now())
      {
        var r := f.ranges[i];
        WalkNext(lo, f.ranges, i);
        if lo < r.gap + 2 {
          break;
        }
        hi := lo - r.gap - 2;
        if r.length > hi {
          break;
        }
        lo := hi - r.length;
        ghost var before, was := streams, Now();
        AckRange(lo, hi);
        OnlyAckedTrans(old(streams), before, streams);
        M.Widen(was, Span(lo, hi + 1), Walk(f), Now());
        M.Then(old(Now()), Walk(f), was, Now());
        WithoutTwice(old(sent), done, Span(lo, hi + 1));
        done := done + Span(lo, hi + 1);
        i := i + 1;
      }
      if i == |f.ranges| { WalkDone(lo, f.ranges); }
      assert done == Walk(f);
    }

    /** Every stream on record queues the frames of packet i again, and the packet leaves the record. */
    method LoseEntry(i: nat)
      requires Conserved(streams, [], sent) && i < |sent|
      modifies this`streams, this`sent
      ensures Conserved(streams, [], sent)
      ensures sent == old(sent[..i] + sent[i + 1..])
      ensures AllOnlyRequeued(old(streams), streams)
      ensures streams == LoseFrames(old(streams), old(sent[i].frames))
    {
      hide Conserved;
      var fs := sent[i].frames;
      TakeOut(streams, [], sent, i);
      assert fs + [] == fs;
      LoseFramesConserved(streams, fs, [], sent[..i] + sent[i + 1..]);
      var j := 0;
      assert fs[0..] == fs;
      while j < |fs|
        invariant j <= |fs| && sent == old(sent)
        invariant LoseFrames(streams, fs[j..]) == LoseFrames(old(streams), fs)
        invariant AllOnlyRequeued(old(streams), streams)
      {
        var f := fs[j];
        assert fs[j..][1..] == fs[j + 1..];
        if f.id in streams {
          streams := streams[f.id := Lose(streams[f.id], f.off, |f.data|)];
        }
        j := j + 1;
      }
      sent := sent[..i] + sent[i + 1..];
    }

    /** Declares lost exactly the overdue packets. */
    method DetectLoss(cutoff: int)
      requires Conserved(streams, [], sent) && Ascending(sent, 0, nextPn)
      modifies this`streams, this`sent
      ensures Conserved(streams, [], sent) && Ascending(sent, 0, nextPn)
      ensures largestAcked == None ==> sent == old(sent)
      ensures largestAcked.Some? ==> sent == Keep(old(sent), OverdueFor(largestAcked.value, cutoff))
      ensures AllOnlyRequeued(old(streams), streams)
      ensures M.Leads(old(Now()), {}, Now())
    {
      hide Conserved, AllOnlyRequeued, Ascending, Keep, Filtered, M.Leads;
      RequeuedTrans(streams, streams, streams);
      M.Stays(Now(), {});
      if largestAcked == None {
        return;
      }
      var largest := largestAcked.value;
      ghost var drop := OverdueFor(largest, cutoff);
      ghost var ps, past := sent, 0;
      KeepAscending(ps, drop, nextPn);
      KeepStart(ps, drop);
      var it := 0;
      while it < |sent| && sent[it].pn < largest
        invariant past <= |ps| && it == |Keep(ps[..past], drop)|
        invariant sent == Filtered(ps, past, drop)
        invariant Conserved(streams, [], sent) && AllOnlyRequeued(old(streams), streams)
        invariant M.Leads(old(Now()), {}, Now())
        decreases |ps| - past
      {
        ghost var before, was := streams, Now();
        KeepStep(ps, past, drop);
        if largest - sent[it].pn >= PACKET_THRESHOLD || sent[it].sentAt <= cutoff {
          LoseEntry(it);
          RequeuedTrans(old(streams), before, streams);
          LoseMoves(old(Now()), was, it, Now());
        } else {
          it := it + 1;
        }
        past := past + 1;
      }
      if past < |ps| {
        KeepStep(ps, past, drop);
        AscendingAt(ps, past, 0, nextPn);
      }
      KeepRest(ps, past, drop);
    }

    /**
     ACK processing: acknowledges what the frame names, then declares overdue packets lost.  With the bytes
     conserved in between, exactly the named packets' bytes become acknowledged and exactly the overdue ones'
     are queued again.
     */
    method OnAckFrame(f: AckFrame, cutoff: int)
      requires Valid()
      modifies this`streams, this`sent, this`largestAcked
      ensures Valid()
      ensures largestAcked == Some(if old(largestAcked).Some? && f.largestAcked <= old(largestAcked).value
                                   then old(largestAcked).value else f.largestAcked)
      ensures f.firstRange <= f.largestAcked ==>
                sent == Keep(Without(old(sent), Walk(f)), OverdueFor(largestAcked.value, cutoff))
      ensures f.firstRange > f.largestAcked ==> sent == old(sent) && streams == old(streams)
      ensures f.firstRange <= f.largestAcked ==>
                exists between :: AllOnlyAcked(old(streams), between) && AllOnlyRequeued(between, streams)
                               && Conserved(between, [], Without(old(sent), Walk(f)))
      ensures forall id :: id in old(streams) ==> id in streams && old(streams[id].acked) <= streams[id].acked
      ensures M.Leads(old(Now()), Walk(f), Now())
    {
      hide Conserved, Ascending, Walk, Without, Keep, Total, Nexts, AllOnlyAcked, AllOnlyRequeued, M.Leads;
      KeepsAcked(streams, streams, streams);
      M.Stays(Now(), Walk(f));
      if largestAcked.None? || f.largestAcked > largestAcked.value {
        largestAcked := Some(f.largestAcked);
      }
      if f.firstRange > f.largestAcked {
        return;
      }
      AckWalk(f);
      ghost var between, was := streams, Now();
      DetectLoss(cutoff);
      KeepsAcked(old(streams), between, streams);
      M.Widen(was, {}, Walk(f), Now());
      M.Then(old(Now()), Walk(f), was, Now());
    }

    /** Probe timeout: every ack-eliciting packet on record is declared lost. */
    method CheckPto(now: int, pto: int)
      requires Valid()
      modifies this`streams, this`sent, this`anyAckElicitingSent
      ensures Valid()
      ensures var fires := old(anyAckElicitingSent) && old(sent) != [] && now - lastAckElicitingSend >= pto;
              && sent == (if fires then Keep(old(sent), Eliciting()) else old(sent))
              && anyAckElicitingSent == (old(anyAckElicitingSent) && !fires)
      ensures AllOnlyRequeued(old(streams), streams)
      ensures M.Leads(old(Now()), {}, Now())
    {
      hide Conserved, AllOnlyRequeued, Ascending, Keep, Total, Nexts, M.Leads;
      RequeuedTrans(streams, streams, streams);
      M.Stays(Now(), {});
      if !anyAckElicitingSent || sent == [] || now - lastAckElicitingSend < pto {
        return;
      }
      RequeueEliciting();
      RequeuedNexts(old(streams), streams);
      anyAckElicitingSent := false;
    }

    /** One pull: a frame more, or nothing more to send within the room and the connection's credit. */
    method PullOnce(id: nat, frames: seq<Frame>, room: nat) returns (frames': seq<Frame>, taken: nat)
      requires Conserved(streams, frames, sent) && id in streams && room > 0
      requires sendTotal == retiredNext + Total(Nexts(streams)) <= sendMax
      requires forall i :: 0 <= i < |frames| ==> Authentic(streams, frames[i])
      modifies this`streams, this`sendTotal
      ensures Conserved(streams, frames', sent) && id in streams
      ensures sendTotal == retiredNext + Total(Nexts(streams)) <= sendMax
      ensures frames <= frames' && forall i :: 0 <= i < |frames'| ==> Authentic(streams, frames'[i])
      ensures AllOnlySent(old(streams), streams)
      ensures Carried(frames') == Carried(frames) + taken && taken <= room
      ensures |frames'| == |frames| ==> streams == old(streams) && sendTotal == old(sendTotal)
      ensures taken == 0 ==> UsedUp(streams[id], room, sendMax - sendTotal)
      ensures M.Leads(M.Hold(old(streams), frames, sent, nextPn), {}, M.Hold(streams, frames', sent, nextPn))
    {
      hide Conserved, Total, Nexts, Authentic, AllOnlySent, Pull, Carried, UsedUp, M.Leads;
      ghost var before := streams;
      AllSound(streams, frames, sent);
      var connBudget := sendMax - sendTotal;
      PullConserved(streams, id, room, connBudget, frames, sent);
      PullSent(streams, id, room, connBudget);
      var (s', p) := Pull(streams[id], room, connBudget);
      M.Single(M.Hold(streams, frames, sent, nextPn), M.Pulls(id, room, connBudget), {});
      taken := |p.data|;
      if p.data == [] { PullAgain(streams[id], room, connBudget); }
      if p.data == [] && !p.fin {
        SentTrans(streams, streams, streams);
        return frames, taken;
      }
      sendTotal := sendTotal + (s'.next - streams[id].next);
      streams := streams[id := s'];
      StillAuthentic(before, streams, frames);
      CarriedMore(frames, FrameOf(id, p));
      frames' := frames + [FrameOf(id, p)];
    }

    /** Pulls from one stream until its share of the packet, or the stream itself, is used up. */
    method CollectStream(id: nat, frames: seq<Frame>) returns (frames': seq<Frame>)
      requires Conserved(streams, frames, sent) && id in streams
      requires sendTotal == retiredNext + Total(Nexts(streams)) <= sendMax
      requires forall i :: 0 <= i < |frames| ==> Authentic(streams, frames[i])
      modifies this`streams, this`sendTotal
      ensures Conserved(streams, frames', sent)
      ensures sendTotal == retiredNext + Total(Nexts(streams)) <= sendMax
      ensures frames <= frames' && forall i :: 0 <= i < |frames'| ==> Authentic(streams, frames'[i])
      ensures AllOnlySent(old(streams), streams)
      ensures |frames'| == |frames| ==> streams == old(streams) && sendTotal == old(sendTotal)
      ensures id in streams && UsedUp(streams[id], STREAM_BUDGET - (Carried(frames') - Carried(frames)), sendMax - sendTotal)
      ensures M.Leads(M.Hold(old(streams), frames, sent, nextPn), {}, M.Hold(streams, frames', sent, nextPn))
    {
      hide Conserved, Total, Nexts, Authentic, AllOnlySent, Carried, UsedUp, M.Leads;
      SentTrans(streams, streams, streams);
      frames' := frames;
      M.Stays(M.Hold(streams, frames, sent, nextPn), {});
      var budget := STREAM_BUDGET;
      while budget > 0
        invariant Conserved(streams, frames', sent) && id in streams
        invariant sendTotal == retiredNext + Total(Nexts(streams)) <= sendMax
        invariant frames <= frames' && forall i :: 0 <= i < |frames'| ==> Authentic(streams, frames'[i])
        invariant AllOnlySent(old(streams), streams)
        invariant budget >= 0 && Carried(frames') == Carried(frames) + STREAM_BUDGET - budget
        invariant |frames'| == |frames| ==> streams == old(streams) && sendTotal == old(sendTotal)
        invariant M.Leads(M.Hold(old(streams), frames, sent, nextPn), {}, M.Hold(streams, frames', sent, nextPn))
      {
        ghost var before, was := streams, M.Hold(streams, frames', sent, nextPn);
        var taken;
        frames', taken := PullOnce(id, frames', budget);
        SentTrans(old(streams), before, streams);
        M.Then(M.Hold(old(streams), frames, sent, nextPn), {}, was, M.Hold(streams, frames', sent, nextPn));
        if taken == 0 {
          return;
        }
        budget := budget - taken;
      }
      AllSound(streams, frames', sent);
      NoRoom(streams[id], sendMax - sendTotal);
    }

    /** The frames of the next packet: each stream in order of its id, up to its share. */
    method CollectAll() returns (frames: seq<Frame>)
      requires Conserved(streams, [], sent) && sendTotal == retiredNext + Total(Nexts(streams)) <= sendMax
      modifies this`streams, this`sendTotal
      ensures Conserved(streams, frames, sent) && sendTotal == retiredNext + Total(Nexts(streams)) <= sendMax
      ensures forall i :: 0 <= i < |frames| ==> Authentic(streams, frames[i])
      ensures AllOnlySent(old(streams), streams)
      ensures frames == [] ==> streams == old(streams) && sendTotal == old(sendTotal)
      ensures frames == [] ==> forall id :: id in streams ==> UsedUp(streams[id], STREAM_BUDGET, sendMax - sendTotal)
      ensures M.Leads(old(Now()), {}, M.Hold(streams, frames, sent, nextPn))
    {
      hide Conserved, Total, Nexts, Authentic, AllOnlySent, UsedUp, Carried, M.Leads;
      SentTrans(streams, streams, streams);
      frames := [];
      M.Stays(Now(), {});
      var todo := streams.Keys;
      while todo != {}
        invariant Conserved(streams, frames, sent) && todo <= streams.Keys
        invariant sendTotal == retiredNext + Total(Nexts(streams)) <= sendMax
        invariant forall i :: 0 <= i < |frames| ==> Authentic(streams, frames[i])
        invariant AllOnlySent(old(streams), streams)
        invariant frames == [] ==> streams == old(streams) && sendTotal == old(sendTotal)
        invariant frames == [] ==>
                    forall j :: j in streams && j !in todo ==> UsedUp(streams[j], STREAM_BUDGET, sendMax - sendTotal)
        invariant M.Leads(old(Now()), {}, M.Hold(streams, frames, sent, nextPn))
        decreases |todo|
      {
        ghost var before, was := streams, M.Hold(streams, frames, sent, nextPn);
        var some :| some in todo;
        LeastExists(todo, some);
        var id :| id in todo && forall j :: j in todo ==> id <= j;
        frames := CollectStream(id, frames);
        SentTrans(old(streams), before, streams);
        M.Then(old(Now()), {}, was, M.Hold(streams, frames, sent, nextPn));
        SameKeys(before, streams);
        todo := todo - {id};
      }
    }

    /**
     Builds one 1-RTT packet and puts it on record.  `ackOwed` says an ACK frame is due, `other`
     that some other ack-eliciting frame is; sealing the packet is taken to succeed.  No packet is built only
     when nothing is due and no stream has anything it may send.
     */
    method BuildAndSend(peerMax: nat, ackOwed: bool, other: bool, now: int) returns (packet: Option<Packet>)
      requires Valid()
      modifies this
      ensures Valid()
      ensures sendMax == if peerMax > old(sendMax) then peerMax else old(sendMax)
      ensures AllOnlySent(old(streams), streams)
      ensures packet.Some? ==>
                && packet.value.pn == old(nextPn) && nextPn == old(nextPn) + 1
                && sent == old(sent) + [packet.value]
                && forall i :: 0 <= i < |packet.value.frames| ==> Authentic(streams, packet.value.frames[i])
      ensures packet.None? ==>
                && sent == old(sent) && nextPn == old(nextPn) && streams == old(streams) && !ackOwed && !other
                && forall id :: id in streams ==> UsedUp(streams[id], STREAM_BUDGET, sendMax - sendTotal)
      ensures M.Leads(old(Now()), {}, Now())
    {
      hide Conserved, Total, Nexts, Authentic, AllOnlySent, Ascending, UsedUp, Carried, M.Leads;
      if peerMax > sendMax {
        sendMax := peerMax;
      }
      var frames := CollectAll();
      if frames == [] && !ackOwed && !other {
        return None;
      }
      var p := Packet(nextPn, frames, frames != [] || other, now);
      PutOnRecord(streams, frames, sent, p);
      AscendingAppend(sent, p, 0, nextPn);
      ghost var was := M.Hold(streams, frames, sent, nextPn);
      M.Single(was, M.Seals(p.ackEliciting, now), {});
      sent := sent + [p];
      nextPn := nextPn + 1;
      M.Then(old(Now()), {}, was, Now());
      if p.ackEliciting {
        lastAckElicitingSend := now;
        anyAckElicitingSent := true;
      }
      return Some(p);
    }

    method RequeueEliciting()
      requires Conserved(streams, [], sent) && Ascending(sent, 0, nextPn)
      modifies this`streams, this`sent
      ensures Conserved(streams, [], sent) && Ascending(sent, 0, nextPn)
      ensures sent == Keep(old(sent), Eliciting())
      ensures AllOnlyRequeued(old(streams), streams)
      ensures M.Leads(old(Now()), {}, Now())
    {
      hide Conserved, AllOnlyRequeued, Ascending, Keep, Filtered, M.Leads;
      RequeuedTrans(streams, streams, streams);
      M.Stays(Now(), {});
      ghost var drop := Eliciting();
      ghost var ps, past := sent, 0;
      KeepAscending(ps, drop, nextPn);
      KeepStart(ps, drop);
      var it := 0;
      while it < |sent|
        invariant past <= |ps| && it == |Keep(ps[..past], drop)|
        invariant sent == Filtered(ps, past, drop)
        invariant Conserved(streams, [], sent) && AllOnlyRequeued(old(streams), streams)
        invariant M.Leads(old(Now()), {}, Now())
        decreases |ps| - past
      {
        ghost var before, was := streams, Now();
        KeepStep(ps, past, drop);
        if !sent[it].ackEliciting {
          it := it + 1;
        } else {
          LoseEntry(it);
          RequeuedTrans(old(streams), before, streams);
          LoseMoves(old(Now()), was, it, Now());
        }
        past := past + 1;
      }
      if past < |ps| { KeepStep(ps, past, drop); }
      KeepRest(ps, past, drop);
    }
  }

  /** One packet more is acknowledged, or declared lost. */
  lemma AckMoves(a: M.Hold, b: M.Hold, i: nat, named: set<nat>, c: M.Hold)
    requires M.Leads(a, named, b) && i < |b.sent| && b.sent[i].pn in named
    requires c == b.(streams := AckFrames(b.streams, b.sent[i].frames), sent := b.sent[..i] + b.sent[i + 1..])
    ensures M.Leads(a, named, c)
  {
    hide M.Leads, AckFrames;
    M.Single(b, M.Acks(i), named);
    M.Then(a, named, b, c);
  }

  lemma LoseMoves(a: M.Hold, b: M.Hold, i: nat, c: M.Hold)
    requires M.Leads(a, {}, b) && i < |b.sent|
    requires c == b.(streams := LoseFrames(b.streams, b.sent[i].frames), sent := b.sent[..i] + b.sent[i + 1..])
    ensures M.Leads(a, {}, c)
  {
    hide M.Leads, LoseFrames;
    M.Single(b, M.Loses(i), {});
    M.Then(a, {}, b, c);
  }

  lemma SameKeys(a: Streams, b: Streams)
    requires AllOnlySent(a, b)
    ensures a.Keys == b.Keys
  {
  }

  lemma StillAuthentic(a: Streams, b: Streams, fs: seq<Frame>)
    requires AllOnlySent(a, b) && forall i :: 0 <= i < |fs| ==> Authentic(a, fs[i])
    ensures forall i :: 0 <= i < |fs| ==> Authentic(b, fs[i])
  {
  }

  lemma AllSound(streams: Streams, fs: seq<Frame>, ps: seq<Packet>)
    requires Conserved(streams, fs, ps)
    ensures forall id :: id in streams ==> Sound(streams[id])
  {
  }

  /** Only fresh bytes count against the connection, and no more of them than it has left. */
  lemma PullSent(streams: Streams, id: nat, maxBytes: nat, maxFresh: nat)
    requires id in streams && Sound(streams[id])
    ensures var (s', p) := Pull(streams[id], maxBytes, maxFresh);
            && AllOnlySent(streams, streams[id := s'])
            && Authentic(streams[id := s'], FrameOf(id, p))
            && |p.data| <= maxBytes
            && 0 <= s'.next - streams[id].next <= maxFresh
            && Total(Nexts(streams[id := s'])) == Total(Nexts(streams)) + (s'.next - streams[id].next)
  {
    var (s', p) := Pull(streams[id], maxBytes, maxFresh);
    PullAuthentic(streams, id, maxBytes, maxFresh);
    TotalUpdate(Nexts(streams), id, s'.next);
    assert Nexts(streams[id := s']) == Nexts(streams)[id := s'.next];
  }

  lemma KeepsAcked(a: Streams, b: Streams, c: Streams)
    requires (AllOnlyAcked(a, b) && AllOnlyRequeued(b, c)) || a == b == c
    ensures Nexts(a) == Nexts(c)
    ensures forall id :: id in a ==> id in c && a[id].acked <= c[id].acked
  {
  }

  lemma RequeuedNexts(a: Streams, b: Streams)
    requires AllOnlyRequeued(a, b)
    ensures Nexts(a) == Nexts(b)
  {
  }
}
