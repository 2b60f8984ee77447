/**
 The send side as the program stores it: a vector whose released prefix is
 skipped by a head index and compacted now and then, with acknowledged and lost
 ranges kept beside it.  Every method refines the abstract operation of
 `SendQueue`, so no unacknowledged byte is ever released and every slice handed
 to a packet is in bounds and holds the bytes written at that offset.
 */
module SendSide {
  import opened Bytes
  import opened SendQueue

  const COMPACT_THRESHOLD: nat := 8 * 1024

  // --------------------------------------------------------------------------
  // Range lists
  // --------------------------------------------------------------------------

  ghost function Cover(rs: seq<Range>): set<nat> {
    if rs == [] then {} else Span(rs[0].off, rs[0].End()) + Cover(rs[1..])
  }

  lemma {:induction false} CoverHas(rs: seq<Range>, k: nat)
    ensures k in Cover(rs) <==> exists i :: 0 <= i < |rs| && rs[i].Has(k)
  {
    if rs != [] {
      CoverHas(rs[1..], k);
      if i :| 0 <= i < |rs[1..]| && rs[1..][i].Has(k) {
        assert rs[i + 1].Has(k);
      }
      if i :| 0 < i < |rs| && rs[i].Has(k) {
        assert rs[1..][i - 1].Has(k);
      }
    }
  }

  /** Non-empty ranges in offset order, none overlapping the next, all from `lo` on. */
  ghost predicate Apart(rs: seq<Range>, lo: nat) {
    && (forall i :: 0 <= i < |rs| ==> 0 < rs[i].len && lo <= rs[i].off)
    && (forall i, j :: 0 <= i < j < |rs| ==> rs[i].End() <= rs[j].off)
  }

  /** Order of pairs: by offset, then by length. */
  predicate Before(a: Range, b: Range) {
    a.off < b.off || (a.off == b.off && a.len < b.len)
  }

  function InsertSorted(rs: seq<Range>, r: Range): (s: seq<Range>)
    ensures |s| == |rs| + 1
  {
    if rs == [] then [r]
    else if Before(r, rs[0]) then [r] + rs
    else [rs[0]] + InsertSorted(rs[1..], r)
  }

  function Sort(rs: seq<Range>): seq<Range> {
    if rs == [] then [] else InsertSorted(Sort(rs[..|rs| - 1]), rs[|rs| - 1])
  }

  lemma {:induction false} InsertLast(rs: seq<Range>, r: Range)
    requires forall i :: 0 <= i < |rs| ==> !Before(r, rs[i])
    ensures InsertSorted(rs, r) == rs + [r]
  {
    if rs != [] {
      InsertLast(rs[1..], r);
    }
  }

  lemma {:induction false} SortSorted(rs: seq<Range>, lo: nat)
    requires Apart(rs, lo)
    ensures Sort(rs) == rs
  {
    hide InsertSorted;
    if rs != [] {
      var init := rs[..|rs| - 1];
      assert Apart(init, lo);
      SortSorted(init, lo);
      InsertLast(init, rs[|rs| - 1]);
      assert init + [rs[|rs| - 1]] == rs;
    }
  }

  lemma {:induction false} InsertCovers(rs: seq<Range>, r: Range)
    ensures Cover(InsertSorted(rs, r)) == Cover(rs) + Span(r.off, r.End())
  {
    if rs != [] {
      InsertCovers(rs[1..], r);
    }
  }

  /** Ranges after the first of an apart list start past its end. */
  lemma {:induction false} InsertApart(rs: seq<Range>, r: Range, lo: nat)
    requires Apart(rs, lo) && 0 < r.len && lo <= r.off
    requires Cover(rs) !! Span(r.off, r.End())
    ensures Apart(InsertSorted(rs, r), lo)
  {
    if rs != [] {
      assert rs[0].off in Span(rs[0].off, rs[0].End()) && r.off in Span(r.off, r.End());
      assert Apart(rs[1..], rs[0].End());
      if Before(r, rs[0]) {
        assert r.End() <= rs[0].off;
        Prepend(r, rs, lo);
      } else {
        InsertApart(rs[1..], r, rs[0].End());
        Prepend(rs[0], InsertSorted(rs[1..], r), lo);
      }
    }
  }

  lemma Prepend(r: Range, rs: seq<Range>, lo: nat)
    requires 0 < r.len && lo <= r.off
    requires Apart(rs, r.End()) || (Apart(rs, lo) && rs != [] && r.End() <= rs[0].off)
    ensures Apart([r] + rs, lo)
  {
    forall j | 0 <= j < |rs| ensures r.End() <= rs[j].off {
      if !Apart(rs, r.End()) && j > 0 { assert rs[0].End() <= rs[j].off; }
    }
  }

  /** Sorting an already sorted list after one addition keeps it apart and covers the sum. */
  lemma AddRange(rs: seq<Range>, r: Range, lo: nat)
    requires Apart(rs, lo) && 0 < r.len && lo <= r.off
    requires Cover(rs) !! Span(r.off, r.End())
    ensures Apart(Sort(rs + [r]), lo)
    ensures Cover(Sort(rs + [r])) == Cover(rs) + Span(r.off, r.End())
  {
    assert (rs + [r])[..|rs|] == rs;
    SortSorted(rs, lo);
    InsertApart(rs, r, lo);
    InsertCovers(rs, r);
  }

  /** Dropping the front range of an apart list takes exactly its bytes out. */
  lemma DropFront(rs: seq<Range>, lo: nat)
    requires Apart(rs, lo) && rs != [] && rs[0].off == lo
    ensures Apart(rs[1..], lo + rs[0].len)
    ensures Span(0, lo) + Cover(rs) == Span(0, lo + rs[0].len) + Cover(rs[1..])
    ensures 0 < rs[0].len && lo + rs[0].len - 1 in Span(0, lo) + Cover(rs)
  {
  }

  lemma ApartFirst(rs: seq<Range>, lo: nat)
    requires Apart(rs, lo)
    ensures rs != [] ==> lo <= rs[0].off
  {
  }

  /** Moving the head and the base on together keeps the live part of the buffer. */
  lemma DropBytes(buf: seq<Byte>, head: nat, written: seq<Byte>, base: nat, take: nat)
    requires head <= |buf| && base + take <= |written| && buf[head..] == written[base..]
    ensures head + take <= |buf| && buf[head + take..] == written[base + take..]
  {
    assert |buf[head..]| == |written[base..]|;
    assert buf[head + take..] == buf[head..][take..] && written[base + take..] == written[base..][take..];
  }

  /** The lost-range branch of a pull. */
  lemma ResendIs(s: Send, maxBytes: nat, maxFresh: nat)
    requires Sound(s) && maxBytes > 0 && s.lost != []
    ensures var r := s.lost[0];
            var take := Min(maxBytes, r.len);
            var fin := s.finQueued && r.off + take == |s.written|;
            var s' := s.(lost := if take == r.len then s.lost[1..] else [Range(r.off + take, r.len - take)] + s.lost[1..],
                         finSent := s.finSent || fin);
            && r.End() <= |s.written| && take <= r.len && Sound(s')
            && Pull(s, maxBytes, maxFresh) == (s', Pulled(r.off, s.written[r.off..r.off + take], fin))
  {
    PullSound(s, maxBytes, maxFresh);
  }

  predicate Ends(s: Send, next: nat) { s.finQueued && next == |s.written| && !s.finSent }

  function Ended(s: Send): Send { s.(finSent := true, phase := if s.phase == Sending then DataSent else s.phase) }

  /** The branches of a pull for bytes never sent: none, the FIN alone, or bytes with or without it. */
  lemma FreshIs(s: Send, maxBytes: nat, maxFresh: nat)
    requires Sound(s) && maxBytes > 0 && s.lost == []
    ensures s.next <= |s.written| && s.next + FreshTake(s, maxBytes, maxFresh) <= |s.written|
    ensures var take := FreshTake(s, maxBytes, maxFresh);
            var (s', p) := Pull(s, maxBytes, maxFresh);
            && Sound(s')
            && (take == 0 && !Ends(s, s.next) ==> s' == s && p == Pulled(0, [], false))
            && (take == 0 && Ends(s, s.next) ==> s' == Ended(s) && p == Pulled(s.next, [], true))
            && (take > 0 ==>
                  && p == Pulled(s.next, s.written[s.next..s.next + take], Ends(s, s.next + take))
                  && s' == if p.fin then Ended(s.(next := s.next + take)) else s.(next := s.next + take))
  {
    PullSound(s, maxBytes, maxFresh);
  }

  lemma NoPull(s: Send, maxFresh: nat)
    requires Sound(s)
    ensures Pull(s, 0, maxFresh) == (s, Pulled(0, [], false))
  {
  }

  class SendSide {
    var buf: seq<Byte>
    var head: nat
    var base: nat
    var next: nat
    var high: nat
    var limit: nat
    var finQueued: bool
    var finSent: bool
    var finAcked: bool
    var ackedRanges: seq<Range>
    var lost: seq<Range>
    var phase: SendPhase
    ghost var written: seq<Byte>

    ghost function View(): Send
      reads this
    {
      Send(written, Span(0, base) + Cover(ackedRanges), lost, next, limit, finQueued, finSent, finAcked, phase)
    }

    /** The live part of the buffer is exactly what was written from `base` on. */
    ghost predicate Buffered()
      reads this
    {
      && high == |written| && base <= high && head <= |buf|
      && buf[head..] == written[base..]
    }

    ghost predicate Valid()
      reads this
    {
      && Sound(View()) && Buffered() && base <= next
      && Apart(ackedRanges, base)
      && (ackedRanges != [] ==> base < ackedRanges[0].off)
    }

    constructor (initialMax: nat)
      ensures Valid()
      ensures View() == Fresh(initialMax)
    {
      buf, head, base, next, high, limit := [], 0, 0, 0, 0, initialMax;
      finQueued, finSent, finAcked := false, false, false;
      ackedRanges, lost, phase, written := [], [], Ready, [];
    }

    /** The released prefix is the whole acknowledged prefix. */
    lemma PrefixReleased()
      requires Valid()
      ensures base !in View().acked && forall k :: 0 <= k < base ==> k in View().acked
      ensures AllAcked(View()) <==> |buf| == head
    {
      if base in Cover(ackedRanges) {
        CoverHas(ackedRanges, base);
        var i :| 0 <= i < |ackedRanges| && ackedRanges[i].Has(base);
        if i > 0 { assert ackedRanges[0].End() <= ackedRanges[i].off; }
      }
      assert |buf| - head == high - base;
    }

    method Write(bytes: seq<Byte>, fin: bool)
      requires Valid()
      modifies this
      ensures Valid()
      ensures View() == SendQueue.Write(old(View()), bytes, fin)
    {
      hide Apart, Cover, Span, Sound;
      WriteSound(View(), bytes, fin);
      if phase in {ResetSent, ResetRecvd, DataSent, DataRecvd} {
        return;
      }
      assert (buf + bytes)[head..] == buf[head..] + bytes && (written + bytes)[base..] == written[base..] + bytes;
      buf := buf + bytes;
      high := high + |bytes|;
      written := written + bytes;
      if fin {
        finQueued := true;
      }
      if phase == Ready {
        phase := Sending;
      }
    }

    /** Bytes off, ..., off+n-1, read through the head index. */
    method Slice(off: nat, n: nat) returns (data: seq<Byte>)
      requires Buffered() && base <= off && off + n <= high
      ensures data == written[off..off + n]
    {
      var at := head + (off - base);
      data := buf[at..at + n];
      assert data == buf[head..][off - base..off - base + n];
    }

    lemma LostIsLive()
      requires Valid() && lost != []
      ensures base <= lost[0].off && lost[0].End() <= high
    {
      if lost[0].off < base {
        assert lost[0].off in View().acked && View().lost[0].Has(lost[0].off);
      }
    }

    /** Retransmissions take priority: hands out the front of the first lost range. */
    method Resend(maxBytes: nat, ghost maxFresh: nat) returns (out: Pulled)
      requires Valid() && maxBytes > 0 && lost != []
      modifies this`lost, this`finSent
      ensures Valid()
      ensures (View(), out) == Pull(old(View()), maxBytes, maxFresh)
    {
      hide Cover, Apart, Span, Sound, Pull;
      ResendIs(View(), maxBytes, maxFresh);
      LostIsLive();
      var r := lost[0];
      var take := Min(maxBytes, r.len);
      var data := Slice(r.off, take);
      var fin := false;
      if finQueued && r.off + take == high {
        fin := true;
        finSent := true;
      }
      if take == r.len {
        lost := lost[1..];
      } else {
        lost := [Range(r.off + take, r.len - take)] + lost[1..];
      }
      return Pulled(r.off, data, fin);
    }

    method PullSend(maxBytes: nat, maxFresh: nat) returns (out: Pulled)
      requires Valid()
      modifies this
      ensures Valid()
      ensures (View(), out) == Pull(old(View()), maxBytes, maxFresh)
    {
      hide Cover, Apart, Span, Sound, Pull;
      if maxBytes == 0 {
        NoPull(View(), maxFresh);
        return Pulled(0, [], false);
      }
      if lost != [] {
        out := Resend(maxBytes, maxFresh);
      } else {
        out := SendFresh(maxBytes, maxFresh);
      }
    }

    /** No room for bytes: the FIN alone, if everything else was sent. */
    method FinAlone(ghost maxBytes: nat, ghost maxFresh: nat) returns (out: Pulled)
      requires Valid() && maxBytes > 0 && lost == [] && next <= high && FreshTake(View(), maxBytes, maxFresh) == 0
      modifies this`finSent, this`phase
      ensures Valid()
      ensures (View(), out) == Pull(old(View()), maxBytes, maxFresh)
    {
      hide Cover, Apart, Span, Sound, Pull, FreshTake;
      FreshIs(View(), maxBytes, maxFresh);
      if finQueued && !finSent && next == high {
        finSent := true;
        if phase == Sending {
          phase := DataSent;
        }
        return Pulled(next, [], true);
      }
      return Pulled(0, [], false);
    }

    /** Bytes never sent, as far as the limits allow, or the FIN alone. */
    method SendFresh(maxBytes: nat, maxFresh: nat) returns (out: Pulled)
      requires Valid() && maxBytes > 0 && lost == []
      modifies this`next, this`finSent, this`phase
      ensures Valid()
      ensures (View(), out) == Pull(old(View()), maxBytes, maxFresh)
    {
      hide Cover, Apart, Span, Sound, Pull;
      FreshIs(View(), maxBytes, maxFresh);
      var take := if next >= limit then 0 else Min(Min(maxBytes, limit - next), Min(high - next, maxFresh));
      if take == 0 {
        out := FinAlone(maxBytes, maxFresh);
        return;
      }
      var off := next;
      var data := Slice(off, take);
      next := next + take;
      var fin := false;
      if finQueued && next == high && !finSent {
        fin := true;
        finSent := true;
        if phase == Sending {
          phase := DataSent;
        }
      }
      return Pulled(off, data, fin);
    }

    method TryAdvance()
      requires Valid()
      modifies this`phase
      ensures Valid()
      ensures View() == Advance(old(View()))
    {
      PrefixReleased();
      if phase == DataSent && |buf| == head && finAcked {
        phase := DataRecvd;
      }
    }

    /** Moves the head over every acknowledged range that starts at the base. */
    method ReleasePrefix()
      requires Buffered() && base <= next <= high && Apart(ackedRanges, base)
      requires forall k :: k in View().acked ==> k < next
      modifies this`head, this`base, this`ackedRanges
      ensures Buffered() && base <= next && Apart(ackedRanges, base)
      ensures View() == old(View())
      ensures ackedRanges != [] ==> base < ackedRanges[0].off
    {
      hide Apart, Cover, Span;
      while ackedRanges != [] && ackedRanges[0].off == base
        invariant Buffered() && base <= next && Apart(ackedRanges, base)
        invariant Span(0, base) + Cover(ackedRanges) == old(View()).acked
        decreases |ackedRanges|
      {
        DropFront(ackedRanges, base);
        var take := ackedRanges[0].len;
        assert base + take - 1 in old(View()).acked;
        DropBytes(buf, head, written, base, take);
        head := head + take;
        base := base + take;
        ackedRanges := ackedRanges[1..];
      }
      ApartFirst(ackedRanges, base);
    }

    /** Drops the released bytes once they are many, or more than half of the buffer. */
    method Compact()
      requires Buffered()
      modifies this`buf, this`head
      ensures Buffered()
      ensures |buf| - head == old(|buf| - head)
      ensures head <= COMPACT_THRESHOLD && head * 2 <= |buf|
    {
      if head > COMPACT_THRESHOLD || head * 2 > |buf| {
        buf := buf[head..];
        head := 0;
      }
    }

    method OnAcked(off: nat, len: nat)
      requires Valid()
      requires Outstanding(View(), off, len)
      modifies this
      ensures Valid()
      ensures View() == Ack(old(View()), off, len)
    {
      hide Cover, Apart, Sound, Advance, Sort;
      ghost var s := View();
      AckSound(s, off, len);
      if len == 0 {
        if finSent {
          finAcked := true;
          assert View() == Mark(s, off, len);
          TryAdvance();
        }
        return;
      }
      assert off !in Span(0, base);
      assert Cover(ackedRanges) !! Span(off, off + len);
      AddRange(ackedRanges, Range(off, len), base);
      ackedRanges := Sort(ackedRanges + [Range(off, len)]);
      assert View() == s.(acked := s.acked + Span(off, off + len));
      ReleasePrefix();
      Compact();
      if finSent && off + len >= high {
        finAcked := true;
      }
      assert View() == Mark(s, off, len);
      TryAdvance();
    }

    method OnLost(off: nat, len: nat)
      requires Valid()
      requires Outstanding(View(), off, len)
      modifies this
      ensures Valid()
      ensures View() == Lose(old(View()), off, len)
    {
      LoseSound(View(), off, len);
      if len > 0 {
        lost := lost + [Range(off, len)];
      }
      if finSent && off + len >= high {
        finSent := false;
      }
    }

    method SetSendLimit(newLimit: nat)
      requires Valid()
      modifies this`limit
      ensures Valid()
      ensures View() == Grant(old(View()), newLimit)
    {
      if newLimit > limit {
        limit := newLimit;
      }
    }
  }
}
