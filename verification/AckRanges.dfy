/**
 ACK bookkeeping of one packet-number space (pn_space.cpp) and the walk over an
 ACK frame's ranges on the other side (connection.cpp, `on_ack_frame`).

 The list of ranges is read as the set of packet numbers it stands for.
 */
module AckRanges {
  import opened Bytes

  const MAX_ACK_RANGES: nat := 32

  datatype PnRange = PnRange(lo: nat, hi: nat)

  datatype AckGap = AckGap(gap: nat, length: nat)

  datatype EcnCounts = EcnCounts(ect0: nat, ect1: nat, ce: nat)

  /** Section 19.3 of RFC 9000. */
  datatype AckFrame = AckFrame(
    largestAcked: nat, ackDelay: nat, firstRange: nat, ranges: seq<AckGap>, ecn: Option<EcnCounts>)

  /** Highest range first, with at least one missing number between neighbours. */
  ghost predicate Descending(rs: seq<PnRange>) {
    rs != [] ==>
      && rs[0].lo <= rs[0].hi
      && (|rs| > 1 ==> rs[1].hi + 1 < rs[0].lo)
      && Descending(rs[1..])
  }

  ghost function Pns(rs: seq<PnRange>): set<nat> {
    if rs == [] then {} else Span(rs[0].lo, rs[0].hi + 1) + Pns(rs[1..])
  }

  // --------------------------------------------------------------------------
  // What the cap on the number of ranges keeps
  // --------------------------------------------------------------------------

  /** t ends a maximal run of consecutive numbers of s. */
  ghost predicate IsTop(s: set<nat>, t: nat) {
    t in s && t + 1 !in s
  }

  /** The ends, at x or above, of the maximal runs of s. */
  ghost function TopsFrom(s: set<nat>, x: nat): set<nat> {
    set t | t in s && IsTop(s, t) && x <= t
  }

  /** Packet numbers in the 32 highest maximal runs. */
  ghost function Retained(s: set<nat>): set<nat> {
    set x | x in s && |TopsFrom(s, x)| <= MAX_ACK_RANGES
  }

  lemma {:induction false} PnsHas(rs: seq<PnRange>, x: nat)
    ensures x in Pns(rs) <==> exists i :: 0 <= i < |rs| && rs[i].lo <= x <= rs[i].hi
  {
    if rs != [] {
      PnsHas(rs[1..], x);
      if i :| 0 <= i < |rs[1..]| && rs[1..][i].lo <= x <= rs[1..][i].hi {
        assert rs[i + 1].lo <= x <= rs[i + 1].hi;
      }
      if i :| 0 < i < |rs| && rs[i].lo <= x <= rs[i].hi {
        assert rs[1..][i - 1].lo <= x <= rs[1..][i - 1].hi;
      }
    }
  }

  lemma {:induction false} PnsConcat(a: seq<PnRange>, b: seq<PnRange>)
    ensures Pns(a + b) == Pns(a) + Pns(b)
  {
    if a == [] {
      assert a + b == b;
    } else {
      assert (a + b)[1..] == a[1..] + b;
      PnsConcat(a[1..], b);
    }
  }

  /** If the first range lies two below a bound, so does everything. */
  lemma {:induction false} PnsBelow(rs: seq<PnRange>, bound: int)
    requires Descending(rs) && (rs != [] ==> rs[0].hi + 1 < bound)
    ensures forall y :: y in Pns(rs) ==> y + 1 < bound
    ensures forall i :: 0 <= i < |rs| ==> rs[i].hi + 1 < bound
  {
    if rs != [] {
      PnsBelow(rs[1..], bound);
    }
  }

  lemma TopSplit(rs: seq<PnRange>, t: nat)
    requires Descending(rs) && rs != []
    ensures IsTop(Pns(rs), t) <==> t == rs[0].hi || IsTop(Pns(rs[1..]), t)
    ensures IsTop(Pns(rs[1..]), t) ==> t + 1 < rs[0].lo
  {
    PnsBelow(rs[1..], rs[0].lo);
  }

  /** A number of range i has exactly i + 1 run tops at or above it. */
  lemma {:induction false} TopCount(rs: seq<PnRange>, i: nat, x: nat)
    requires Descending(rs) && i < |rs| && rs[i].lo <= x <= rs[i].hi
    ensures |TopsFrom(Pns(rs), x)| == i + 1
  {
    hide IsTop, Pns;
    var rest := rs[1..];
    if i == 0 {
      TopsOfFirst(rs, x);
    } else {
      TopCount(rest, i - 1, x);
      TopsOfRest(rs, x, i);
    }
  }

  lemma TopsOfFirst(rs: seq<PnRange>, x: nat)
    requires Descending(rs) && rs != [] && rs[0].lo <= x <= rs[0].hi
    ensures TopsFrom(Pns(rs), x) == {rs[0].hi}
  {
    hide IsTop, Pns;
    PnsBelow(rs[1..], rs[0].lo);
    forall t: nat ensures t in TopsFrom(Pns(rs), x) <==> t == rs[0].hi {
      TopSplit(rs, t);
      TopIn(Pns(rs), t);
    }
  }

  lemma TopsOfRest(rs: seq<PnRange>, x: nat, i: nat)
    requires Descending(rs) && 0 < i < |rs| && rs[i].lo <= x <= rs[i].hi
    ensures TopsFrom(Pns(rs), x) == {rs[0].hi} + TopsFrom(Pns(rs[1..]), x) && rs[0].hi !in TopsFrom(Pns(rs[1..]), x)
  {
    hide IsTop, Pns;
    var rest := rs[1..];
    PnsBelow(rest, rs[0].lo);
    assert rest[i - 1] == rs[i] && rs[0].lo <= rs[0].hi;
    forall t: nat ensures t in TopsFrom(Pns(rs), x) <==> t in {rs[0].hi} + TopsFrom(Pns(rest), x) {
      TopSplit(rs, t);
      TopIn(Pns(rs), t);
      TopIn(Pns(rest), t);
    }
    TopSplit(rs, rs[0].hi);
  }

  lemma TopIn(s: set<nat>, t: nat)
    ensures IsTop(s, t) ==> t in s
  {
  }

  /** Truncating the list to 32 ranges keeps exactly the 32 highest maximal runs. */
  lemma CapRetains(rs: seq<PnRange>)
    requires Descending(rs)
    ensures Pns(if |rs| > MAX_ACK_RANGES then rs[..MAX_ACK_RANGES] else rs) == Retained(Pns(rs))
  {
    var kept := if |rs| > MAX_ACK_RANGES then rs[..MAX_ACK_RANGES] else rs;
    forall x: nat ensures x in Pns(kept) <==> x in Retained(Pns(rs)) {
      PnsHas(rs, x);
      PnsHas(kept, x);
      if x in Pns(rs) {
        var i :| 0 <= i < |rs| && rs[i].lo <= x <= rs[i].hi;
        TopCount(rs, i, x);
        if x in Pns(kept) {
          var j :| 0 <= j < |kept| && kept[j].lo <= x <= kept[j].hi;
          TopCount(rs, j, x);
        }
      }
    }
  }

  // --------------------------------------------------------------------------
  // ACK frames: built by the receiver, walked by the sender
  // --------------------------------------------------------------------------

  /** Gap and length of every range after the first; no subtraction underflows. */
  function Gaps(rs: seq<PnRange>): seq<AckGap>
    requires Descending(rs)
  {
    if |rs| <= 1 then []
    else
      assert Descending(rs[1..]) && rs[1..][0] == rs[1];
      [AckGap(rs[0].lo - rs[1].hi - 2, rs[1].hi - rs[1].lo)] + Gaps(rs[1..])
  }

  /** The frame built for a list of ranges; an empty list gives the default frame. */
  function AckOf(rs: seq<PnRange>, delay: nat): AckFrame
    requires Descending(rs)
  {
    if rs == [] then AckFrame(0, 0, 0, [], None)
    else AckFrame(rs[0].hi, delay, rs[0].hi - rs[0].lo, Gaps(rs), None)
  }

  /** The numbers acknowledged after a range that ends at lo; a malformed range ends the walk. */
  function WalkFrom(lo: nat, gaps: seq<AckGap>): set<nat>
    decreases |gaps|
  {
    if gaps == [] || lo < gaps[0].gap + 2 then {}
    else
      var hi := lo - gaps[0].gap - 2;
      if gaps[0].length > hi then {}
      else Span(hi - gaps[0].length, hi + 1) + WalkFrom(hi - gaps[0].length, gaps[1..])
  }

  /** Every packet number an ACK frame acknowledges. */
  function Walk(f: AckFrame): set<nat> {
    if f.firstRange > f.largestAcked then {}
    else
      Span(f.largestAcked - f.firstRange, f.largestAcked + 1)
      + WalkFrom(f.largestAcked - f.firstRange, f.ranges)
  }

  lemma {:induction false} WalkGaps(rs: seq<PnRange>)
    requires Descending(rs) && rs != []
    ensures WalkFrom(rs[0].lo, Gaps(rs)) == Pns(rs[1..])
  {
    hide Span;
    if |rs| > 1 {
      WalkGaps(rs[1..]);
      assert Gaps(rs)[1..] == Gaps(rs[1..]);
    }
  }

  /**
   The frame built from a non-empty list acknowledges exactly the numbers the list stands for;
   the frame built from an empty list acknowledges packet 0, which was not received.
   */
  lemma AckRoundTrip(rs: seq<PnRange>, delay: nat)
    requires Descending(rs)
    ensures Walk(AckOf(rs, delay)) == Pns(rs) <==> rs != []
    ensures rs == [] ==> Walk(AckOf(rs, delay)) == {0}
  {
    hide WalkFrom, Gaps, Descending;
    if rs == [] {
      WalkNothing(delay);
    } else {
      hide Span;
      WalkGaps(rs);
    }
  }

  lemma WalkNothing(delay: nat)
    ensures Walk(AckOf([], delay)) == {0}
  {
    assert Span(0, 1) == {0};
  }

  // --------------------------------------------------------------------------
  // Recording one packet number in the list
  // --------------------------------------------------------------------------

  /** The list after packet pn: absorbed, joined to one or both neighbours, or a range of its own. */
  function Record(rs: seq<PnRange>, pn: nat): seq<PnRange> {
    if rs == [] then [PnRange(pn, pn)]
    else if rs[0].lo <= pn <= rs[0].hi then rs
    else if rs[0].hi < pn then
      if rs[0].hi + 1 == pn then [PnRange(rs[0].lo, pn)] + rs[1..] else [PnRange(pn, pn)] + rs
    else if rs[0].lo == pn + 1 then
      if |rs| > 1 && rs[1].hi + 1 == pn then [PnRange(rs[1].lo, rs[0].hi)] + rs[2..]
      else [PnRange(pn, rs[0].hi)] + rs[1..]
    else [rs[0]] + Record(rs[1..], pn)
  }

  lemma {:induction false} RecordAdds(rs: seq<PnRange>, pn: nat)
    requires Descending(rs)
    ensures Descending(Record(rs, pn))
    ensures Pns(Record(rs, pn)) == Pns(rs) + {pn}
    ensures Record(rs, pn) != [] && Record(rs, pn)[0].hi == if rs == [] || rs[0].hi < pn then pn else rs[0].hi
    ensures |Record(rs, pn)| <= |rs| + 1
  {
    if rs == [] {
    } else if rs[0].lo <= pn <= rs[0].hi {
    } else if rs[0].hi < pn {
      assert rs[0].hi + 1 == pn ==> Span(rs[0].lo, pn + 1) == Span(rs[0].lo, rs[0].hi + 1) + {pn};
    } else if rs[0].lo == pn + 1 {
      assert Span(pn, rs[0].hi + 1) == Span(rs[0].lo, rs[0].hi + 1) + {pn};
      if |rs| > 1 && rs[1].hi + 1 == pn {
        assert rs[1..][1..] == rs[2..];
        assert Span(rs[1].lo, rs[0].hi + 1) == Span(rs[0].lo, rs[0].hi + 1) + Span(rs[1].lo, rs[1].hi + 1) + {pn};
      }
    } else {
      RecordAdds(rs[1..], pn);
    }
  }

  /** Ranges lying well above pn are passed over unchanged. */
  lemma {:induction false} Peel(rs: seq<PnRange>, i: nat, pn: nat)
    requires i <= |rs|
    requires forall k :: 0 <= k < i ==> pn + 1 < rs[k].lo && pn <= rs[k].hi
    ensures Record(rs, pn) == rs[..i] + Record(rs[i..], pn)
  {
    if i > 0 {
      Peel(rs[1..], i - 1, pn);
      assert rs[1..][i - 1..] == rs[i..];
      assert rs[..i] == [rs[0]] + rs[1..][..i - 1];
    } else {
      assert rs[..0] + Record(rs[0..], pn) == Record(rs, pn);
    }
  }

  /** pn extends the range above it downwards, and may close the gap to the next one. */
  lemma JoinsAbove(rs: seq<PnRange>, i: nat, pn: nat)
    requires Descending(rs) && i < |rs| && rs[i].lo == pn + 1 && pn <= rs[i].hi
    ensures Record(rs, pn) ==
            if i + 1 < |rs| && rs[i + 1].hi + 1 == pn
            then rs[..i] + [PnRange(rs[i + 1].lo, rs[i].hi)] + rs[i + 2..]
            else rs[..i] + [PnRange(pn, rs[i].hi)] + rs[i + 1..]
  {
    hide Descending;
    Above(rs, i, pn);
    Peel(rs, i, pn);
    assert rs[i..][1..] == rs[i + 1..] && (i + 1 < |rs| ==> rs[i..][2..] == rs[i + 2..]);
  }

  /** Every range from i on lies below pn, every range before i well above it. */
  lemma JoinsBelow(rs: seq<PnRange>, i: nat, pn: nat)
    requires i <= |rs| && forall k :: 0 <= k < i ==> pn + 1 < rs[k].lo && pn <= rs[k].hi
    requires i < |rs| ==> rs[i].hi < pn && rs[i].lo <= rs[i].hi
    ensures Record(rs, pn) ==
            if i < |rs| && rs[i].hi + 1 == pn
            then rs[..i] + [PnRange(rs[i].lo, pn)] + rs[i + 1..]
            else rs[..i] + [PnRange(pn, pn)] + rs[i..]
  {
    Peel(rs, i, pn);
    assert i < |rs| ==> rs[i..][1..] == rs[i + 1..];
  }

  lemma Covered(rs: seq<PnRange>, i: nat, pn: nat)
    requires Descending(rs) && i < |rs| && rs[i].lo <= pn <= rs[i].hi
    ensures Record(rs, pn) == rs
  {
    hide Descending;
    Above(rs, i, pn);
    Peel(rs, i, pn);
    assert rs[..i] + rs[i..] == rs;
  }

  function Capped(rs: seq<PnRange>): seq<PnRange> {
    if |rs| > MAX_ACK_RANGES then rs[..MAX_ACK_RANGES] else rs
  }

  lemma GapStep(rs: seq<PnRange>, i: nat)
    requires 1 <= i < |rs| && Descending(rs[i - 1..])
    ensures Descending(rs[i..])
    ensures rs[i].lo <= rs[i].hi && rs[i].hi + 2 <= rs[i - 1].lo
    ensures Gaps(rs[i - 1..]) == [AckGap(rs[i - 1].lo - rs[i].hi - 2, rs[i].hi - rs[i].lo)] + Gaps(rs[i..])
  {
    assert rs[i - 1..][1..] == rs[i..];
  }

  lemma {:induction false} Ordered(rs: seq<PnRange>, i: nat)
    requires Descending(rs) && i < |rs|
    ensures rs[i].lo <= rs[i].hi
  {
    if i > 0 { Ordered(rs[1..], i - 1); }
  }

  class PnSpace {
    var ranges: seq<PnRange>
    var largest: Option<nat>
    var needsAck: bool

    ghost predicate Valid()
      reads this
    {
      && Descending(ranges) && |ranges| <= MAX_ACK_RANGES
      && (ranges != [] ==> largest.Some? && ranges[0].hi <= largest.value)
    }

    constructor ()
      ensures Valid() && ranges == [] && largest == None && !needsAck
    {
      ranges, largest, needsAck := [], None, false;
    }

    /** The insertion walk of `on_received`. */
    method Place(pn: nat)
      requires Descending(ranges) && |ranges| <= MAX_ACK_RANGES
      modifies this`ranges
      ensures ranges == Capped(Record(old(ranges), pn))
    {
      hide Record, Descending;
      var it := 0;
      while it < |ranges| && ranges[it].hi >= pn
        invariant it <= |ranges| && ranges == old(ranges)
        invariant forall k :: 0 <= k < it ==> pn < ranges[k].lo && pn <= ranges[k].hi
      {
        if ranges[it].lo <= pn {
          Covered(ranges, it, pn);
          return;
        }
        it := it + 1;
      }
      if it > 0 {
        Above(ranges, it - 1, pn);
        if ranges[it - 1].lo == pn + 1 {
          JoinsAbove(ranges, it - 1, pn);
          if it < |ranges| && ranges[it].hi + 1 == pn {
            ranges := ranges[..it - 1] + [PnRange(ranges[it].lo, ranges[it - 1].hi)] + ranges[it + 1..];
          } else {
            ranges := ranges[..it - 1] + [PnRange(pn, ranges[it - 1].hi)] + ranges[it..];
          }
          return;
        }
      }
      if it < |ranges| {
        Ordered(ranges, it);
      }
      JoinsBelow(ranges, it, pn);
      if it < |ranges| && ranges[it].hi + 1 == pn {
        ranges := ranges[..it] + [PnRange(ranges[it].lo, pn)] + ranges[it + 1..];
        return;
      }
      ranges := ranges[..it] + [PnRange(pn, pn)] + ranges[it..];
      if |ranges| > MAX_ACK_RANGES {
        ranges := ranges[..MAX_ACK_RANGES];
      }
    }

    /** Afterwards the list stands for what it stood for, plus pn, capped to the 32 highest runs. */
    method OnReceived(pn: nat, ackEliciting: bool)
      requires Valid()
      modifies this
      ensures Valid()
      ensures Pns(ranges) == Retained(old(Pns(ranges)) + {pn})
      ensures largest == Some(if old(largest).Some? && pn <= old(largest).value then old(largest).value else pn)
      ensures needsAck == (old(needsAck) || ackEliciting)
    {
      hide Retained, Pns, Record, Descending;
      if ackEliciting {
        needsAck := true;
      }
      if largest.None? || pn > largest.value {
        largest := Some(pn);
      }
      RecordAdds(ranges, pn);
      CapRetains(Record(ranges, pn));
      if |Record(ranges, pn)| > MAX_ACK_RANGES {
        Prefix(Record(ranges, pn), MAX_ACK_RANGES);
      }
      Place(pn);
    }

    /** The frame acknowledges exactly the recorded numbers, provided there are any. */
    method BuildAckFrame(delay: nat) returns (out: AckFrame)
      requires Valid()
      modifies this`needsAck
      ensures Valid() && out == AckOf(ranges, delay)
      ensures ranges != [] ==> Walk(out) == Pns(ranges) && !needsAck
      ensures ranges == [] ==> needsAck == old(needsAck)
    {
      hide Pns, Walk, Descending, Gaps;
      AckRoundTrip(ranges, delay);
      if ranges == [] {
        return AckFrame(0, 0, 0, [], None);
      }
      var gaps := [];
      var i := 1;
      assert ranges[0..] == ranges;
      while i < |ranges|
        invariant 1 <= i <= |ranges| && Descending(ranges[i - 1..])
        invariant gaps + Gaps(ranges[i - 1..]) == Gaps(ranges)
      {
        GapStep(ranges, i);
        var prev, cur := ranges[i - 1], ranges[i];
        gaps := gaps + [AckGap(prev.lo - cur.hi - 2, cur.hi - cur.lo)];
        i := i + 1;
      }
      LastGaps(ranges[i - 1..]);
      Ordered(ranges, 0);
      needsAck := false;
      return AckFrame(ranges[0].hi, delay, ranges[0].hi - ranges[0].lo, gaps, None);
    }

    /** Forgets every number below pn, and nothing else. */
    method TrimBelow(pn: nat)
      requires Valid()
      modifies this`ranges
      ensures Valid()
      ensures Pns(ranges) == AtLeast(old(Pns(ranges)), pn)
    {
      hide Pns, Descending, AtLeast;
      while ranges != [] && ranges[|ranges| - 1].hi < pn
        invariant Valid()
        invariant AtLeast(Pns(ranges), pn) == AtLeast(old(Pns(ranges)), pn)
        decreases |ranges|
      {
        DropLast(ranges);
        TrimPop(ranges, pn);
        ranges := ranges[..|ranges| - 1];
      }
      TrimEnd(ranges, pn);
      if ranges != [] && ranges[|ranges| - 1].lo < pn {
        ranges := ranges[..|ranges| - 1] + [PnRange(pn, ranges[|ranges| - 1].hi)];
      }
    }
  }

  ghost function AtLeast(s: set<nat>, pn: nat): set<nat> {
    set x | x in s && x >= pn
  }

  lemma TrimPop(rs: seq<PnRange>, pn: nat)
    requires Descending(rs) && rs != [] && rs[|rs| - 1].hi < pn
    ensures AtLeast(Pns(rs[..|rs| - 1]), pn) == AtLeast(Pns(rs), pn)
  {
    DropLast(rs);
  }

  lemma TrimEnd(rs: seq<PnRange>, pn: nat)
    requires Descending(rs) && (rs != [] ==> rs[|rs| - 1].hi >= pn)
    ensures rs == [] || rs[|rs| - 1].lo >= pn ==> Pns(rs) == AtLeast(Pns(rs), pn)
    ensures rs != [] && rs[|rs| - 1].lo < pn ==>
              var rs' := rs[..|rs| - 1] + [PnRange(pn, rs[|rs| - 1].hi)];
              Descending(rs') && Pns(rs') == AtLeast(Pns(rs), pn) && rs'[0].hi == rs[0].hi
  {
    if rs != [] {
      hide Descending, Pns;
      DropLast(rs);
      if rs[|rs| - 1].lo < pn { TrimLast(rs, pn); }
    }
  }

  /** Every range before one that reaches pn lies well above it. */
  lemma {:induction false} Above(rs: seq<PnRange>, i: nat, pn: nat)
    requires Descending(rs) && i < |rs| && rs[i].hi >= pn
    ensures forall k :: 0 <= k < i ==> pn + 1 < rs[k].lo <= rs[k].hi
  {
    if i > 0 {
      Above(rs[1..], i - 1, pn);
      PnsBelow(rs[1..], rs[0].lo);
      assert forall k :: 1 <= k < i ==> rs[k] == rs[1..][k - 1];
      assert rs[i] == rs[1..][i - 1];
    }
  }

  function Front(rs: seq<PnRange>): seq<PnRange>
    requires rs != []
  {
    rs[..|rs| - 1]
  }

  /** The last range holds the smallest numbers of the list. */
  lemma DropLast(rs: seq<PnRange>)
    requires Descending(rs) && rs != []
    ensures var last := rs[|rs| - 1];
            && Pns(rs) == Pns(Front(rs)) + Span(last.lo, last.hi + 1)
            && Descending(Front(rs))
            && forall x :: x in Pns(Front(rs)) ==> last.hi + 1 < x
  {
    hide Span, Descending;
    var last := rs[|rs| - 1];
    assert rs == Front(rs) + [last];
    PnsConcat(Front(rs), [last]);
    assert Pns([last]) == Span(last.lo, last.hi + 1);
    hide Pns;
    Bottom(rs);
  }

  lemma {:induction false} Bottom(rs: seq<PnRange>)
    requires Descending(rs) && rs != []
    ensures Descending(Front(rs)) && rs[|rs| - 1].lo <= rs[|rs| - 1].hi
    ensures forall x :: x in Pns(Front(rs)) ==> rs[|rs| - 1].hi + 1 < x
  {
    if |rs| > 1 {
      Bottom(rs[1..]);
      assert Front(rs[1..]) == Front(rs)[1..];
      PnsBelow(rs[1..], rs[0].lo);
    }
  }

  lemma {:induction false} Prefix(rs: seq<PnRange>, n: nat)
    requires Descending(rs) && n <= |rs|
    ensures Descending(rs[..n])
  {
    if n > 0 {
      Prefix(rs[1..], n - 1);
      assert rs[..n][1..] == rs[1..][..n - 1];
    }
  }

  lemma {:induction false} Append(rs: seq<PnRange>, r: PnRange)
    requires Descending(rs) && r.lo <= r.hi
    requires rs != [] ==> r.hi + 1 < rs[|rs| - 1].lo
    ensures Descending(rs + [r])
  {
    if rs != [] {
      Append(rs[1..], r);
      assert (rs + [r])[1..] == rs[1..] + [r];
    }
  }

  lemma TrimLast(rs: seq<PnRange>, pn: nat)
    requires Descending(rs) && rs != [] && rs[|rs| - 1].lo < pn <= rs[|rs| - 1].hi
    ensures var last := rs[|rs| - 1];
            var rs' := rs[..|rs| - 1] + [PnRange(pn, last.hi)];
            Descending(rs') && Pns(rs') == Pns(rs[..|rs| - 1]) + Span(pn, last.hi + 1) && rs'[0].hi == rs[0].hi
  {
    var init, r := rs[..|rs| - 1], PnRange(pn, rs[|rs| - 1].hi);
    Bottom(rs);
    if init != [] {
      PnsHas(init, init[|init| - 1].lo);
      Bottom(init);
      assert init[|init| - 1].lo in Pns(init);
    }
    Append(init, r);
    PnsConcat(init, [r]);
  }

  lemma LastGaps(rs: seq<PnRange>)
    requires |rs| == 1 && Descending(rs)
    ensures Gaps(rs) == []
  {
  }
}
