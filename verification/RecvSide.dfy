/**
 The receive side as the program stores it: an ordered list of merged chunks,
 edited in place.  `Held` maps a chunk list to the bytes it holds; the methods
 of `RecvSide` refine the operations of `Reassembly`.
 */
module RecvSide {
  import opened Bytes
  import opened Reassembly

  datatype Chunk = Chunk(off: nat, data: seq<Byte>) {
    function End(): nat { off + |data| }

    predicate Has(k: nat) { off <= k < End() }
  }

  /** Non-empty chunks in offset order with at least one missing byte between neighbours. */
  ghost predicate Merged(cs: seq<Chunk>) {
    && (forall i :: 0 <= i < |cs| ==> cs[i].data != [])
    && (forall i, j :: 0 <= i < j < |cs| ==> cs[i].End() < cs[j].off)
  }

  // --------------------------------------------------------------------------
  // The bytes of a chunk list
  // --------------------------------------------------------------------------

  /** The byte a chunk list holds at offset k; an earlier chunk wins where two overlap. */
  ghost function Look(cs: seq<Chunk>, k: nat): Option<Byte> {
    if cs == [] then None
    else if cs[0].Has(k) then Some(cs[0].data[k - cs[0].off])
    else Look(cs[1..], k)
  }

  ghost function MaxEnd(cs: seq<Chunk>): (m: nat)
    ensures forall k: nat :: Look(cs, k).Some? ==> k < m
  {
    if cs == [] then 0
    else var m := MaxEnd(cs[1..]); if cs[0].End() > m then cs[0].End() else m
  }

  ghost function Held(cs: seq<Chunk>): (m: map<nat, Byte>)
    ensures forall k: nat :: k in m <==> Look(cs, k).Some?
    ensures forall k: nat :: k in m ==> m[k] == Look(cs, k).value
  {
    map k | k in Span(0, MaxEnd(cs)) && Look(cs, k).Some? :: Look(cs, k).value
  }

  lemma {:induction false} LookConcat(a: seq<Chunk>, b: seq<Chunk>, k: nat)
    ensures Look(a + b, k) == if Look(a, k).Some? then Look(a, k) else Look(b, k)
  {
    if a == [] {
      assert a + b == b;
    } else {
      assert (a + b)[1..] == a[1..] + b;
      LookConcat(a[1..], b, k);
    }
  }

  lemma {:induction false} LookNone(cs: seq<Chunk>, k: nat)
    requires forall i :: 0 <= i < |cs| ==> !cs[i].Has(k)
    ensures Look(cs, k) == None
  {
    if cs != [] {
      LookNone(cs[1..], k);
    }
  }

  lemma {:induction false} LookHit(cs: seq<Chunk>, i: int, k: nat)
    requires Merged(cs) && 0 <= i < |cs| && cs[i].Has(k)
    ensures Look(cs, k) == Some(cs[i].data[k - cs[i].off])
  {
    if i > 0 {
      assert cs[0].End() < cs[i].off;
      LookHit(cs[1..], i - 1, k);
    }
  }

  /** Two lists holding the same byte at every offset hold the same map. */
  lemma SameHeld(a: seq<Chunk>, b: seq<Chunk>)
    requires forall k: nat :: Look(a, k) == Look(b, k)
    ensures Held(a) == Held(b)
  {
    assert forall k: nat :: k in Held(a) <==> k in Held(b);
  }

  // --------------------------------------------------------------------------
  // Placing a frame
  // --------------------------------------------------------------------------

  /** What a list holds at k, split around one chunk. */
  lemma LookAround(a: seq<Chunk>, c: Chunk, b: seq<Chunk>, k: nat)
    ensures Look(a + [c] + b, k) ==
            if Look(a, k).Some? then Look(a, k)
            else if c.Has(k) then Some(c.data[k - c.off]) else Look(b, k)
  {
    LookConcat(a + [c], b, k);
    LookConcat(a, [c], k);
  }

  /** Membership and value of a splice at one offset. */
  lemma SpliceAt(held: map<nat, Byte>, put: nat, rest: seq<Byte>, k: nat)
    ensures k in Splice(held, put, rest) <==> k in held || put <= k < put + |rest|
    ensures put <= k < put + |rest| && !Attached(held, put, k) ==> Splice(held, put, rest)[k] == rest[k - put]
    ensures k in held && (Attached(held, put, k) || !(put <= k < put + |rest|)) ==> Splice(held, put, rest)[k] == held[k]
  {
  }

  /** A list holds `want` when it looks up the same byte at every offset. */
  lemma HeldIs(cs: seq<Chunk>, want: map<nat, Byte>)
    requires forall k: nat :: Look(cs, k) == if k in want then Some(want[k]) else None
    ensures Held(cs) == want
  {
    assert forall k: nat :: k in Held(cs) <==> k in want;
  }

  /** A new chunk that touches nothing before it and starts before everything after it. */
  lemma PutBetween(a: seq<Chunk>, b: seq<Chunk>, put: nat, rest: seq<Byte>)
    requires forall i :: 0 <= i < |a| ==> a[i].End() < put
    requires forall i :: 0 <= i < |b| ==> put < b[i].off
    ensures !StartsChunk(Held(a + b), put)
    ensures Held(a + [Chunk(put, rest)] + b) == Splice(Held(a + b), put, rest)
  {
    hide Splice;
    var h := Held(a + b);
    if put > 0 {
      LookNone(a, put - 1);
      LookNone(b, put - 1);
      LookConcat(a, b, put - 1);
    }
    LookNone(a, put);
    LookNone(b, put);
    LookConcat(a, b, put);
    forall k: nat
      ensures Look(a + [Chunk(put, rest)] + b, k) ==
              if k in Splice(h, put, rest) then Some(Splice(h, put, rest)[k]) else None
    {
      LookConcat(a, b, k);
      LookAround(a, Chunk(put, rest), b, k);
      SpliceAt(h, put, rest, k);
      if put <= k {
        LookNone(a, k);
      }
    }
    HeldIs(a + [Chunk(put, rest)] + b, Splice(h, put, rest));
  }

  /** Around chunk p of a merged list: p's bytes are held, the offset after p is not. */
  lemma Edges(a: seq<Chunk>, p: Chunk, b: seq<Chunk>)
    requires Merged(a + [p] + b)
    ensures forall k: nat :: p.Has(k) ==> k in Held(a + [p] + b) && Held(a + [p] + b)[k] == p.data[k - p.off]
    ensures p.End() !in Held(a + [p] + b)
    ensures forall k: nat :: p.off <= k ==> Look(a, k) == None
  {
    var all := a + [p] + b;
    assert all[|a|] == p;
    forall k: nat | p.Has(k) ensures k in Held(all) && Held(all)[k] == p.data[k - p.off] {
      LookHit(all, |a|, k);
    }
    LookNone(all, p.End()) by {
      forall i | 0 <= i < |all| ensures !all[i].Has(p.End()) {
        if i > |a| { assert all[|a|].End() < all[i].off; }
      }
    }
    forall k: nat | p.off <= k ensures Look(a, k) == None {
      LookNone(a, k) by {
        forall i | 0 <= i < |a| ensures !a[i].Has(k) { assert all[i] == a[i]; }
      }
    }
  }

  /** Extending the chunk that reaches `put` with the part of the frame beyond it. */
  lemma ExtendPrevious(a: seq<Chunk>, p: Chunk, b: seq<Chunk>, put: nat, rest: seq<Byte>)
    requires Merged(a + [p] + b)
    requires p.off < put <= p.End()
    ensures !StartsChunk(Held(a + [p] + b), put)
    ensures p.End() < put + |rest| ==>
              Held(a + [Chunk(p.off, p.data + rest[p.End() - put..])] + b) == Splice(Held(a + [p] + b), put, rest)
    ensures p.End() >= put + |rest| ==> Splice(Held(a + [p] + b), put, rest) == Held(a + [p] + b)
  {
    hide Splice, Merged;
    var h := Held(a + [p] + b);
    var want := Splice(h, put, rest);
    Edges(a, p, b);
    assert p.Has(put - 1);
    assert forall k: nat :: put <= k < p.End() ==> p.Has(k);
    assert forall k :: put <= k < p.End() ==> Attached(h, put, k);
    var q := if p.End() < put + |rest| then Chunk(p.off, p.data + rest[p.End() - put..]) else p;
    forall k: nat ensures Look(a + [q] + b, k) == if k in want then Some(want[k]) else None {
      LookAround(a, p, b, k);
      LookAround(a, q, b, k);
      SpliceAt(h, put, rest, k);
      assert k >= p.End() ==> !Attached(h, put, k);
    }
    HeldIs(a + [q] + b, want);
  }

  /** Chunk c after one pass of the forward merge over the chunk n that follows it. */
  function Joined(c: Chunk, n: Chunk): Chunk
    requires n.off <= c.End()
  {
    if n.End() > c.End() then Chunk(c.off, c.data + n.data[c.End() - n.off..]) else c
  }

  lemma FoldNext(a: seq<Chunk>, c: Chunk, n: Chunk, b: seq<Chunk>)
    requires c.off <= n.off <= c.End()
    ensures Held(a + [c] + [n] + b) == Held(a + [Joined(c, n)] + b)
  {
    assert a + [c] + [n] + b == a + [c] + ([n] + b);
    forall k: nat ensures Look(a + [c] + [n] + b, k) == Look(a + [Joined(c, n)] + b, k) {
      LookAround(a, c, [n] + b, k);
      LookAround(a, Joined(c, n), b, k);
      assert ([n] + b)[1..] == b;
    }
    SameHeld(a + [c] + [n] + b, a + [Joined(c, n)] + b);
  }

  /** Merged, except that chunk i may still touch or overlap the chunks after it. */
  ghost predicate MergedExcept(cs: seq<Chunk>, i: nat) {
    && i < |cs|
    && (forall j :: 0 <= j < |cs| ==> cs[j].data != [])
    && (forall j, l :: 0 <= j < l < |cs| && j != i ==> cs[j].End() < cs[l].off)
    && (forall l :: i < l < |cs| ==> cs[i].off < cs[l].off)
  }

  lemma FoldStep(cs: seq<Chunk>, i: nat)
    requires MergedExcept(cs, i) && i + 1 < |cs| && cs[i + 1].off <= cs[i].End()
    ensures MergedExcept(cs[..i] + [Joined(cs[i], cs[i + 1])] + cs[i + 2..], i)
    ensures Held(cs[..i] + [Joined(cs[i], cs[i + 1])] + cs[i + 2..]) == Held(cs)
  {
    assert cs == cs[..i] + [cs[i]] + [cs[i + 1]] + cs[i + 2..];
    FoldNext(cs[..i], cs[i], cs[i + 1], cs[i + 2..]);
  }

  lemma MergedEnds(cs: seq<Chunk>, i: nat)
    requires MergedExcept(cs, i)
    requires i + 1 < |cs| ==> cs[i].End() < cs[i + 1].off
    ensures Merged(cs)
  {
    forall l | i < l < |cs| ensures cs[i].End() < cs[l].off {
      if i + 1 < l { assert cs[i + 1].End() < cs[l].off; }
    }
  }

  /** A chunk list is determined by the bytes it holds. */
  lemma {:induction false} Canonical(a: seq<Chunk>, b: seq<Chunk>)
    requires Merged(a) && Merged(b)
    requires Held(a) == Held(b)
    ensures a == b
  {
    assert forall k: nat :: k in Held(a) <==> k in Held(b);
    if a == [] {
      if b != [] { LookHit(b, 0, b[0].off); }
    } else if b == [] {
      LookHit(a, 0, a[0].off);
    } else {
      SameHead(a, b);
      SameHead(b, a);
      assert a[0] == b[0];
      forall k: nat ensures Look(a[1..], k) == Look(b[1..], k) {
        assert (k in Held(a) <==> k in Held(b)) && (k in Held(a) ==> Held(a)[k] == Held(b)[k]);
        if a[0].Has(k) {
          LookNone(a[1..], k);
          LookNone(b[1..], k);
        }
      }
      SameHeld(a[1..], b[1..]);
      Canonical(a[1..], b[1..]);
    }
  }

  lemma SameHead(a: seq<Chunk>, b: seq<Chunk>)
    requires Merged(a) && Merged(b) && a != [] && b != []
    requires Held(a) == Held(b)
    ensures b[0].off <= a[0].off
    ensures a[0].off == b[0].off ==> |a[0].data| <= |b[0].data|
    ensures a[0].off == b[0].off && |a[0].data| == |b[0].data| ==> a[0] == b[0]
  {
    LookHit(a, 0, a[0].off);
    assert a[0].off in Held(b);
    if a[0].off < b[0].off {
      LookNone(b, a[0].off) by {
        forall i | 0 <= i < |b| ensures !b[i].Has(a[0].off) {
          if i > 0 { assert b[0].End() < b[i].off; }
        }
      }
    }
    if a[0].off == b[0].off && |a[0].data| > |b[0].data| {
      LookHit(a, 0, b[0].End());
      assert b[0].End() in Held(b);
      LookNone(b, b[0].End());
    }
    if a[0].off == b[0].off && |a[0].data| == |b[0].data| {
      forall i | 0 <= i < |a[0].data| ensures a[0].data[i] == b[0].data[i] {
        LookHit(a, 0, a[0].off + i);
        LookHit(b, 0, a[0].off + i);
        assert a[0].off + i in Held(a);
      }
    }
  }

  lemma PlacePrevious(cs: seq<Chunk>, p: nat, put: nat, rest: seq<Byte>)
    requires Merged(cs) && p < |cs| && cs[p].off < put <= cs[p].End()
    ensures !StartsChunk(Held(cs), put)
    ensures cs[p].End() < put + |rest| ==>
              var cs' := cs[..p] + [Chunk(cs[p].off, cs[p].data + rest[cs[p].End() - put..])] + cs[p + 1..];
              MergedExcept(cs', p) && Held(cs') == Splice(Held(cs), put, rest)
    ensures cs[p].End() >= put + |rest| ==> Splice(Held(cs), put, rest) == Held(cs)
  {
    assert cs == cs[..p] + [cs[p]] + cs[p + 1..];
    ExtendPrevious(cs[..p], cs[p], cs[p + 1..], put, rest);
  }

  lemma InsertOrdered(a: seq<Chunk>, c: Chunk, b: seq<Chunk>)
    requires Merged(a + b) && c.data != []
    requires forall j :: 0 <= j < |a| ==> a[j].End() < c.off
    requires forall j :: 0 <= j < |b| ==> c.off < b[j].off
    ensures MergedExcept(a + [c] + b, |a|)
  {
    var all := a + [c] + b;
    forall j, l | 0 <= j < l < |all| && j != |a| ensures all[j].End() < all[l].off {
      var j0, l0 := if j < |a| then j else j - 1, if l < |a| then l else l - 1;
      assert all[j] == (a + b)[j0];
      assert l != |a| ==> all[l] == (a + b)[l0];
    }
    assert forall j :: 0 <= j < |all| && j != |a| ==> all[j] == (a + b)[if j < |a| then j else j - 1];
  }

  lemma Sides(cs: seq<Chunk>, i: nat, put: nat)
    requires Merged(cs) && i <= |cs|
    requires i > 0 ==> cs[i - 1].End() < put
    requires i < |cs| ==> put < cs[i].off
    ensures forall j :: 0 <= j < i ==> cs[j].End() < put
    ensures forall j :: i <= j < |cs| ==> put < cs[j].off
  {
    forall j | 0 <= j < i ensures cs[j].End() < put {
      if j < i - 1 { assert cs[j].End() < cs[i - 1].off; }
    }
    forall j | i <= j < |cs| ensures put < cs[j].off {
      if j > i { assert cs[i].End() < cs[j].off; }
    }
  }

  lemma PlaceNew(cs: seq<Chunk>, i: nat, put: nat, rest: seq<Byte>)
    requires Merged(cs) && i <= |cs| && rest != []
    requires i > 0 ==> cs[i - 1].End() < put
    requires i < |cs| ==> put < cs[i].off
    ensures !StartsChunk(Held(cs), put)
    ensures MergedExcept(cs[..i] + [Chunk(put, rest)] + cs[i..], i)
    ensures Held(cs[..i] + [Chunk(put, rest)] + cs[i..]) == Splice(Held(cs), put, rest)
  {
    hide StartsChunk, Splice, Held, MergedExcept;
    var a, b := cs[..i], cs[i..];
    Sides(cs, i, put);
    assert a + b == cs;
    PutBetween(a, b, put, rest);
    InsertOrdered(a, Chunk(put, rest), b);
  }

  class RecvSide {
    var chunks: seq<Chunk>
    var readOff: nat
    var highWater: nat
    var limit: nat
    var finalSize: Option<nat>
    var resetError: Option<nat>
    var phase: RecvPhase

    ghost function View(): Recv
      reads this
    {
      Recv(Held(chunks), readOff, highWater, limit, finalSize, resetError, phase)
    }

    ghost predicate Valid()
      reads this
    {
      Merged(chunks) && Sound(View())
    }

    constructor (initialMax: nat)
      ensures Valid()
      ensures View() == Recv(map[], 0, 0, initialMax, None, None, Receiving)
    {
      chunks, readOff, highWater, limit := [], 0, 0, initialMax;
      finalSize, resetError, phase := None, None, Receiving;
    }

    /** The forward merge loop that follows both ways of placing a frame. */
    method MergeForward(i: nat)
      requires MergedExcept(chunks, i)
      modifies this`chunks
      ensures Merged(chunks)
      ensures Held(chunks) == old(Held(chunks))
    {
      while i + 1 < |chunks| && chunks[i + 1].off <= chunks[i].End()
        invariant MergedExcept(chunks, i)
        invariant Held(chunks) == old(Held(chunks))
        decreases |chunks|
      {
        FoldStep(chunks, i);
        var cur, next := chunks[i], chunks[i + 1];
        if next.End() > cur.End() {
          var take := next.End() - cur.End();
          cur := Chunk(cur.off, cur.data + next.data[|next.data| - take..]);
        }
        chunks := chunks[..i] + [cur] + chunks[i + 2..];
      }
      MergedEnds(chunks, i);
    }

    /** Places the unread part of a frame, merging with the chunks around it. */
    method Insert(put: nat, rest: seq<Byte>)
      requires rest != [] && Merged(chunks)
      modifies this`chunks
      ensures Merged(chunks)
      ensures Held(chunks) == if StartsChunk(old(Held(chunks)), put) then old(Held(chunks))
                              else Splice(old(Held(chunks)), put, rest)
    {
      hide Splice, StartsChunk, Held, Merged, MergedExcept;
      var it := 0;
      while it < |chunks| && chunks[it].off < put
        invariant it <= |chunks|
        invariant forall j :: 0 <= j < it ==> chunks[j].off < put
      {
        it := it + 1;
      }
      if it > 0 && chunks[it - 1].End() >= put {
        var prev := chunks[it - 1];
        PlacePrevious(chunks, it - 1, put, rest);
        if prev.End() < put + |rest| {
          var overlap := prev.End() - put;
          chunks := chunks[..it - 1] + [Chunk(prev.off, prev.data + rest[overlap..])] + chunks[it..];
          MergeForward(it - 1);
        }
      } else if it < |chunks| && chunks[it].off == put {
        StartsAt(chunks, it);
        MergeForward(it);
      } else {
        PlaceNew(chunks, it, put, rest);
        chunks := chunks[..it] + [Chunk(put, rest)] + chunks[it..];
        MergeForward(it);
      }
    }

    /** Trims a frame against the consumed prefix and stores what is left. */
    method Store(off: nat, data: seq<Byte>)
      requires Merged(chunks)
      modifies this`chunks
      ensures Merged(chunks)
      ensures Held(chunks) == Absorb(old(Held(chunks)), readOff, off, data)
    {
      hide Splice, StartsChunk, Held, Merged;
      var put, rest := off, data;
      if put < readOff {
        var drop := readOff - put;
        rest := if drop >= |rest| then [] else rest[drop..];
        put := readOff;
      }
      if rest != [] {
        Insert(put, rest);
      }
    }

    /** State transitions once the final size is known (section 3.2 of RFC 9000). */
    method SettlePhase()
      requires Merged(chunks)
      modifies this`phase
      ensures View() == Settle(old(View()))
    {
      if finalSize.Some? {
        if phase == Receiving {
          phase := SizeKnown;
        }
        EmptyHeld(chunks);
        if chunks != [] {
          OneChunk(chunks, readOff, finalSize.value);
          if chunks[0].off == readOff && chunks[0].End() == finalSize.value && |chunks| == 1 {
            phase := DataRecvd;
          }
        } else if readOff == finalSize.value {
          phase := DataRead;
        }
      }
    }

    method Deliver(off: nat, data: seq<Byte>, fin: bool) returns (ok: bool)
      requires Valid()
      modifies this
      ensures Valid()
      ensures (View(), ok) == Reassembly.Deliver(old(View()), off, data, fin)
    {
      hide Absorb, Held, Merged, Settle, Sound;
      ghost var r := View();
      DeliverSound(r, off, data, fin);
      if phase.ResetRecvd? || phase.ResetRead? {
        return true;
      }
      var end := off + |data|;
      if end > limit {
        return false;
      }
      if finalSize.Some? && (end > finalSize.value || (fin && end != finalSize.value)) {
        return false;
      }
      if fin {
        finalSize := Some(end);
      }
      if end > highWater {
        highWater := end;
      }
      Store(off, data);
      SettlePhase();
      return true;
    }

    /** Appends the bytes that can be read in order to `out`. */
    method ReadContiguous(out: seq<Byte>) returns (out': seq<Byte>, fin: bool)
      requires Valid()
      modifies this
      ensures Valid()
      ensures View() == Read(old(View())).0
      ensures out' == out + Read(old(View())).1.data && fin == Read(old(View())).1.fin
    {
      hide Held, Run, Sound, Merged;
      ghost var r := View();
      ReadSound(r);
      Unconsumed(r);
      FirstRun(chunks, readOff);
      EmptyHeld(chunks);
      out', fin := out, false;
      if chunks == [] {
        if finalSize == Some(readOff) {
          fin := true;
          if phase != DataRead {
            phase := DataRead;
          }
        }
        return;
      }
      if chunks[0].off != readOff {
        return;
      }
      DropFirst(chunks);
      out' := out' + chunks[0].data;
      readOff := readOff + |chunks[0].data|;
      chunks := chunks[1..];
      if finalSize == Some(readOff) {
        fin := true;
        phase := DataRead;
      }
    }

    method SetRecvLimit(newLimit: nat) returns (grew: bool)
      requires Valid()
      modifies this
      ensures Valid()
      ensures View() == old(View()).(limit := if grew then newLimit else old(limit))
      ensures grew <==> newLimit > old(limit)
    {
      if newLimit <= limit {
        return false;
      }
      limit := newLimit;
      return true;
    }

    method ResetRecvd(final: nat, error: nat) returns (ok: bool)
      requires Valid()
      modifies this
      ensures Valid()
      ensures (View(), ok) == Reset(old(View()), final, error)
    {
      ResetSound(View(), final, error);
      if finalSize.Some? && finalSize.value != final {
        return false;
      }
      if final > limit {
        return false;
      }
      finalSize := Some(final);
      highWater := if final > highWater then final else highWater;
      resetError := Some(error);
      phase := RecvPhase.ResetRecvd;
      chunks := [];
      return true;
    }
  }

  lemma Unconsumed(r: Recv)
    requires Sound(r)
    ensures forall k :: k in r.held ==> r.readOff <= k
  {
  }

  lemma EmptyHeld(cs: seq<Chunk>)
    requires Merged(cs)
    ensures Held(cs) == map[] <==> cs == []
  {
    if cs != [] { LookHit(cs, 0, cs[0].off); assert cs[0].off in Held(cs); }
  }

  lemma OneChunk(cs: seq<Chunk>, lo: nat, hi: nat)
    requires Merged(cs) && cs != []
    ensures |cs| == 1 && cs[0].off == lo && cs[0].End() == hi <==> lo < hi && Held(cs).Keys == Span(lo, hi)
  {
    if |cs| == 1 {
      assert forall k: nat :: Look(cs, k).Some? <==> cs[0].Has(k);
    }
    if lo < hi && Held(cs).Keys == Span(lo, hi) {
      var h := Held(cs);
      assert forall k :: lo <= k < hi ==> k in h;
      var one := [Chunk(lo, seq(hi - lo, i requires 0 <= i < hi - lo => h[lo + i]))];
      assert Merged(one);
      forall k: nat ensures Look(cs, k) == Look(one, k) {
        assert k in h <==> lo <= k < hi;
      }
      SameHeld(cs, one);
      Canonical(cs, one);
    }
  }

  lemma FirstRun(cs: seq<Chunk>, at: nat)
    requires Merged(cs) && forall k :: k in Held(cs) ==> at <= k
    ensures Run(Held(cs), at) == if cs != [] && cs[0].off == at then cs[0].data else []
    ensures cs != [] ==> cs[0].data != []
  {
    var run := Run(Held(cs), at);
    if cs != [] {
      LookHit(cs, 0, cs[0].off);
      assert cs[0].off in Held(cs);
    }
    if cs != [] && cs[0].off == at {
      LookNone(cs, cs[0].End());
      forall k: nat | cs[0].Has(k) ensures k in Held(cs) && Held(cs)[k] == cs[0].data[k - at] { LookHit(cs, 0, k); }
      assert |run| == |cs[0].data|;
      forall i | 0 <= i < |run| ensures run[i] == cs[0].data[i] { assert cs[0].Has(at + i); }
    } else {
      LookNone(cs, at) by {
        forall i | 0 <= i < |cs| ensures !cs[i].Has(at) { if i > 0 { assert cs[0].End() < cs[i].off; } }
      }
    }
  }

  lemma DropFirst(cs: seq<Chunk>)
    requires Merged(cs) && cs != []
    ensures Held(cs[1..]) == Held(cs) - Span(cs[0].off, cs[0].End())
    ensures Merged(cs[1..])
  {
    var want := Held(cs) - Span(cs[0].off, cs[0].End());
    forall k: nat ensures Look(cs[1..], k) == if k in want then Some(want[k]) else None {
      if cs[0].Has(k) { LookNone(cs[1..], k); }
    }
    HeldIs(cs[1..], want);
  }

  lemma StartsAt(cs: seq<Chunk>, i: nat)
    requires Merged(cs) && i < |cs|
    ensures StartsChunk(Held(cs), cs[i].off)
    ensures MergedExcept(cs, i)
  {
    LookHit(cs, i, cs[i].off);
    if cs[i].off > 0 {
      LookNone(cs, cs[i].off - 1) by {
        forall j | 0 <= j < |cs| ensures !cs[j].Has(cs[i].off - 1) {
          if j < i { assert cs[j].End() < cs[i].off; }
          if j > i { assert cs[i].End() < cs[j].off; }
        }
      }
    }
  }
}
