/**
 What holds in every run of `Transfer`: any number of streams, any interleaving of
 writes, packets, losses, reordered or duplicated deliveries, reads and
 acknowledgements.
 */
module TransferSafety {
  import opened Bytes
  import R = Reassembly
  import opened SendQueue
  import opened Flight
  import opened AckRanges
  import opened Transfer
  import opened TransferSteps

  /** The events `es`, each enabled when it happens, lead from s to s'. */
  ghost predicate Reaches(s: System, es: seq<Event>, s': System)
    decreases |es|
  {
    if es == [] then s == s'
    else
      && WellFormed(s) && Enabled(s, es[0])
      && Reaches(Apply(s, es[0]), es[1..], s')
  }

  lemma {:induction false} InvHolds(s: System, es: seq<Event>, s': System)
    requires Inv(s) && Reaches(s, es, s')
    ensures Inv(s')
    decreases |es|
  {
    hide Inv;
    if es != [] {
      StepKeeps(s, es[0]);
      InvHolds(Apply(s, es[0]), es[1..], s');
    }
  }

  lemma {:induction false} ReachesThen(s0: System, es: seq<Event>, s: System, e: Event)
    requires Reaches(s0, es, s) && WellFormed(s) && Enabled(s, e)
    ensures Reaches(s0, es + [e], Apply(s, e))
    decreases |es|
  {
    hide Enabled, Apply, Sound, Descending;
    if es == [] {
      assert (es + [e])[1..] == [];
    } else {
      ReachesThen(Apply(s0, es[0]), es[1..], s, e);
      assert (es + [e])[1..] == es[1..] + [e];
    }
  }

  lemma {:induction false} ReachesConcat(a: System, es: seq<Event>, b: System, fs: seq<Event>, c: System)
    requires Reaches(a, es, b) && Reaches(b, fs, c)
    ensures Reaches(a, es + fs, c)
    decreases |es|
  {
    hide Enabled, Apply, WellFormed;
    if es == [] {
      assert es + fs == fs;
    } else {
      ReachesConcat(Apply(a, es[0]), es[1..], b, fs, c);
      assert (es + fs)[1..] == es[1..] + fs;
    }
  }

  /** Every enabled event can be taken from every reachable state: no run gets stuck. */
  lemma NeverStuck(s0: System, es: seq<Event>, s: System, e: Event)
    requires Init(s0) && Reaches(s0, es, s) && Enabled(s, e)
    ensures WellFormed(s) && Reaches(s0, es + [e], Apply(s, e))
  {
    InitHolds(s0);
    InvHolds(s0, es, s);
    InvWellFormed(s);
    ReachesThen(s0, es, s, e);
  }

  /**
   In-order delivery: what the receiving application has read is a prefix of what the sending
   application wrote, exactly as long as the read cursor says.
   */
  lemma ReadsArePrefix(s0: System, es: seq<Event>, s: System, id: nat)
    requires Init(s0) && Reaches(s0, es, s) && id in s.streams
    ensures id in s.rcv && id in s.out
    ensures |s.out[id]| == s.rcv[id].readOff && s.out[id] <= s.streams[id].written
    ensures forall k :: k in s.rcv[id].held ==>
              k < |s.streams[id].written| && s.rcv[id].held[k] == s.streams[id].written[k]
  {
    InitHolds(s0);
    InvHolds(s0, es, s);
    assert Faithful(s.streams[id], s.rcv[id], s.out[id]);
  }

  /** Conservation: each sent byte is acknowledged, queued for resending or in flight, never two of these. */
  lemma BytesConserved(s0: System, es: seq<Event>, s: System, id: nat, k: nat)
    requires Init(s0) && Reaches(s0, es, s) && id in s.streams
    ensures One(k in s.streams[id].acked) + CountLost(s.streams[id].lost, k) + InFlight(s.building, s.sent, id, k)
            == One(k < s.streams[id].next)
    ensures id in s.rcv && s.streams[id].next <= s.streams[id].limit <= s.rcv[id].limit
  {
    hide *;
    InitHolds(s0);
    InvHolds(s0, es, s);
    ByteAccounted(s, id, k);
  }

  lemma ByteAccounted(s: System, id: nat, k: nat)
    requires Inv(s) && id in s.streams
    ensures One(k in s.streams[id].acked) + CountLost(s.streams[id].lost, k) + InFlight(s.building, s.sent, id, k)
            == One(k < s.streams[id].next)
    ensures id in s.rcv && s.streams[id].next <= s.streams[id].limit <= s.rcv[id].limit
  {
    hide CountLost, InFlight;
    StreamsSound(s.streams, s.building, s.sent);
    assert ByteConserved(s.streams, s.building, s.sent, id, k);
    assert Faithful(s.streams[id], s.rcv[id], s.out[id]);
  }

  /** The receiver has read byte k of stream id, or holds it with the value that was written. */
  ghost predicate Has(s: System, id: nat, k: nat) {
    && id in s.streams && id in s.rcv && k < |s.streams[id].written|
    && (k < s.rcv[id].readOff || (k in s.rcv[id].held && s.rcv[id].held[k] == s.streams[id].written[k]))
  }

  /**
   No acknowledged byte is missing: unless the receiver has rejected a frame of the stream, every byte the sender
   holds acknowledged, and so may release, was read or is held by the receiver with its true value.
   */
  lemma AcknowledgedIsReceived(s0: System, es: seq<Event>, s: System, id: nat, k: nat)
    requires Init(s0) && Reaches(s0, es, s) && id in s.streams && id !in s.failed
    requires k in s.streams[id].acked
    ensures Has(s, id, k)
  {
    InitHolds(s0);
    InvHolds(s0, es, s);
    assert Faithful(s.streams[id], s.rcv[id], s.out[id]);
    assert R.Got(s.rcv[id], k);
  }

  /** A stream the sender considers fully delivered has been received to its last byte. */
  lemma DeliveredIsReceived(s0: System, es: seq<Event>, s: System, id: nat, k: nat)
    requires Init(s0) && Reaches(s0, es, s) && id in s.streams && id !in s.failed
    requires s.streams[id].phase == DataRecvd && k < |s.streams[id].written|
    ensures Has(s, id, k)
  {
    InitHolds(s0);
    InvHolds(s0, es, s);
    StreamsSound(s.streams, s.building, s.sent);
    assert AllAcked(s.streams[id]);
    AcknowledgedIsReceived(s0, es, s, id, k);
  }

  /**
   Unless a frame that announced the end of the stream has been overtaken by later writes: nothing of the stream
   was rejected, a final size the receiver knows is the true one, and it reports the end exactly when it knows the
   size and everything written has been read.
   */
  lemma EndIsTrue(s0: System, es: seq<Event>, s: System, id: nat)
    requires Init(s0) && Reaches(s0, es, s) && id in s.streams && !Overtaken(s, id)
    ensures id !in s.failed && id in s.rcv && id in s.out
    ensures s.rcv[id].finalSize.Some? ==> s.rcv[id].finalSize.value == |s.streams[id].written|
    ensures s.rcv[id].phase == R.DataRead <==> s.rcv[id].finalSize.Some? && s.out[id] == s.streams[id].written
  {
    InitHolds(s0);
    InvHolds(s0, es, s);
    hide Reaches, Init;
    EndTrue(s, id);
  }

  lemma EndTrue(s: System, id: nat)
    requires Inv(s) && id in s.streams && !Overtaken(s, id)
    ensures id !in s.failed && id in s.rcv && id in s.out
    ensures s.rcv[id].finalSize.Some? ==> s.rcv[id].finalSize.value == |s.streams[id].written|
    ensures s.rcv[id].phase == R.DataRead <==> s.rcv[id].finalSize.Some? && s.out[id] == s.streams[id].written
  {
    EndKnown(s, id);
    hide SendInv, AckInv, LinkInv, FinInv, LogInv, Whole;
    var r, written := s.rcv[id], s.streams[id].written;
    assert Faithful(s.streams[id], r, s.out[id]);
    assert r.readOff == |written| ==> r.held == map[];
  }

  lemma EndKnown(s: System, id: nat)
    requires Inv(s) && id in s.streams && !Overtaken(s, id)
    ensures id !in s.failed && id in s.rcv
    ensures s.rcv[id].finalSize.Some? ==> s.rcv[id].finalSize.value == |s.streams[id].written|
  {
    hide Conserved, Nested, Recorded, Whole, Faithful, AckInv, LinkInv, LogInv;
    if s.rcv[id].finalSize.Some? {
      assert SizeSent(s.log, id, s.rcv[id].finalSize.value);
      var f :| f in s.log && Announces(f, id) && f.End() == s.rcv[id].finalSize.value;
      assert Carries(s.streams, f);
    }
  }

  /**
   Once everything written has been sent, and nothing is lost or in flight, the next read gives the receiving
   application the rest of it: nothing can have been lost for good.
   */
  lemma QuietIsComplete(s0: System, es: seq<Event>, s: System, id: nat)
    requires Init(s0) && Reaches(s0, es, s) && id in s.streams && id !in s.failed
    requires s.streams[id].next == |s.streams[id].written| && s.streams[id].lost == [] && s.building == [] && s.sent == []
    ensures id in s.rcv && id in s.out && s.out[id] + R.Read(s.rcv[id]).1.data == s.streams[id].written
  {
    hide Reaches, Init, R.Run;
    ReadsArePrefix(s0, es, s, id);
    var written, held, cut := s.streams[id].written, s.rcv[id].held, s.rcv[id].readOff;
    forall k | cut <= k < |written| ensures k in held { QuietHas(s0, es, s, id, k); }
    RestOf(held, cut, written);
    assert written == written[..cut] + written[cut..];
  }

  lemma QuietHas(s0: System, es: seq<Event>, s: System, id: nat, k: nat)
    requires Init(s0) && Reaches(s0, es, s) && id in s.streams && id !in s.failed && k < |s.streams[id].written|
    requires s.streams[id].next == |s.streams[id].written| && s.streams[id].lost == [] && s.building == [] && s.sent == []
    ensures Has(s, id, k)
  {
    hide Reaches, Init, Has;
    BytesConserved(s0, es, s, id, k);
    AcknowledgedIsReceived(s0, es, s, id, k);
  }

  /** If everything from the cursor on is held with its written value, one run is all the rest. */
  lemma RestOf(held: map<nat, Byte>, cut: nat, written: seq<Byte>)
    requires cut <= |written| && forall k :: k in held ==> k < |written| && held[k] == written[k]
    requires forall k :: cut <= k < |written| ==> k in held
    ensures R.Run(held, cut) == written[cut..]
  {
    var data := R.Run(held, cut);
    assert data != [] ==> cut + |data| - 1 in held;
  }
}
