/**
 Every run of one sending stream: writes, pulls, acknowledgements and losses of
 outstanding ranges, and larger limits, in any order.
 */
module SendRuns {
  import opened Bytes
  import opened SendQueue

  datatype Event =
    | Writes(bytes: seq<Byte>, fin: bool)
    | Pulls(maxBytes: nat, maxFresh: nat)
    | Acks(off: nat, len: nat)
    | Loses(off: nat, len: nat)
    | Grants(limit: nat)

  ghost predicate Enabled(s: Send, e: Event) {
    Sound(s) && (e.Acks? || e.Loses? ==> Outstanding(s, e.off, e.len))
  }

  ghost function Apply(s: Send, e: Event): Send
    requires Enabled(s, e)
  {
    match e
    case Writes(bytes, fin) => Write(s, bytes, fin)
    case Pulls(maxBytes, maxFresh) => Pull(s, maxBytes, maxFresh).0
    case Acks(off, len) => Ack(s, off, len)
    case Loses(off, len) => Lose(s, off, len)
    case Grants(limit) => Grant(s, limit)
  }

  /** The states of a run, from a new stream to the last one. */
  ghost predicate Run(ss: seq<Send>, es: seq<Event>) {
    && |ss| == |es| + 1 && ss[0] == Fresh(ss[0].limit)
    && forall i :: 0 <= i < |es| ==> Enabled(ss[i], es[i]) && ss[i + 1] == Apply(ss[i], es[i])
  }

  ghost predicate SlipsAt(ss: seq<Send>, es: seq<Event>, i: nat)
    requires |ss| == |es| + 1
  {
    i < |es| && es[i].Pulls? && SendQueue.Slips(ss[i], es[i].maxBytes)
  }

  /** A pull slipped, and the FIN has not been taken back since. */
  ghost predicate SlippedSince(ss: seq<Send>, es: seq<Event>)
    requires |ss| == |es| + 1
  {
    exists i: nat :: SlipsAt(ss, es, i) && forall j :: i < j < |ss| ==> ss[j].finSent
  }

  lemma StepSound(s: Send, e: Event)
    requires Enabled(s, e)
    ensures Sound(Apply(s, e))
  {
    match e
    case Writes(_, _) =>
    case Pulls(maxBytes, maxFresh) => PullSound(s, maxBytes, maxFresh);
    case Acks(off, len) => AckSound(s, off, len);
    case Loses(off, len) => LoseSound(s, off, len);
    case Grants(_) =>
  }

  /** One step: the stream has slipped afterwards if it slipped now, or had before and the FIN was not taken back. */
  lemma StepSlips(s: Send, e: Event)
    requires Enabled(s, e)
    ensures Slipped(Apply(s, e)) <==> (e.Pulls? && Slips(s, e.maxBytes)) || (Slipped(s) && Apply(s, e).finSent)
  {
  }

  lemma {:induction false} RunSound(ss: seq<Send>, es: seq<Event>)
    requires Run(ss, es)
    ensures Sound(ss[|es|])
  {
    hide Sound;
    if es == [] {
      FreshSound(ss[0].limit);
    } else {
      StepSound(ss[|es| - 1], es[|es| - 1]);
    }
  }

  lemma FreshSound(limit: nat)
    ensures Sound(Fresh(limit)) && !Slipped(Fresh(limit))
  {
  }

  /**
   In every run: the stream has announced its end and still accepts bytes if and only if some pull put the FIN on
   a retransmission in the sending phase and the FIN has not been taken back since.
   */
  lemma {:induction false} OpenAfterFin(ss: seq<Send>, es: seq<Event>)
    requires Run(ss, es)
    ensures Slipped(ss[|es|]) <==> SlippedSince(ss, es)
    decreases |es|
  {
    hide Sound, Outstanding, Slips, Apply;
    if es == [] {
      FreshSound(ss[0].limit);
    } else {
      var n := |es| - 1;
      var ss0, es0 := ss[..n + 1], es[..n];
      OpenAfterFin(ss0, es0);
      StepSlips(ss[n], es[n]);
      LastStep(ss, es);
    }
  }

  lemma LastStep(ss: seq<Send>, es: seq<Event>)
    requires |ss| == |es| + 1 && es != []
    ensures var n := |es| - 1;
            SlippedSince(ss, es) <==>
              ss[|es|].finSent && (SlipsAt(ss, es, n) || SlippedSince(ss[..n + 1], es[..n]))
  {
    hide Slips;
    var n := |es| - 1;
    var ss0, es0 := ss[..n + 1], es[..n];
    assert forall i: nat :: i < n ==> (SlipsAt(ss, es, i) <==> SlipsAt(ss0, es0, i));
    if SlippedSince(ss, es) {
      var i: nat :| SlipsAt(ss, es, i) && forall j :: i < j < |ss| ==> ss[j].finSent;
      assert i < n ==> SlipsAt(ss0, es0, i) && forall j :: i < j < |ss0| ==> ss0[j].finSent;
    }
    if SlippedSince(ss0, es0) && ss[|es|].finSent {
      var i: nat :| SlipsAt(ss0, es0, i) && forall j :: i < j < |ss0| ==> ss0[j].finSent;
      forall j | i < j < |ss| ensures ss[j].finSent {
        if j < |es| { assert ss0[j].finSent; }
      }
      assert SlipsAt(ss, es, i);
    }
  }

  lemma Extend(ss: seq<Send>, es: seq<Event>, e: Event, s: Send) returns (ss': seq<Send>, es': seq<Event>)
    requires Run(ss, es) && Enabled(ss[|es|], e) && s == Apply(ss[|es|], e)
    ensures Run(ss', es') && ss'[|es'|] == s
  {
    hide Enabled, Apply;
    ss', es' := ss + [s], es + [e];
  }

  /** Writing any bytes, losing them, then closing: the FIN is on the wire and yet one more byte is accepted. */
  lemma FinOnRetransmissionLeavesStreamOpen(w: seq<Byte>, b: Byte) returns (ss: seq<Send>, es: seq<Event>)
    requires w != []
    ensures Run(ss, es) && ss[|es|].finSent && Write(ss[|es|], [b], false).written == w + [b]
  {
    SlipSteps(|w|, w);
    var s1 := Fresh(|w|).(written := w, phase := Sending);
    var s2 := s1.(next := |w|);
    var s3 := s2.(lost := [Range(0, |w|)]);
    var s4 := s3.(finQueued := true);
    hide Pull, Write, Lose, Sound, Outstanding, Slips;
    ss, es := [Fresh(|w|)], [];
    ss, es := Extend(ss, es, Writes(w, false), s1);
    ss, es := Extend(ss, es, Pulls(|w|, |w|), s2);
    ss, es := Extend(ss, es, Loses(0, |w|), s3);
    ss, es := Extend(ss, es, Writes([], true), s4);
    ss, es := Extend(ss, es, Pulls(|w|, |w|), s4.(lost := [], finSent := true));
    StillOpen(ss[|es|], b);
  }

  lemma StillOpen(s: Send, b: Byte)
    requires Writable(s)
    ensures Write(s, [b], false).written == s.written + [b]
  {
  }
}
