/**
 What a sending connection does to its streams and its records, one small step at a
 time.  Every method of `Sender.Connection` is a sequence of these moves, and each
 move is an event of `Transfer`.
 */
module Moves {
  import opened Bytes
  import opened SendQueue
  import opened Flight

  /** The streams, the packet being built, the packets on record, and the number the next packet gets. */
  datatype Hold = Hold(streams: Streams, building: seq<Frame>, sent: seq<Packet>, nextPn: nat)

  datatype Move =
    | Writes(id: nat, bytes: seq<Byte>, fin: bool)
    | Pulls(id: nat, maxBytes: nat, maxFresh: nat)
    | Seals(ackEliciting: bool, sentAt: int)
    | Acks(i: nat)
    | Loses(i: nat)

  ghost predicate Doable(h: Hold, m: Move) {
    match m
    case Writes(id, _, _) => id in h.streams
    case Pulls(id, _, _) => id in h.streams && Sound(h.streams[id])
    case Seals(_, _) => true
    case Acks(i) => i < |h.sent|
    case Loses(i) => i < |h.sent|
  }

  function Made(h: Hold, m: Move): Hold
    requires Doable(h, m)
  {
    match m
    case Writes(id, bytes, fin) => h.(streams := h.streams[id := Write(h.streams[id], bytes, fin)])
    case Pulls(id, maxBytes, maxFresh) =>
      var (st, p) := Pull(h.streams[id], maxBytes, maxFresh);
      if p.data == [] && !p.fin then h
      else h.(streams := h.streams[id := st], building := h.building + [FrameOf(id, p)])
    case Seals(ackEliciting, sentAt) =>
      h.(building := [], sent := h.sent + [Packet(h.nextPn, h.building, ackEliciting, sentAt)], nextPn := h.nextPn + 1)
    case Acks(i) =>
      h.(streams := AckFrames(h.streams, h.sent[i].frames), sent := h.sent[..i] + h.sent[i + 1..])
    case Loses(i) =>
      h.(streams := LoseFrames(h.streams, h.sent[i].frames), sent := h.sent[..i] + h.sent[i + 1..])
  }

  /** Only packets that an acknowledgement has named are acknowledged. */
  ghost predicate Can(h: Hold, m: Move, named: set<nat>) {
    Doable(h, m) && (m.Acks? ==> h.sent[m.i].pn in named)
  }

  ghost predicate Takes(a: Hold, ms: seq<Move>, named: set<nat>, b: Hold)
    decreases |ms|
  {
    if ms == [] then a == b else Can(a, ms[0], named) && Takes(Made(a, ms[0]), ms[1..], named, b)
  }

  /** Moves lead from one to the other. */
  ghost predicate Leads(a: Hold, named: set<nat>, b: Hold) { exists ms :: Takes(a, ms, named, b) }

  lemma Stays(a: Hold, named: set<nat>)
    ensures Leads(a, named, a)
  {
    assert Takes(a, [], named, a);
  }

  lemma Single(a: Hold, m: Move, named: set<nat>)
    requires Can(a, m, named)
    ensures Leads(a, named, Made(a, m))
  {
    hide Made, Doable;
    assert Takes(Made(a, m), [], named, Made(a, m)) && [m][1..] == [];
    assert Takes(a, [m], named, Made(a, m));
  }

  lemma {:induction false} TakesConcat(a: Hold, ms: seq<Move>, b: Hold, ns: seq<Move>, named: set<nat>, c: Hold)
    requires Takes(a, ms, named, b) && Takes(b, ns, named, c)
    ensures Takes(a, ms + ns, named, c)
    decreases |ms|
  {
    hide Made, Doable;
    if ms == [] {
      assert ms + ns == ns;
    } else {
      TakesConcat(Made(a, ms[0]), ms[1..], b, ns, named, c);
      assert (ms + ns)[1..] == ms[1..] + ns;
    }
  }

  lemma Then(a: Hold, named: set<nat>, b: Hold, c: Hold)
    requires Leads(a, named, b) && Leads(b, named, c)
    ensures Leads(a, named, c)
  {
    var ms :| Takes(a, ms, named, b);
    var ns :| Takes(b, ns, named, c);
    TakesConcat(a, ms, b, ns, named, c);
  }

  lemma {:induction false} TakesWiden(a: Hold, ms: seq<Move>, named: set<nat>, more: set<nat>, b: Hold)
    requires Takes(a, ms, named, b) && named <= more
    ensures Takes(a, ms, more, b)
    decreases |ms|
  {
    hide Made, Doable;
    if ms != [] { TakesWiden(Made(a, ms[0]), ms[1..], named, more, b); }
  }

  lemma Widen(a: Hold, named: set<nat>, more: set<nat>, b: Hold)
    requires Leads(a, named, b) && named <= more
    ensures Leads(a, more, b)
  {
    var ms :| Takes(a, ms, named, b);
    TakesWiden(a, ms, named, more, b);
  }
}
