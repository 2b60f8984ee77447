/**
 What the methods of `Sender.Connection` do is covered by the runs of `Transfer`:
 wherever a run has come to, the moves of the sending connection are events by
 which it goes on, and the receiver is left as it is.
 */
module SenderRuns {
  import opened AckRanges
  import M = Moves
  import opened Transfer
  import opened TransferSteps
  import opened TransferSafety

  /** The sending side of the system is in this state. */
  predicate Matches(s: System, h: M.Hold) {
    s.streams == h.streams && s.building == h.building && s.sent == h.sent && |s.packets| == h.nextPn
  }

  /** The receiving side and what is on its way back are the same. */
  predicate SameReceiver(s: System, s': System) {
    && s'.rcv == s.rcv && s'.out == s.out && s'.ranges == s.ranges && s'.got == s.got && s'.acks == s.acks
    && s'.failed == s.failed
  }

  /** The event that a move is, when what it acknowledges was named by f. */
  function EventOf(m: M.Move, f: AckFrame): Event {
    match m
    case Writes(id, bytes, fin) => WriteTo(id, bytes, fin)
    case Pulls(id, maxBytes, maxFresh) => PullInto(id, maxBytes, maxFresh)
    case Seals(ackEliciting, sentAt) => Seal(ackEliciting, sentAt)
    case Acks(i) => AckArrives(f, i)
    case Loses(i) => DeclareLost(i)
  }

  /** Nothing is acknowledged, or what a frame names that the receiver has sent. */
  ghost predicate Sent(s: System, named: set<nat>, f: AckFrame) { named == {} || (f in s.acks && named <= Walk(f)) }

  lemma MoveIsEvent(s: System, a: M.Hold, m: M.Move, named: set<nat>, f: AckFrame)
    requires WellFormed(s) && Matches(s, a) && M.Can(a, m, named) && Sent(s, named, f)
    ensures Enabled(s, EventOf(m, f))
    ensures Matches(Apply(s, EventOf(m, f)), M.Made(a, m)) && SameReceiver(s, Apply(s, EventOf(m, f)))
  {
  }

  /** From every state a run can be in, the moves are a way on. */
  lemma {:induction false} MovesAreRun(s: System, a: M.Hold, ms: seq<M.Move>, named: set<nat>, f: AckFrame, b: M.Hold)
    returns (es: seq<Event>, s': System)
    requires Inv(s) && Matches(s, a) && M.Takes(a, ms, named, b) && Sent(s, named, f)
    ensures Reaches(s, es, s') && Matches(s', b) && SameReceiver(s, s')
    decreases |ms|
  {
    if ms == [] {
      es, s' := [], s;
    } else {
      var e := EventOf(ms[0], f);
      InvWellFormed(s);
      MoveIsEvent(s, a, ms[0], named, f);
      StepKeeps(s, e);
      hide Inv, WellFormed, Apply, Enabled, M.Made, M.Can;
      var rest;
      rest, s' := MovesAreRun(Apply(s, e), M.Made(a, ms[0]), ms[1..], named, f, b);
      es := [e] + rest;
      assert es[1..] == rest;
    }
  }

  /**
   So in every run of the whole system, whatever a method of the connection does next is a continuation of the run:
   all that holds of every run holds of a connection driven by those methods.
   */
  lemma ConnectionFollows(s0: System, es0: seq<Event>, s: System, a: M.Hold, named: set<nat>, f: AckFrame, b: M.Hold)
    returns (es: seq<Event>, s': System)
    requires Init(s0) && Reaches(s0, es0, s) && Matches(s, a) && M.Leads(a, named, b) && Sent(s, named, f)
    ensures Reaches(s0, es, s') && Matches(s', b) && SameReceiver(s, s')
  {
    InitHolds(s0);
    InvHolds(s0, es0, s);
    hide Inv, Init, Matches;
    var ms :| M.Takes(a, ms, named, b);
    es, s' := MovesAreRun(s, a, ms, named, f, b);
    ReachesConcat(s0, es0, s, es, s');
    es := es0 + es;
  }
}
