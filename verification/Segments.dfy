/**
 Machines that read a byte stream from a buffer: they take whole units off its
 front while they can, and wait for more bytes when they cannot.  Such a machine
 does the same whichever way the stream is cut into reads.
 */
module Segments {
  import opened Bytes

  /**
   One unit: the new state and how many bytes it took; none when it must wait, or has stopped.
   A unit that takes no bytes lowers the rank of the state.
   */
  datatype Machine<!S> = Machine(step: (S, seq<Byte>) -> Option<(S, nat)>, rank: S -> nat)

  /** A step that can be taken is the same one however many more bytes follow. */
  ghost predicate Steady<S(!new)>(m: Machine<S>) {
    forall s: S, buf: seq<Byte> :: StepSteady(m, s, buf)
  }

  ghost predicate StepSteady<S>(m: Machine<S>, s: S, buf: seq<Byte>) {
    m.step(s, buf).Some? ==>
      var (s', n) := m.step(s, buf).value;
      && n <= |buf| && (n > 0 || m.rank(s') < m.rank(s))
      && forall more: seq<Byte> :: m.step(s, buf + more) == m.step(s, buf)
  }

  /** Steps for as long as one can be taken: the final state and the bytes still buffered. */
  function Run<S(!new)>(m: Machine<S>, s: S, buf: seq<Byte>): (res: (S, seq<Byte>))
    requires Steady(m)
    decreases |buf|, m.rank(s)
  {
    assert StepSteady(m, s, buf);
    if m.step(s, buf).None? then (s, buf)
    else
      var (s', n) := m.step(s, buf).value;
      Run(m, s', buf[n..])
  }

  lemma RunStep<S(!new)>(m: Machine<S>, s: S, buf: seq<Byte>, s': S, n: nat)
    requires Steady(m) && m.step(s, buf) == Some((s', n))
    ensures n <= |buf| && Run(m, s, buf) == Run(m, s', buf[n..])
  {
    assert StepSteady(m, s, buf);
  }

  lemma {:induction false} RunStops<S(!new)>(m: Machine<S>, s: S, buf: seq<Byte>)
    requires Steady(m)
    ensures var (s', rest) := Run(m, s, buf); m.step(s', rest).None?
    decreases |buf|, m.rank(s)
  {
    assert StepSteady(m, s, buf);
    if m.step(s, buf).Some? {
      var (s', n) := m.step(s, buf).value;
      RunStops(m, s', buf[n..]);
    }
  }

  /** Stopping in the middle and going on when more bytes come makes no difference. */
  lemma {:induction false} Resume<S(!new)>(m: Machine<S>, s: S, a: seq<Byte>, b: seq<Byte>)
    requires Steady(m)
    ensures var (s', rest) := Run(m, s, a); Run(m, s, a + b) == Run(m, s', rest + b)
    decreases |a|, m.rank(s)
  {
    assert StepSteady(m, s, a);
    if m.step(s, a).Some? {
      var (s', n) := m.step(s, a).value;
      Resume(m, s', a[n..], b);
      assert m.step(s, a + b) == m.step(s, a);
      assert (a + b)[n..] == a[n..] + b;
    }
  }

  /** The chunks arrive one after the other. */
  function FeedAll<S(!new)>(m: Machine<S>, s: S, buf: seq<Byte>, chunks: seq<seq<Byte>>): (res: (S, seq<Byte>))
    requires Steady(m)
    decreases |chunks|
  {
    if chunks == [] then (s, buf)
    else
      var (s', rest) := Run(m, s, buf + chunks[0]);
      FeedAll(m, s', rest, chunks[1..])
  }

  function Concat(chunks: seq<seq<Byte>>): seq<Byte> {
    if chunks == [] then [] else chunks[0] + Concat(chunks[1..])
  }

  /** Feeding chunks ends as feeding all their bytes at once. */
  lemma {:induction false} FeedIsRun<S(!new)>(m: Machine<S>, s: S, buf: seq<Byte>, chunks: seq<seq<Byte>>)
    requires Steady(m) && chunks != []
    ensures FeedAll(m, s, buf, chunks) == Run(m, s, buf + Concat(chunks))
    decreases |chunks|
  {
    var first, tail := chunks[0], Concat(chunks[1..]);
    var (s', rest) := Run(m, s, buf + first);
    Resume(m, s, buf + first, tail);
    assert buf + Concat(chunks) == (buf + first) + tail;
    if |chunks| > 1 {
      FeedIsRun(m, s', rest, chunks[1..]);
    } else {
      assert chunks[1..] == [] && rest + tail == rest;
      RunStops(m, s, buf + first);
    }
  }

  /** Two ways of cutting the same bytes end in the same state, with the same bytes left. */
  lemma AnySegmentation<S(!new)>(m: Machine<S>, s: S, buf: seq<Byte>, xs: seq<seq<Byte>>, ys: seq<seq<Byte>>)
    requires Steady(m) && xs != [] && ys != [] && Concat(xs) == Concat(ys)
    ensures FeedAll(m, s, buf, xs) == FeedAll(m, s, buf, ys)
  {
    FeedIsRun(m, s, buf, xs);
    FeedIsRun(m, s, buf, ys);
  }
}
