/**
 How many peer-initiated streams of one kind may be open (connection.cpp,
 `enforce_stream_limit` and the credit in `retire_closed_streams`).

 A stream is named by its index.  The limit advertised to the peer is raised by
 one each time a stream is retired.  `ever` and `reopened` only record history:
 the indices admitted so far, and how often one was admitted again after it had
 been retired, which the program does not forbid.
 */
module Slots {
  import opened Sums

  datatype Slots = Slots(window: nat, max: nat, closed: nat, live: set<nat>, ever: set<nat>, reopened: nat)

  function Start(window: nat): Slots {
    Slots(window, window, 0, {}, {}, 0)
  }

  predicate Refuses(s: Slots, i: nat) {
    i !in s.live && i >= s.max
  }

  function Open(s: Slots, i: nat): Slots {
    if i in s.live then s
    else s.(live := s.live + {i}, ever := s.ever + {i}, reopened := if i in s.ever then s.reopened + 1 else s.reopened)
  }

  function Close(s: Slots, i: nat): Slots
    requires i in s.live
  {
    s.(live := s.live - {i}, closed := s.closed + 1)
  }

  /** The limit is raised once retirements leave it short of a full window; a zero window never opens. */
  function Credit(s: Slots): Slots {
    if s.window > 0 && s.closed + s.window > s.max then s.(max := s.closed + s.window) else s
  }

  /** Every admission is live, retired or an index admitted again; indices stay below the limit. */
  ghost predicate Sound(s: Slots) {
    && s.live <= s.ever
    && (forall i :: i in s.ever ==> i < s.max)
    && |s.live| + s.closed == |s.ever| + s.reopened
    && s.window <= s.max <= s.closed + s.window
  }

  lemma OpenSound(s: Slots, i: nat)
    requires Sound(s) && !Refuses(s, i)
    ensures Sound(Open(s, i))
  {
    if i in s.ever { assert s.ever + {i} == s.ever; }
  }

  lemma CloseSound(s: Slots, i: nat)
    requires Sound(s) && i in s.live
    ensures Sound(Close(s, i))
  {
  }

  lemma CreditSound(s: Slots)
    requires Sound(s)
    ensures Sound(Credit(s)) && s.max <= Credit(s).max
    ensures s.window > 0 ==> Credit(s).max == s.closed + s.window
  {
  }

  /** No more streams are open at once than the window, plus one for each index that was admitted again. */
  lemma Concurrency(s: Slots)
    requires Sound(s)
    ensures |s.live| <= s.window + s.reopened
  {
    CountBelow(s.ever, s.max);
  }

  // --------------------------------------------------------------------------
  // Runs
  // --------------------------------------------------------------------------

  datatype Event = Admit(i: nat) | Retire(i: nat)

  predicate Enabled(s: Slots, e: Event) {
    match e
    case Admit(i) => !Refuses(s, i)
    case Retire(i) => i in s.live
  }

  function Apply(s: Slots, e: Event): Slots
    requires Enabled(s, e)
  {
    match e
    case Admit(i) => Open(s, i)
    case Retire(i) => Credit(Close(s, i))
  }

  ghost predicate Reaches(s: Slots, es: seq<Event>, s': Slots)
    decreases |es|
  {
    if es == [] then s == s' else Enabled(s, es[0]) && Reaches(Apply(s, es[0]), es[1..], s')
  }

  lemma {:induction false} AlwaysSound(s: Slots, es: seq<Event>, s': Slots)
    requires Sound(s) && Reaches(s, es, s')
    ensures Sound(s') && s'.window == s.window && s'.max >= s.max
    decreases |es|
  {
    if es != [] {
      match es[0] {
        case Admit(i) => OpenSound(s, i);
        case Retire(i) => CloseSound(s, i); CreditSound(Close(s, i));
      }
      AlwaysSound(Apply(s, es[0]), es[1..], s');
    }
  }

  /** From the start, a run in which no retired index comes back keeps at most `window` streams open. */
  lemma AtMostWindow(window: nat, es: seq<Event>, s: Slots)
    requires Reaches(Start(window), es, s)
    ensures |s.live| <= window + s.reopened
    ensures s.reopened == 0 ==> |s.live| <= window
  {
    AlwaysSound(Start(window), es, s);
    Concurrency(s);
  }

  // --------------------------------------------------------------------------
  // The bound is reached
  // --------------------------------------------------------------------------

  lemma {:induction false} ReachesConcat(s: Slots, es: seq<Event>, t: Slots, fs: seq<Event>, u: Slots)
    requires Reaches(s, es, t) && Reaches(t, fs, u)
    ensures Reaches(s, es + fs, u)
    decreases |es|
  {
    if es == [] {
      assert es + fs == fs;
    } else {
      ReachesConcat(Apply(s, es[0]), es[1..], t, fs, u);
      assert (es + fs)[1..] == es[1..] + fs;
    }
  }

  lemma Taken(s: Slots, e: Event)
    requires Enabled(s, e)
    ensures Reaches(s, [e], Apply(s, e))
  {
    assert [e][1..] == [];
  }

  /** Index 0 is admitted again and retired again n times. */
  lemma {:induction false} Churn(s: Slots, n: nat) returns (es: seq<Event>)
    requires s.live == {} && s.ever == {0} && s.window > 0 && s.max == s.closed + s.window
    ensures Reaches(s, es, s.(closed := s.closed + n, max := s.max + n, reopened := s.reopened + n))
    decreases n
  {
    if n == 0 {
      es := [];
    } else {
      var a := Apply(s, Admit(0));
      Taken(s, Admit(0));
      Taken(a, Retire(0));
      ReachesConcat(s, [Admit(0)], a, [Retire(0)], Apply(a, Retire(0)));
      var b := s.(closed := s.closed + 1, max := s.max + 1, reopened := s.reopened + 1);
      assert Apply(a, Retire(0)) == b;
      es := Churn(b, n - 1);
      ReachesConcat(s, [Admit(0)] + [Retire(0)], b, es, b.(closed := s.closed + n, max := s.max + n, reopened := s.reopened + n));
      es := [Admit(0)] + [Retire(0)] + es;
    }
  }

  /** New indices are admitted up to the limit. */
  lemma {:induction false} Fill(s: Slots) returns (es: seq<Event>, s': Slots)
    requires s.live <= s.ever && (forall i :: i in s.ever ==> i < |s.ever|) && |s.ever| <= s.max
    ensures Reaches(s, es, s') && s'.reopened == s.reopened
    ensures |s'.live| == |s.live| + s.max - |s.ever|
    decreases s.max - |s.ever|
  {
    if |s.ever| == s.max {
      es, s' := [], s;
    } else {
      var i := |s.ever|;
      var a := Apply(s, Admit(i));
      Taken(s, Admit(i));
      es, s' := Fill(a);
      ReachesConcat(s, [Admit(i)], a, es, s');
      es := [Admit(i)] + es;
    }
  }

  /** For every window and every n there is a run that reopens n times and exceeds the window by n. */
  lemma BoundIsTight(window: nat, n: nat) returns (es: seq<Event>, s: Slots)
    requires window > 0
    ensures Reaches(Start(window), es, s) && s.reopened == n && |s.live| == window + n
  {
    var a := Apply(Start(window), Admit(0));
    var b := Apply(a, Retire(0));
    Taken(Start(window), Admit(0));
    Taken(a, Retire(0));
    ReachesConcat(Start(window), [Admit(0)], a, [Retire(0)], b);
    var churn := Churn(b, n);
    var c := b.(closed := b.closed + n, max := b.max + n, reopened := b.reopened + n);
    ReachesConcat(Start(window), [Admit(0)] + [Retire(0)], b, churn, c);
    var fill;
    fill, s := Fill(c);
    ReachesConcat(Start(window), [Admit(0)] + [Retire(0)] + churn, c, fill, s);
    es := [Admit(0)] + [Retire(0)] + churn + fill;
  }
}
