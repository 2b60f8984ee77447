/**
 The descriptor table of the event loop (src/platform/io_context.cpp,
 `set_io_handler`, `remove_io`, `process_io_events`): notices of the kernel carry
 the generation of the registration they were made for, so that one for an earlier
 use of the same descriptor number is not taken for a later one.

 Generations are 32 bits wide and never 0.  History: the number a generation would
 have without the wrap-around.  Each block under the table's lock is one step;
 notices may be delayed for any time and delivered in any order.
 */
module Descriptors {
  import opened Bytes

  const WRAP: nat := 0x1_0000_0000

  /** What is registered for a descriptor; handlers are told apart by numbers. */
  datatype Pending = Pending(generation: nat, read: Option<nat>, write: Option<nat>, serial: nat)

  /** A readiness notice as the kernel hands it over; `fd` and `serial` record what it was made for. */
  datatype Notice = Notice(token: nat, readable: bool, writable: bool, fd: nat, serial: nat)

  datatype Fired = Fired(handler: nat, readable: bool)

  datatype Table = Table(pending: map<nat, Pending>, counter: nat)

  // --------------------------------------------------------------------------
  // Tokens
  // --------------------------------------------------------------------------

  function Token(generation: nat, fd: nat): nat { generation * WRAP + fd }

  function GenerationOf(token: nat): nat { token / WRAP }

  function DescriptorOf(token: nat): nat { token % WRAP }

  /** A token gives back generation and descriptor, and is never the null token of the wake-up pipe. */
  lemma TokenRoundTrip(generation: nat, fd: nat)
    requires fd < WRAP
    ensures GenerationOf(Token(generation, fd)) == generation && DescriptorOf(Token(generation, fd)) == fd
    ensures generation > 0 ==> Token(generation, fd) != 0
  {
    var t := Token(generation, fd);
    var q, r := t / WRAP, t % WRAP;
    assert t == WRAP * q + r && (generation - q) * WRAP == r - fd;
  }

  // --------------------------------------------------------------------------
  // Registering
  // --------------------------------------------------------------------------

  /** The next number whose generation is not 0. */
  function Stamp(counter: nat): (u: nat)
    ensures counter <= u <= counter + 1 && u % WRAP != 0
  {
    if counter % WRAP == 0 then counter + 1 else counter
  }

  function Register(t: Table, fd: nat, handler: nat, read: bool, write: bool): Table {
    var u := Stamp(t.counter);
    var old0 := if fd in t.pending then t.pending[fd] else Pending(0, None, None, 0);
    var now := Pending(u % WRAP, if read then Some(handler) else old0.read, if write then Some(handler) else old0.write, u);
    Table(t.pending[fd := now], u + 1)
  }

  function Remove(t: Table, fd: nat): Table { t.(pending := t.pending - {fd}) }

  /** What the kernel may report now: readiness for which interest is registered. */
  predicate Reportable(t: Table, n: Notice) {
    && n.fd in t.pending && n.token == Token(t.pending[n.fd].generation, n.fd) && n.serial == t.pending[n.fd].serial
    && (n.readable ==> t.pending[n.fd].read.Some?) && (n.writable ==> t.pending[n.fd].write.Some?)
  }

  /** The notice is for a descriptor that is registered, under the generation registered now. */
  predicate Matches(t: Table, n: Notice) {
    && n.token != 0 && DescriptorOf(n.token) in t.pending
    && t.pending[DescriptorOf(n.token)].generation == GenerationOf(n.token)
  }

  function Deliver(t: Table, n: Notice): (res: (Table, seq<Fired>)) {
    if !Matches(t, n) then (t, [])
    else
      var fd := DescriptorOf(n.token);
      var p := t.pending[fd];
      var r, w := n.readable && p.read.Some?, n.writable && p.write.Some?;
      (t.(pending := t.pending[fd := p.(read := if r then None else p.read, write := if w then None else p.write)]),
       (if r then [Fired(p.read.value, true)] else []) + (if w then [Fired(p.write.value, false)] else []))
  }

  function DeliverAll(t: Table, ns: seq<Notice>): (res: (Table, seq<Fired>))
    decreases |ns|
  {
    if ns == [] then (t, [])
    else
      var (t1, fired) := Deliver(t, ns[0]);
      var (t2, more) := DeliverAll(t1, ns[1..]);
      (t2, fired + more)
  }

  // --------------------------------------------------------------------------
  // Every run
  // --------------------------------------------------------------------------

  datatype World = World(table: Table, notices: set<Notice>)

  datatype Event =
    | Registers(fd: nat, handler: nat, read: bool, write: bool)
    | Removes(fd: nat)
    | Reports(n: Notice)
    | Delivers(n: Notice)

  predicate Enabled(w: World, e: Event) {
    match e
    case Registers(fd, _, _, _) => fd < WRAP
    case Removes(_) => true
    case Reports(n) => Reportable(w.table, n)
    case Delivers(n) => n in w.notices
  }

  function Apply(w: World, e: Event): World {
    match e
    case Registers(fd, handler, read, write) => w.(table := Register(w.table, fd, handler, read, write))
    case Removes(fd) => w.(table := Remove(w.table, fd))
    case Reports(n) => w.(notices := w.notices + {n})
    case Delivers(n) => w.(table := Deliver(w.table, n).0)
  }

  ghost predicate Reaches(w: World, es: seq<Event>, w': World)
    decreases |es|
  {
    if es == [] then w == w' else Enabled(w, es[0]) && Reaches(Apply(w, es[0]), es[1..], w')
  }

  function Start(): World { World(Table(map[], 1), {}) }

  predicate Stamped(p: Pending, counter: nat) { p.serial < counter && p.serial % WRAP == p.generation != 0 }

  /** A notice names the descriptor and the generation it was made for, and no later registration than the present one. */
  predicate Honest(t: Table, n: Notice) {
    && n.fd < WRAP && n.serial < t.counter && n.serial % WRAP != 0 && n.token == Token(n.serial % WRAP, n.fd)
    && (n.fd in t.pending ==> n.serial <= t.pending[n.fd].serial)
  }

  ghost predicate Inv(w: World) {
    && (forall fd :: fd in w.table.pending ==> fd < WRAP && Stamped(w.table.pending[fd], w.table.counter))
    && (forall n :: n in w.notices ==> Honest(w.table, n))
  }

  lemma StepKeeps(w: World, e: Event)
    requires Inv(w) && Enabled(w, e)
    ensures Inv(Apply(w, e))
  {
    hide Token, GenerationOf, DescriptorOf;
    match e
    case Registers(fd, handler, read, write) =>
    case Removes(fd) =>
    case Reports(n) =>
    case Delivers(n) =>
  }

  lemma {:induction false} RunKeeps(w: World, es: seq<Event>, w': World)
    requires Inv(w) && Reaches(w, es, w')
    ensures Inv(w')
    decreases |es|
  {
    hide Inv, Enabled, Apply;
    if es != [] {
      StepKeeps(w, es[0]);
      RunKeeps(Apply(w, es[0]), es[1..], w');
    }
  }

  /**
   In every run, a notice calls a handler only while its descriptor is registered, and then exactly if the present
   registration is a whole number of wrap-arounds after the one it was made for.
   */
  lemma CalledExactly(es: seq<Event>, w: World, n: Notice)
    requires Reaches(Start(), es, w) && n in w.notices
    ensures Deliver(w.table, n).1 != [] ==> n.fd in w.table.pending
    ensures n.fd in w.table.pending ==>
              var p := w.table.pending[n.fd];
              && n.serial <= p.serial
              && (Deliver(w.table, n).1 != [] <==>
                    (p.serial - n.serial) % WRAP == 0 && ((n.readable && p.read.Some?) || (n.writable && p.write.Some?)))
  {
    RunKeeps(Start(), es, w);
    assert Honest(w.table, n);
    TokenRoundTrip(n.serial % WRAP, n.fd);
    if n.fd in w.table.pending { SameGeneration(n.serial, w.table.pending[n.fd].serial); }
    hide Token, GenerationOf, DescriptorOf, Reaches;
  }

  lemma SameGeneration(a: nat, b: nat)
    requires a <= b
    ensures a % WRAP == b % WRAP <==> (b - a) % WRAP == 0
  {
    var d := b - a;
    assert b == a + d && b % WRAP == (a % WRAP + d % WRAP) % WRAP;
  }

  /**
   So as long as fewer than 2^32 numbers have been used up since the notice was made, a handler is called for it only
   if the descriptor has not been registered anew since.
   */
  lemma OwnRegistration(es: seq<Event>, w: World, n: Notice)
    requires Reaches(Start(), es, w) && n in w.notices && w.table.counter <= n.serial + WRAP
    ensures Deliver(w.table, n).1 != [] ==> n.fd in w.table.pending && w.table.pending[n.fd].serial == n.serial
  {
    hide Reaches, Deliver;
    RunKeeps(Start(), es, w);
    CalledExactly(es, w, n);
    if n.fd in w.table.pending {
      assert Stamped(w.table.pending[n.fd], w.table.counter);
    }
  }

  // --------------------------------------------------------------------------
  // After a whole wrap-around
  // --------------------------------------------------------------------------

  lemma {:induction false} ReachesThen(w: World, es: seq<Event>, w': World, e: Event)
    requires Reaches(w, es, w') && Enabled(w', e)
    ensures Reaches(w, es + [e], Apply(w', e))
    decreases |es|
  {
    hide Enabled, Apply;
    if es == [] {
      assert (es + [e])[1..] == [];
    } else {
      ReachesThen(Apply(w, es[0]), es[1..], w', e);
      assert (es + [e])[1..] == es[1..] + [e];
    }
  }

  lemma Go(es: seq<Event>, w: World, e: Event) returns (es': seq<Event>, w': World)
    requires Reaches(Start(), es, w) && Enabled(w, e)
    ensures Reaches(Start(), es', w') && w' == Apply(w, e)
  {
    ReachesThen(Start(), es, w, e);
    es', w' := es + [e], Apply(w, e);
  }

  /** Registrations of another descriptor use up the numbers until the counter has gone exactly once around. */
  lemma {:induction false} Around(es: seq<Event>, w: World, other: nat) returns (es': seq<Event>, w': World)
    requires Reaches(Start(), es, w) && other < WRAP && 1 < w.table.counter <= WRAP
    ensures Reaches(Start(), es', w') && w'.table.counter == WRAP && w'.notices == w.notices
    ensures forall fd :: fd != other ==> (fd in w.table.pending <==> fd in w'.table.pending)
    decreases WRAP - w.table.counter
  {
    hide Reaches;
    if w.table.counter == WRAP {
      es', w' := es, w;
    } else {
      es', w' := Go(es, w, Registers(other, 0, true, false));
      assert w'.table.counter == w.table.counter + 1;
      es', w' := Around(es', w', other);
    }
  }

  /**
   The bound is needed: a notice made for a registration that was removed calls the handler of a later one, once
   the generations have gone around between the two.
   */
  lemma StaleAfterWrap(fd: nat, other: nat, first: nat, later: nat) returns (es: seq<Event>, w: World, n: Notice)
    requires fd != other && fd < WRAP && other < WRAP
    ensures Reaches(Start(), es, w) && n in w.notices && n.fd == fd
    ensures fd in w.table.pending && w.table.pending[fd].serial == n.serial + WRAP
    ensures Deliver(w.table, n).1 == [Fired(later, true)]
  {
    hide Reaches;
    n := Notice(Token(1, fd), true, false, fd, 1);
    assert Reaches(Start(), [], Start()) by { Here(Start()); }
    es, w := Go([], Start(), Registers(fd, first, true, false));
    assert w.table.pending == map[fd := Pending(1, Some(first), None, 1)] && w.table.counter == 2;
    es, w := Go(es, w, Reports(n));
    es, w := Go(es, w, Removes(fd));
    es, w := Around(es, w, other);
    assert fd !in w.table.pending && Stamp(WRAP) == WRAP + 1;
    es, w := Go(es, w, Registers(fd, later, true, false));
    assert w.table.pending[fd] == Pending(1, Some(later), None, WRAP + 1);
    TokenRoundTrip(1, fd);
    hide Token, GenerationOf, DescriptorOf;
  }

  lemma Here(w: World)
    ensures Reaches(w, [], w)
  {
  }

  // --------------------------------------------------------------------------
  // As the program does it
  // --------------------------------------------------------------------------

  class IoTable {
    var pending: map<nat, Pending>
    var nextGeneration: nat
    /** History: `nextGeneration` without the wrap-around. */
    var counter: nat

    ghost function View(): Table
      reads this
    {
      Table(pending, counter)
    }

    /** The counter of the program is the unbounded one, cut to 32 bits. */
    ghost predicate Valid()
      reads this
    {
      nextGeneration == counter % WRAP
    }

    constructor ()
      ensures Valid() && View() == Start().table
    {
      pending, nextGeneration, counter := map[], 1, 1;
    }

    method FetchAdd() returns (generation: nat, u: nat)
      requires Valid()
      modifies this`nextGeneration, this`counter
      ensures Valid() && u == old(counter) && generation == u % WRAP && counter == u + 1
    {
      generation, u := nextGeneration, counter;
      nextGeneration, counter := (nextGeneration + 1) % WRAP, counter + 1;
    }

    method SetIoHandler(fd: nat, handler: nat, read: bool, write: bool)
      requires Valid()
      modifies this
      ensures Valid() && View() == Register(old(View()), fd, handler, read, write)
    {
      var p := if fd in pending then pending[fd] else Pending(0, None, None, 0);
      var generation, u := FetchAdd();
      if generation == 0 {
        generation, u := FetchAdd();
      }
      p := p.(generation := generation, serial := u);
      if read { p := p.(read := Some(handler)); }
      if write { p := p.(write := Some(handler)); }
      pending := pending[fd := p];
    }

    method RemoveIo(fd: nat)
      requires Valid()
      modifies this`pending
      ensures Valid() && View() == Remove(old(View()), fd)
    {
      pending := pending - {fd};
    }

    /** The handlers to call, in order, each taken out of the table. */
    method ProcessIoEvents(events: seq<Notice>) returns (fired: seq<Fired>)
      requires Valid()
      modifies this`pending
      ensures Valid() && (View(), fired) == DeliverAll(old(View()), events)
    {
      hide Token, GenerationOf, DescriptorOf;
      fired := [];
      Joined([], DeliverAll(View(), events));
      for i := 0 to |events|
        invariant Valid() && unchanged(`nextGeneration) && unchanged(`counter)
        invariant DeliverAll(old(View()), events) == Join(fired, DeliverAll(View(), events[i..]))
      {
        var n := events[i];
        var fd := DescriptorOf(n.token);
        ghost var was := View();
        assert events[i..][1..] == events[i + 1..];
        JoinedMore(fired, Deliver(was, n).1, DeliverAll(Deliver(was, n).0, events[i + 1..]));
        if n.token == 0 || fd !in pending || pending[fd].generation != GenerationOf(n.token) {
          assert fired + [] == fired;
          continue;
        }
        var p := pending[fd];
        var now: seq<Fired> := [];
        if n.readable && p.read.Some? {
          now := now + [Fired(p.read.value, true)];
          p := p.(read := None);
        }
        if n.writable && p.write.Some? {
          now := now + [Fired(p.write.value, false)];
          p := p.(write := None);
        }
        pending := pending[fd := p];
        assert now == Deliver(was, n).1 && View() == Deliver(was, n).0;
        fired := fired + now;
      }
      assert fired + [] == fired;
    }
  }

  ghost function Join(fired: seq<Fired>, res: (Table, seq<Fired>)): (Table, seq<Fired>) { (res.0, fired + res.1) }

  lemma Joined(fired: seq<Fired>, res: (Table, seq<Fired>))
    ensures Join([], res) == res
  {
    assert [] + res.1 == res.1;
  }

  lemma JoinedMore(a: seq<Fired>, b: seq<Fired>, res: (Table, seq<Fired>))
    ensures Join(a, Join(b, res)) == Join(a + b, res)
  {
    assert a + (b + res.1) == a + b + res.1;
  }
}
