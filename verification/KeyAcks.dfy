/**
 When an end can know that a key update is safe (section 6.1 of RFC 9001): the runs
 of `KeyUpdate`, in which packets also acknowledge packets.  An end that updates
 only once a packet of its current generation has been acknowledged never loses
 the other; `initiate_key_update` (connection.cpp) does not look at that.
 */
module KeyAcks {
  import opened Bytes
  import K = KeyUpdate

  /** A packet, and the generation of a packet of the other direction that it acknowledges, if any. */
  datatype Note = Note(p: K.Packet, acks: Option<nat>)

  /** What one end knows: generations of the packets it accepted, and the highest of its own that was acknowledged. */
  datatype View = View(got: set<nat>, known: Option<nat>)

  datatype World = World(s: K.Pair, a: View, b: View, toA: set<Note>, toB: set<Note>)

  datatype Event =
    | Update(atA: bool)
    | Send(fromA: bool, body: nat, acks: Option<nat>)
    | Receive(atA: bool, n: Note, garbled: nat)

  /** The generation of a secret. */
  function Depth(s: K.Secret): nat { if s.Root? then 0 else 1 + Depth(s.prior) }

  lemma {:induction false} DepthIs(root: K.Secret, n: nat)
    requires root.Root?
    ensures Depth(K.Ratchet(root, n)) == n
  {
    if n > 0 { DepthIs(root, n - 1); }
  }

  /** The end itself, and what it knows. */
  function Own(w: World, atA: bool): K.End { if atA then w.s.a else w.s.b }

  function Other(w: World, atA: bool): K.End { if atA then w.s.b else w.s.a }

  function Knows(w: World, atA: bool): View { if atA then w.a else w.b }

  /** An end acknowledges only what it has accepted, and a packet that arrives was sent. */
  predicate Enabled(w: World, e: Event) {
    match e
    case Update(_) => true
    case Send(fromA, _, acks) => acks.Some? ==> acks.value in Knows(w, fromA).got
    case Receive(atA, n, _) => n in if atA then w.toA else w.toB
  }

  function Higher(a: Option<nat>, b: Option<nat>): Option<nat> {
    if a.None? || (b.Some? && b.value > a.value) then b else a
  }

  /** An accepted packet is noted with what it acknowledges. */
  function Learn(v: View, n: Note): View {
    View(v.got + {Depth(n.p.keys.material)}, Higher(v.known, n.acks))
  }

  /** The event as it is for the keys alone. */
  function Bare(e: Event): K.Event {
    match e
    case Update(atA) => K.Update(atA)
    case Send(fromA, body, _) => K.Send(fromA, body)
    case Receive(atA, n, garbled) => K.Receive(atA, n.p, garbled)
  }

  function Apply(w: World, e: Event): World {
    var w1 := w.(s := K.Apply(w.s, Bare(e)));
    match e
    case Update(_) => w1
    case Send(fromA, body, acks) =>
      var n := Note(K.Seal(Own(w, fromA), body), acks);
      if fromA then w1.(toB := w.toB + {n}) else w1.(toA := w.toA + {n})
    case Receive(atA, n, garbled) =>
      if !K.Open(Own(w, atA), n.p, garbled).1 then w1
      else if atA then w1.(a := Learn(w.a, n)) else w1.(b := Learn(w.b, n))
  }

  ghost predicate Reaches(w: World, es: seq<Event>, w': World)
    decreases |es|
  {
    if es == [] then w == w' else Enabled(w, es[0]) && Reaches(Apply(w, es[0]), es[1..], w')
  }

  function Start(): World { World(K.Start(), View({}, None), View({}, None), {}, {}) }

  // --------------------------------------------------------------------------
  // What every step keeps
  // --------------------------------------------------------------------------

  ghost predicate UpTo(gs: set<nat>, n: nat) { forall g :: g in gs ==> g <= n }

  ghost predicate AcksUpTo(ns: set<Note>, n: nat) { forall m :: m in ns && m.acks.Some? ==> m.acks.value <= n }

  ghost predicate Within(known: Option<nat>, n: nat) { known.Some? ==> known.value <= n }

  /** Nothing is noted, acknowledged or known to be acknowledged beyond the generation its receiver is at. */
  ghost predicate Inv(w: World, gens: K.Gens) {
    && K.At(w.s, gens)
    && (forall n :: n in w.toA ==> n.p in w.s.ba) && (forall n :: n in w.toB ==> n.p in w.s.ab)
    && UpTo(w.a.got, gens.aRecv) && UpTo(w.b.got, gens.bRecv)
    && AcksUpTo(w.toB, gens.aRecv) && AcksUpTo(w.toA, gens.bRecv)
    && Within(w.a.known, gens.bRecv) && Within(w.b.known, gens.aRecv)
  }

  lemma StepKeeps(w: World, gens: K.Gens, e: Event) returns (g: nat)
    requires Inv(w, gens) && Enabled(w, e)
    ensures Inv(Apply(w, e), K.Moved(gens, Bare(e), g))
    ensures e.Receive? ==> e.n.p == K.Sealed(K.Root(if e.atA then 1 else 0), g, e.n.p.body)
  {
    g := K.StepKeeps(w.s, gens, Bare(e));
    hide K.At, K.Seal;
    if e.Receive? { AcceptedGeneration(w, gens, e, g); }
    hide K.Open, K.Sealed, K.Initiate;
  }

  /** A packet is accepted under its own generation, at which the end then is. */
  lemma AcceptedGeneration(w: World, gens: K.Gens, e: Event, g: nat)
    requires K.At(w.s, gens) && e.Receive? && e.n.p == K.Sealed(K.Root(if e.atA then 1 else 0), g, e.n.p.body)
    ensures Depth(e.n.p.keys.material) == g
    ensures K.Open(Own(w, e.atA), e.n.p, e.garbled).1 ==>
              g <= if e.atA then K.Moved(gens, Bare(e), g).aRecv else K.Moved(gens, Bare(e), g).bRecv
  {
    DepthIs(K.Root(if e.atA then 1 else 0), g);
    if e.atA {
      K.OpenAt(K.Root(0), K.Root(1), gens.aSend, gens.aRecv, g, e.n.p.body, e.garbled);
    } else {
      K.OpenAt(K.Root(1), K.Root(0), gens.bSend, gens.bRecv, g, e.n.p.body, e.garbled);
    }
  }

  lemma StartHolds()
    ensures Inv(Start(), K.Gens(0, 0, 0, 0))
  {
    K.InstallAt(K.Root(0), K.Root(1));
    K.InstallAt(K.Root(1), K.Root(0));
  }

  lemma {:induction false} RunKeeps(w: World, gens: K.Gens, es: seq<Event>, w': World) returns (gens': K.Gens)
    requires Inv(w, gens) && Reaches(w, es, w')
    ensures Inv(w', gens')
    decreases |es|
  {
    hide Inv, Enabled, Apply;
    if es == [] {
      gens' := gens;
    } else {
      var g := StepKeeps(w, gens, es[0]);
      gens' := RunKeeps(Apply(w, es[0]), K.Moved(gens, Bare(es[0]), g), es[1..], w');
    }
  }

  // --------------------------------------------------------------------------
  // An end that waits for the acknowledgement
  // --------------------------------------------------------------------------

  /** The highest own generation that was acknowledged is the current one: the end can see that for itself. */
  predicate Acked(w: World, atA: bool) {
    Knows(w, atA).known == Some(Depth(Own(w, atA).sendSecret))
  }

  lemma AckedAt(w: World, gens: K.Gens, atA: bool)
    requires Inv(w, gens) && Acked(w, atA)
    ensures K.Confirmed(Own(w, atA), Other(w, atA))
  {
    DepthIs(K.Root(0), gens.aSend);
    DepthIs(K.Root(1), gens.bSend);
  }

  /** In every run, an update that such an end starts leaves the other able to read it. */
  lemma AckedUpdateReadable(es: seq<Event>, w: World, atA: bool)
    requires Reaches(Start(), es, w) && Acked(w, atA) && K.Initiate(Own(w, atA)).1
    ensures K.Readable(K.Initiate(Own(w, atA)).0, Other(w, atA))
  {
    StartHolds();
    var gens := RunKeeps(Start(), K.Gens(0, 0, 0, 0), es, w);
    AckedAt(w, gens, atA);
    BareRun(Start(), es, w);
    hide Reaches, Inv, Acked, K.Initiate;
    K.UpdateReadable(Bares(es), w.s, atA);
  }

  function Bares(es: seq<Event>): seq<K.Event> { if es == [] then [] else [Bare(es[0])] + Bares(es[1..]) }

  lemma {:induction false} BareRun(w: World, es: seq<Event>, w': World)
    requires Reaches(w, es, w') && (forall n :: n in w.toA ==> n.p in w.s.ba) && (forall n :: n in w.toB ==> n.p in w.s.ab)
    ensures K.Reaches(w.s, Bares(es), w'.s)
    decreases |es|
  {
    hide K.Open, K.Seal, K.Initiate;
    if es != [] {
      BareRun(Apply(w, es[0]), es[1..], w');
      assert Bares(es)[1..] == Bares(es[1..]);
    }
  }

  /** Every update of the run was started by an end that could see its current generation acknowledged. */
  ghost predicate Patient(w: World, es: seq<Event>)
    decreases |es|
  {
    es == [] || ((es[0].Update? ==> Acked(w, es[0].atA)) && Patient(Apply(w, es[0]), es[1..]))
  }

  lemma {:induction false} PatientIsCareful(w: World, gens: K.Gens, es: seq<Event>, w': World)
    requires Inv(w, gens) && Reaches(w, es, w') && Patient(w, es)
    ensures K.Careful(w.s, Bares(es))
    decreases |es|
  {
    hide Inv, Enabled, Acked, K.Apply, K.Confirmed;
    if es != [] {
      var e := es[0];
      var g := StepKeeps(w, gens, e);
      if e.Update? { AckedAt(w, gens, e.atA); }
      PatientIsCareful(Apply(w, e), K.Moved(gens, Bare(e), g), es[1..], w');
      assert Bares(es)[1..] == Bares(es[1..]) && Bares(es)[0] == Bare(e);
    }
  }

  /** So runs with patient ends never lose readability, in either direction. */
  lemma PatientRunsStayReadable(es: seq<Event>, w: World)
    requires Reaches(Start(), es, w) && Patient(Start(), es)
    ensures K.Readable(w.s.a, w.s.b) && K.Readable(w.s.b, w.s.a)
  {
    StartHolds();
    PatientIsCareful(Start(), K.Gens(0, 0, 0, 0), es, w);
    BareRun(Start(), es, w);
    hide Reaches, Inv, Patient;
    K.CarefulRunsStayReadable(Bares(es), w.s);
  }

  // --------------------------------------------------------------------------
  // Nothing less is enough
  // --------------------------------------------------------------------------

  lemma {:induction false} ReachesThen(w0: World, es: seq<Event>, w: World, e: Event)
    requires Reaches(w0, es, w) && Enabled(w, e)
    ensures Reaches(w0, es + [e], Apply(w, e))
    decreases |es|
  {
    hide Enabled, Apply;
    if es == [] {
      assert (es + [e])[1..] == [];
    } else {
      ReachesThen(Apply(w0, es[0]), es[1..], w, e);
      assert (es + [e])[1..] == es[1..] + [e];
    }
  }

  /** A run, and the generations it has come to. */
  ghost predicate At(es: seq<Event>, w: World, gens: K.Gens) { Reaches(Start(), es, w) && Inv(w, gens) }

  /** One end sends a packet, and the other receives it at once. */
  lemma Pass(es: seq<Event>, w: World, gens: K.Gens, fromA: bool, acks: Option<nat>) returns (es': seq<Event>, w': World)
    requires At(es, w, gens) && (acks.Some? ==> acks.value in Knows(w, fromA).got)
    requires if fromA then gens.aSend <= gens.bRecv + 1 else gens.bSend <= gens.aRecv + 1
    ensures At(es', w', Passed(gens, fromA))
    ensures Knows(w', !fromA).known == Higher(Knows(w, !fromA).known, acks)
    ensures (if fromA then gens.aSend else gens.bSend) in Knows(w', !fromA).got
    ensures Knows(w', fromA) == Knows(w, fromA)
  {
    var send := Send(fromA, 0, acks);
    ReachesThen(Start(), es, w, send);
    var g := StepKeeps(w, gens, send);
    var mid, p := Apply(w, send), K.Seal(Own(w, fromA), 0);
    var take := Receive(!fromA, Note(p, acks), 0);
    ReachesThen(Start(), es + [send], mid, take);
    g := StepKeeps(mid, gens, take);
    Arrives(mid, gens, fromA, take, g);
    es', w' := es + [send] + [take], Apply(mid, take);
  }

  /** What receiving a packet of the sender's generation makes of the generations. */
  function Passed(gens: K.Gens, fromA: bool): K.Gens {
    if fromA then (if gens.aSend == gens.bRecv + 1 then gens.(bRecv := gens.aSend, bSend := gens.aSend) else gens)
    else if gens.bSend == gens.aRecv + 1 then gens.(aRecv := gens.bSend, aSend := gens.bSend) else gens
  }

  lemma Arrives(w: World, gens: K.Gens, fromA: bool, e: Event, g: nat)
    requires K.At(w.s, gens) && e.Receive? && e.atA == !fromA && e.n.p == K.Seal(Own(w, fromA), 0)
    requires e.n.p == K.Sealed(K.Root(if e.atA then 1 else 0), g, e.n.p.body)
    requires if fromA then gens.aSend <= gens.bRecv + 1 else gens.bSend <= gens.aRecv + 1
    ensures g == (if fromA then gens.aSend else gens.bSend) && Depth(e.n.p.keys.material) == g
    ensures K.Open(Own(w, e.atA), e.n.p, e.garbled).1 && K.Moved(gens, Bare(e), g) == Passed(gens, fromA)
  {
    K.SealAt(K.Root(0), K.Root(1), gens.aSend, gens.aRecv, 0);
    K.SealAt(K.Root(1), K.Root(0), gens.bSend, gens.bRecv, 0);
    K.RatchetInjective(K.Root(0), g, gens.aSend);
    K.RatchetInjective(K.Root(1), g, gens.bSend);
    DepthIs(K.Root(if e.atA then 1 else 0), g);
    K.OpenAt(K.Root(1), K.Root(0), gens.bSend, gens.bRecv, gens.aSend, 0, e.garbled);
    K.OpenAt(K.Root(0), K.Root(1), gens.aSend, gens.aRecv, gens.bSend, 0, e.garbled);
  }

  lemma OtherUpdates(es: seq<Event>, w: World, gens: K.Gens, atA: bool) returns (es': seq<Event>, w': World)
    requires At(es, w, gens) && gens == K.Gens(gens.aSend, gens.aSend, gens.aSend, gens.aSend)
    ensures At(es', w', K.GensOf(atA, gens.aSend, gens.aSend, gens.aSend + 1, gens.aSend))
    ensures w'.a == w.a && w'.b == w.b
  {
    ReachesThen(Start(), es, w, Update(!atA));
    var g := StepKeeps(w, gens, Update(!atA));
    es', w' := es + [Update(!atA)], Apply(w, Update(!atA));
  }

  /** A generation is acknowledged, and the other end starts the next. */
  lemma Round(es: seq<Event>, w: World, n: nat, atA: bool) returns (es': seq<Event>, w': World)
    requires At(es, w, K.Gens(n, n, n, n)) && Within(Knows(w, atA).known, n)
    ensures At(es', w', K.GensOf(atA, n + 1, n + 1, n + 1, n)) && Knows(w', atA).known == Some(n)
  {
    hide At;
    es', w' := Pass(es, w, K.Gens(n, n, n, n), atA, None);
    es', w' := Pass(es', w', K.Gens(n, n, n, n), !atA, Some(n));
    es', w' := OtherUpdates(es', w', K.Gens(n, n, n, n), atA);
    es', w' := Pass(es', w', K.GensOf(atA, n, n, n + 1, n), !atA, None);
  }

  lemma {:induction false} Rounds(n: nat, atA: bool) returns (es: seq<Event>, w: World)
    ensures At(es, w, K.Gens(n, n, n, n)) && Within(Knows(w, atA).known, n)
    decreases n
  {
    if n == 0 {
      StartHolds();
      es, w := [], Start();
    } else {
      es, w := Rounds(n - 1, atA);
      hide At;
      es, w := Round(es, w, n - 1, atA);
      es, w := Pass(es, w, K.GensOf(atA, n, n, n, n - 1), atA, None);
    }
  }

  /**
   Every generation but the first, either end: there is a run after which all generations before the current one
   were acknowledged, the code allows an update, and the update would leave the other end unable to read.
   */
  lemma UnackedUpdateCanLose(g: nat, atA: bool) returns (es: seq<Event>, w: World)
    requires g > 0
    ensures Reaches(Start(), es, w) && Depth(Own(w, atA).sendSecret) == g && Knows(w, atA).known == Some(g - 1)
    ensures K.Initiate(Own(w, atA)).1 && !K.Readable(K.Initiate(Own(w, atA)).0, Other(w, atA))
  {
    es, w := Rounds(g - 1, atA);
    es, w := Round(es, w, g - 1, atA);
    var gens := K.GensOf(atA, g, g, g, g - 1);
    DepthIs(K.Root(0), g);
    DepthIs(K.Root(1), g);
    K.InitiateAt(K.Root(0), K.Root(1), gens.aSend, gens.aRecv);
    K.InitiateAt(K.Root(1), K.Root(0), gens.bSend, gens.bRecv);
    BareRun(Start(), es, w);
    K.UpdateReadable(Bares(es), w.s, atA);
    K.RatchetInjective(K.Root(0), g, g - 1);
    K.RatchetInjective(K.Root(1), g, g - 1);
  }
}
