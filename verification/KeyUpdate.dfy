/**
 The 1-RTT key-update ratchet (connection.cpp, `install_new_keys`,
 `process_short_packet`, `initiate_key_update`; section 6 of RFC 9001).

 Secrets are terms of a free key-derivation function and packets open only under
 the keys that sealed them, so the model says which keys are used, not how
 ciphers work.
 */
module KeyUpdate {

  /** A traffic secret: one agreed in the handshake, or the successor of another. */
  datatype Secret = Root(party: nat) | Next(prior: Secret)

  /** Packet protection keys: what seals the payload, and the header-protection key. */
  datatype Keys = Keys(material: Secret, hp: Secret)

  /** A sealed short-header packet; `phase` is the KEY_PHASE bit under header protection. */
  datatype Packet = Packet(phase: nat, keys: Keys, body: nat)

  datatype End = End(
    sendSecret: Secret, recvSecret: Secret,
    sendKeys: Keys, recvKeys: Keys,
    nextSend: Keys, nextRecv: Keys,
    sendPhase: nat, recvPhase: nat)

  function Derive(s: Secret): Keys { Keys(s, s) }

  function Install(send: Secret, recv: Secret): End {
    End(send, recv, Derive(send), Derive(recv),
        Derive(Next(send)).(hp := Derive(send).hp), Derive(Next(recv)).(hp := Derive(recv).hp), 0, 0)
  }

  function Flip(phase: nat): nat { if phase == 0 then 1 else 0 }

  function RotateSend(e: End): End {
    e.(sendSecret := Next(e.sendSecret), sendKeys := e.nextSend,
       nextSend := Derive(Next(Next(e.sendSecret))).(hp := e.nextSend.hp), sendPhase := Flip(e.sendPhase))
  }

  function RotateRecv(e: End): End {
    e.(recvSecret := Next(e.recvSecret), recvKeys := e.nextRecv,
       nextRecv := Derive(Next(Next(e.recvSecret))).(hp := e.nextRecv.hp), recvPhase := Flip(e.recvPhase))
  }

  function Initiate(e: End): (res: (End, bool)) {
    if e.sendPhase != e.recvPhase then (e, false) else (RotateSend(e), true)
  }

  function Seal(e: End, body: nat): Packet { Packet(e.sendPhase, e.sendKeys, body) }

  /** The KEY_PHASE bit as the receiver unmasks it; under a wrong header key it is arbitrary. */
  function PhaseSeen(e: End, p: Packet, garbled: nat): nat {
    if p.keys.hp == e.recvKeys.hp then p.phase else garbled
  }

  predicate Opens(k: Keys, p: Packet) { p.keys.material == k.material }

  function Open(e: End, p: Packet, garbled: nat): (res: (End, bool)) {
    if PhaseSeen(e, p, garbled) == e.recvPhase then (e, Opens(e.recvKeys, p))
    else if !Opens(e.nextRecv, p) then (e, false)
    else
      var r := RotateRecv(e);
      (if r.sendPhase != r.recvPhase then RotateSend(r) else r, true)
  }

  // --------------------------------------------------------------------------
  // Generations
  // --------------------------------------------------------------------------

  /** The secret after n updates. */
  function Ratchet(s: Secret, n: nat): Secret {
    if n == 0 then s else Next(Ratchet(s, n - 1))
  }

  lemma {:induction false} RatchetInjective(s: Secret, m: nat, n: nat)
    requires s.Root?
    ensures Ratchet(s, m) == Ratchet(s, n) <==> m == n
  {
    if m > 0 && n > 0 { RatchetInjective(s, m - 1, n - 1); }
  }

  /** The state after ns updates of the send side and nr of the receive side. */
  function EndAt(send: Secret, recv: Secret, ns: nat, nr: nat): End {
    End(Ratchet(send, ns), Ratchet(recv, nr),
        Keys(Ratchet(send, ns), send), Keys(Ratchet(recv, nr), recv),
        Keys(Ratchet(send, ns + 1), send), Keys(Ratchet(recv, nr + 1), recv), ns % 2, nr % 2)
  }

  function Sealed(s: Secret, g: nat, body: nat): Packet { Packet(g % 2, Keys(Ratchet(s, g), s), body) }

  lemma InstallAt(send: Secret, recv: Secret)
    ensures Install(send, recv) == EndAt(send, recv, 0, 0)
  {
  }

  lemma RotateSendAt(send: Secret, recv: Secret, ns: nat, nr: nat)
    ensures RotateSend(EndAt(send, recv, ns, nr)) == EndAt(send, recv, ns + 1, nr)
  {
    assert Ratchet(send, ns + 2) == Next(Ratchet(send, ns + 1));
  }

  lemma RotateRecvAt(send: Secret, recv: Secret, ns: nat, nr: nat)
    ensures RotateRecv(EndAt(send, recv, ns, nr)) == EndAt(send, recv, ns, nr + 1)
  {
    assert Ratchet(recv, nr + 2) == Next(Ratchet(recv, nr + 1));
  }

  /** An update starts exactly when both directions are at the same generation. */
  lemma InitiateAt(send: Secret, recv: Secret, ns: nat, nr: nat)
    requires nr <= ns <= nr + 1
    ensures Initiate(EndAt(send, recv, ns, nr))
            == if ns == nr then (EndAt(send, recv, ns + 1, nr), true) else (EndAt(send, recv, ns, nr), false)
  {
    RotateSendAt(send, recv, ns, nr);
  }

  /**
   A packet is accepted exactly when its generation is the receiver's current or next one; the next
   one moves the receive side, and pulls the send side along unless it moved first.
   */
  lemma OpenAt(send: Secret, recv: Secret, ns: nat, nr: nat, g: nat, body: nat, garbled: nat)
    requires nr <= ns <= nr + 1 && recv.Root?
    ensures Open(EndAt(send, recv, ns, nr), Sealed(recv, g, body), garbled)
            == if g == nr then (EndAt(send, recv, ns, nr), true)
               else if g == nr + 1 then (EndAt(send, recv, nr + 1, nr + 1), true)
               else (EndAt(send, recv, ns, nr), false)
  {
    RatchetInjective(recv, g, nr);
    RatchetInjective(recv, g, nr + 1);
    RotateRecvAt(send, recv, ns, nr);
    RotateSendAt(send, recv, ns, nr + 1);
  }

  /** The application packet-number space of one connection, as far as its keys go. */
  class KeySpace {
    var end: End
    ghost const sendRoot: Secret
    ghost const recvRoot: Secret
    ghost var ns: nat
    ghost var nr: nat

    ghost predicate Valid()
      reads this
    {
      recvRoot.Root? && end == EndAt(sendRoot, recvRoot, ns, nr) && nr <= ns <= nr + 1
    }

    constructor (send: Secret, recv: Secret)
      requires recv.Root?
      ensures Valid() && ns == nr == 0 && sendRoot == send && recvRoot == recv
    {
      InstallAt(send, recv);
      end := Install(send, recv);
      sendRoot, recvRoot, ns, nr := send, recv, 0, 0;
    }

    method InitiateKeyUpdate() returns (ok: bool)
      requires Valid()
      modifies this
      ensures Valid() && nr == old(nr)
      ensures ok <==> old(ns == nr)
      ensures ns == if ok then old(ns) + 1 else old(ns)
    {
      InitiateAt(sendRoot, recvRoot, ns, nr);
      if end.sendPhase != end.recvPhase { return false; }
      end := RotateSend(end);
      ns := ns + 1;
      return true;
    }

    /**
     Any packet: accepted exactly when it was sealed under the current secret and shows the current phase, or
     under the next one and shows the other; only the latter moves the ends.  A packet that the peer sealed at
     generation g is therefore accepted exactly when g is the current or the next generation.
     */
    method ProcessShortPacket(p: Packet, garbled: nat) returns (ok: bool)
      requires Valid()
      modifies this
      ensures Valid()
      ensures var same := old(PhaseSeen(end, p, garbled) == end.recvPhase);
              && (ok <==> p.keys.material == Ratchet(recvRoot, if same then old(nr) else old(nr) + 1))
              && nr == (if ok && !same then old(nr) + 1 else old(nr))
              && ns == (if nr > old(ns) then nr else old(ns))
      ensures forall g: nat :: p == Sealed(recvRoot, g, p.body) ==>
                (ok <==> old(nr) <= g <= old(nr) + 1) && nr == if ok then g else old(nr)
    {
      PeerPackets(sendRoot, recvRoot, ns, nr, p, garbled);
      RotateRecvAt(sendRoot, recvRoot, ns, nr);
      RotateSendAt(sendRoot, recvRoot, ns, nr + 1);
      if PhaseSeen(end, p, garbled) == end.recvPhase {
        return Opens(end.recvKeys, p);
      }
      if !Opens(end.nextRecv, p) { return false; }
      end := RotateRecv(end);
      nr := nr + 1;
      if end.sendPhase != end.recvPhase {
        end := RotateSend(end);
        ns := ns + 1;
      }
      return true;
    }
  }

  /** A packet of generation g shows the phase of g. */
  lemma PeerPackets(send: Secret, recv: Secret, ns: nat, nr: nat, p: Packet, garbled: nat)
    requires recv.Root?
    ensures forall g: nat :: p == Sealed(recv, g, p.body) ==>
              && (p.keys.material == Ratchet(recv, nr) <==> g == nr) && (p.keys.material == Ratchet(recv, nr + 1) <==> g == nr + 1)
              && PhaseSeen(EndAt(send, recv, ns, nr), p, garbled) == g % 2
  {
    forall g: nat | p == Sealed(recv, g, p.body)
      ensures (p.keys.material == Ratchet(recv, nr) <==> g == nr) && (p.keys.material == Ratchet(recv, nr + 1) <==> g == nr + 1)
    {
      RatchetInjective(recv, g, nr);
      RatchetInjective(recv, g, nr + 1);
    }
  }

  // --------------------------------------------------------------------------
  // Two endpoints and a network that may drop, duplicate, delay and reorder
  // --------------------------------------------------------------------------

  datatype Pair = Pair(a: End, b: End, ab: set<Packet>, ba: set<Packet>)

  datatype Event =
    | Update(atA: bool)
    | Send(fromA: bool, body: nat)
    | Receive(atA: bool, p: Packet, garbled: nat)

  predicate Enabled(s: Pair, e: Event) {
    e.Receive? ==> e.p in if e.atA then s.ba else s.ab
  }

  function Apply(s: Pair, e: Event): Pair {
    match e
    case Update(atA) => if atA then s.(a := Initiate(s.a).0) else s.(b := Initiate(s.b).0)
    case Send(fromA, body) =>
      if fromA then s.(ab := s.ab + {Seal(s.a, body)}) else s.(ba := s.ba + {Seal(s.b, body)})
    case Receive(atA, p, garbled) =>
      if atA then s.(a := Open(s.a, p, garbled).0) else s.(b := Open(s.b, p, garbled).0)
  }

  ghost predicate Reaches(s: Pair, es: seq<Event>, s': Pair)
    decreases |es|
  {
    if es == [] then s == s' else Enabled(s, es[0]) && Reaches(Apply(s, es[0]), es[1..], s')
  }

  function Start(): Pair {
    Pair(Install(Root(0), Root(1)), Install(Root(1), Root(0)), {}, {})
  }

  /** Generations: a's send and receive side, b's send and receive side. */
  datatype Gens = Gens(aSend: nat, aRecv: nat, bSend: nat, bRecv: nat)

  ghost predicate SealedUpTo(ps: set<Packet>, root: Secret, n: nat) {
    forall p :: p in ps ==> exists g: nat :: g <= n && p == Sealed(root, g, p.body)
  }

  /** Each side is at most one generation ahead of itself and never ahead of what the other has sent. */
  ghost predicate At(s: Pair, w: Gens) {
    && s.a == EndAt(Root(0), Root(1), w.aSend, w.aRecv)
    && s.b == EndAt(Root(1), Root(0), w.bSend, w.bRecv)
    && w.aRecv <= w.aSend <= w.aRecv + 1 && w.bRecv <= w.bSend <= w.bRecv + 1
    && w.aRecv <= w.bSend && w.bRecv <= w.aSend
    && SealedUpTo(s.ab, Root(0), w.aSend) && SealedUpTo(s.ba, Root(1), w.bSend)
  }

  ghost function Max(m: nat, n: nat): nat { if m < n then n else m }

  /** What the generations become. */
  ghost function Moved(w: Gens, e: Event, g: nat): Gens {
    match e
    case Update(atA) =>
      if atA then (if w.aSend == w.aRecv then w.(aSend := w.aSend + 1) else w)
      else if w.bSend == w.bRecv then w.(bSend := w.bSend + 1) else w
    case Send(_, _) => w
    case Receive(atA, _, _) =>
      if atA then (if g == w.aRecv + 1 then w.(aRecv := g, aSend := g) else w)
      else if g == w.bRecv + 1 then w.(bRecv := g, bSend := g) else w
  }

  lemma Widen(ps: set<Packet>, root: Secret, n: nat, m: nat)
    requires SealedUpTo(ps, root, n) && n <= m
    ensures SealedUpTo(ps, root, m)
  {
    forall p | p in ps ensures exists g: nat :: g <= m && p == Sealed(root, g, p.body) {
      var g: nat :| g <= n && p == Sealed(root, g, p.body);
    }
  }

  /** Every event keeps the generations in step; a received packet has one generation. */
  lemma StepKeeps(s: Pair, w: Gens, e: Event) returns (g: nat)
    requires At(s, w) && Enabled(s, e)
    ensures At(Apply(s, e), Moved(w, e, g))
    ensures e.Receive? ==> e.p == Sealed(Root(if e.atA then 1 else 0), g, e.p.body)
  {
    hide EndAt, Sealed, Initiate, Open;
    g := 0;
    match e {
      case Update(atA) =>
        if atA { InitiateAt(Root(0), Root(1), w.aSend, w.aRecv); Widen(s.ab, Root(0), w.aSend, w.aSend + 1); }
        else { InitiateAt(Root(1), Root(0), w.bSend, w.bRecv); Widen(s.ba, Root(1), w.bSend, w.bSend + 1); }
      case Send(fromA, body) =>
        if fromA { SealAt(Root(0), Root(1), w.aSend, w.aRecv, body); }
        else { SealAt(Root(1), Root(0), w.bSend, w.bRecv, body); }
      case Receive(atA, p, garbled) =>
        if atA {
          g :| g <= w.bSend && p == Sealed(Root(1), g, p.body);
          OpenAt(Root(0), Root(1), w.aSend, w.aRecv, g, p.body, garbled);
          Widen(s.ab, Root(0), w.aSend, Max(w.aSend, w.aRecv + 1));
        } else {
          g :| g <= w.aSend && p == Sealed(Root(0), g, p.body);
          OpenAt(Root(1), Root(0), w.bSend, w.bRecv, g, p.body, garbled);
          Widen(s.ba, Root(1), w.bSend, Max(w.bSend, w.bRecv + 1));
        }
    }
  }

  lemma SealAt(send: Secret, recv: Secret, ns: nat, nr: nat, body: nat)
    ensures Seal(EndAt(send, recv, ns, nr), body) == Sealed(send, ns, body)
    ensures Seal(EndAt(send, recv, ns, nr), body).body == body
  {
  }

  // --------------------------------------------------------------------------
  // Every run
  // --------------------------------------------------------------------------

  lemma {:induction false} RunKeeps(s: Pair, w: Gens, es: seq<Event>, s': Pair) returns (w': Gens)
    requires At(s, w) && Reaches(s, es, s')
    ensures At(s', w')
    decreases |es|
  {
    hide At;
    if es == [] {
      w' := w;
    } else {
      var g := StepKeeps(s, w, es[0]);
      w' := RunKeeps(Apply(s, es[0]), Moved(w, es[0], g), es[1..], s');
    }
  }

  /**
   In every run the secrets are the iterated derivations of the originals, the prepared keys are one
   step ahead, the header keys never change, the phase bits are the parities, each side is at most
   one generation ahead of itself, and no side is ever more than two ahead of the other.
   */
  lemma Ratcheted(es: seq<Event>, s: Pair) returns (w: Gens)
    requires Reaches(Start(), es, s)
    ensures At(s, w)
    ensures w.bRecv <= w.aSend <= w.bRecv + 2 && w.aRecv <= w.bSend <= w.aRecv + 2
    ensures s.a.sendKeys.hp == s.a.nextSend.hp == s.b.recvKeys.hp == s.b.nextRecv.hp == Root(0)
    ensures s.b.sendKeys.hp == s.b.nextSend.hp == s.a.recvKeys.hp == s.a.nextRecv.hp == Root(1)
  {
    InstallAt(Root(0), Root(1));
    InstallAt(Root(1), Root(0));
    assert At(Start(), Gens(0, 0, 0, 0));
    w := RunKeeps(Start(), Gens(0, 0, 0, 0), es, s);
  }

  /** In either direction, a packet of the run is accepted only under the generation that sealed it. */
  lemma AcceptedUnderSealingKeys(es: seq<Event>, s: Pair, atA: bool, p: Packet, garbled: nat)
    requires Reaches(Start(), es, s) && p in if atA then s.ba else s.ab
    ensures var to := if atA then s.a else s.b;
            && (Open(to, p, garbled).1 ==> Open(to, p, garbled).0.recvKeys == p.keys)
            && (Open(to, p, garbled).1 <==> p.keys.material in {to.recvSecret, Next(to.recvSecret)})
  {
    var w := Ratcheted(es, s);
    if atA {
      AcceptedAt(Root(0), Root(1), w.aSend, w.aRecv, s.ba, w.bSend, p, garbled);
    } else {
      AcceptedAt(Root(1), Root(0), w.bSend, w.bRecv, s.ab, w.aSend, p, garbled);
    }
  }

  lemma AcceptedAt(send: Secret, recv: Secret, ns: nat, nr: nat, ps: set<Packet>, n: nat, p: Packet, garbled: nat)
    requires nr <= ns <= nr + 1 && recv.Root? && SealedUpTo(ps, recv, n) && p in ps
    ensures var to := EndAt(send, recv, ns, nr);
            && (Open(to, p, garbled).1 ==> Open(to, p, garbled).0.recvKeys == p.keys)
            && (Open(to, p, garbled).1 <==> p.keys.material in {to.recvSecret, Next(to.recvSecret)})
  {
    var g: nat :| g <= n && p == Sealed(recv, g, p.body);
    OpenAt(send, recv, ns, nr, g, p.body, garbled);
    RatchetInjective(recv, g, nr);
    RatchetInjective(recv, g, nr + 1);
  }

  // --------------------------------------------------------------------------
  // When an update keeps the peer able to read
  // --------------------------------------------------------------------------

  /** Whatever the sender seals now, the receiver opens. */
  ghost predicate Readable(from: End, to: End) {
    forall body: nat, garbled: nat :: Open(to, Seal(from, body), garbled).1
  }

  lemma ReadableAt(s: Pair, w: Gens)
    requires At(s, w)
    ensures Readable(s.a, s.b) <==> w.aSend <= w.bRecv + 1
    ensures Readable(s.b, s.a) <==> w.bSend <= w.aRecv + 1
  {
    forall body: nat, garbled: nat
      ensures Open(s.b, Seal(s.a, body), garbled).1 <==> w.aSend <= w.bRecv + 1
      ensures Open(s.a, Seal(s.b, body), garbled).1 <==> w.bSend <= w.aRecv + 1
    {
      OpenAt(Root(1), Root(0), w.bSend, w.bRecv, w.aSend, body, garbled);
      OpenAt(Root(0), Root(1), w.aSend, w.aRecv, w.bSend, body, garbled);
    }
    assert Readable(s.a, s.b) ==> Open(s.b, Seal(s.a, 0), 0).1;
    assert Readable(s.b, s.a) ==> Open(s.a, Seal(s.b, 0), 0).1;
  }

  /** The peer has received a packet of the sender's current generation. */
  predicate Confirmed(from: End, to: End) {
    to.recvSecret == from.sendSecret
  }

  /**
   An update that the code allows leaves the peer able to read what is sent next, if and only if the
   peer had already received the current generation; the code does not ask for that.
   */
  lemma UpdateReadable(es: seq<Event>, s: Pair, atA: bool)
    requires Reaches(Start(), es, s) && Initiate(if atA then s.a else s.b).1
    ensures var (own, other) := if atA then (s.a, s.b) else (s.b, s.a);
            Readable(Initiate(own).0, other) <==> Confirmed(own, other)
  {
    var w := Ratcheted(es, s);
    InitiateAt(Root(0), Root(1), w.aSend, w.aRecv);
    InitiateAt(Root(1), Root(0), w.bSend, w.bRecv);
    var g := StepKeeps(s, w, Update(atA));
    ReadableAt(Apply(s, Update(atA)), Moved(w, Update(atA), g));
    RatchetInjective(Root(0), w.aSend, w.bRecv);
    RatchetInjective(Root(1), w.bSend, w.aRecv);
  }

  /** Every update of the run was started by an end whose current generation the other had received. */
  ghost predicate Careful(s: Pair, es: seq<Event>)
    decreases |es|
  {
    es == [] ||
    (&& (es[0].Update? ==> if es[0].atA then Confirmed(s.a, s.b) else Confirmed(s.b, s.a))
     && Careful(Apply(s, es[0]), es[1..]))
  }

  lemma {:induction false} CarefulKeeps(s: Pair, w: Gens, es: seq<Event>, s': Pair)
    requires At(s, w) && Reaches(s, es, s') && Careful(s, es)
    requires w.aSend <= w.bRecv + 1 && w.bSend <= w.aRecv + 1
    ensures Readable(s'.a, s'.b) && Readable(s'.b, s'.a)
    decreases |es|
  {
    if es == [] {
      ReadableAt(s, w);
    } else {
      var g := StepKeeps(s, w, es[0]);
      RatchetInjective(Root(0), w.aSend, w.bRecv);
      RatchetInjective(Root(1), w.bSend, w.aRecv);
      hide At;
      CarefulKeeps(Apply(s, es[0]), Moved(w, es[0], g), es[1..], s');
    }
  }

  /** Runs whose updates are all confirmed first never lose readability in either direction. */
  lemma CarefulRunsStayReadable(es: seq<Event>, s: Pair)
    requires Reaches(Start(), es, s) && Careful(Start(), es)
    ensures Readable(s.a, s.b) && Readable(s.b, s.a)
  {
    InstallAt(Root(0), Root(1));
    InstallAt(Root(1), Root(0));
    CarefulKeeps(Start(), Gens(0, 0, 0, 0), es, s);
  }

  // --------------------------------------------------------------------------
  // Two updates in a row
  // --------------------------------------------------------------------------

  /** One end is two generations ahead of what the other can open, and no packet of the one between was ever sent. */
  ghost predicate Stuck(s: Pair, w: Gens, aheadA: bool) {
    && At(s, w)
    && if aheadA
       then w == Gens(w.bRecv + 2, w.bRecv + 1, w.bRecv + 1, w.bRecv) && Unsent(s.ab, Root(0), w.bRecv + 1)
       else w == Gens(w.aRecv + 1, w.aRecv, w.aRecv + 2, w.aRecv + 1) && Unsent(s.ba, Root(1), w.aRecv + 1)
  }

  ghost predicate Unsent(ps: set<Packet>, root: Secret, g: nat) {
    forall p :: p in ps ==> p.keys.material != Ratchet(root, g)
  }

  lemma StuckStep(s: Pair, w: Gens, aheadA: bool, e: Event)
    requires Stuck(s, w, aheadA) && Enabled(s, e)
    ensures Stuck(Apply(s, e), w, aheadA)
  {
    var g := StepKeeps(s, w, e);
    RatchetInjective(Root(0), w.aSend, w.bRecv + 1);
    RatchetInjective(Root(1), w.bSend, w.aRecv + 1);
    SealAt(Root(0), Root(1), w.aSend, w.aRecv, if e.Send? then e.body else 0);
    SealAt(Root(1), Root(0), w.bSend, w.bRecv, if e.Send? then e.body else 0);
    if e.Receive? { StuckReceive(s, w, aheadA, e, g); }
    hide EndAt, Seal, Open, Initiate;
  }

  /** What is received moves neither end. */
  lemma StuckReceive(s: Pair, w: Gens, aheadA: bool, e: Event, g: nat)
    requires Stuck(s, w, aheadA) && Enabled(s, e) && e.Receive?
    requires e.p == Sealed(Root(if e.atA then 1 else 0), g, e.p.body)
    ensures Moved(w, e, g) == w
  {
    hide EndAt, Seal, Open, Initiate;
    if e.atA {
      var h: nat :| h <= w.bSend && e.p == Sealed(Root(1), h, e.p.body);
      RatchetInjective(Root(1), g, h);
      RatchetInjective(Root(1), g, w.aRecv + 1);
    } else {
      var h: nat :| h <= w.aSend && e.p == Sealed(Root(0), h, e.p.body);
      RatchetInjective(Root(0), g, h);
      RatchetInjective(Root(0), g, w.bRecv + 1);
    }
  }

  /** From then on, whatever happens, nothing that end sends is ever accepted. */
  lemma {:induction false} StuckForever(
    s: Pair, w: Gens, aheadA: bool, es: seq<Event>, s': Pair, body: nat, garbled: nat)
    requires Stuck(s, w, aheadA) && Reaches(s, es, s')
    ensures var (own, other) := if aheadA then (s'.a, s'.b) else (s'.b, s'.a);
            !Open(other, Seal(own, body), garbled).1
    decreases |es|
  {
    if es == [] {
      SealAt(Root(0), Root(1), w.aSend, w.aRecv, body);
      SealAt(Root(1), Root(0), w.bSend, w.bRecv, body);
      OpenAt(Root(1), Root(0), w.bSend, w.bRecv, w.aSend, body, garbled);
      OpenAt(Root(0), Root(1), w.aSend, w.aRecv, w.bSend, body, garbled);
    } else {
      StuckStep(s, w, aheadA, es[0]);
      hide Stuck;
      StuckForever(Apply(s, es[0]), w, aheadA, es[1..], s', body, garbled);
    }
  }

  // --------------------------------------------------------------------------
  // Two generations ahead: for good, or not
  // --------------------------------------------------------------------------

  function From(s: Pair, fromA: bool): End { if fromA then s.a else s.b }

  function To(s: Pair, fromA: bool): End { if fromA then s.b else s.a }

  function Wire(s: Pair, fromA: bool): set<Packet> { if fromA then s.ab else s.ba }

  predicate TwoAhead(s: Pair, aheadA: bool) {
    From(s, aheadA).sendSecret == Next(Next(To(s, aheadA).recvSecret))
  }

  /** A packet of the generation between was sent, and so may still arrive. */
  ghost predicate BetweenSent(s: Pair, aheadA: bool) {
    exists p :: p in Wire(s, aheadA) && p.keys.material == Next(To(s, aheadA).recvSecret)
  }

  ghost predicate Unreadable(from: End, to: End) {
    forall body: nat, garbled: nat :: !Open(to, Seal(from, body), garbled).1
  }

  /** Whatever happens, nothing that end then sends is accepted. */
  ghost predicate NeverAgain(s: Pair, aheadA: bool) {
    forall es: seq<Event>, s': Pair :: Reaches(s, es, s') ==> Unreadable(From(s', aheadA), To(s', aheadA))
  }

  lemma TwoAheadAt(s: Pair, w: Gens, aheadA: bool)
    requires At(s, w) && TwoAhead(s, aheadA)
    ensures if aheadA then w == Gens(w.bRecv + 2, w.bRecv + 1, w.bRecv + 1, w.bRecv)
            else w == Gens(w.aRecv + 1, w.aRecv, w.aRecv + 2, w.aRecv + 1)
  {
    RatchetInjective(Root(0), w.aSend, w.bRecv + 2);
    RatchetInjective(Root(1), w.bSend, w.aRecv + 2);
    assert Ratchet(Root(0), w.bRecv + 2) == Next(Ratchet(Root(0), w.bRecv + 1));
    assert Ratchet(Root(1), w.aRecv + 2) == Next(Ratchet(Root(1), w.aRecv + 1));
  }

  /** The packet between arrives, and the end that is ahead can be read again. */
  lemma BetweenArrives(s: Pair, w: Gens, aheadA: bool) returns (e: Event)
    requires At(s, w) && TwoAhead(s, aheadA) && BetweenSent(s, aheadA)
    ensures Enabled(s, e) && Readable(From(Apply(s, e), aheadA), To(Apply(s, e), aheadA))
  {
    TwoAheadAt(s, w, aheadA);
    var p :| p in Wire(s, aheadA) && p.keys.material == Next(To(s, aheadA).recvSecret);
    e := Receive(!aheadA, p, 0);
    var g := StepKeeps(s, w, e);
    RatchetInjective(Root(0), g, w.bRecv + 1);
    RatchetInjective(Root(1), g, w.aRecv + 1);
    ReadableAt(Apply(s, e), Moved(w, e, g));
  }

  /** In every run: an end that is two generations ahead is lost for good, if and only if no packet of the one between was sent. */
  lemma StuckExactly(es: seq<Event>, s: Pair, aheadA: bool)
    requires Reaches(Start(), es, s) && TwoAhead(s, aheadA)
    ensures NeverAgain(s, aheadA) <==> !BetweenSent(s, aheadA)
  {
    var w := Ratcheted(es, s);
    if BetweenSent(s, aheadA) {
      var e := BetweenArrives(s, w, aheadA);
      var s' := Apply(s, e);
      assert Reaches(s, [e], s');
      assert Open(To(s', aheadA), Seal(From(s', aheadA), 0), 0).1;
    } else {
      TwoAheadAt(s, w, aheadA);
      hide At;
      forall es': seq<Event>, s': Pair, body: nat, garbled: nat | Reaches(s, es', s')
        ensures !Open(To(s', aheadA), Seal(From(s', aheadA), body), garbled).1
      {
        StuckForever(s, w, aheadA, es', s', body, garbled);
      }
    }
  }

  // --------------------------------------------------------------------------
  // Both happen
  // --------------------------------------------------------------------------

  /** One more event at the end of a run. */
  lemma Go(es: seq<Event>, s: Pair, w: Gens, e: Event) returns (es': seq<Event>, s': Pair, g: nat)
    requires Reaches(Start(), es, s) && At(s, w) && Enabled(s, e)
    ensures Reaches(Start(), es', s') && s' == Apply(s, e) && At(s', Moved(w, e, g))
    ensures e.Receive? ==> e.p == Sealed(Root(if e.atA then 1 else 0), g, e.p.body)
  {
    hide Reaches, At, Enabled, Apply;
    ReachesThen(Start(), es, s, e);
    g := StepKeeps(s, w, e);
    es', s' := es + [e], Apply(s, e);
  }

  lemma {:induction false} ReachesThen(s0: Pair, es: seq<Event>, s: Pair, e: Event)
    requires Reaches(s0, es, s) && Enabled(s, e)
    ensures Reaches(s0, es + [e], Apply(s, e))
    decreases |es|
  {
    hide Enabled, Apply;
    if es == [] {
      assert (es + [e])[1..] == [];
    } else {
      ReachesThen(Apply(s0, es[0]), es[1..], s, e);
      assert (es + [e])[1..] == es[1..] + [e];
    }
  }

  /** The generations by end: those of the one that gets ahead, and those of the other. */
  function GensOf(aheadA: bool, send: nat, recv: nat, otherSend: nat, otherRecv: nat): Gens {
    if aheadA then Gens(send, recv, otherSend, otherRecv) else Gens(otherSend, otherRecv, send, recv)
  }

  /** The other end updates, and this one answers the update. */
  lemma Answers(aheadA: bool) returns (es: seq<Event>, s: Pair, w: Gens)
    ensures Reaches(Start(), es, s) && At(s, w) && w == GensOf(aheadA, 1, 1, 1, 0) && Wire(s, aheadA) == {}
  {
    InstallAt(Root(0), Root(1));
    InstallAt(Root(1), Root(0));
    assert Reaches(Start(), [], Start());
    hide Reaches;
    var g;
    es, s, g := Go([], Start(), Gens(0, 0, 0, 0), Update(!aheadA));
    w := GensOf(aheadA, 0, 0, 1, 0);
    es, s, g := Go(es, s, w, Send(!aheadA, 7));
    var p := Sealed(Root(if aheadA then 1 else 0), 1, 7);
    SealAt(Root(1), Root(0), 1, 0, 7);
    SealAt(Root(0), Root(1), 1, 0, 7);
    assert p in Wire(s, !aheadA);
    es, s, g := Go(es, s, w, Receive(aheadA, p, 0));
    RatchetInjective(Root(1), g, 1);
    RatchetInjective(Root(0), g, 1);
    w := GensOf(aheadA, 1, 1, 1, 0);
  }

  /** A run for either end that gets there and is lost: it answers an update and at once starts another. */
  lemma DoubleUpdateSticks(aheadA: bool) returns (es: seq<Event>, s: Pair)
    ensures Reaches(Start(), es, s) && TwoAhead(s, aheadA) && !BetweenSent(s, aheadA)
  {
    var w, g;
    es, s, w := Answers(aheadA);
    hide Reaches;
    es, s, g := Go(es, s, w, Update(aheadA));
  }

  /** A run for either end that gets there and can recover: it sends in between, and the packet is only delayed. */
  lemma DelayedPacketRecovers(aheadA: bool) returns (es: seq<Event>, s: Pair)
    ensures Reaches(Start(), es, s) && TwoAhead(s, aheadA) && BetweenSent(s, aheadA)
  {
    var w, g;
    es, s, w := Answers(aheadA);
    hide Reaches;
    SealAt(Root(0), Root(1), 1, 1, 7);
    SealAt(Root(1), Root(0), 1, 1, 7);
    var p := Sealed(Root(if aheadA then 0 else 1), 1, 7);
    es, s, g := Go(es, s, w, Send(aheadA, 7));
    es, s, g := Go(es, s, w, Update(aheadA));
    assert p in Wire(s, aheadA);
  }
}
