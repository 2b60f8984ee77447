/**
 The handshake bytes of one encryption level from end to end
 (example/quic-http3/src/quic/connection.cpp, `pull_crypto_from_tls`, the CRYPTO
 parts of `build_and_send`, `on_ack_frame` and `declare_lost`, and
 `on_crypto_frame` at the peer): what TLS hands over arrives whole and in order.

 History: all bytes ever handed over by TLS, all frames made of them, all
 packets ever sent, and the packets that arrived at least once.
 */
module CryptoTransfer {
  import opened Bytes
  import opened Crypto

  datatype World = World(
    text: seq<Byte>,
    frames: map<nat, seq<Byte>>,
    pending: seq<Frame>,
    flight: map<nat, seq<Frame>>,
    packets: map<nat, seq<Frame>>,
    got: set<nat>,
    recv: Recv)

  ghost function Start(): World { World([], map[], [], map[], map[], {}, Recv(map[], 0, [], false)) }

  datatype Event =
    | Offer(data: seq<Byte>)
    | Send(pn: nat)
    | Arrive(pn: nat)
    | Acked(pn: nat)
    | Lost(pn: nat)

  ghost function Deliver(r: Recv, fs: seq<Frame>): Recv
    decreases |fs|
  {
    if fs == [] then r else Deliver(OnFrame(r, fs[0]), fs[1..])
  }

  /** One step: a packet is acknowledged only if it arrived; one sent may arrive any number of times, or never. */
  ghost predicate Next(w: World, e: Event, w': World) {
    match e
    case Offer(data) =>
      data != [] &&
      w' == w.(text := w.text + data, frames := w.frames[|w.text| := data], pending := w.pending + [Frame(|w.text|, data)])
    case Send(pn) =>
      pn !in w.packets && w.pending != [] &&
      w' == w.(pending := [], flight := w.flight[pn := w.pending], packets := w.packets[pn := w.pending])
    case Arrive(pn) =>
      pn in w.packets && w' == w.(recv := Deliver(w.recv, w.packets[pn]), got := w.got + {pn})
    case Acked(pn) => pn in w.flight && pn in w.got && w' == w.(flight := w.flight - {pn})
    case Lost(pn) => pn in w.flight && w' == w.(flight := w.flight - {pn}, pending := w.pending + w.flight[pn])
  }

  ghost predicate Reaches(w: World, es: seq<Event>, ws: seq<World>)
    decreases |es|
  {
    |ws| == |es| && (es == [] || (Next(w, es[0], ws[0]) && Reaches(ws[0], es[1..], ws[1..])))
  }

  // --------------------------------------------------------------------------
  // What every step keeps
  // --------------------------------------------------------------------------

  /** The frames cut the text: each is a part of it, and together they are all of it. */
  ghost predicate Cuts(w: World) {
    && (forall o :: o in w.frames ==> w.frames[o] != [] && Slice(w.text, o, w.frames[o]))
    && (forall p :: 0 <= p < |w.text| ==> Buffered(w.frames, p))
  }

  ghost predicate Made(w: World, f: Frame) { f.off in w.frames && w.frames[f.off] == f.data }

  ghost predicate AllMade(w: World, fs: seq<Frame>) { forall i :: 0 <= i < |fs| ==> Made(w, fs[i]) }

  ghost predicate Records(w: World) {
    && AllMade(w, w.pending)
    && (forall pn :: pn in w.packets ==> AllMade(w, w.packets[pn]))
    && (forall pn :: pn in w.flight ==> pn in w.packets && w.flight[pn] == w.packets[pn])
    && (forall pn :: pn in w.got ==> pn in w.packets)
  }

  /** The receiver buffers only whole frames that were made. */
  ghost predicate Receives(w: World) {
    && Genuine(w.recv, w.text) && Waiting(w.recv) && (w.recv.exceeded ==> |w.text| > WINDOW)
    && forall o :: o in w.recv.chunks ==> o in w.frames && w.recv.chunks[o] == w.frames[o]
  }

  /** Every byte of the frame is at the receiver. */
  ghost predicate Had(r: Recv, off: nat, data: seq<Byte>) {
    forall p :: off <= p < off + |data| ==> Have(r, p)
  }

  ghost predicate AllHad(r: Recv, fs: seq<Frame>) { forall i :: 0 <= i < |fs| ==> Had(r, fs[i].off, fs[i].data) }

  /** A frame is still to be sent, or in a packet that may yet be lost. */
  ghost predicate Open(w: World, o: nat)
    requires o in w.frames
  {
    Frame(o, w.frames[o]) in w.pending || exists pn :: pn in w.flight && Frame(o, w.frames[o]) in w.flight[pn]
  }

  /** Unless the receiver refused something: what arrived it has, and every frame is open or had. */
  ghost predicate Accounted(w: World) {
    !w.recv.exceeded ==>
      && (forall pn :: pn in w.got && pn in w.packets ==> AllHad(w.recv, w.packets[pn]))
      && (forall o :: o in w.frames ==> Open(w, o) || Had(w.recv, o, w.frames[o]))
  }

  ghost predicate Inv(w: World) { Cuts(w) && Records(w) && Receives(w) && Accounted(w) }

  /** A frame as it was made replaces nothing but itself, so nothing is lost. */
  lemma MadeAdds(w: World, r: Recv, f: Frame, p: nat)
    requires Receives(w.(recv := r)) && Made(w, f)
    ensures var r' := OnFrame(r, f);
            && (Have(r, p) ==> Have(r', p))
            && (!r'.exceeded && f.off <= p < f.off + |f.data| ==> Have(r', p))
            && (r.exceeded ==> r'.exceeded)
  {
    if f.off + |f.data| <= r.read + WINDOW {
      FrameHave(r, f, p);
      HaveSplit(r, f, p);
      FeedKeeps(r.(chunks := r.chunks[f.off := f.data]), p);
    }
    hide Waiting, Genuine, Feed;
  }

  lemma MadeReceives(w: World, r: Recv, f: Frame)
    requires Receives(w.(recv := r)) && Made(w, f) && Cuts(w)
    ensures Receives(w.(recv := OnFrame(r, f)))
  {
    hide Waiting, Feed, Cuts, Slice;
    MadeSlice(w, f);
    if f.off + |f.data| <= r.read + WINDOW {
      var r1 := r.(chunks := r.chunks[f.off := f.data]);
      FrameHave(r, f, 0);
      SameExceeded(r, f);
      FeedGenuine(r1, w.text);
      FeedSubset(r1);
    } else {
      RefusedWaits(r);
    }
  }

  lemma RefusedWaits(r: Recv)
    requires Waiting(r)
    ensures Waiting(r.(exceeded := true))
  {
  }

  lemma MadeSlice(w: World, f: Frame)
    requires Made(w, f) && Cuts(w)
    ensures Slice(w.text, f.off, f.data) && f.off + |f.data| <= |w.text|
  {
  }

  lemma SameExceeded(r: Recv, f: Frame)
    requires Waiting(r) && f.off + |f.data| <= r.read + WINDOW
    ensures OnFrame(r, f).exceeded == r.exceeded
  {
    FeedKeeps(r.(chunks := r.chunks[f.off := f.data]), 0);
    hide Feed;
  }

  lemma {:induction false} FeedSubset(r: Recv)
    ensures forall o :: o in Feed(r).chunks ==> o in r.chunks && Feed(r).chunks[o] == r.chunks[o]
    decreases |r.chunks|
  {
    if r.chunks != map[] && First(r.chunks) <= r.read {
      FeedSubset(Taken(r, First(r.chunks)));
    }
  }

  /** A packet's frames are all at the receiver afterwards, and nothing it had is gone. */
  lemma {:induction false} DeliverKeeps(w: World, r: Recv, fs: seq<Frame>, p: nat)
    requires Receives(w.(recv := r)) && AllMade(w, fs) && Cuts(w)
    ensures var r' := Deliver(r, fs);
            && Receives(w.(recv := r')) && (Have(r, p) ==> Have(r', p)) && (r.exceeded ==> r'.exceeded)
            && (!r'.exceeded ==> forall i :: 0 <= i < |fs| && fs[i].off <= p < fs[i].off + |fs[i].data| ==> Have(r', p))
    decreases |fs|
  {
    hide OnFrame, Receives, Have, Cuts, Made;
    if fs != [] {
      var f := fs[0];
      MadeAdds(w, r, f, p);
      MadeReceives(w, r, f);
      DeliverKeeps(w, OnFrame(r, f), fs[1..], p);
      forall i | 0 <= i < |fs| && !Deliver(r, fs).exceeded && fs[i].off <= p < fs[i].off + |fs[i].data|
        ensures Have(Deliver(r, fs), p)
      {
        if i > 0 { assert fs[1..][i - 1] == fs[i]; }
      }
    }
  }

  ghost predicate Grows(r: Recv, r': Recv) { forall p: nat :: Have(r, p) ==> Have(r', p) }

  lemma DeliverAll(w: World, r: Recv, fs: seq<Frame>)
    requires Receives(w.(recv := r)) && AllMade(w, fs) && Cuts(w)
    ensures var r' := Deliver(r, fs);
            && Receives(w.(recv := r')) && Grows(r, r') && (r.exceeded ==> r'.exceeded)
            && (!r'.exceeded ==> AllHad(r', fs))
  {
    hide Have, Receives, Cuts, AllMade, Deliver;
    var r' := Deliver(r, fs);
    DeliverKeeps(w, r, fs, 0);
    forall p: nat ensures Have(r, p) ==> Have(r', p) { DeliverKeeps(w, r, fs, p); }
    forall i, p | 0 <= i < |fs| && fs[i].off <= p < fs[i].off + |fs[i].data| && !r'.exceeded ensures Have(r', p) {
      DeliverKeeps(w, r, fs, p);
    }
  }

  lemma HadGrows(r: Recv, r': Recv, off: nat, data: seq<Byte>)
    requires Grows(r, r')
    ensures Had(r, off, data) ==> Had(r', off, data)
  {
    hide Have;
  }

  lemma AllHadGrows(r: Recv, r': Recv, fs: seq<Frame>)
    requires Grows(r, r')
    ensures AllHad(r, fs) ==> AllHad(r', fs)
  {
    hide Have, Had, Grows;
    forall i | 0 <= i < |fs| { HadGrows(r, r', fs[i].off, fs[i].data); }
  }

  lemma ArriveKeeps(w: World, pn: nat, w': World)
    requires Inv(w) && Next(w, Arrive(pn), w')
    ensures Inv(w')
  {
    DeliverAll(w, w.recv, w.packets[pn]);
    hide Have, Deliver, Receives, Cuts, Had, Grows, AllHad, AllMade;
    CutsSame(w, w');
    if !w'.recv.exceeded {
      forall k | k in w'.got && k in w'.packets ensures AllHad(w'.recv, w'.packets[k]) {
        AllHadGrows(w.recv, w'.recv, w'.packets[k]);
      }
      forall o | o in w'.frames ensures Open(w', o) || Had(w'.recv, o, w'.frames[o]) {
        HadGrows(w.recv, w'.recv, o, w.frames[o]);
        assert Open(w, o) ==> Open(w', o);
      }
    }
    assert w.(recv := w'.recv) == w'.(got := w.got);
    ReceivesSame(w.(recv := w'.recv), w');
  }

  lemma CutsSame(w: World, w': World)
    requires Cuts(w) && w'.text == w.text && w'.frames == w.frames
    ensures Cuts(w')
  {
  }

  lemma ReceivesSame(w: World, w': World)
    requires Receives(w) && w'.text == w.text && w'.frames == w.frames && w'.recv == w.recv
    ensures Receives(w')
  {
  }

  lemma OfferKeeps(w: World, data: seq<Byte>, w': World)
    requires Inv(w) && Next(w, Offer(data), w')
    ensures Inv(w')
  {
    var n, f := |w.text|, Frame(|w.text|, data);
    assert n !in w.frames;
    SliceGrows(w, data, w');
    CutsGrow(w, data, w');
    hide Have, Slice, Waiting, Genuine, Buffered, Cuts;
    forall g | Made(w, g) ensures Made(w', g) { }
    assert w'.pending[|w.pending|] == f;
    if !w'.recv.exceeded {
      forall o | o in w'.frames ensures Open(w', o) || Had(w'.recv, o, w'.frames[o]) {
        if o != n {
          if Frame(o, w.frames[o]) in w.pending { assert Frame(o, w'.frames[o]) in w'.pending; }
        }
      }
    }
  }

  lemma SliceGrows(w: World, data: seq<Byte>, w': World)
    requires Cuts(w) && Genuine(w.recv, w.text) && w'.text == w.text + data && w'.recv == w.recv
    ensures Genuine(w'.recv, w'.text)
  {
    assert w'.text[..w.recv.read] == w.text[..w.recv.read];
    forall o | o in w.recv.chunks ensures Slice(w'.text, o, w.recv.chunks[o]) {
      var d := w.recv.chunks[o];
      assert Slice(w.text, o, d);
      assert w'.text[o..o + |d|] == w.text[o..o + |d|];
    }
  }

  lemma CutsGrow(w: World, data: seq<Byte>, w': World)
    requires Cuts(w) && data != [] && w'.text == w.text + data && w'.frames == w.frames[|w.text| := data]
    ensures Cuts(w')
  {
    var n := |w.text|;
    assert n !in w.frames;
    forall o | o in w'.frames ensures w'.frames[o] != [] && Slice(w'.text, o, w'.frames[o]) {
      var d := w'.frames[o];
      assert o != n ==> Slice(w.text, o, d);
      assert o == n ==> w'.text[n..n + |data|] == data;
      assert o != n ==> w'.text[o..o + |d|] == w.text[o..o + |d|];
    }
    forall p | 0 <= p < |w'.text| ensures Buffered(w'.frames, p) {
      if p < n {
        assert Buffered(w.frames, p);
        var o :| o in w.frames && o <= p < o + |w.frames[o]|;
        assert o in w'.frames && w'.frames[o] == w.frames[o];
      } else {
        assert n in w'.frames && n <= p < n + |w'.frames[n]|;
      }
    }
  }

  lemma SendKeeps(w: World, pn: nat, w': World)
    requires Inv(w) && Next(w, Send(pn), w')
    ensures Inv(w')
  {
    hide Have, Slice, Waiting, Genuine, Buffered, Had;
    forall o | o in w.frames && Open(w, o) ensures Open(w', o) {
      var f := Frame(o, w.frames[o]);
      if f in w.pending {
        assert pn in w'.flight && f in w'.flight[pn];
      } else {
        var k :| k in w.flight && f in w.flight[k];
        assert k in w'.flight && f in w'.flight[k];
      }
    }
  }

  lemma AckedKeeps(w: World, pn: nat, w': World)
    requires Inv(w) && Next(w, Acked(pn), w')
    ensures Inv(w')
  {
    hide Have, Slice, Waiting, Genuine, Buffered, Had;
    if !w.recv.exceeded {
      var fs := w.flight[pn];
      assert AllHad(w.recv, fs);
      forall o | o in w.frames ensures Open(w', o) || Had(w'.recv, o, w'.frames[o]) {
        var f := Frame(o, w.frames[o]);
        if Open(w, o) && f !in w.pending {
          var k :| k in w.flight && f in w.flight[k];
          if k == pn {
            var i :| 0 <= i < |fs| && fs[i] == f;
            assert Had(w.recv, fs[i].off, fs[i].data);
          } else {
            assert k in w'.flight && f in w'.flight[k];
          }
        }
      }
    }
  }

  lemma LostKeeps(w: World, pn: nat, w': World)
    requires Inv(w) && Next(w, Lost(pn), w')
    ensures Inv(w')
  {
    hide Have, Slice, Waiting, Genuine, Buffered, Had;
    forall o | o in w.frames && Open(w, o) ensures Open(w', o) {
      var f := Frame(o, w.frames[o]);
      if f !in w.pending {
        var k :| k in w.flight && f in w.flight[k];
        assert k != pn ==> k in w'.flight && f in w'.flight[k];
        assert k == pn ==> f in w'.pending;
      } else {
        assert f in w'.pending;
      }
    }
  }

  lemma StepKeeps(w: World, e: Event, w': World)
    requires Inv(w) && Next(w, e, w')
    ensures Inv(w')
  {
    match e
    case Offer(data) => OfferKeeps(w, data, w');
    case Send(pn) => SendKeeps(w, pn, w');
    case Arrive(pn) => ArriveKeeps(w, pn, w');
    case Acked(pn) => AckedKeeps(w, pn, w');
    case Lost(pn) => LostKeeps(w, pn, w');
  }

  lemma {:induction false} RunKeeps(w: World, es: seq<Event>, ws: seq<World>)
    requires Inv(w) && Reaches(w, es, ws)
    ensures forall i :: 0 <= i < |ws| ==> Inv(ws[i])
    decreases |es|
  {
    hide Inv, Next;
    if es != [] {
      StepKeeps(w, es[0], ws[0]);
      RunKeeps(ws[0], es[1..], ws[1..]);
      assert forall i :: 0 < i < |ws| ==> ws[i] == ws[1..][i - 1];
    }
  }

  lemma InvHolds(es: seq<Event>, ws: seq<World>, i: nat)
    requires Reaches(Start(), es, ws) && i < |ws|
    ensures Inv(ws[i])
  {
    assert Inv(Start());
    hide Inv;
    RunKeeps(Start(), es, ws);
  }

  /** In every run, the peer's TLS has been given a prefix of what this side's TLS handed over. */
  lemma HandshakeInOrder(es: seq<Event>, ws: seq<World>, i: nat)
    requires Reaches(Start(), es, ws) && i < |ws|
    ensures ws[i].recv.given <= ws[i].text && |ws[i].recv.given| == ws[i].recv.read
  {
    InvHolds(es, ws, i);
  }

  /** A handshake of at most 64 KiB is never refused. */
  lemma SmallHandshakeFits(es: seq<Event>, ws: seq<World>, i: nat)
    requires Reaches(Start(), es, ws) && i < |ws| && |ws[i].text| <= WINDOW
    ensures !ws[i].recv.exceeded
  {
    InvHolds(es, ws, i);
  }

  /**
   In every run in which the receiver refused nothing: once nothing is waiting to be sent and nothing is in
   flight, the peer's TLS has been given every byte, whatever was dropped, repeated or reordered on the way.
   */
  lemma HandshakeComplete(es: seq<Event>, ws: seq<World>, i: nat)
    requires Reaches(Start(), es, ws) && i < |ws|
    requires ws[i].pending == [] && ws[i].flight == map[] && !ws[i].recv.exceeded
    ensures ws[i].recv.given == ws[i].text
  {
    InvHolds(es, ws, i);
    var w := ws[i];
    StopsAtGap(w.recv);
    if w.recv.read < |w.text| { EveryByteHad(w, w.recv.read); }
  }

  lemma EveryByteHad(w: World, p: nat)
    requires Inv(w) && w.pending == [] && w.flight == map[] && !w.recv.exceeded && p < |w.text|
    ensures Have(w.recv, p)
  {
    hide Have;
    assert Buffered(w.frames, p);
    var o: nat :| o in w.frames && o <= p < o + |w.frames[o]|;
    assert Had(w.recv, o, w.frames[o]);
  }
}
