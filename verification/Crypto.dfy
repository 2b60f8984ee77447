/**
 The handshake's byte stream (example/quic-http3/src/quic/connection.cpp,
 `pull_crypto_from_tls`, `on_crypto_frame`, `feed_tls_crypto`, and the CRYPTO
 parts of `build_and_send` and `declare_lost`; section 7.5 of RFC 9000): frames
 are buffered by offset and handed to TLS in order.

 TLS itself is outside: `given` is what it was handed.  Frames are numbered by
 the packet that carries them; the network may drop, repeat and reorder.
 */
module Crypto {
  import opened Bytes
  import opened Sums

  const WINDOW: nat := 64 * 1024

  datatype Frame = Frame(off: nat, data: seq<Byte>)

  /** `exceeded`: a frame beyond the window was refused, and the connection closes with CRYPTO_BUFFER_EXCEEDED. */
  datatype Recv = Recv(chunks: map<nat, seq<Byte>>, read: nat, given: seq<Byte>, exceeded: bool)

  // --------------------------------------------------------------------------
  // Reassembly
  // --------------------------------------------------------------------------

  ghost predicate Least(chunks: map<nat, seq<Byte>>, o: nat) { o in chunks && forall j :: j in chunks ==> o <= j }

  ghost function First(chunks: map<nat, seq<Byte>>): (o: nat)
    requires chunks != map[]
    ensures Least(chunks, o)
  {
    var k :| k in chunks;
    LeastExists(chunks.Keys, k);
    assert exists o :: Least(chunks, o) by {
      var o :| o in chunks.Keys && forall j :: j in chunks.Keys ==> o <= j;
      assert Least(chunks, o);
    }
    var o :| Least(chunks, o);
    o
  }

  ghost function Feed(r: Recv): Recv
    decreases |r.chunks|
  {
    if r.chunks == map[] then r
    else
      var o := First(r.chunks);
      if o > r.read then r else Feed(Taken(r, o))
  }

  /** The first chunk leaves the buffer, and its unread part goes to TLS. */
  ghost function Taken(r: Recv, o: nat): (r': Recv)
    requires o in r.chunks && o <= r.read
    ensures |r'.chunks| < |r.chunks|
  {
    var data, rest := r.chunks[o], r.chunks - {o};
    assert r.chunks == rest[o := data];
    if o + |data| <= r.read then r.(chunks := rest)
    else r.(chunks := rest, read := o + |data|, given := r.given + data[r.read - o..])
  }

  ghost function OnFrame(r: Recv, f: Frame): Recv {
    if f.off + |f.data| > r.read + WINDOW then r.(exceeded := true)
    else Feed(r.(chunks := r.chunks[f.off := f.data]))
  }

  ghost predicate Buffered(chunks: map<nat, seq<Byte>>, p: nat) {
    exists o :: o in chunks && o <= p < o + |chunks[o]|
  }

  /** The receiver has byte p: read or buffered. */
  ghost predicate Have(r: Recv, p: nat) { p < r.read || Buffered(r.chunks, p) }

  /** TLS was handed the first bytes of the peer's stream, and what is buffered belongs where it is kept. */
  ghost predicate Genuine(r: Recv, text: seq<Byte>) {
    && r.read <= |text| && r.given == text[..r.read]
    && forall o :: o in r.chunks ==> Slice(text, o, r.chunks[o])
  }

  predicate Slice(text: seq<Byte>, off: nat, data: seq<Byte>) {
    off + |data| <= |text| && text[off..off + |data|] == data
  }

  /** Nothing buffered can be handed over, and nothing lies beyond the window. */
  ghost predicate Waiting(r: Recv) {
    forall o :: o in r.chunks ==> r.read < o && o + |r.chunks[o]| <= r.read + WINDOW
  }

  ghost predicate InWindow(r: Recv) { forall o :: o in r.chunks ==> o + |r.chunks[o]| <= r.read + WINDOW }

  lemma TakenHave(r: Recv, o: nat, p: nat)
    requires o in r.chunks && o <= r.read
    ensures Have(Taken(r, o), p) <==> Have(r, p)
  {
    var r' := Taken(r, o);
    if Buffered(r.chunks, p) {
      var k :| k in r.chunks && k <= p < k + |r.chunks[k]|;
      assert k != o ==> k in r'.chunks && r'.chunks[k] == r.chunks[k];
    }
    if Buffered(r'.chunks, p) {
      var k :| k in r'.chunks && k <= p < k + |r'.chunks[k]|;
      assert k in r.chunks && r.chunks[k] == r'.chunks[k];
    }
    if r.read <= p < r'.read { assert o in r.chunks && o <= p < o + |r.chunks[o]|; }
  }

  lemma TakenGenuine(r: Recv, o: nat, text: seq<Byte>)
    requires o in r.chunks && o <= r.read && Genuine(r, text)
    ensures Genuine(Taken(r, o), text)
  {
    var data := r.chunks[o];
    assert Slice(text, o, data);
    if o + |data| > r.read {
      assert data[r.read - o..] == text[r.read..o + |data|];
      assert text[..r.read] + text[r.read..o + |data|] == text[..o + |data|];
    }
  }

  lemma FeedOne(r: Recv, o: nat)
    requires Least(r.chunks, o)
    ensures Feed(r) == if o > r.read then r else Feed(Taken(r, o))
  {
    assert First(r.chunks) == o;
    hide Taken;
  }

  lemma FeedNone(r: Recv)
    requires r.chunks == map[]
    ensures Feed(r) == r
  {
  }

  /** Handing over keeps what the receiver has, and stops at the first byte it does not have. */
  lemma {:induction false} FeedKeeps(r: Recv, p: nat)
    requires InWindow(r)
    ensures var r' := Feed(r);
            && (Have(r', p) <==> Have(r, p)) && Waiting(r') && r'.read >= r.read && r'.exceeded == r.exceeded
    decreases |r.chunks|
  {
    if r.chunks != map[] && First(r.chunks) <= r.read {
      var o := First(r.chunks);
      TakenHave(r, o, p);
      hide Have;
      FeedKeeps(Taken(r, o), p);
    }
  }

  lemma {:induction false} FeedGenuine(r: Recv, text: seq<Byte>)
    requires Genuine(r, text)
    ensures Genuine(Feed(r), text)
    decreases |r.chunks|
  {
    hide Genuine;
    if r.chunks != map[] && First(r.chunks) <= r.read {
      TakenGenuine(r, First(r.chunks), text);
      FeedGenuine(Taken(r, First(r.chunks)), text);
    }
  }

  /** What is handed over is always the longest run from the start that the receiver has. */
  lemma StopsAtGap(r: Recv)
    requires Waiting(r)
    ensures !Have(r, r.read) && forall p :: 0 <= p < r.read ==> Have(r, p)
  {
  }

  /** Byte p is buffered in a chunk that the frame does not overwrite. */
  ghost predicate Elsewhere(r: Recv, f: Frame, p: nat) {
    p < r.read || exists o :: o in r.chunks && o != f.off && o <= p < o + |r.chunks[o]|
  }

  /** The chunk that the frame overwrites held nothing that only it had. */
  ghost predicate Replaceable(r: Recv, f: Frame) {
    f.off in r.chunks ==> forall p :: f.off + |f.data| <= p < f.off + |r.chunks[f.off]| ==> Elsewhere(r, f, p)
  }

  /** What the receiver has after a frame it accepts: the frame, and all it had except in the overwritten chunk. */
  lemma FrameHave(r: Recv, f: Frame, p: nat)
    requires Waiting(r) && f.off + |f.data| <= r.read + WINDOW
    ensures Have(OnFrame(r, f), p) <==> Elsewhere(r, f, p) || f.off <= p < f.off + |f.data|
    ensures Waiting(OnFrame(r, f))
  {
    var r1 := r.(chunks := r.chunks[f.off := f.data]);
    FeedKeeps(r1, p);
    assert Have(r1, p) <==> Elsewhere(r, f, p) || f.off <= p < f.off + |f.data| by {
      hide Waiting;
      if Elsewhere(r, f, p) && p >= r.read {
        var o :| o in r.chunks && o != f.off && o <= p < o + |r.chunks[o]|;
        assert o in r1.chunks && r1.chunks[o] == r.chunks[o];
      }
      if f.off <= p < f.off + |f.data| { assert f.off in r1.chunks && r1.chunks[f.off] == f.data; }
      if Buffered(r1.chunks, p) {
        var o :| o in r1.chunks && o <= p < o + |r1.chunks[o]|;
        if o != f.off { assert o in r.chunks && r.chunks[o] == r1.chunks[o]; }
      }
    }
  }

  /**
   An accepted frame adds exactly its own bytes if and only if the chunk it overwrites held nothing that
   only it had: a shorter frame at the offset of a buffered one loses the rest of it.
   */
  lemma FrameAdds(r: Recv, f: Frame)
    requires Waiting(r) && f.off + |f.data| <= r.read + WINDOW
    ensures Replaceable(r, f) <==>
              forall p: nat :: Have(OnFrame(r, f), p) <==> Have(r, p) || f.off <= p < f.off + |f.data|
  {
    var r' := OnFrame(r, f);
    forall p: nat ensures Have(r', p) <==> Elsewhere(r, f, p) || f.off <= p < f.off + |f.data| { FrameHave(r, f, p); }
    hide OnFrame, Waiting;
    if Replaceable(r, f) {
      forall p: nat ensures Have(r', p) <==> Have(r, p) || f.off <= p < f.off + |f.data| { HaveSplit(r, f, p); }
    } else {
      var p :| f.off + |f.data| <= p < f.off + |r.chunks[f.off]| && !Elsewhere(r, f, p);
      HaveSplit(r, f, p);
      assert Have(r, p) && !Have(r', p);
    }
  }

  lemma HaveSplit(r: Recv, f: Frame, p: nat)
    ensures Have(r, p) <==> Elsewhere(r, f, p) || (f.off in r.chunks && f.off <= p < f.off + |r.chunks[f.off]|)
  {
    if Buffered(r.chunks, p) {
      var o :| o in r.chunks && o <= p < o + |r.chunks[o]|;
      assert o != f.off ==> Elsewhere(r, f, p);
    }
  }

  /** A buffered byte is lost when a shorter frame comes for the same offset. */
  lemma ShorterFrameLoses()
    ensures var r := Recv(map[1 := [7, 8]], 0, [], false);
            Waiting(r) && Have(r, 2) && !Have(OnFrame(r, Frame(1, [7])), 2)
  {
    var r, f := Recv(map[1 := [7, 8]], 0, [], false), Frame(1, [7]);
    assert 1 in r.chunks && |r.chunks[1]| == 2;
    FrameHave(r, f, 2);
  }

  // --------------------------------------------------------------------------
  // As the program does it
  // --------------------------------------------------------------------------

  class CryptoStream {
    var chunks: map<nat, seq<Byte>>
    var read: nat
    var given: seq<Byte>
    var exceeded: bool

    ghost function View(): Recv
      reads this
    {
      Recv(chunks, read, given, exceeded)
    }

    constructor ()
      ensures View() == Recv(map[], 0, [], false) && Waiting(View())
    {
      chunks, read, given, exceeded := map[], 0, [], false;
    }

    method OnCryptoFrame(f: Frame)
      requires Waiting(View())
      modifies this
      ensures View() == OnFrame(old(View()), f) && Waiting(View())
    {
      if f.off + |f.data| > read + WINDOW {
        exceeded := true;
        return;
      }
      chunks := chunks[f.off := f.data];
      FeedKeeps(View(), 0);
      FeedTls();
    }

    method FeedTls()
      modifies this
      ensures View() == Feed(old(View()))
    {
      hide Feed, First;
      while chunks != map[]
        invariant Feed(View()) == Feed(old(View()))
        decreases |chunks|
      {
        ghost var k := First(chunks);
        var o :| o in chunks && forall j :: j in chunks ==> o <= j;
        FeedOne(View(), o);
        if o > read { return; }
        var data := chunks[o];
        ghost var next := Taken(View(), o);
        if o + |data| > read {
          given := given + data[read - o..];
          read := o + |data|;
        }
        chunks := chunks - {o};
        assert View() == next;
      }
      assert Feed(View()) == View() by { FeedNone(View()); }
    }
  }
}
