/**
 QUIC frames on the wire (frame.cpp; section 19 of RFC 9000): what a list of
 frames is encoded as, and what bytes are parsed as.
 */
module Frames {
  import opened Bytes
  import opened PrefixInt
  import V = VarInt

  datatype AckRange = AckRange(gap: nat, length: nat)

  datatype Frame =
    | Padding(count: nat)
    | Ping
    | Ack(largest: nat, delay: nat, first: nat, ranges: seq<AckRange>, ecn: bool, ect0: nat, ect1: nat, ce: nat)
    | ResetStream(id: nat, error: nat, finalSize: nat)
    | StopSending(id: nat, error: nat)
    | Crypto(offset: nat, data: seq<Byte>)
    | NewToken(data: seq<Byte>)
    | Stream(id: nat, offset: nat, hasLength: bool, fin: bool, data: seq<Byte>)
    | MaxData(maximum: nat)
    | MaxStreamData(id: nat, maximum: nat)
    | MaxStreams(bidi: bool, maximum: nat)
    | DataBlocked(limit: nat)
    | StreamDataBlocked(id: nat, limit: nat)
    | StreamsBlocked(bidi: bool, limit: nat)
    | NewConnectionId(sequence: nat, retirePriorTo: nat, cid: seq<Byte>, token: seq<Byte>)
    | RetireConnectionId(sequence: nat)
    | PathChallenge(data: seq<Byte>)
    | PathResponse(data: seq<Byte>)
    | ConnectionClose(application: bool, error: nat, frameType: nat, data: seq<Byte>)
    | HandshakeDone

  // --------------------------------------------------------------------------
  // Runs of integers
  // --------------------------------------------------------------------------

  ghost predicate Small(vs: seq<nat>) { forall i :: 0 <= i < |vs| ==> vs[i] < V.LIMIT }

  function IntsBytes(vs: seq<nat>): (bytes: seq<Byte>)
    requires Small(vs)
    ensures |vs| <= |bytes|
  {
    if vs == [] then [] else V.Enc(vs[0]) + IntsBytes(vs[1..])
  }

  /** n integers, one after the other. */
  function ReadInts(buf: seq<Byte>, n: nat): (p: Option<Parsed<seq<nat>>>)
    ensures p.Some? ==> |p.value.value| == n && |p.value.rest| + n <= |buf|
    decreases n
  {
    if n == 0 then Some(Parsed([], buf))
    else
      match V.Read(buf)
      case None => None
      case Some(v) =>
        match ReadInts(v.rest, n - 1)
        case None => None
        case Some(vs) => Some(Parsed([v.value] + vs.value, vs.rest))
  }

  lemma {:induction false} IntsRoundTrip(vs: seq<nat>, rest: seq<Byte>)
    requires Small(vs)
    ensures ReadInts(IntsBytes(vs) + rest, |vs|) == Some(Parsed(vs, rest))
    decreases |vs|
  {
    hide V.Enc, V.Read;
    if vs == [] {
      assert [] + rest == rest;
    } else {
      var tail := IntsBytes(vs[1..]);
      V.RoundTrip(vs[0], tail + rest);
      IntsRoundTrip(vs[1..], rest);
      assert IntsBytes(vs) + rest == V.Enc(vs[0]) + (tail + rest);
      assert [vs[0]] + vs[1..] == vs;
    }
  }

  /** n bytes as they are. */
  function ReadBytes(buf: seq<Byte>, n: nat): (p: Option<Parsed<seq<Byte>>>)
    ensures p.Some? ==> |p.value.rest| <= |buf|
  {
    if n > |buf| then None else Some(Parsed(buf[..n], buf[n..]))
  }

  lemma BytesRoundTrip(bytes: seq<Byte>, rest: seq<Byte>)
    ensures ReadBytes(bytes + rest, |bytes|) == Some(Parsed(bytes, rest))
  {
  }

  function Flatten(rs: seq<AckRange>): (vs: seq<nat>)
    ensures |vs| == 2 * |rs|
  {
    if rs == [] then [] else [rs[0].gap, rs[0].length] + Flatten(rs[1..])
  }

  function Pairs(vs: seq<nat>): seq<AckRange> {
    if |vs| < 2 then [] else [AckRange(vs[0], vs[1])] + Pairs(vs[2..])
  }

  lemma {:induction false} PairsFlatten(rs: seq<AckRange>)
    ensures Pairs(Flatten(rs)) == rs
  {
    if rs != [] {
      PairsFlatten(rs[1..]);
      assert Flatten(rs)[2..] == Flatten(rs[1..]);
    }
  }

  // --------------------------------------------------------------------------
  // Encoding
  // --------------------------------------------------------------------------

  /** Every number can be written, identifiers have an allowed length and fixed fields their size. */
  ghost predicate Encodable(f: Frame) {
    match f
    case Padding(_) => true
    case Ping => true
    case Ack(largest, delay, first, ranges, ecn, ect0, ect1, ce) =>
      Small([largest, delay, |ranges|, first]) && Small(Flatten(ranges)) && (ecn ==> Small([ect0, ect1, ce]))
    case ResetStream(id, error, finalSize) => Small([id, error, finalSize])
    case StopSending(id, error) => Small([id, error])
    case Crypto(offset, data) => Small([offset, |data|])
    case NewToken(data) => Small([|data|])
    case Stream(id, offset, _, _, data) =>
      if offset == 0 then Small([id, |data|]) else Small([id, offset, |data|])
    case MaxData(maximum) => Small([maximum])
    case MaxStreamData(id, maximum) => Small([id, maximum])
    case MaxStreams(_, maximum) => Small([maximum])
    case DataBlocked(limit) => Small([limit])
    case StreamDataBlocked(id, limit) => Small([id, limit])
    case StreamsBlocked(_, limit) => Small([limit])
    case NewConnectionId(sequence, prior, cid, token) => Small([sequence, prior]) && 1 <= |cid| <= 20 && |token| == 16
    case RetireConnectionId(sequence) => Small([sequence])
    case PathChallenge(data) => |data| == 8
    case PathResponse(data) => |data| == 8
    case ConnectionClose(application, error, frameType, data) =>
      if application then Small([error, |data|]) else Small([error, frameType, |data|])
    case HandshakeDone => true
  }

  function Zeros(n: nat): (bytes: seq<Byte>)
    ensures |bytes| == n && forall i :: 0 <= i < n ==> bytes[i] == 0
  {
    if n == 0 then [] else [0] + Zeros(n - 1)
  }

  function StreamType(offset: nat, fin: bool): Byte {
    0x0A + (if offset != 0 then 4 else 0) + (if fin then 1 else 0)
  }

  /** The type byte of a frame that is not padding, and what follows it. */
  function TypeOf(f: Frame): (b: Byte)
    requires !f.Padding?
    ensures 0 < b < 0x40
  {
    match f
    case Ping => 0x01
    case Ack(_, _, _, _, ecn, _, _, _) => if ecn then 0x03 else 0x02
    case ResetStream(_, _, _) => 0x04
    case StopSending(_, _) => 0x05
    case Crypto(_, _) => 0x06
    case NewToken(_) => 0x07
    case Stream(_, offset, _, fin, _) => StreamType(offset, fin)
    case MaxData(_) => 0x10
    case MaxStreamData(_, _) => 0x11
    case MaxStreams(bidi, _) => if bidi then 0x12 else 0x13
    case DataBlocked(_) => 0x14
    case StreamDataBlocked(_, _) => 0x15
    case StreamsBlocked(bidi, _) => if bidi then 0x16 else 0x17
    case NewConnectionId(_, _, _, _) => 0x18
    case RetireConnectionId(_) => 0x19
    case PathChallenge(_) => 0x1a
    case PathResponse(_) => 0x1b
    case ConnectionClose(application, _, _, _) => if application then 0x1d else 0x1c
    case HandshakeDone => 0x1e
  }

  function BodyOf(f: Frame): seq<Byte>
    requires Encodable(f) && !f.Padding?
  {
    match f
    case Ping => []
    case Ack(largest, delay, first, ranges, ecn, ect0, ect1, ce) =>
      IntsBytes([largest, delay, |ranges|, first]) + IntsBytes(Flatten(ranges))
      + (if ecn then IntsBytes([ect0, ect1, ce]) else [])
    case ResetStream(id, error, finalSize) => IntsBytes([id, error, finalSize])
    case StopSending(id, error) => IntsBytes([id, error])
    case Crypto(offset, data) => IntsBytes([offset, |data|]) + data
    case NewToken(data) => IntsBytes([|data|]) + data
    case Stream(id, offset, _, _, data) =>
      IntsBytes(if offset != 0 then [id, offset, |data|] else [id, |data|]) + data
    case MaxData(maximum) => IntsBytes([maximum])
    case MaxStreamData(id, maximum) => IntsBytes([id, maximum])
    case MaxStreams(_, maximum) => IntsBytes([maximum])
    case DataBlocked(limit) => IntsBytes([limit])
    case StreamDataBlocked(id, limit) => IntsBytes([id, limit])
    case StreamsBlocked(_, limit) => IntsBytes([limit])
    case NewConnectionId(sequence, prior, cid, token) => IntsBytes([sequence, prior]) + ([|cid|] + (cid + token))
    case RetireConnectionId(sequence) => IntsBytes([sequence])
    case PathChallenge(data) => data
    case PathResponse(data) => data
    case ConnectionClose(application, error, frameType, data) =>
      IntsBytes(if application then [error, |data|] else [error, frameType, |data|]) + data
    case HandshakeDone => []
  }

  function FrameBytes(f: Frame): seq<Byte>
    requires Encodable(f)
  {
    if f.Padding? then Zeros(f.count) else [TypeOf(f)] + BodyOf(f)
  }

  function FramesBytes(fs: seq<Frame>): seq<Byte>
    requires forall i :: 0 <= i < |fs| ==> Encodable(fs[i])
  {
    if fs == [] then [] else FrameBytes(fs[0]) + FramesBytes(fs[1..])
  }

  // --------------------------------------------------------------------------
  // Parsing
  // --------------------------------------------------------------------------

  /** How many zero bytes the input starts with. */
  function Run(buf: seq<Byte>): (n: nat)
    ensures n <= |buf| && (n < |buf| ==> buf[n] != 0)
  {
    if buf == [] || buf[0] != 0 then 0 else 1 + Run(buf[1..])
  }

  /** Bits 3 to 7 of the type are 00001; bits above are not looked at. */
  predicate IsStreamType(ty: nat) { (ty % 256) / 8 == 1 }

  function ParseAck(buf: seq<Byte>, ecn: bool): (p: Option<Parsed<Frame>>)
    ensures p.Some? ==> |p.value.rest| <= |buf|
  {
    match ReadInts(buf, 4)
    case None => None
    case Some(h) =>
      var count := h.value[2];
      if count > |h.rest| / 2 then None
      else
        match ReadInts(h.rest, 2 * count)
        case None => None
        case Some(rs) =>
          if !ecn then Some(Parsed(Ack(h.value[0], h.value[1], h.value[3], Pairs(rs.value), false, 0, 0, 0), rs.rest))
          else
            match ReadInts(rs.rest, 3)
            case None => None
            case Some(e) =>
              Some(Parsed(Ack(h.value[0], h.value[1], h.value[3], Pairs(rs.value), true, e.value[0], e.value[1], e.value[2]),
                          e.rest))
  }

  /** n integers of which the last is the length of the bytes that follow. */
  function ParseData(buf: seq<Byte>, n: nat): (p: Option<(seq<nat>, seq<Byte>, seq<Byte>)>)
    requires n > 0
    ensures p.Some? ==> |p.value.0| == n && |p.value.2| <= |buf|
  {
    match ReadInts(buf, n)
    case None => None
    case Some(h) =>
      match ReadBytes(h.rest, h.value[n - 1])
      case None => None
      case Some(d) => Some((h.value, d.value, d.rest))
  }

  function ParseStream(buf: seq<Byte>, flags: nat): (p: Option<Parsed<Frame>>)
    ensures p.Some? ==> |p.value.rest| <= |buf|
  {
    var fin, hasLength, hasOffset := flags % 2 == 1, flags / 2 % 2 == 1, flags / 4 % 2 == 1;
    if hasLength then
      match ParseData(buf, if hasOffset then 3 else 2)
      case None => None
      case Some((vs, data, rest)) => Some(Parsed(Stream(vs[0], if hasOffset then vs[1] else 0, true, fin, data), rest))
    else
      match ReadInts(buf, if hasOffset then 2 else 1)
      case None => None
      case Some(h) => Some(Parsed(Stream(h.value[0], if hasOffset then h.value[1] else 0, false, fin, h.rest), []))
  }

  function ParseNewCid(buf: seq<Byte>): (p: Option<Parsed<Frame>>)
    ensures p.Some? ==> |p.value.rest| <= |buf|
  {
    match ReadInts(buf, 2)
    case None => None
    case Some(h) =>
      if h.rest == [] then None
      else
        var n := h.rest[0];
        if n < 1 || n > 20 then None
        else
          match ReadBytes(h.rest[1..], n)
          case None => None
          case Some(cid) =>
            match ReadBytes(cid.rest, 16)
            case None => None
            case Some(token) =>
              Some(Parsed(NewConnectionId(h.value[0], h.value[1], cid.value, token.value), token.rest))
  }

  /** A frame made of n integers. */
  function ParseInts(buf: seq<Byte>, n: nat, make: seq<nat> --> Frame): (p: Option<Parsed<Frame>>)
    requires forall vs :: |vs| == n ==> make.requires(vs)
    ensures p.Some? ==> |p.value.rest| <= |buf|
  {
    match ReadInts(buf, n)
    case None => None
    case Some(h) => Some(Parsed(make(h.value), h.rest))
  }

  /** What follows the type of a frame that is not padding. */
  function ParseBody(ty: nat, buf: seq<Byte>): (p: Option<Parsed<Frame>>)
    ensures p.Some? ==> |p.value.rest| <= |buf|
  {
    if ty == 0x01 then Some(Parsed(Ping, buf))
    else if ty == 0x02 || ty == 0x03 then ParseAck(buf, ty == 0x03)
    else if ty == 0x04 then ParseInts(buf, 3, vs requires |vs| == 3 => ResetStream(vs[0], vs[1], vs[2]))
    else if ty == 0x05 then ParseInts(buf, 2, vs requires |vs| == 2 => StopSending(vs[0], vs[1]))
    else if ty == 0x06 then
      (match ParseData(buf, 2) case None => None case Some((vs, data, rest)) => Some(Parsed(Crypto(vs[0], data), rest)))
    else if ty == 0x07 then
      (match ParseData(buf, 1) case None => None case Some((vs, data, rest)) => Some(Parsed(NewToken(data), rest)))
    else if IsStreamType(ty) then ParseStream(buf, ty % 256)
    else if ty == 0x10 then ParseInts(buf, 1, vs requires |vs| == 1 => MaxData(vs[0]))
    else if ty == 0x11 then ParseInts(buf, 2, vs requires |vs| == 2 => MaxStreamData(vs[0], vs[1]))
    else if ty == 0x12 || ty == 0x13 then ParseInts(buf, 1, vs requires |vs| == 1 => MaxStreams(ty == 0x12, vs[0]))
    else if ty == 0x14 then ParseInts(buf, 1, vs requires |vs| == 1 => DataBlocked(vs[0]))
    else if ty == 0x15 then ParseInts(buf, 2, vs requires |vs| == 2 => StreamDataBlocked(vs[0], vs[1]))
    else if ty == 0x16 || ty == 0x17 then ParseInts(buf, 1, vs requires |vs| == 1 => StreamsBlocked(ty == 0x16, vs[0]))
    else if ty == 0x18 then ParseNewCid(buf)
    else if ty == 0x19 then ParseInts(buf, 1, vs requires |vs| == 1 => RetireConnectionId(vs[0]))
    else if ty == 0x1a || ty == 0x1b then
      (match ReadBytes(buf, 8) case None => None
       case Some(d) => Some(Parsed(if ty == 0x1a then PathChallenge(d.value) else PathResponse(d.value), d.rest)))
    else if ty == 0x1c then
      (match ParseData(buf, 3) case None => None
       case Some((vs, data, rest)) => Some(Parsed(ConnectionClose(false, vs[0], vs[1], data), rest)))
    else if ty == 0x1d then
      (match ParseData(buf, 2) case None => None
       case Some((vs, data, rest)) => Some(Parsed(ConnectionClose(true, vs[0], 0, data), rest)))
    else if ty == 0x1e then Some(Parsed(HandshakeDone, buf))
    else None
  }

  function ParseFrame(buf: seq<Byte>): (p: Option<Parsed<Frame>>)
    ensures p.Some? ==> |p.value.rest| < |buf|
  {
    match V.Read(buf)
    case None => None
    case Some(ty) =>
      if ty.value == 0 then
        var n := Run(ty.rest);
        Some(Parsed(Padding(1 + n), ty.rest[n..]))
      else ParseBody(ty.value, ty.rest)
  }

  function ParseAll(buf: seq<Byte>): Option<seq<Frame>>
    decreases |buf|
  {
    if buf == [] then Some([])
    else
      match ParseFrame(buf)
      case None => None
      case Some(p) =>
        match ParseAll(p.rest)
        case None => None
        case Some(fs) => Some([p.value] + fs)
  }

  // --------------------------------------------------------------------------
  // One frame back and forth
  // --------------------------------------------------------------------------

  /** The fields that are written: a STREAM frame always gets a length, unused fields become zero. */
  function Normal(f: Frame): Frame {
    match f
    case Ack(largest, delay, first, ranges, ecn, ect0, ect1, ce) =>
      if ecn then f else Ack(largest, delay, first, ranges, false, 0, 0, 0)
    case Stream(id, offset, _, fin, data) => Stream(id, offset, true, fin, data)
    case ConnectionClose(application, error, frameType, data) =>
      ConnectionClose(application, error, if application then 0 else frameType, data)
    case _ => f
  }

  lemma Assoc(a: seq<Byte>, b: seq<Byte>, c: seq<Byte>)
    ensures (a + b) + c == a + (b + c)
  {
  }

  lemma DataRoundTrip(vs: seq<nat>, data: seq<Byte>, rest: seq<Byte>)
    requires Small(vs) && vs != [] && vs[|vs| - 1] == |data|
    ensures ParseData((IntsBytes(vs) + data) + rest, |vs|) == Some((vs, data, rest))
  {
    hide ReadInts, IntsBytes, Small;
    Assoc(IntsBytes(vs), data, rest);
    IntsRoundTrip(vs, data + rest);
    BytesRoundTrip(data, rest);
  }

  /** The guard on the number of ranges never refuses what was encoded: each range takes two bytes. */
  lemma RangesFit(ranges: seq<AckRange>, rest: seq<Byte>)
    requires Small(Flatten(ranges))
    ensures |ranges| <= |IntsBytes(Flatten(ranges)) + rest| / 2
  {
  }

  lemma AckRoundTrip(f: Frame, rest: seq<Byte>)
    requires f.Ack? && Encodable(f)
    ensures ParseAck(BodyOf(f) + rest, f.ecn) == Some(Parsed(Normal(f), rest))
  {
    var head, mid := [f.largest, f.delay, |f.ranges|, f.first], Flatten(f.ranges);
    var tail := if f.ecn then IntsBytes([f.ect0, f.ect1, f.ce]) else [];
    assert BodyOf(f) + rest == IntsBytes(head) + (IntsBytes(mid) + (tail + rest));
    hide ReadInts, IntsBytes, Small, Flatten, Pairs, Encodable;
    IntsRoundTrip(head, IntsBytes(mid) + (tail + rest));
    RangesFit(f.ranges, tail + rest);
    IntsRoundTrip(mid, tail + rest);
    PairsFlatten(f.ranges);
    if f.ecn { IntsRoundTrip([f.ect0, f.ect1, f.ce], rest); } else { assert tail + rest == rest; }
  }

  lemma StreamRoundTrip(f: Frame, rest: seq<Byte>)
    requires f.Stream? && Encodable(f)
    ensures IsStreamType(TypeOf(f)) && ParseStream(BodyOf(f) + rest, TypeOf(f)) == Some(Parsed(Normal(f), rest))
  {
    hide ReadInts, IntsBytes, Small, ParseData, StreamType, IsStreamType;
    var vs := if f.offset != 0 then [f.id, f.offset, |f.data|] else [f.id, |f.data|];
    StreamFlags(f.offset, f.fin);
    DataRoundTrip(vs, f.data, rest);
  }

  lemma StreamFlags(offset: nat, fin: bool)
    ensures var ty := StreamType(offset, fin);
            && IsStreamType(ty) && ty % 256 == ty
            && (ty % 2 == 1) == fin && ty / 2 % 2 == 1 && (ty / 4 % 2 == 1) == (offset != 0)
  {
  }

  lemma NewCidRoundTrip(f: Frame, rest: seq<Byte>)
    requires f.NewConnectionId? && Encodable(f)
    ensures ParseNewCid(BodyOf(f) + rest) == Some(Parsed(f, rest))
  {
    hide ReadInts, IntsBytes, Small;
    var vs, tail := [f.sequence, f.retirePriorTo], f.cid + (f.token + rest);
    assert BodyOf(f) + rest == IntsBytes(vs) + ([|f.cid|] + tail);
    IntsRoundTrip(vs, [|f.cid|] + tail);
    assert ([|f.cid|] + tail)[1..] == tail;
    BytesRoundTrip(f.cid, f.token + rest);
    BytesRoundTrip(f.token, rest);
    hide ReadBytes;
  }

  /** Frames that consist of integers only. */
  predicate IntsOnly(f: Frame) {
    || f.ResetStream? || f.StopSending? || f.MaxData? || f.MaxStreamData? || f.MaxStreams? || f.DataBlocked?
    || f.StreamDataBlocked? || f.StreamsBlocked? || f.RetireConnectionId?
  }

  lemma IntsFrameRoundTrip(f: Frame, rest: seq<Byte>)
    requires IntsOnly(f) && Encodable(f)
    ensures ParseBody(TypeOf(f), BodyOf(f) + rest) == Some(Parsed(f, rest))
  {
    hide ReadInts, IntsBytes, Small, ParseAck, ParseStream, ParseData, ParseNewCid;
    match f
    case ResetStream(id, error, finalSize) => IntsRoundTrip([id, error, finalSize], rest);
    case StopSending(id, error) => IntsRoundTrip([id, error], rest);
    case MaxData(maximum) => IntsRoundTrip([maximum], rest);
    case MaxStreamData(id, maximum) => IntsRoundTrip([id, maximum], rest);
    case MaxStreams(_, maximum) => IntsRoundTrip([maximum], rest);
    case DataBlocked(limit) => IntsRoundTrip([limit], rest);
    case StreamDataBlocked(id, limit) => IntsRoundTrip([id, limit], rest);
    case StreamsBlocked(_, limit) => IntsRoundTrip([limit], rest);
    case RetireConnectionId(sequence) => IntsRoundTrip([sequence], rest);
  }

  lemma DataFrameRoundTrip(f: Frame, rest: seq<Byte>)
    requires (f.Crypto? || f.NewToken? || f.ConnectionClose?) && Encodable(f)
    ensures ParseBody(TypeOf(f), BodyOf(f) + rest) == Some(Parsed(Normal(f), rest))
  {
    hide ReadInts, IntsBytes, Small, ParseAck, ParseStream, ParseData, ParseNewCid, ParseInts;
    match f
    case Crypto(offset, data) => DataRoundTrip([offset, |data|], data, rest);
    case NewToken(data) => DataRoundTrip([|data|], data, rest);
    case ConnectionClose(application, error, frameType, data) =>
      DataRoundTrip(if application then [error, |data|] else [error, frameType, |data|], data, rest);
  }

  lemma PathRoundTrip(f: Frame, rest: seq<Byte>)
    requires (f.PathChallenge? || f.PathResponse?) && Encodable(f)
    ensures ParseBody(TypeOf(f), BodyOf(f) + rest) == Some(Parsed(f, rest))
  {
    hide ReadInts, IntsBytes, Small, ParseAck, ParseStream, ParseData, ParseNewCid, ParseInts;
    BytesRoundTrip(f.data, rest);
  }

  lemma BodyRoundTrip(f: Frame, rest: seq<Byte>)
    requires Encodable(f) && !f.Padding?
    ensures ParseBody(TypeOf(f), BodyOf(f) + rest) == Some(Parsed(Normal(f), rest))
  {
    hide ReadInts, IntsBytes, Small, ParseAck, ParseStream, ParseData, ParseNewCid, ParseInts, Encodable;
    if IntsOnly(f) {
      IntsFrameRoundTrip(f, rest);
    } else if f.Crypto? || f.NewToken? || f.ConnectionClose? {
      DataFrameRoundTrip(f, rest);
    } else if f.PathChallenge? || f.PathResponse? {
      PathRoundTrip(f, rest);
    } else if f.Ack? {
      AckRoundTrip(f, rest);
    } else if f.Stream? {
      StreamRoundTrip(f, rest);
    } else if f.NewConnectionId? {
      NewCidRoundTrip(f, rest);
    } else {
      assert [] + rest == rest;
    }
  }

  lemma TypeRoundTrip(ty: Byte, rest: seq<Byte>)
    requires ty < 0x40
    ensures V.Read([ty] + rest) == Some(Parsed(ty, rest))
  {
    assert V.Enc(ty) == [ty];
    V.RoundTrip(ty, rest);
  }

  /** A frame that is not padding is parsed back, whatever follows it. */
  lemma FrameRoundTrip(f: Frame, rest: seq<Byte>)
    requires Encodable(f) && !f.Padding?
    ensures ParseFrame(FrameBytes(f) + rest) == Some(Parsed(Normal(f), rest))
  {
    hide V.Read, ParseBody, BodyOf, TypeOf, Encodable, Normal;
    Assoc([TypeOf(f)], BodyOf(f), rest);
    TypeRoundTrip(TypeOf(f), BodyOf(f) + rest);
    BodyRoundTrip(f, rest);
  }

  // --------------------------------------------------------------------------
  // Lists of frames
  // --------------------------------------------------------------------------

  /** Adjacent paddings become one, empty ones vanish, and every other frame is as written. */
  function Coalesce(fs: seq<Frame>): seq<Frame> {
    if fs == [] then []
    else
      var rest := Coalesce(fs[1..]);
      if !fs[0].Padding? then [Normal(fs[0])] + rest
      else if fs[0].count == 0 then rest
      else if rest != [] && rest[0].Padding? then [Padding(fs[0].count + rest[0].count)] + rest[1..]
      else [fs[0]] + rest
  }

  lemma {:induction false} RunZeros(n: nat, rest: seq<Byte>)
    ensures Run(Zeros(n) + rest) == n + Run(rest)
  {
    if n == 0 {
      assert Zeros(0) + rest == rest;
    } else {
      RunZeros(n - 1, rest);
      assert (Zeros(n) + rest)[1..] == Zeros(n - 1) + rest;
    }
  }

  /** A run of zero bytes is one padding frame, up to the first byte that is not zero. */
  lemma PaddingParses(n: nat, rest: seq<Byte>)
    requires n > 0
    ensures ParseFrame(Zeros(n) + rest) == Some(Parsed(Padding(n + Run(rest)), rest[Run(rest)..]))
  {
    hide *;
    ZerosStep(n, rest);
    OneThenZeros(n - 1, rest);
  }

  lemma OneThenZeros(m: nat, rest: seq<Byte>)
    ensures ParseFrame([0] + (Zeros(m) + rest)) == Some(Parsed(Padding(1 + (m + Run(rest))), rest[Run(rest)..]))
  {
    hide *;
    RunZeros(m, rest);
    DropZeros(m, rest, Run(rest));
    TypeRoundTrip(0, Zeros(m) + rest);
    ParsePadding([0] + (Zeros(m) + rest), Zeros(m) + rest);
  }

  lemma ParsePadding(buf: seq<Byte>, tail: seq<Byte>)
    requires V.Read(buf) == Some(Parsed(0, tail))
    ensures ParseFrame(buf) == Some(Parsed(Padding(1 + Run(tail)), tail[Run(tail)..]))
  {
  }

  lemma ZerosStep(n: nat, rest: seq<Byte>)
    requires n > 0
    ensures Zeros(n) + rest == [0] + (Zeros(n - 1) + rest)
  {
  }

  lemma DropZeros(n: nat, rest: seq<Byte>, k: nat)
    requires k <= |rest|
    ensures (Zeros(n) + rest)[n + k..] == rest[k..]
  {
  }

  /** How much padding the list starts with, and what comes after it. */
  function Lead(fs: seq<Frame>): nat { if fs != [] && fs[0].Padding? then fs[0].count else 0 }

  function AfterLead(fs: seq<Frame>): seq<Frame> { if fs != [] && fs[0].Padding? then fs[1..] else fs }

  lemma ParseStep(buf: seq<Byte>, f: Frame, rest: seq<Byte>, fs: seq<Frame>)
    requires buf != [] && ParseFrame(buf) == Some(Parsed(f, rest)) && ParseAll(rest) == Some(fs)
    ensures ParseAll(buf) == Some([f] + fs)
  {
    hide ParseFrame;
  }

  lemma ParseNothing()
    ensures ParseAll([]) == Some([]) && Run([]) == 0
  {
  }

  lemma StartsWithType(f: Frame, rest: seq<Byte>)
    requires Encodable(f) && !f.Padding?
    ensures FrameBytes(f) + rest != [] && Run(FrameBytes(f) + rest) == 0
  {
    hide Encodable, BodyOf, TypeOf;
  }

  /** The bytes are parsed as fs, also when the zeros they start with are left out. */
  ghost predicate Yields(bytes: seq<Byte>, fs: seq<Frame>) {
    && ParseAll(bytes) == Some(fs) && Run(bytes) == Lead(fs)
    && ParseAll(bytes[Run(bytes)..]) == Some(AfterLead(fs))
  }

  lemma FrameYields(f: Frame, rest: seq<Byte>, more: seq<Frame>)
    requires Encodable(f) && !f.Padding? && Yields(rest, more)
    ensures Yields(FrameBytes(f) + rest, [Normal(f)] + more)
  {
    hide Encodable, ParseFrame, ParseAll, Run, Normal, FrameBytes;
    FrameRoundTrip(f, rest);
    StartsWithType(f, rest);
    ParseStep(FrameBytes(f) + rest, Normal(f), rest, more);
    NormalKind(f);
    assert (FrameBytes(f) + rest)[0..] == FrameBytes(f) + rest;
  }

  lemma PaddingYields(n: nat, rest: seq<Byte>, more: seq<Frame>)
    requires n > 0 && Yields(rest, more)
    ensures Yields(Zeros(n) + rest, [Padding(n + Lead(more))] + AfterLead(more))
  {
    hide ParseFrame, ParseAll, Run, Zeros;
    RunZeros(n, rest);
    DropZeros(n, rest, Run(rest));
    PaddingParses(n, rest);
    ParseStep(Zeros(n) + rest, Padding(n + Run(rest)), rest[Run(rest)..], AfterLead(more));
  }

  /** Parsing the encoding of any list of frames gives the list with its paddings merged. */
  lemma {:induction false} ParsesTo(fs: seq<Frame>)
    requires forall i :: 0 <= i < |fs| ==> Encodable(fs[i])
    ensures Yields(FramesBytes(fs), Coalesce(fs))
  {
    hide Encodable, Yields, Normal;
    if fs == [] {
      YieldsNothing();
    } else {
      var f, rest, more := fs[0], FramesBytes(fs[1..]), Coalesce(fs[1..]);
      ParsesTo(fs[1..]);
      if !f.Padding? {
        hide FrameBytes;
        FrameYields(f, rest, more);
      } else if f.count == 0 {
        assert Zeros(0) + rest == rest;
      } else {
        hide Zeros;
        PaddingYields(f.count, rest, more);
      }
    }
  }

  lemma YieldsNothing()
    ensures Yields([], [])
  {
    ParseNothing();
  }

  lemma NormalKind(f: Frame)
    ensures Normal(f).Padding? == f.Padding?
  {
  }

  /** Frames in the form the parser returns them: no empty or adjacent paddings. */
  ghost predicate Canonical(fs: seq<Frame>) {
    && (forall i :: 0 <= i < |fs| ==> Normal(fs[i]) == fs[i] && fs[i] != Padding(0))
    && (forall i :: 0 < i < |fs| && fs[i].Padding? ==> !fs[i - 1].Padding?)
  }

  lemma {:induction false} CoalesceKeeps(fs: seq<Frame>)
    ensures |Coalesce(fs)| <= |fs|
    ensures Coalesce(fs) == fs <==> Canonical(fs)
  {
    if fs != [] {
      var rest := fs[1..];
      CoalesceKeeps(rest);
      CanonicalSplit(fs);
      hide Canonical, Normal;
      if Coalesce(fs) == fs { assert Coalesce(fs)[1..] == rest; }
    }
  }

  lemma CanonicalSplit(fs: seq<Frame>)
    requires fs != []
    ensures Canonical(fs) <==> && Canonical(fs[1..]) && Normal(fs[0]) == fs[0] && fs[0] != Padding(0)
                               && (|fs| > 1 && fs[1].Padding? ==> !fs[0].Padding?)
  {
    hide Normal;
    var rest := fs[1..];
    if Canonical(fs) {
      assert forall i :: 0 <= i < |rest| ==> rest[i] == fs[i + 1];
    }
    if Canonical(rest) {
      assert forall i :: 0 < i < |fs| ==> fs[i] == rest[i - 1];
    }
  }

  /** Parsing inverts encoding, if and only if the list is in canonical form. */
  lemma RoundTrip(fs: seq<Frame>)
    requires forall i :: 0 <= i < |fs| ==> Encodable(fs[i])
    ensures ParseAll(FramesBytes(fs)) == Some(fs) <==> Canonical(fs)
  {
    hide Encodable, Canonical, ParseAll, FramesBytes, Run;
    ParsesTo(fs);
    CoalesceKeeps(fs);
  }

  /** A parser of the assigned types only. */
  function AssignedBody(ty: nat, buf: seq<Byte>): Option<Parsed<Frame>> { if ty <= 0x1e then ParseBody(ty, buf) else None }

  /**
   Above the assigned types exactly those whose low byte is a STREAM type are accepted, whenever what follows is
   the rest of a STREAM frame, and they are read as that STREAM type.  So the parser differs from one of the
   assigned types if and only if such a type is followed by the rest of a STREAM frame.
   */
  lemma HighTypeBitsIgnored(ty: nat, buf: seq<Byte>)
    ensures IsStreamType(ty) ==> ParseBody(ty, buf) == ParseBody(ty % 256, buf) == ParseStream(buf, ty % 256)
    ensures ty > 0x1e ==> (ParseBody(ty, buf).Some? <==> IsStreamType(ty) && ParseStream(buf, ty % 256).Some?)
    ensures ParseBody(ty, buf) == AssignedBody(ty, buf)
            <==> !(ty > 0x1e && IsStreamType(ty) && ParseStream(buf, ty % 256).Some?)
  {
    hide ParseInts, ParseData, ParseAck, ParseNewCid, ParseStream, ReadBytes;
  }

  /** Type 0x108 followed by a stream id and an empty rest is an empty frame of that stream. */
  lemma UnassignedTypeAccepted(id: Byte)
    requires id < 64
    ensures ParseBody(0x108, [id]) == Some(Parsed(Stream(id, 0, false, false, []), [])) && AssignedBody(0x108, [id]) == None
  {
    HighTypeBitsIgnored(0x108, [id]);
    hide ParseInts, ParseData, ParseAck, ParseNewCid, ReadBytes;
    assert V.Read([id]) == Some(Parsed(id, []));
  }

  // --------------------------------------------------------------------------
  // As the program does it
  // --------------------------------------------------------------------------

  method ParseFrames(payload: seq<Byte>) returns (res: Option<seq<Frame>>)
    ensures res == ParseAll(payload)
  {
    hide ParseFrame;
    var out: seq<Frame>, rest := [], payload;
    Joined([], ParseAll(payload));
    while rest != []
      invariant ParseAll(payload) == Join(out, ParseAll(rest))
      decreases |rest|
    {
      var p := ParseFrame(rest);
      if p.None? { return None; }
      JoinMore(out, p.value.value, ParseAll(p.value.rest));
      out, rest := out + [p.value.value], p.value.rest;
    }
    assert out + [] == out;
    return Some(out);
  }

  function Join(out: seq<Frame>, more: Option<seq<Frame>>): Option<seq<Frame>> {
    match more case None => None case Some(fs) => Some(out + fs)
  }

  lemma Joined(out: seq<Frame>, more: Option<seq<Frame>>)
    ensures out == [] ==> Join(out, more) == more
  {
    if more.Some? { assert [] + more.value == more.value; }
  }

  lemma JoinMore(out: seq<Frame>, f: Frame, more: Option<seq<Frame>>)
    ensures Join(out, Join([f], more)) == Join(out + [f], more)
  {
    if more.Some? { assert out + ([f] + more.value) == (out + [f]) + more.value; }
  }
}
