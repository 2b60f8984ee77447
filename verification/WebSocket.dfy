/**
 The WebSocket frame loop after the handshake (example/http-websocket/src,
 dispatcher_reactor.cpp `WsConnection` and handler.cpp `Frame::serialize`;
 section 5 of RFC 6455): masked frames in, messages and control replies out.
 */
module WebSocket {
  import opened Bytes
  import opened BitStrings
  import opened Segments
  import V = VarInt

  const MAX_PAYLOAD: nat := 16 * 1024 * 1024

  const CONTINUATION: Byte := 0x0
  const TEXT: Byte := 0x1
  const BINARY: Byte := 0x2
  const CLOSE: Byte := 0x8
  const PING: Byte := 0x9
  const PONG: Byte := 0xA

  predicate Known(op: Byte) { op in {CONTINUATION, TEXT, BINARY, CLOSE, PING, PONG} }

  predicate Control(op: Byte) { op in {CLOSE, PING, PONG} }

  // --------------------------------------------------------------------------
  // Masking
  // --------------------------------------------------------------------------

  function XorBits(a: Bits, b: Bits): (r: Bits)
    requires |a| == |b|
    ensures |r| == |a| && forall i :: 0 <= i < |r| ==> r[i] == (a[i] != b[i])
  {
    if a == [] then [] else [a[0] != b[0]] + XorBits(a[1..], b[1..])
  }

  /** Exclusive or, bit by bit. */
  function Xor(a: Byte, b: Byte): Byte {
    var r := XorBits(BitsOf(a, 8), BitsOf(b, 8));
    ValueBound(r);
    assert Pow2(8) == 256;
    Value(r)
  }

  lemma XorTwice(a: Byte, k: Byte)
    ensures Xor(Xor(a, k), k) == a
  {
    var x, y := BitsOf(a, 8), BitsOf(k, 8);
    BitsOfValue(XorBits(x, y));
    assert Pow2(8) == 256;
    ValueOfBits(a, 8);
    assert XorBits(XorBits(x, y), y) == x;
  }

  /** The payload under a four-byte key, used cyclically. */
  function Mask(key: seq<Byte>, payload: seq<Byte>): (r: seq<Byte>)
    requires |key| == 4
    ensures |r| == |payload|
  {
    seq(|payload|, i requires 0 <= i < |payload| => Xor(payload[i], key[i % 4]))
  }

  lemma Unmask(key: seq<Byte>, payload: seq<Byte>)
    requires |key| == 4
    ensures Mask(key, Mask(key, payload)) == payload
  {
    forall i | 0 <= i < |payload| ensures Mask(key, Mask(key, payload))[i] == payload[i] {
      XorTwice(payload[i], key[i % 4]);
    }
  }

  // --------------------------------------------------------------------------
  // Frames on the wire
  // --------------------------------------------------------------------------

  datatype Frame = Frame(fin: bool, opcode: Byte, payload: seq<Byte>)

  /** A frame a conforming client may send. */
  predicate Valid(f: Frame) {
    Known(f.opcode) && |f.payload| <= MAX_PAYLOAD && (Control(f.opcode) ==> f.fin && |f.payload| <= 125)
  }

  /** The mask bit with the shortest form of the length. */
  function LengthBytes(n: nat): seq<Byte>
    requires n <= MAX_PAYLOAD
  {
    if n < 126 then [128 + n]
    else if n < 0x1_0000 then [128 + 126] + V.BigEndian(n, 2)
    else [128 + 127] + V.BigEndian(n, 8)
  }

  function Serialize(f: Frame, key: seq<Byte>): seq<Byte>
    requires Valid(f) && |key| == 4
  {
    [(if f.fin then 128 else 0) + f.opcode] + LengthBytes(|f.payload|) + key + Mask(key, f.payload)
  }

  // --------------------------------------------------------------------------
  // Reading frames
  // --------------------------------------------------------------------------

  datatype Head = Head(fin: bool, opcode: Byte, length: nat, key: seq<Byte>)

  datatype HeaderRead = Wait | Fail(code: nat) | Ready(head: Head, size: nat)

  /** Header size before the key. */
  function BaseSize(second: Byte): nat {
    if second % 128 == 126 then 4 else if second % 128 == 127 then 10 else 2
  }

  function ReadHeader(buf: seq<Byte>): (r: HeaderRead)
    ensures r.Ready? ==> 0 < r.size <= |buf| && |r.head.key| == 4 && r.head.length <= MAX_PAYLOAD
  {
    if |buf| < 2 then Wait
    else
      var base, masked := BaseSize(buf[1]), buf[1] >= 128;
      var size := base + if masked then 4 else 0;
      if |buf| < size then Wait
      else
        var fin, reserved, opcode := buf[0] >= 128, buf[0] / 16 % 8 != 0, buf[0] % 16;
        var length := if base == 2 then buf[1] % 128 else V.Fold(0, buf[2..base]);
        if reserved || !masked || !Known(opcode) then Fail(1002)
        else if base == 4 && length < 126 then Fail(1002)
        else if base == 10 && (length >= 0x8000_0000_0000_0000 || length < 0x1_0000) then Fail(1002)
        else if Control(opcode) && (!fin || length > 125) then Fail(1002)
        else if length > MAX_PAYLOAD then Fail(1009)
        else Ready(Head(fin, opcode, length, buf[base..size]), size)
  }

  // --------------------------------------------------------------------------
  // The connection
  // --------------------------------------------------------------------------

  datatype Event =
    | Message(opcode: Byte, data: seq<Byte>)
    | Pong(data: seq<Byte>)
    | CloseSent(data: seq<Byte>)
    | Closed

  datatype Ws = Ws(
    inPayload: bool,
    head: Head,
    closing: bool,
    sentClose: bool,
    fragmented: bool,
    messageOp: Byte,
    message: seq<Byte>,
    out: seq<Event>)

  function Open(): Ws { Ws(false, Head(false, 0, 0, []), false, false, false, CONTINUATION, [], []) }

  function Emit(w: Ws, e: Event): Ws { w.(out := w.out + [e]) }

  /** A Close frame unless one was sent, then the connection closes once everything is flushed. */
  function SendClose(w: Ws, data: seq<Byte>): Ws {
    var w1 := if w.sentClose then w else Emit(w.(sentClose := true), CloseSent(data));
    Emit(w1.(closing := true), Closed)
  }

  function FailClose(w: Ws, code: nat): Ws { SendClose(w, [code / 256 % 256, code % 256]) }

  function Finish(w: Ws, fin: bool): Ws {
    if fin then Emit(w.(fragmented := false, message := []), Message(w.messageOp, w.message)) else w
  }

  function HandleFrame(w: Ws, f: Frame): Ws {
    if f.opcode == CLOSE then SendClose(w, f.payload)
    else if f.opcode == PING then Emit(w, Pong(f.payload))
    else if f.opcode == PONG then w
    else if f.opcode != CONTINUATION then
      if w.fragmented then FailClose(w, 1002)
      else Finish(w.(messageOp := f.opcode, message := f.payload, fragmented := !f.fin), f.fin)
    else if !w.fragmented then FailClose(w, 1002)
    else if |w.message| + |f.payload| > MAX_PAYLOAD then FailClose(w, 1009)
    else Finish(w.(message := w.message + f.payload), f.fin)
  }

  function Step(w: Ws, buf: seq<Byte>): Option<(Ws, nat)> {
    if w.closing then None
    else if !w.inPayload then
      match ReadHeader(buf)
      case Wait => None
      case Fail(code) => Some((FailClose(w, code), 0))
      case Ready(head, size) => Some((w.(inPayload := true, head := head), size))
    else if |buf| < w.head.length || |w.head.key| != 4 then None
    else
      var payload := Mask(w.head.key, buf[..w.head.length]);
      Some((HandleFrame(w.(inPayload := false), Frame(w.head.fin, w.head.opcode, payload)), w.head.length))
  }

  function Rank(w: Ws): nat { if w.closing then 0 else if w.inPayload then 2 else 1 }

  function Loop(): Machine<Ws> {
    Machine((w: Ws, buf: seq<Byte>) => Step(w, buf), (w: Ws) => Rank(w))
  }

  lemma HeaderSame(buf: seq<Byte>, more: seq<Byte>)
    requires !ReadHeader(buf).Wait?
    ensures ReadHeader(buf + more) == ReadHeader(buf)
  {
    var base := BaseSize(buf[1]);
    var size := base + if buf[1] >= 128 then 4 else 0;
    assert (buf + more)[0] == buf[0] && (buf + more)[1] == buf[1];
    assert (buf + more)[2..base] == buf[2..base] && (buf + more)[base..size] == buf[base..size];
    hide V.Fold;
  }

  lemma HandleRank(w: Ws, f: Frame)
    ensures HandleFrame(w, f).inPayload == w.inPayload
  {
  }

  lemma StepSame(w: Ws, buf: seq<Byte>, more: seq<Byte>)
    requires Step(w, buf).Some?
    ensures Step(w, buf + more) == Step(w, buf)
  {
    hide ReadHeader, HandleFrame, Mask, FailClose;
    if w.inPayload {
      assert (buf + more)[..w.head.length] == buf[..w.head.length];
    } else {
      HeaderSame(buf, more);
    }
  }

  lemma StepDown(w: Ws, buf: seq<Byte>)
    requires Step(w, buf).Some?
    ensures var (w', n) := Step(w, buf).value;
            n <= |buf| && (n > 0 || Rank(w') < Rank(w))
  {
    if w.inPayload {
      hide ReadHeader, Mask;
      HandleRank(w.(inPayload := false), Frame(w.head.fin, w.head.opcode, Mask(w.head.key, buf[..w.head.length])));
    } else {
      hide ReadHeader;
    }
  }

  lemma LoopSteady()
    ensures Steady(Loop())
  {
    var m := Loop();
    forall w: Ws, buf: seq<Byte> ensures StepSteady(m, w, buf) {
      if Step(w, buf).Some? {
        StepDown(w, buf);
        forall more: seq<Byte> ensures m.step(w, buf + more) == m.step(w, buf) {
          StepSame(w, buf, more);
        }
      }
    }
  }

  /** However the peer's bytes are cut into reads, the same messages are delivered and the same frames sent. */
  lemma SegmentationIndependent(w: Ws, buf: seq<Byte>, xs: seq<seq<Byte>>, ys: seq<seq<Byte>>)
    requires xs != [] && ys != [] && Concat(xs) == Concat(ys)
    ensures Steady(Loop()) && FeedAll(Loop(), w, buf, xs) == FeedAll(Loop(), w, buf, ys)
  {
    LoopSteady();
    AnySegmentation(Loop(), w, buf, xs, ys);
  }

  // --------------------------------------------------------------------------
  // A serialized frame is recovered exactly
  // --------------------------------------------------------------------------

  lemma FirstByte(fin: bool, op: Byte)
    requires Known(op)
    ensures var b := (if fin then 128 else 0) + op;
            (b >= 128) == fin && b / 16 % 8 == 0 && b % 16 == op
  {
  }

  /** The length field is read back, in its shortest form. */
  lemma LengthReads(n: nat, first: Byte, rest: seq<Byte>)
    requires n <= MAX_PAYLOAD
    ensures var buf := [first] + LengthBytes(n) + rest;
            var base := 1 + |LengthBytes(n)|;
            && |buf| >= base && buf[1] >= 128 && BaseSize(buf[1]) == base
            && (if base == 2 then buf[1] % 128 else V.Fold(0, buf[2..base])) == n
            && (base == 4 ==> n >= 126) && (base == 10 ==> n >= 0x1_0000)
  {
    var buf, base := [first] + LengthBytes(n) + rest, 1 + |LengthBytes(n)|;
    assert V.Power(2) == 0x1_0000;
    assert V.Power(8) > n by { assert V.Power(3) == 0x100_0000; assert V.Power(8) == 256 * (256 * (256 * (256 * (256 * V.Power(3))))); }
    if 126 <= n < 0x1_0000 {
      V.FoldBigEndian(0, n, 2);
      assert buf[2..base] == V.BigEndian(n, 2);
    } else if n >= 0x1_0000 {
      V.FoldBigEndian(0, n, 8);
      assert buf[2..base] == V.BigEndian(n, 8);
    }
    hide V.BigEndian, V.Fold, V.Power;
  }

  lemma HeaderReads(f: Frame, key: seq<Byte>, rest: seq<Byte>)
    requires Valid(f) && |key| == 4
    ensures var size := 1 + |LengthBytes(|f.payload|)| + 4;
            && ReadHeader(Serialize(f, key) + rest) == Ready(Head(f.fin, f.opcode, |f.payload|, key), size)
            && (Serialize(f, key) + rest)[size..] == Mask(key, f.payload) + rest
  {
    var first: Byte := (if f.fin then 128 else 0) + f.opcode;
    var len, tail := LengthBytes(|f.payload|), Mask(key, f.payload) + rest;
    Layout(first, len, key, Mask(key, f.payload), rest);
    FirstByte(f.fin, f.opcode);
    LengthReads(|f.payload|, first, key + tail);
    hide LengthBytes, Mask, V.Fold;
    Slices([first] + len, key, tail);
  }

  lemma Layout(first: Byte, len: seq<Byte>, key: seq<Byte>, masked: seq<Byte>, rest: seq<Byte>)
    ensures ([first] + len + key + masked) + rest == [first] + len + (key + (masked + rest))
  {
  }

  lemma Slices(a: seq<Byte>, b: seq<Byte>, c: seq<Byte>)
    ensures (a + (b + c))[|a|..|a| + |b|] == b && (a + (b + c))[|a| + |b|..] == c
  {
  }

  /** A frame's bytes take the loop exactly through handling that frame. */
  lemma FrameRuns(w: Ws, f: Frame, key: seq<Byte>, rest: seq<Byte>)
    requires Valid(f) && |key| == 4 && !w.closing && !w.inPayload
    ensures Steady(Loop())
    ensures Run(Loop(), w, Serialize(f, key) + rest)
            == Run(Loop(), HandleFrame(w.(head := Head(f.fin, f.opcode, |f.payload|, key)), f), rest)
  {
    LoopSteady();
    HeaderReads(f, key, rest);
    Unmask(key, f.payload);
    hide ReadHeader, HandleFrame, Serialize, Mask, LengthBytes, Valid;
    var buf, masked := Serialize(f, key) + rest, Mask(key, f.payload);
    var h := Head(f.fin, f.opcode, |f.payload|, key);
    var w1 := w.(inPayload := true, head := h);
    assert Run(Loop(), w, buf) == Run(Loop(), w1, masked + rest);
    assert (masked + rest)[..|f.payload|] == masked && (masked + rest)[|f.payload|..] == rest;
    assert w1.(inPayload := false) == w.(head := h);
  }

  // --------------------------------------------------------------------------
  // Messages
  // --------------------------------------------------------------------------

  /** A message as a client sends it: one or more fragments. */
  datatype Sent = Sent(opcode: Byte, fragments: seq<seq<Byte>>)

  predicate ValidSent(m: Sent) {
    m.opcode in {TEXT, BINARY} && m.fragments != [] && |Concat(m.fragments)| <= MAX_PAYLOAD
  }

  /** The first fragment carries the opcode, the last one FIN. */
  function Fragments(op: Byte, parts: seq<seq<Byte>>): (fs: seq<Frame>)
    requires parts != []
    ensures fs != []
  {
    if |parts| == 1 then [Frame(true, op, parts[0])]
    else [Frame(false, op, parts[0])] + Fragments(CONTINUATION, parts[1..])
  }

  function DataFrames(ms: seq<Sent>): seq<Frame>
    requires forall i :: 0 <= i < |ms| ==> ValidSent(ms[i])
  {
    if ms == [] then []
    else
      assert ValidSent(ms[0]);
      Fragments(ms[0].opcode, ms[0].fragments) + DataFrames(ms[1..])
  }

  function Assembled(ms: seq<Sent>): seq<Event> {
    if ms == [] then [] else [Message(ms[0].opcode, Concat(ms[0].fragments))] + Assembled(ms[1..])
  }

  /** The frames that are not control frames. */
  function Data(fs: seq<Frame>): seq<Frame> {
    if fs == [] then [] else (if Control(fs[0].opcode) then [] else [fs[0]]) + Data(fs[1..])
  }

  function Messages(out: seq<Event>): seq<Event> {
    if out == [] then []
    else Messages(out[..|out| - 1]) + if out[|out| - 1].Message? then [out[|out| - 1]] else []
  }

  lemma MessagesSnoc(out: seq<Event>, e: Event)
    ensures Messages(out + [e]) == Messages(out) + if e.Message? then [e] else []
  {
    assert (out + [e])[..|out|] == out;
  }

  function HandleAll(w: Ws, fs: seq<Frame>): Ws
    decreases |fs|
  {
    if fs == [] then w else HandleAll(HandleFrame(w, fs[0]), fs[1..])
  }

  /** What is still to be delivered: the rest of an open message, then whole ones. */
  function Expected(w: Ws, parts: seq<seq<Byte>>, ms: seq<Sent>): seq<Event> {
    (if w.fragmented then [Message(w.messageOp, w.message + Concat(parts))] else []) + Assembled(ms)
  }

  function Outstanding(w: Ws, parts: seq<seq<Byte>>, ms: seq<Sent>): seq<Frame>
    requires w.fragmented ==> parts != []
    requires forall i :: 0 <= i < |ms| ==> ValidSent(ms[i])
  {
    (if w.fragmented then Fragments(CONTINUATION, parts) else []) + DataFrames(ms)
  }

  lemma ControlStep(w: Ws, f: Frame)
    requires Control(f.opcode) && f.opcode != CLOSE
    ensures var w' := HandleFrame(w, f);
            && w' == w.(out := w'.out) && Messages(w'.out) == Messages(w.out)
  {
    MessagesSnoc(w.out, Pong(f.payload));
    hide Messages;
  }

  /** A first fragment on an idle connection. */
  lemma StartStep(w: Ws, op: Byte, fin: bool, part: seq<Byte>)
    requires !w.fragmented && op in {TEXT, BINARY}
    ensures var w' := HandleFrame(w, Frame(fin, op, part));
            && w'.closing == w.closing && w'.fragmented == !fin
            && (!fin ==> w'.messageOp == op && w'.message == part && w'.out == w.out)
            && (fin ==> w'.out == w.out + [Message(op, part)] && Messages(w'.out) == Messages(w.out) + [Message(op, part)])
  {
    MessagesSnoc(w.out, Message(op, part));
    hide Messages;
  }

  /** A further fragment of an open message. */
  lemma MoreStep(w: Ws, fin: bool, part: seq<Byte>)
    requires w.fragmented && |w.message| + |part| <= MAX_PAYLOAD
    ensures var w' := HandleFrame(w, Frame(fin, CONTINUATION, part));
            var whole := w.message + part;
            && w'.closing == w.closing && w'.fragmented == !fin
            && (!fin ==> w'.messageOp == w.messageOp && w'.message == whole && w'.out == w.out)
            && (fin ==> Messages(w'.out) == Messages(w.out) + [Message(w.messageOp, whole)])
  {
    MessagesSnoc(w.out, Message(w.messageOp, w.message + part));
    hide Messages;
  }

  lemma ConcatStep(parts: seq<seq<Byte>>, before: seq<Byte>)
    requires parts != []
    ensures |Concat(parts)| == |parts[0]| + |Concat(parts[1..])|
    ensures before + Concat(parts) == (before + parts[0]) + Concat(parts[1..])
    ensures |parts| == 1 ==> before + Concat(parts) == before + parts[0]
  {
    Rejoin(before, parts[0], Concat(parts[1..]));
    if |parts| == 1 { assert parts[1..] == []; }
  }

  lemma Rejoin(a: seq<Byte>, b: seq<Byte>, c: seq<Byte>)
    ensures a + (b + c) == (a + b) + c && b + [] == b
  {
  }

  lemma FragmentsHead(op: Byte, parts: seq<seq<Byte>>)
    requires parts != []
    ensures Fragments(op, parts)[0] == Frame(|parts| == 1, op, parts[0])
    ensures Fragments(op, parts)[1..] == if |parts| == 1 then [] else Fragments(CONTINUATION, parts[1..])
  {
  }

  lemma Uncons(f: Frame, rest: seq<Frame>, a: seq<Frame>, b: seq<Frame>)
    requires [f] + rest == a + b && a != []
    ensures f == a[0] && rest == a[1..] + b
  {
    assert f == ([f] + rest)[0] && rest == ([f] + rest)[1..];
    assert (a + b)[1..] == a[1..] + b;
  }

  /** The first data frame, and the state it leaves behind, match what is outstanding. */
  lemma DataStep(w: Ws, f: Frame, parts: seq<seq<Byte>>, ms: seq<Sent>, rest: seq<Frame>)
    returns (parts': seq<seq<Byte>>, ms': seq<Sent>)
    requires !w.closing && (w.fragmented ==> parts != [] && |w.message| + |Concat(parts)| <= MAX_PAYLOAD)
    requires forall i :: 0 <= i < |ms| ==> ValidSent(ms[i])
    requires [f] + rest == Outstanding(w, parts, ms)
    ensures var w' := HandleFrame(w, f);
            && !w'.closing && (w'.fragmented ==> parts' != [] && |w'.message| + |Concat(parts')| <= MAX_PAYLOAD)
            && (forall i :: 0 <= i < |ms'| ==> ValidSent(ms'[i]))
            && rest == Outstanding(w', parts', ms')
            && Messages(w'.out) + Expected(w', parts', ms') == Messages(w.out) + Expected(w, parts, ms)
  {
    if w.fragmented {
      parts', ms' := parts[1..], ms;
      MoreData(w, f, parts, ms, rest);
    } else {
      assert |[f] + rest| > 0;
      parts', ms' := ms[0].fragments[1..], ms[1..];
      StartData(w, f, parts, ms, rest);
    }
  }

  lemma MoreData(w: Ws, f: Frame, parts: seq<seq<Byte>>, ms: seq<Sent>, rest: seq<Frame>)
    requires !w.closing && w.fragmented && parts != [] && |w.message| + |Concat(parts)| <= MAX_PAYLOAD
    requires forall i :: 0 <= i < |ms| ==> ValidSent(ms[i])
    requires [f] + rest == Outstanding(w, parts, ms)
    ensures var w' := HandleFrame(w, f);
            && !w'.closing && (w'.fragmented ==> parts[1..] != [] && |w'.message| + |Concat(parts[1..])| <= MAX_PAYLOAD)
            && rest == Outstanding(w', parts[1..], ms)
            && Messages(w'.out) + Expected(w', parts[1..], ms) == Messages(w.out) + Expected(w, parts, ms)
  {
    hide Messages, HandleFrame, Concat, Fragments, DataFrames, Assembled, ValidSent;
    Uncons(f, rest, Fragments(CONTINUATION, parts), DataFrames(ms));
    FragmentsHead(CONTINUATION, parts);
    ConcatStep(parts, w.message);
    MoreStep(w, |parts| == 1, parts[0]);
    Shift(Messages(w.out), Message(w.messageOp, w.message + Concat(parts)), Assembled(ms));
    NoFrames(DataFrames(ms));
  }

  lemma NoFrames(fs: seq<Frame>)
    ensures [] + fs == fs
  {
  }

  lemma Shift(a: seq<Event>, e: Event, b: seq<Event>)
    ensures a + ([e] + b) == (a + [e]) + b && [] + b == b
  {
  }

  lemma StartData(w: Ws, f: Frame, parts: seq<seq<Byte>>, ms: seq<Sent>, rest: seq<Frame>)
    requires !w.closing && !w.fragmented && ms != []
    requires forall i :: 0 <= i < |ms| ==> ValidSent(ms[i])
    requires [f] + rest == Outstanding(w, parts, ms)
    ensures var w' := HandleFrame(w, f);
            var parts', ms' := ms[0].fragments[1..], ms[1..];
            && ms[0].fragments != [] && !w'.closing
            && (w'.fragmented ==> parts' != [] && |w'.message| + |Concat(parts')| <= MAX_PAYLOAD)
            && rest == Outstanding(w', parts', ms')
            && Messages(w'.out) + Expected(w', parts', ms') == Messages(w.out) + Expected(w, parts, ms)
  {
    var m := ms[0];
    assert ValidSent(m);
    FirstMessage(ms);
    hide Messages, HandleFrame, Concat, Fragments, DataFrames, Assembled;
    NoFrames(DataFrames(ms));
    Uncons(f, rest, Fragments(m.opcode, m.fragments), DataFrames(ms[1..]));
    FragmentsHead(m.opcode, m.fragments);
    WholeOrFirst(m.fragments);
    StartStep(w, m.opcode, |m.fragments| == 1, m.fragments[0]);
    Shift(Messages(w.out), Message(m.opcode, Concat(m.fragments)), Assembled(ms[1..]));
    NoFrames(DataFrames(ms[1..]));
  }

  lemma FirstMessage(ms: seq<Sent>)
    requires ms != [] && forall i :: 0 <= i < |ms| ==> ValidSent(ms[i])
    ensures ms[0].fragments != [] && DataFrames(ms) == Fragments(ms[0].opcode, ms[0].fragments) + DataFrames(ms[1..])
    ensures Assembled(ms) == [Message(ms[0].opcode, Concat(ms[0].fragments))] + Assembled(ms[1..])
    ensures [] + Assembled(ms) == Assembled(ms)
  {
    assert ValidSent(ms[0]);
  }

  lemma WholeOrFirst(parts: seq<seq<Byte>>)
    requires parts != []
    ensures |parts| == 1 ==> Concat(parts) == parts[0]
    ensures Concat(parts) == parts[0] + Concat(parts[1..])
  {
    if |parts| == 1 { assert parts[1..] == [] && parts[0] + [] == parts[0]; }
  }

  /** Frames as a conforming client sends them: valid, not closing, data frames in message order. */
  ghost predicate Carries(fs: seq<Frame>, data: seq<Frame>) {
    (forall i :: 0 <= i < |fs| ==> Valid(fs[i]) && fs[i].opcode != CLOSE) && Data(fs) == data
  }

  lemma CarriesSplit(fs: seq<Frame>, data: seq<Frame>)
    requires Carries(fs, data) && fs != []
    ensures Control(fs[0].opcode) ==> Carries(fs[1..], data)
    ensures !Control(fs[0].opcode) ==> data != [] && fs[0] == data[0] && Carries(fs[1..], data[1..])
  {
    hide Valid, Control;
    assert Data(fs) == (if Control(fs[0].opcode) then [] else [fs[0]]) + Data(fs[1..]);
  }

  /** Control frames may come between any two fragments; exactly the messages sent are delivered, in order. */
  lemma {:induction false} DeliversFrom(w: Ws, fs: seq<Frame>, parts: seq<seq<Byte>>, ms: seq<Sent>)
    requires !w.closing && (w.fragmented ==> parts != [] && |w.message| + |Concat(parts)| <= MAX_PAYLOAD)
    requires forall i :: 0 <= i < |ms| ==> ValidSent(ms[i])
    requires Carries(fs, Outstanding(w, parts, ms))
    ensures var w' := HandleAll(w, fs);
            !w'.closing && !w'.fragmented && Messages(w'.out) == Messages(w.out) + Expected(w, parts, ms)
    decreases |fs|
  {
    if fs == [] {
      Nothing(w, parts, ms);
    } else {
      var f, rest, data := fs[0], fs[1..], Outstanding(w, parts, ms);
      CarriesSplit(fs, data);
      assert f.opcode != CLOSE;
      hide Carries, HandleFrame, Messages, Concat, ValidSent, Fragments, DataFrames, Assembled, Control;
      if Control(f.opcode) {
        ControlStep(w, f);
        DeliversFrom(HandleFrame(w, f), rest, parts, ms);
      } else {
        assert [f] + data[1..] == data;
        var parts', ms' := DataStep(w, f, parts, ms, data[1..]);
        DeliversFrom(HandleFrame(w, f), rest, parts', ms');
      }
    }
  }

  /** Nothing is outstanding only when no message is open and none is left. */
  lemma Nothing(w: Ws, parts: seq<seq<Byte>>, ms: seq<Sent>)
    requires w.fragmented ==> parts != []
    requires (forall i :: 0 <= i < |ms| ==> ValidSent(ms[i])) && Carries([], Outstanding(w, parts, ms))
    ensures !w.fragmented && Expected(w, parts, ms) == []
  {
    SomethingLeft(w, parts, ms);
  }

  lemma SomethingLeft(w: Ws, parts: seq<seq<Byte>>, ms: seq<Sent>)
    requires (w.fragmented ==> parts != []) && forall i :: 0 <= i < |ms| ==> ValidSent(ms[i])
    ensures w.fragmented || ms != [] ==> Outstanding(w, parts, ms) != []
  {
    if ms != [] { assert ValidSent(ms[0]); }
  }

  function SerializeAll(fs: seq<Frame>, keys: seq<seq<Byte>>): seq<Byte>
    requires |fs| == |keys| && forall i :: 0 <= i < |fs| ==> Valid(fs[i]) && |keys[i]| == 4
  {
    if fs == [] then [] else Serialize(fs[0], keys[0]) + SerializeAll(fs[1..], keys[1..])
  }

  /** The last header read does not influence what is handled. */
  lemma HeadIrrelevant(w: Ws, h: Head, f: Frame)
    ensures HandleFrame(w.(head := h), f) == HandleFrame(w, f).(head := h)
  {
    CloseIrrelevant(w, h, f.payload);
    CloseIrrelevant(w, h, [1002 / 256 % 256, 1002 % 256]);
    CloseIrrelevant(w, h, [1009 / 256 % 256, 1009 % 256]);
    hide SendClose;
  }

  lemma CloseIrrelevant(w: Ws, h: Head, data: seq<Byte>)
    ensures SendClose(w.(head := h), data) == SendClose(w, data).(head := h)
  {
  }

  lemma {:induction false} HeadNever(w: Ws, h: Head, fs: seq<Frame>)
    ensures HandleAll(w.(head := h), fs) == HandleAll(w, fs).(head := h)
    decreases |fs|
  {
    hide HandleFrame;
    if fs != [] {
      HeadIrrelevant(w, h, fs[0]);
      HeadNever(HandleFrame(w, fs[0]), h, fs[1..]);
    }
  }

  lemma {:induction false} StaysOpen(w: Ws, fs: seq<Frame>)
    requires !HandleAll(w, fs).closing
    ensures !w.closing
    decreases |fs|
  {
    if fs != [] {
      StaysOpen(HandleFrame(w, fs[0]), fs[1..]);
      ClosingStays(w, fs[0]);
    }
  }

  lemma ClosingStays(w: Ws, f: Frame)
    ensures w.closing ==> HandleFrame(w, f).closing
    ensures HandleFrame(w, f).inPayload == w.inPayload
  {
  }

  /** Reading the bytes of any frames that do not close the connection handles exactly those frames. */
  lemma {:induction false} BytesRun(w: Ws, fs: seq<Frame>, keys: seq<seq<Byte>>)
    requires |fs| == |keys| && forall i :: 0 <= i < |fs| ==> Valid(fs[i]) && |keys[i]| == 4
    requires !w.inPayload && !HandleAll(w, fs).closing
    ensures Steady(Loop())
    ensures var (w', rest) := Run(Loop(), w, SerializeAll(fs, keys));
            rest == [] && !w'.inPayload && w' == HandleAll(w, fs).(head := w'.head)
    decreases |fs|
  {
    LoopSteady();
    StaysOpen(w, fs);
    if fs == [] {
      hide ReadHeader;
    } else {
      var f, key := fs[0], keys[0];
      FrameRuns(w, f, key, SerializeAll(fs[1..], keys[1..]));
      var h := Head(f.fin, f.opcode, |f.payload|, key);
      HeadIrrelevant(w, h, f);
      ClosingStays(w, f);
      HeadNever(HandleFrame(w, f), h, fs[1..]);
      hide HandleFrame, Serialize, Valid, Run, Steady;
      BytesRun(HandleFrame(w, f).(head := h), fs[1..], keys[1..]);
    }
  }

  function Pongs(out: seq<Event>): seq<seq<Byte>> {
    if out == [] then []
    else
      var e := out[|out| - 1];
      Pongs(out[..|out| - 1]) + if e.Pong? then [e.data] else []
  }

  function Pings(fs: seq<Frame>): seq<seq<Byte>> {
    if fs == [] then [] else (if fs[0].opcode == PING then [fs[0].payload] else []) + Pings(fs[1..])
  }

  lemma PongsSnoc(out: seq<Event>, e: Event)
    ensures Pongs(out + [e]) == Pongs(out) + if e.Pong? then [e.data] else []
  {
    assert (out + [e])[..|out|] == out;
  }

  lemma PongStep(w: Ws, f: Frame)
    requires !HandleFrame(w, f).closing
    ensures Pongs(HandleFrame(w, f).out) == Pongs(w.out) + if f.opcode == PING then [f.payload] else []
  {
    hide Pongs;
    PongsSnoc(w.out, Pong(f.payload));
    PongsSnoc(w.out, Message(f.opcode, f.payload));
    PongsSnoc(w.out, Message(w.messageOp, w.message + f.payload));
  }

  /** Every ping is answered with its own payload, in order, and nothing else is. */
  lemma {:induction false} PingsAnswered(w: Ws, fs: seq<Frame>)
    requires !HandleAll(w, fs).closing
    ensures Pongs(HandleAll(w, fs).out) == Pongs(w.out) + Pings(fs)
    decreases |fs|
  {
    hide Pongs, HandleFrame;
    if fs != [] {
      StaysOpen(HandleFrame(w, fs[0]), fs[1..]);
      PongStep(w, fs[0]);
      PingsAnswered(HandleFrame(w, fs[0]), fs[1..]);
    }
  }

  /**
   From the open connection: whatever messages a client sends, however they are fragmented, masked and
   interleaved with pings and pongs, exactly those messages are delivered, in order,
   and the pings answered, in order.
   */
  lemma Delivers(ms: seq<Sent>, fs: seq<Frame>, keys: seq<seq<Byte>>)
    requires forall i :: 0 <= i < |ms| ==> ValidSent(ms[i])
    requires Carries(fs, DataFrames(ms)) && |keys| == |fs| && forall i :: 0 <= i < |keys| ==> |keys[i]| == 4
    ensures Steady(Loop())
    ensures var (w, rest) := Run(Loop(), Open(), SerializeAll(fs, keys));
            && rest == [] && !w.closing && !w.inPayload
            && Messages(w.out) == Assembled(ms) && Pongs(w.out) == Pings(fs)
  {
    NoFrames(DataFrames(ms));
    DeliversFrom(Open(), fs, [], ms);
    BytesRun(Open(), fs, keys);
    PingsAnswered(Open(), fs);
    assert Messages([]) == [] && Pongs([]) == [] && [] + Pings(fs) == Pings(fs);
    Shift([], Pong([]), Assembled(ms));
    hide HandleAll, Run, Steady, SerializeAll, Messages, DataFrames, Assembled, Pongs, Pings;
  }

  /** A Close frame is echoed, and the bytes after it are never read. */
  lemma CloseEnds(w: Ws, reason: seq<Byte>, key: seq<Byte>, rest: seq<Byte>)
    requires !w.closing && !w.inPayload && !w.sentClose && |reason| <= 125 && |key| == 4
    ensures Steady(Loop())
    ensures var (w', left) := Run(Loop(), w, Serialize(Frame(true, CLOSE, reason), key) + rest);
            left == rest && w'.closing && w'.out == w.out + [CloseSent(reason), Closed]
  {
    var f := Frame(true, CLOSE, reason);
    FrameRuns(w, f, key, rest);
    hide Serialize, Mask;
    var w' := SendClose(w.(head := Head(true, CLOSE, |reason|, key)), reason);
    assert Step(w', rest).None?;
  }

  /**
   A whole conversation from the open connection: the messages in order, the pings answered in order, and
   then the client's Close echoed once, after which not a byte more is read.
   */
  lemma Converses(ms: seq<Sent>, fs: seq<Frame>, keys: seq<seq<Byte>>, reason: seq<Byte>, key: seq<Byte>, rest: seq<Byte>)
    requires forall i :: 0 <= i < |ms| ==> ValidSent(ms[i])
    requires Carries(fs, DataFrames(ms)) && |keys| == |fs| && forall i :: 0 <= i < |keys| ==> |keys[i]| == 4
    requires |reason| <= 125 && |key| == 4
    ensures Steady(Loop())
    ensures var input := SerializeAll(fs, keys) + (Serialize(Frame(true, CLOSE, reason), key) + rest);
            var (w, left) := Run(Loop(), Open(), input);
            && left == rest && w.closing && |w.out| >= 2 && w.out[|w.out| - 2..] == [CloseSent(reason), Closed]
            && Messages(w.out) == Assembled(ms) && Pongs(w.out) == Pings(fs)
  {
    Delivers(ms, fs, keys);
    hide Run, Serialize, SerializeAll, Steady, Messages, Pongs, DataFrames, Carries, Assembled, Pings, Good, Loop, ValidSent;
    var bytes, tail := SerializeAll(fs, keys), Serialize(Frame(true, CLOSE, reason), key) + rest;
    var w := Run(Loop(), Open(), bytes).0;
    AlwaysGood(bytes);
    OpenUnsent(w);
    CloseEnds(w, reason, key, rest);
    Resume(Loop(), Open(), bytes, tail);
    assert [] + tail == tail;
    MessagesSnoc(w.out, CloseSent(reason));
    MessagesSnoc(w.out + [CloseSent(reason)], Closed);
    PongsSnoc(w.out, CloseSent(reason));
    PongsSnoc(w.out + [CloseSent(reason)], Closed);
    assert w.out + [CloseSent(reason), Closed] == w.out + [CloseSent(reason)] + [Closed];
  }

  lemma OpenUnsent(w: Ws)
    requires Good(w) && !w.closing
    ensures !w.sentClose
  {
  }

  // --------------------------------------------------------------------------
  // Bounds that every input keeps
  // --------------------------------------------------------------------------

  function Closes(out: seq<Event>): nat {
    if out == [] then 0 else Closes(out[..|out| - 1]) + if out[|out| - 1].CloseSent? then 1 else 0
  }

  lemma ClosesSnoc(out: seq<Event>, e: Event)
    ensures Closes(out + [e]) == Closes(out) + if e.CloseSent? then 1 else 0
  {
    assert (out + [e])[..|out|] == out;
  }

  /** No message comes after a Close frame. */
  ghost predicate Quiet(out: seq<Event>) {
    forall i, j :: 0 <= i < j < |out| && out[i].CloseSent? ==> !out[j].Message?
  }

  /** Bounded reassembly, at most one Close, and a stopped loop once it was sent. */
  ghost predicate Good(w: Ws) {
    && |w.message| <= MAX_PAYLOAD
    && Closes(w.out) == (if w.sentClose then 1 else 0)
    && (w.sentClose ==> w.closing)
    && (forall i :: 0 <= i < |w.out| && w.out[i].CloseSent? ==> w.sentClose)
    && Quiet(w.out)
    && (w.inPayload ==> |w.head.key| == 4 && w.head.length <= MAX_PAYLOAD)
  }

  lemma EmitGood(w: Ws, e: Event)
    requires Good(w) && !e.CloseSent? && (e.Message? ==> !w.closing)
    ensures Good(Emit(w, e))
  {
    ClosesSnoc(w.out, e);
    hide Closes;
  }

  lemma SendCloseGood(w: Ws, data: seq<Byte>)
    requires Good(w)
    ensures Good(SendClose(w, data))
  {
    hide Closes;
    var w1 := if w.sentClose then w else Emit(w.(sentClose := true), CloseSent(data));
    ClosesSnoc(w.out, CloseSent(data));
    ClosesSnoc(w1.out, Closed);
  }

  lemma FinishGood(w: Ws, fin: bool)
    requires Good(w) && !w.closing
    ensures Good(Finish(w, fin))
  {
    if fin { EmitGood(w.(fragmented := false, message := []), Message(w.messageOp, w.message)); }
  }

  lemma HandleGood(w: Ws, f: Frame)
    requires Good(w) && !w.closing && |f.payload| <= MAX_PAYLOAD
    ensures Good(HandleFrame(w, f))
  {
    SendCloseGood(w, f.payload);
    SendCloseGood(w, [1002 / 256 % 256, 1002 % 256]);
    SendCloseGood(w, [1009 / 256 % 256, 1009 % 256]);
    EmitGood(w, Pong(f.payload));
    FinishGood(w.(messageOp := f.opcode, message := f.payload, fragmented := !f.fin), f.fin);
    if |w.message| + |f.payload| <= MAX_PAYLOAD { FinishGood(w.(message := w.message + f.payload), f.fin); }
    hide SendClose, Finish, Emit, Closes, Quiet;
  }

  lemma StepGood(w: Ws, buf: seq<Byte>)
    requires Good(w) && Step(w, buf).Some?
    ensures Good(Step(w, buf).value.0)
  {
    hide HandleFrame, Closes, Quiet, SendClose, Mask;
    if w.inPayload {
      var payload := Mask(w.head.key, buf[..w.head.length]);
      HandleGood(w.(inPayload := false), Frame(w.head.fin, w.head.opcode, payload));
    } else {
      var r := ReadHeader(buf);
      if r.Fail? { SendCloseGood(w, [r.code / 256 % 256, r.code % 256]); }
      hide ReadHeader;
    }
  }

  /** Whatever bytes arrive, every bound holds when the loop waits again. */
  lemma {:induction false} RunGood(w: Ws, buf: seq<Byte>)
    requires Good(w)
    ensures Steady(Loop()) && Good(Run(Loop(), w, buf).0)
    decreases |buf|, Rank(w)
  {
    LoopSteady();
    assert StepSteady(Loop(), w, buf);
    hide Good, Step;
    if Step(w, buf).Some? {
      StepGood(w, buf);
      var (w', n) := Step(w, buf).value;
      RunGood(w', buf[n..]);
    }
  }

  lemma AlwaysGood(input: seq<Byte>)
    ensures Good(Open()) && Steady(Loop()) && Good(Run(Loop(), Open(), input).0)
  {
    RunGood(Open(), input);
  }

  // --------------------------------------------------------------------------
  // As the program does it
  // --------------------------------------------------------------------------

  class WsConnection {
    var buffer: seq<Byte>
    var ws: Ws

    constructor ()
      ensures buffer == [] && ws == Open() && Good(ws)
    {
      buffer, ws := [], Open();
    }

    /** One read: the loop runs on what was left and what came. */
    method OnData(data: seq<Byte>)
      requires Good(ws)
      modifies this
      ensures Good(ws) && Steady(Loop())
      ensures (ws, buffer) == Run(Loop(), old(ws), old(buffer) + data)
    {
      hide Good, Step;
      buffer := buffer + data;
      Turn(ws, buffer);
      if ws.closing {
        Stopped(ws, buffer);
        return;
      }
      Process();
    }

    method Process()
      requires Good(ws)
      modifies this
      ensures Good(ws) && Steady(Loop())
      ensures (ws, buffer) == Run(Loop(), old(ws), old(buffer))
    {
      hide Good, Step;
      LoopSteady();
      while !ws.closing
        invariant Good(ws)
        invariant Run(Loop(), ws, buffer) == Run(Loop(), old(ws), old(buffer))
        decreases |buffer|, Rank(ws)
      {
        Turn(ws, buffer);
        ghost var before, step := buffer, Step(ws, buffer);
        var progressed;
        if ws.inPayload { progressed := TryReadPayload(); } else { progressed := TryReadHeader(); }
        if !progressed {
          Stopped(ws, buffer);
          return;
        }
        assert step.Some? && ws == step.value.0 && |buffer| == |before| - step.value.1;
      }
      Stopped(ws, buffer);
    }

    /** Takes a header off the buffer, if a whole one is there. */
    method TryReadHeader() returns (progressed: bool)
      requires !ws.closing && !ws.inPayload
      modifies this
      ensures old(Step(ws, buffer)).None? ==> !progressed && ws == old(ws) && buffer == old(buffer)
      ensures old(Step(ws, buffer)).Some? ==>
                var (w', n) := old(Step(ws, buffer)).value;
                n <= |old(buffer)| && ws == w' && buffer == old(buffer)[n..] && progressed == !ws.closing
    {
      hide FailClose;
      var r := ReadHeader(buffer);
      hide ReadHeader;
      if r.Wait? { return false; }
      if r.Fail? {
        FailCloses(ws, r.code);
        ws := FailClose(ws, r.code);
        return false;
      }
      ws := ws.(inPayload := true, head := r.head);
      buffer := buffer[r.size..];
      return true;
    }

    /** Takes a payload off the buffer, unmasks it in a loop and handles the frame. */
    method TryReadPayload() returns (progressed: bool)
      requires !ws.closing && ws.inPayload && |ws.head.key| == 4
      modifies this
      ensures old(Step(ws, buffer)).None? ==> !progressed && ws == old(ws) && buffer == old(buffer)
      ensures old(Step(ws, buffer)).Some? ==>
                var (w', n) := old(Step(ws, buffer)).value;
                n <= |old(buffer)| && ws == w' && buffer == old(buffer)[n..] && progressed == !ws.closing
    {
      hide HandleFrame, ReadHeader;
      var n := ws.head.length;
      if |buffer| < n { return false; }
      var raw := buffer[..n];
      buffer := buffer[n..];
      var payload: seq<Byte> := [];
      for i := 0 to n
        invariant payload == Mask(ws.head.key, raw)[..i]
      {
        payload := payload + [Xor(raw[i], ws.head.key[i % 4])];
      }
      assert payload == Mask(ws.head.key, raw);
      ws := HandleFrame(ws.(inPayload := false), Frame(ws.head.fin, ws.head.opcode, payload));
      return !ws.closing;
    }
  }

  lemma FailCloses(w: Ws, code: nat)
    ensures FailClose(w, code).closing
  {
  }

  lemma Stopped(w: Ws, buf: seq<Byte>)
    requires w.closing || Step(w, buf).None?
    ensures Steady(Loop()) && Run(Loop(), w, buf) == (w, buf)
  {
    LoopSteady();
  }

  lemma Turn(w: Ws, buf: seq<Byte>)
    requires Good(w)
    ensures Steady(Loop()) && (w.inPayload ==> |w.head.key| == 4)
    ensures Step(w, buf).Some? ==>
              var (w', n) := Step(w, buf).value;
              && n <= |buf| && Good(w') && (n > 0 || Rank(w') < Rank(w))
              && Run(Loop(), w, buf) == Run(Loop(), w', buf[n..])
  {
    LoopSteady();
    assert StepSteady(Loop(), w, buf);
    if Step(w, buf).Some? { StepGood(w, buf); }
    hide Step, Closes, Quiet;
  }
}
