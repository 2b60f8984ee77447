/**
 The HTTP/2 frame machine (example/http2/src/dispatcher_reactor.cpp,
 `Http2Connection`; RFC 9113): bytes accumulate in a buffer and are taken off it
 as the preface, frame headers and payloads.

 `admitted` only records history: the id of every stream opened.  The header
 decompressor is a parameter.
 */
module Http2 {
  import opened Bytes
  import opened Segments

  type Headers = map<seq<Byte>, seq<Byte>>

  type Decoder = seq<Byte> -> Headers

  const INITIAL_WINDOW: int := 65535
  const MAX_FRAME_SIZE: nat := 16384
  const MAX_HEADER_BYTES: nat := 64 * 1024
  const MAX_BODY_BYTES: nat := 64 * 1024 * 1024
  const MAX_STREAMS: nat := 100
  const MAX_WINDOW: int := 0x7FFF_FFFF

  const PREFACE: seq<Byte> :=
    [0x50, 0x52, 0x49, 0x20, 0x2a, 0x20, 0x48, 0x54, 0x54, 0x50, 0x2f, 0x32,
     0x2e, 0x30, 0x0d, 0x0a, 0x0d, 0x0a, 0x53, 0x4d, 0x0d, 0x0a, 0x0d, 0x0a]

  const PROTOCOL_ERROR: nat := 0x1
  const FLOW_CONTROL_ERROR: nat := 0x3
  const FRAME_SIZE_ERROR: nat := 0x6
  const REFUSED_STREAM: nat := 0x7
  const ENHANCE_YOUR_CALM: nat := 0xb

  datatype Stream = Stream(
    headersReceived: bool,
    endStream: bool,
    recvWindow: int,
    sendWindow: int,
    headers: Headers,
    body: seq<Byte>,
    pending: seq<Byte>)

  /** What the connection puts on the wire or hands to the application. */
  datatype Event =
    | SettingsSent
    | SettingsAcked
    | Pong(data: seq<Byte>)
    | Credit(id: nat, increment: nat)
    | Reset(id: nat, code: nat)
    | Goaway(last: nat, code: nat)
    | Dispatch(id: nat, headers: Headers, body: seq<Byte>)
    | Closed(flushed: bool)

  datatype Phase = Preface | FrameHeader | FramePayload

  datatype FrameHead = FrameHead(length: nat, kind: Byte, flags: Byte, id: nat)

  datatype Conn = Conn(
    phase: Phase,
    closing: bool,
    head: FrameHead,
    settings: seq<seq<Byte>>,
    sendWindow: int,
    recvWindow: int,
    lastHandled: nat,
    goawaySent: bool,
    streams: map<nat, Stream>,
    admitted: multiset<nat>,
    out: seq<Event>)

  function Fresh(): Conn {
    Conn(Preface, false, FrameHead(0, 0, 0, 0), [], INITIAL_WINDOW, INITIAL_WINDOW, 0, false, map[], multiset{}, [])
  }

  function NewStream(): Stream { Stream(false, false, INITIAL_WINDOW, INITIAL_WINDOW, map[], [], []) }

  // --------------------------------------------------------------------------
  // Errors
  // --------------------------------------------------------------------------

  function Emit(c: Conn, e: Event): Conn { c.(out := c.out + [e]) }

  function SendGoaway(c: Conn, code: nat): Conn {
    if c.goawaySent then c else Emit(c.(goawaySent := true), Goaway(c.lastHandled, code))
  }

  function CloseAfterFlush(c: Conn): Conn { Emit(c.(closing := true), Closed(true)) }

  function Fatal(c: Conn, code: nat): Conn { CloseAfterFlush(SendGoaway(c, code)) }

  function ResetStream(c: Conn, id: nat, code: nat): Conn {
    Emit(c, Reset(id, code)).(streams := c.streams - {id})
  }

  // --------------------------------------------------------------------------
  // Frames
  // --------------------------------------------------------------------------

  /** Whether the flag with the given value is set. */
  predicate Flag(flags: Byte, bit: nat)
    requires bit > 0
  {
    flags / bit % 2 == 1
  }

  function Be32(p: seq<Byte>): nat
    requires |p| >= 4
  {
    var a: int, b: int, c: int := p[0], p[1], p[2];
    a * 0x100_0000 + b * 0x1_0000 + c * 0x100 + p[3]
  }

  function OnSettings(c: Conn, flags: Byte, id: nat, payload: seq<Byte>): Conn {
    if id != 0 then Fatal(c, PROTOCOL_ERROR)
    else if Flag(flags, 0x1) then (if payload != [] then Fatal(c, FRAME_SIZE_ERROR) else c)
    else if |payload| % 6 != 0 then Fatal(c, FRAME_SIZE_ERROR)
    else Emit(c.(settings := c.settings + [payload]), SettingsAcked)
  }

  function OnPing(c: Conn, flags: Byte, id: nat, payload: seq<Byte>): Conn {
    if id != 0 then Fatal(c, PROTOCOL_ERROR)
    else if |payload| != 8 then Fatal(c, FRAME_SIZE_ERROR)
    else if Flag(flags, 0x1) then c
    else Emit(c, Pong(payload))
  }

  function OnWindowUpdate(c: Conn, id: nat, payload: seq<Byte>): Conn {
    if |payload| != 4 then Fatal(c, FRAME_SIZE_ERROR)
    else
      var inc := Be32(payload) % 0x8000_0000;
      if inc == 0 then (if id == 0 then Fatal(c, PROTOCOL_ERROR) else ResetStream(c, id, PROTOCOL_ERROR))
      else if id == 0 then
        if c.sendWindow + inc > MAX_WINDOW then Fatal(c, FLOW_CONTROL_ERROR) else c.(sendWindow := c.sendWindow + inc)
      else if id !in c.streams then c
      else if c.streams[id].sendWindow + inc > MAX_WINDOW then ResetStream(c, id, FLOW_CONTROL_ERROR)
      else c.(streams := c.streams[id := c.streams[id].(sendWindow := c.streams[id].sendWindow + inc)])
  }

  function OnRst(c: Conn, id: nat, payload: seq<Byte>): Conn {
    if id == 0 then Fatal(c, PROTOCOL_ERROR)
    else if |payload| != 4 then Fatal(c, FRAME_SIZE_ERROR)
    else c.(streams := c.streams - {id})
  }

  function OnGoaway(c: Conn): Conn { CloseAfterFlush(SendGoaway(c, 0)) }

  /** Where the unpadded part of the payload begins and ends; none if the padding does not fit. */
  function Unpadded(flags: Byte, payload: seq<Byte>): (r: Option<(nat, nat)>)
    ensures r.Some? ==> r.value.0 <= r.value.1 <= |payload|
  {
    if Flag(flags, 0x8) && payload != [] then
      if payload[0] >= |payload| - 1 then None else Some((1, |payload| - payload[0]))
    else Some((0, |payload|))
  }

  /** The request is handed to the application and its stream forgotten. */
  function Handoff(c: Conn, id: nat, s: Stream): Conn {
    Emit(c.(lastHandled := id), Dispatch(id, s.headers, s.body)).(streams := c.streams - {id})
  }

  /** END_HEADERS: the collected block is decompressed, and the request complete if the stream ended. */
  function EndHeaders(c: Conn, dec: Decoder, id: nat, s: Stream, complete: bool): Conn {
    var s' := s.(headers := dec(s.pending), pending := []);
    if complete then Handoff(c, id, s') else c.(streams := c.streams[id := s'])
  }

  /** The stream a HEADERS frame is for, opened if need be. */
  function Opened(c: Conn, id: nat): (c': Conn)
    ensures id in c'.streams
  {
    if id in c.streams then c else c.(streams := c.streams[id := NewStream()], admitted := c.admitted + multiset{id})
  }

  /** A header block begins after padding and priority fields. */
  function Started(s: Stream, flags: Byte, payload: seq<Byte>, off: nat, end: nat): (s': Stream)
    requires off <= end <= |payload| && (Flag(flags, 0x20) ==> off + 5 <= end)
    ensures |s'.pending| <= |payload| && s'.body == s.body && s'.sendWindow == s.sendWindow
  {
    s.(headersReceived := true, pending := payload[if Flag(flags, 0x20) then off + 5 else off..end],
       endStream := s.endStream || Flag(flags, 0x1))
  }

  function OnHeaders(c: Conn, dec: Decoder, flags: Byte, id: nat, payload: seq<Byte>): Conn {
    if id == 0 then Fatal(c, PROTOCOL_ERROR)
    else if id !in c.streams && |c.streams| >= MAX_STREAMS then ResetStream(c, id, REFUSED_STREAM)
    else
      var c1 := Opened(c, id);
      match Unpadded(flags, payload)
      case None => ResetStream(c1, id, PROTOCOL_ERROR)
      case Some((off, end)) =>
        if Flag(flags, 0x20) && off + 5 > end then ResetStream(c1, id, PROTOCOL_ERROR)
        else
          var s := Started(c1.streams[id], flags, payload, off, end);
          if Flag(flags, 0x4) then EndHeaders(c1, dec, id, s, Flag(flags, 0x1))
          else c1.(streams := c1.streams[id := s])
  }

  function OnContinuation(c: Conn, dec: Decoder, flags: Byte, id: nat, payload: seq<Byte>): Conn {
    if id !in c.streams || !c.streams[id].headersReceived then Fatal(c, PROTOCOL_ERROR)
    else
      var s := c.streams[id];
      if |s.pending| + |payload| > MAX_HEADER_BYTES then Fatal(c, ENHANCE_YOUR_CALM)
      else
        var s' := s.(pending := s.pending + payload);
        if Flag(flags, 0x4) then EndHeaders(c, dec, id, s', s'.endStream)
        else c.(streams := c.streams[id := s'])
  }

  function Extended(s: Stream, data: seq<Byte>): Stream {
    s.(body := s.body + data, recvWindow := s.recvWindow - |data|)
  }

  /** As much credit as the frame took, for the connection and for the stream. */
  function Credits(c: Conn, id: nat, n: nat): Conn {
    if n == 0 then c else Emit(Emit(c, Credit(0, n)), Credit(id, n))
  }

  function OnData(c: Conn, flags: Byte, id: nat, payload: seq<Byte>): Conn {
    if id !in c.streams || !c.streams[id].headersReceived then Fatal(c, PROTOCOL_ERROR)
    else
      match Unpadded(flags, payload)
      case None => ResetStream(c, id, PROTOCOL_ERROR)
      case Some((off, end)) =>
        var s := c.streams[id];
        if |s.body| + (end - off) > MAX_BODY_BYTES then ResetStream(c, id, ENHANCE_YOUR_CALM)
        else
          var s' := Extended(s, payload[off..end]);
          var c1 := Credits(c.(streams := c.streams[id := s']), id, |payload|);
          if Flag(flags, 0x1) then Handoff(c1, id, s'.(endStream := true)) else c1
  }

  function Handle(c: Conn, dec: Decoder, kind: Byte, flags: Byte, id: nat, payload: seq<Byte>): Conn {
    if kind == 0x4 then OnSettings(c, flags, id, payload)
    else if kind == 0x6 then OnPing(c, flags, id, payload)
    else if kind == 0x8 then OnWindowUpdate(c, id, payload)
    else if kind == 0x3 then OnRst(c, id, payload)
    else if kind == 0x7 then OnGoaway(c)
    else if kind == 0x1 then OnHeaders(c, dec, flags, id, payload)
    else if kind == 0x9 then OnContinuation(c, dec, flags, id, payload)
    else if kind == 0x0 then OnData(c, flags, id, payload)
    else c
  }

  // --------------------------------------------------------------------------
  // The buffer
  // --------------------------------------------------------------------------

  function HeadOf(buf: seq<Byte>): FrameHead
    requires |buf| >= 9
  {
    var a: int, b: int := buf[0], buf[1];
    FrameHead(a * 0x1_0000 + b * 0x100 + buf[2], buf[3], buf[4], Be32(buf[5..9]) % 0x8000_0000)
  }

  /** One turn of the loop; a payload is only ever waited for when its length is not zero. */
  function Step(dec: Decoder, c: Conn, buf: seq<Byte>): Option<(Conn, nat)> {
    if c.closing then None
    else
      match c.phase
      case Preface =>
        if |buf| < 24 then None
        else if buf[..24] != PREFACE then Some((Emit(c.(closing := true), Closed(false)), 0))
        else Some((Emit(c.(phase := FrameHeader), SettingsSent), 24))
      case FrameHeader =>
        if |buf| < 9 then None
        else
          var h := HeadOf(buf);
          if h.length > MAX_FRAME_SIZE then Some((Fatal(c, FRAME_SIZE_ERROR), 9))
          else if h.length == 0 then Some((Handle(c, dec, h.kind, h.flags, h.id, []), 9))
          else Some((c.(head := h, phase := FramePayload), 9))
      case FramePayload =>
        var h := c.head;
        if h.length == 0 || |buf| < h.length then None
        else
          var c1 := c.(phase := FrameHeader, recvWindow := if h.kind == 0x0 then c.recvWindow - h.length else c.recvWindow);
          Some((Handle(c1, dec, h.kind, h.flags, h.id, buf[..h.length]), h.length))
  }

  function Frames(dec: Decoder): Machine<Conn> {
    Machine((c: Conn, buf: seq<Byte>) => Step(dec, c, buf), (c: Conn) => if c.closing then 0 else 1)
  }

  lemma StepSame(dec: Decoder, c: Conn, buf: seq<Byte>, more: seq<Byte>)
    requires Step(dec, c, buf).Some?
    ensures Step(dec, c, buf + more) == Step(dec, c, buf)
  {
    hide Handle, Fatal;
    if c.phase.Preface? {
      assert (buf + more)[..24] == buf[..24];
    } else if c.phase.FrameHeader? {
      assert (buf + more)[5..9] == buf[5..9];
    } else {
      assert (buf + more)[..c.head.length] == buf[..c.head.length];
    }
  }

  lemma FramesSteady(dec: Decoder)
    ensures Steady(Frames(dec))
  {
    var m := Frames(dec);
    forall c: Conn, buf: seq<Byte> ensures StepSteady(m, c, buf) {
      if m.step(c, buf).Some? {
        forall more: seq<Byte> ensures m.step(c, buf + more) == m.step(c, buf) {
          StepSame(dec, c, buf, more);
        }
      }
    }
  }

  /** However the peer's bytes are cut into reads, the connection ends in the same state with the same output. */
  lemma SegmentationIndependent(dec: Decoder, c: Conn, buf: seq<Byte>, xs: seq<seq<Byte>>, ys: seq<seq<Byte>>)
    requires xs != [] && ys != [] && Concat(xs) == Concat(ys)
    ensures Steady(Frames(dec)) && FeedAll(Frames(dec), c, buf, xs) == FeedAll(Frames(dec), c, buf, ys)
  {
    FramesSteady(dec);
    AnySegmentation(Frames(dec), c, buf, xs, ys);
  }

  // --------------------------------------------------------------------------
  // Bounds that every sequence of frames keeps
  // --------------------------------------------------------------------------

  function Goaways(out: seq<Event>): nat {
    if out == [] then 0 else Goaways(out[..|out| - 1]) + if out[|out| - 1].Goaway? then 1 else 0
  }

  /** The requests of one stream that were handed to the application. */
  function RequestsOf(out: seq<Event>, id: nat): seq<Event> {
    if out == [] then []
    else
      var e := out[|out| - 1];
      RequestsOf(out[..|out| - 1], id) + if e.Dispatch? && e.id == id then [e] else []
  }

  lemma RequestsSnoc(out: seq<Event>, e: Event, id: nat)
    ensures RequestsOf(out + [e], id) == RequestsOf(out, id) + if e.Dispatch? && e.id == id then [e] else []
  {
    assert (out + [e])[..|out|] == out;
  }

  /** Of each stream id no more requests were handed over than it was opened, one less while it is open. */
  ghost predicate OnePerOpening(out: seq<Event>, live: set<nat>, admitted: multiset<nat>) {
    forall id: nat :: |RequestsOf(out, id)| + (if id in live then 1 else 0) <= admitted[id]
  }

  /** Connection-level credit returned to the peer. */
  function Credited(out: seq<Event>): nat {
    if out == [] then 0
    else
      var e := out[|out| - 1];
      Credited(out[..|out| - 1]) + if e.Credit? && e.id == 0 then e.increment else 0
  }

  predicate StreamBounded(s: Stream) {
    |s.pending| <= MAX_HEADER_BYTES && |s.body| <= MAX_BODY_BYTES && s.sendWindow <= MAX_WINDOW
  }

  /**
   At most 100 streams, each with bounded headers, body and send window; at most one GOAWAY, after which
   the connection is closing; every request of every id had an opening of its own; and no more credit was
   returned than `due` bytes of DATA allow.
   */
  ghost predicate Bounded(c: Conn, due: int) {
    && |c.streams| <= MAX_STREAMS
    && 0 !in c.streams
    && (forall id :: id in c.streams ==> StreamBounded(c.streams[id]))
    && c.sendWindow <= MAX_WINDOW
    && Goaways(c.out) == (if c.goawaySent then 1 else 0)
    && (c.goawaySent ==> c.closing)
    && OnePerOpening(c.out, c.streams.Keys, c.admitted)
    && Credited(c.out) <= due
  }

  lemma EmitCounts(c: Conn, e: Event)
    ensures var out := Emit(c, e).out;
            && Goaways(out) == Goaways(c.out) + (if e.Goaway? then 1 else 0)
            && Credited(out) == Credited(c.out) + (if e.Credit? && e.id == 0 then e.increment else 0)
  {
    assert (c.out + [e])[..|c.out|] == c.out;
  }

  /** Whatever else is put out, or forgotten, a request is only handed over with its stream. */
  lemma EmitOnePer(out: seq<Event>, e: Event, live: set<nat>, live': set<nat>, admitted: multiset<nat>)
    requires OnePerOpening(out, live, admitted) && live' <= live && (e.Dispatch? ==> e.id in live && e.id !in live')
    ensures OnePerOpening(out + [e], live', admitted) && OnePerOpening(out, live', admitted)
  {
    hide RequestsOf;
    forall id: nat ensures |RequestsOf(out + [e], id)| + (if id in live' then 1 else 0) <= admitted[id] {
      RequestsSnoc(out, e, id);
    }
  }

  lemma Fewer(streams: map<nat, Stream>, id: nat)
    ensures |streams - {id}| == if id in streams then |streams| - 1 else |streams|
    ensures |streams[id := NewStream()]| == if id in streams then |streams| else |streams| + 1
  {
    if id in streams {
      assert streams == (streams - {id})[id := streams[id]];
      assert streams[id := NewStream()].Keys == streams.Keys;
      assert |(streams - {id})[id := streams[id]]| == |streams - {id}| + 1;
    } else {
      assert streams - {id} == streams;
    }
  }

  lemma SameSize(streams: map<nat, Stream>, id: nat, s: Stream)
    requires id in streams
    ensures |streams[id := s]| == |streams|
  {
    assert streams[id := s].Keys == streams.Keys;
    assert |streams[id := s].Keys| == |streams[id := s]| && |streams.Keys| == |streams|;
  }

  lemma FatalBounded(c: Conn, code: nat, due: int)
    requires Bounded(c, due)
    ensures Bounded(Fatal(c, code), due) && Bounded(CloseAfterFlush(SendGoaway(c, 0)), due)
  {
    CloseBounded(c, code, due);
    CloseBounded(c, 0, due);
  }

  lemma CloseBounded(c: Conn, code: nat, due: int)
    requires Bounded(c, due)
    ensures Bounded(CloseAfterFlush(SendGoaway(c, code)), due)
  {
    hide Goaways, OnePerOpening, Credited;
    var c1 := SendGoaway(c, code);
    if !c.goawaySent {
      EmitCounts(c.(goawaySent := true), Goaway(c.lastHandled, code));
      EmitOnePer(c.out, Goaway(c.lastHandled, code), c.streams.Keys, c.streams.Keys, c.admitted);
    }
    EmitCounts(c1.(closing := true), Closed(true));
    EmitOnePer(c1.out, Closed(true), c.streams.Keys, c.streams.Keys, c.admitted);
  }

  lemma ResetBounded(c: Conn, id: nat, code: nat, due: int)
    requires Bounded(c, due)
    ensures Bounded(ResetStream(c, id, code), due)
  {
    hide Goaways, OnePerOpening, Credited;
    EmitCounts(c, Reset(id, code));
    EmitOnePer(c.out, Reset(id, code), c.streams.Keys, (c.streams - {id}).Keys, c.admitted);
    Fewer(c.streams, id);
  }

  lemma EmitBounded(c: Conn, e: Event, due: int)
    requires Bounded(c, due) && !e.Goaway? && !e.Dispatch? && !(e.Credit? && e.id == 0)
    ensures Bounded(Emit(c, e), due)
  {
    hide Goaways, OnePerOpening, Credited;
    EmitCounts(c, e);
    EmitOnePer(c.out, e, c.streams.Keys, c.streams.Keys, c.admitted);
  }

  lemma UpdateBounded(c: Conn, id: nat, s: Stream, due: int)
    requires Bounded(c, due) && id in c.streams && StreamBounded(s)
    ensures Bounded(c.(streams := c.streams[id := s]), due)
  {
    hide Goaways, OnePerOpening, Credited;
    SameSize(c.streams, id, s);
    assert c.streams[id := s].Keys == c.streams.Keys;
  }

  /** Handing a request over takes its stream away, so the count of dispatches stays covered. */
  lemma HandoffBounded(c: Conn, id: nat, s: Stream, due: int)
    requires Bounded(c, due) && id in c.streams
    ensures Bounded(Handoff(c, id, s), due)
  {
    hide Goaways, OnePerOpening, Credited;
    EmitCounts(c.(lastHandled := id), Dispatch(id, s.headers, s.body));
    EmitOnePer(c.out, Dispatch(id, s.headers, s.body), c.streams.Keys, (c.streams - {id}).Keys, c.admitted);
    Fewer(c.streams, id);
  }

  lemma EndHeadersBounded(c: Conn, dec: Decoder, id: nat, s: Stream, complete: bool, due: int)
    requires Bounded(c, due) && id in c.streams && StreamBounded(s)
    ensures Bounded(EndHeaders(c, dec, id, s, complete), due)
  {
    hide Bounded;
    var s' := s.(headers := dec(s.pending), pending := []);
    if complete { HandoffBounded(c, id, s', due); } else { UpdateBounded(c, id, s', due); }
  }

  lemma StreamOf(c: Conn, id: nat, due: int)
    requires Bounded(c, due) && id in c.streams
    ensures StreamBounded(c.streams[id])
  {
  }

  lemma GrowWindow(c: Conn, inc: nat, due: int)
    requires Bounded(c, due) && c.sendWindow + inc <= MAX_WINDOW
    ensures Bounded(c.(sendWindow := c.sendWindow + inc), due)
  {
  }

  lemma WindowUpdateBounded(c: Conn, id: nat, payload: seq<Byte>, due: int)
    requires Bounded(c, due)
    ensures Bounded(OnWindowUpdate(c, id, payload), due)
  {
    hide Bounded, Fatal, ResetStream, Be32;
    FatalBounded(c, FRAME_SIZE_ERROR, due);
    FatalBounded(c, PROTOCOL_ERROR, due);
    FatalBounded(c, FLOW_CONTROL_ERROR, due);
    ResetBounded(c, id, PROTOCOL_ERROR, due);
    ResetBounded(c, id, FLOW_CONTROL_ERROR, due);
    if |payload| == 4 {
      var inc := Be32(payload) % 0x8000_0000;
      if c.sendWindow + inc <= MAX_WINDOW { GrowWindow(c, inc, due); }
      if id in c.streams && c.streams[id].sendWindow + inc <= MAX_WINDOW {
        StreamOf(c, id, due);
        UpdateBounded(c, id, c.streams[id].(sendWindow := c.streams[id].sendWindow + inc), due);
      }
    }
  }

  lemma OpenOnePer(out: seq<Event>, live: set<nat>, id: nat, admitted: multiset<nat>)
    requires OnePerOpening(out, live, admitted) && id !in live
    ensures OnePerOpening(out, live + {id}, admitted + multiset{id})
  {
    hide RequestsOf;
  }

  lemma OpenBounded(c: Conn, id: nat, due: int)
    requires Bounded(c, due) && id !in c.streams && id != 0 && |c.streams| < MAX_STREAMS
    ensures Bounded(c.(streams := c.streams[id := NewStream()], admitted := c.admitted + multiset{id}), due)
  {
    hide Goaways, OnePerOpening, Credited;
    Fewer(c.streams, id);
    OpenOnePer(c.out, c.streams.Keys, id, c.admitted);
    assert c.streams[id := NewStream()].Keys == c.streams.Keys + {id};
  }

  lemma OpenedBounded(c: Conn, id: nat, due: int)
    requires Bounded(c, due) && id != 0 && (id in c.streams || |c.streams| < MAX_STREAMS)
    ensures Bounded(Opened(c, id), due) && id in Opened(c, id).streams
  {
    if id !in c.streams { OpenBounded(c, id, due); }
  }

  lemma HeadersBounded(c: Conn, dec: Decoder, flags: Byte, id: nat, payload: seq<Byte>, due: int)
    requires Bounded(c, due) && |payload| <= MAX_FRAME_SIZE
    ensures Bounded(OnHeaders(c, dec, flags, id, payload), due)
  {
    hide Bounded, Fatal, ResetStream, EndHeaders, Flag, Opened, Unpadded;
    FatalBounded(c, PROTOCOL_ERROR, due);
    ResetBounded(c, id, REFUSED_STREAM, due);
    if id != 0 && (id in c.streams || |c.streams| < MAX_STREAMS) {
      var c1 := Opened(c, id);
      OpenedBounded(c, id, due);
      StreamOf(c1, id, due);
      ResetBounded(c1, id, PROTOCOL_ERROR, due);
      var u := Unpadded(flags, payload);
      if u.Some? && !(Flag(flags, 0x20) && u.value.0 + 5 > u.value.1) {
        var s := Started(c1.streams[id], flags, payload, u.value.0, u.value.1);
        EndHeadersBounded(c1, dec, id, s, Flag(flags, 0x1), due);
        UpdateBounded(c1, id, s, due);
      }
    }
  }

  lemma ContinuationBounded(c: Conn, dec: Decoder, flags: Byte, id: nat, payload: seq<Byte>, due: int)
    requires Bounded(c, due)
    ensures Bounded(OnContinuation(c, dec, flags, id, payload), due)
  {
    hide Bounded, Fatal, EndHeaders, Flag;
    FatalBounded(c, PROTOCOL_ERROR, due);
    FatalBounded(c, ENHANCE_YOUR_CALM, due);
    if id in c.streams && |c.streams[id].pending| + |payload| <= MAX_HEADER_BYTES {
      var s := c.streams[id].(pending := c.streams[id].pending + payload);
      StreamOf(c, id, due);
      EndHeadersBounded(c, dec, id, s, s.endStream, due);
      UpdateBounded(c, id, s, due);
    }
  }

  /** DATA returns exactly as much connection credit as the payload is long. */
  lemma DataBounded(c: Conn, flags: Byte, id: nat, payload: seq<Byte>, due: int)
    requires Bounded(c, due)
    ensures Bounded(OnData(c, flags, id, payload), due + |payload|)
  {
    hide Bounded, Fatal, ResetStream, Handoff, Flag, Unpadded, Credits, StreamBounded;
    var due' := due + |payload|;
    Later(c, due, due');
    FatalBounded(c, PROTOCOL_ERROR, due');
    ResetBounded(c, id, PROTOCOL_ERROR, due');
    ResetBounded(c, id, ENHANCE_YOUR_CALM, due');
    var u := Unpadded(flags, payload);
    if id in c.streams && u.Some? && |c.streams[id].body| + (u.value.1 - u.value.0) <= MAX_BODY_BYTES {
      var s' := Extended(c.streams[id], payload[u.value.0..u.value.1]);
      StreamOf(c, id, due);
      ExtendedBounded(c.streams[id], payload[u.value.0..u.value.1]);
      UpdateBounded(c, id, s', due);
      var c1 := c.(streams := c.streams[id := s']);
      CreditBounded(c1, id, |payload|, due);
      HandoffBounded(Credits(c1, id, |payload|), id, s'.(endStream := true), due');
    }
  }

  lemma ExtendedBounded(s: Stream, data: seq<Byte>)
    requires StreamBounded(s) && |s.body| + |data| <= MAX_BODY_BYTES
    ensures StreamBounded(Extended(s, data))
  {
  }

  lemma Later(c: Conn, due: int, more: int)
    requires Bounded(c, due) && due <= more
    ensures Bounded(c, more)
  {
  }

  lemma CreditBounded(c: Conn, id: nat, n: nat, due: int)
    requires Bounded(c, due) && id in c.streams
    ensures Bounded(Credits(c, id, n), due + n) && id in Credits(c, id, n).streams
  {
    hide Goaways, OnePerOpening, Credited;
    var c1 := Emit(c, Credit(0, n));
    EmitCounts(c, Credit(0, n));
    EmitCounts(c1, Credit(id, n));
    EmitOnePer(c.out, Credit(0, n), c.streams.Keys, c.streams.Keys, c.admitted);
    EmitOnePer(c1.out, Credit(id, n), c.streams.Keys, c.streams.Keys, c.admitted);
  }

  lemma HandleBounded(c: Conn, dec: Decoder, kind: Byte, flags: Byte, id: nat, payload: seq<Byte>, due: int)
    requires Bounded(c, due) && |payload| <= MAX_FRAME_SIZE
    ensures Bounded(Handle(c, dec, kind, flags, id, payload), if kind == 0x0 then due + |payload| else due)
  {
    hide Bounded, OnSettings, OnPing, OnRst, OnGoaway, OnWindowUpdate, OnHeaders, OnContinuation, OnData;
    SimpleBounded(c, flags, id, payload, due);
    WindowUpdateBounded(c, id, payload, due);
    HeadersBounded(c, dec, flags, id, payload, due);
    ContinuationBounded(c, dec, flags, id, payload, due);
    DataBounded(c, flags, id, payload, due);
  }

  lemma SimpleBounded(c: Conn, flags: Byte, id: nat, payload: seq<Byte>, due: int)
    requires Bounded(c, due)
    ensures Bounded(OnSettings(c, flags, id, payload), due) && Bounded(OnPing(c, flags, id, payload), due)
    ensures Bounded(OnRst(c, id, payload), due) && Bounded(OnGoaway(c), due)
  {
    hide Bounded, Flag, Fatal, Emit, SendGoaway, CloseAfterFlush;
    FatalBounded(c, PROTOCOL_ERROR, due);
    FatalBounded(c, FRAME_SIZE_ERROR, due);
    SettingsBounded(c, payload, due);
    EmitBounded(c, Pong(payload), due);
    DropBounded(c, id, due);
  }

  lemma SettingsBounded(c: Conn, payload: seq<Byte>, due: int)
    requires Bounded(c, due)
    ensures Bounded(Emit(c.(settings := c.settings + [payload]), SettingsAcked), due)
  {
    EmitBounded(c.(settings := c.settings + [payload]), SettingsAcked, due);
  }

  lemma DropBounded(c: Conn, id: nat, due: int)
    requires Bounded(c, due)
    ensures Bounded(c.(streams := c.streams - {id}), due)
  {
    Fewer(c.streams, id);
  }

  /**
   The credit allowed is the DATA received: what the receive window has gone down by.  A connection that
   stopped after its preface has announced it with a GOAWAY, and closing is the last thing it did.
   */
  ghost predicate Good(c: Conn) {
    && Bounded(c, INITIAL_WINDOW - c.recvWindow) && (c.phase.FramePayload? ==> 0 < c.head.length <= MAX_FRAME_SIZE)
    && (c.closing ==> Announced(c))
  }

  ghost predicate Announced(c: Conn) {
    c.out != [] && c.out[|c.out| - 1] == Closed(!c.phase.Preface?) && c.goawaySent == !c.phase.Preface?
  }

  lemma StepGood(dec: Decoder, c: Conn, buf: seq<Byte>)
    requires Good(c) && Step(dec, c, buf).Some?
    ensures Good(Step(dec, c, buf).value.0)
  {
    hide Handle, Bounded, HeadOf, Fatal;
    var due := INITIAL_WINDOW - c.recvWindow;
    match c.phase
    case Preface =>
      PrefaceGood(c, due);
      Ungoing(c, due);
    case FrameHeader =>
      FatalGood(c, due);
      var h := HeadOf(buf);
      HandleBounded(c, dec, h.kind, h.flags, h.id, [], due);
      HandleKeeps(c, dec, h.kind, h.flags, h.id, []);
      HandleAnnounces(c, dec, h.kind, h.flags, h.id, []);
      PhaseBounded(c, h, FramePayload, c.recvWindow, due);
    case FramePayload =>
      var h := c.head;
      var recv := if h.kind == 0x0 then c.recvWindow - h.length else c.recvWindow;
      PhaseBounded(c, h, FrameHeader, recv, due);
      var c1 := c.(phase := FrameHeader, recvWindow := recv);
      HandleBounded(c1, dec, h.kind, h.flags, h.id, buf[..h.length], due);
      HandleKeeps(c1, dec, h.kind, h.flags, h.id, buf[..h.length]);
      HandleAnnounces(c1, dec, h.kind, h.flags, h.id, buf[..h.length]);
  }

  lemma Ungoing(c: Conn, due: int)
    requires Bounded(c, due) && !c.closing
    ensures !c.goawaySent
  {
  }

  /** A frame that ends the connection sends GOAWAY and closes, in that order. */
  lemma HandleAnnounces(c: Conn, dec: Decoder, kind: Byte, flags: Byte, id: nat, payload: seq<Byte>)
    requires !c.closing && !c.phase.Preface?
    ensures var c' := Handle(c, dec, kind, flags, id, payload); c'.closing ==> Announced(c')
  {
    hide OnHeaders, OnData, OnContinuation, OnWindowUpdate, Flag;
    HeadersAnnounce(c, dec, flags, id, payload);
    DataAnnounces(c, flags, id, payload);
    ContinuationAnnounces(c, dec, flags, id, payload);
    WindowUpdateAnnounces(c, id, payload);
  }

  lemma HeadersAnnounce(c: Conn, dec: Decoder, flags: Byte, id: nat, payload: seq<Byte>)
    requires !c.closing && !c.phase.Preface?
    ensures var c' := OnHeaders(c, dec, flags, id, payload); c'.closing ==> Announced(c')
  {
    hide Flag, Unpadded, Started;
  }

  lemma DataAnnounces(c: Conn, flags: Byte, id: nat, payload: seq<Byte>)
    requires !c.closing && !c.phase.Preface?
    ensures var c' := OnData(c, flags, id, payload); c'.closing ==> Announced(c')
  {
    hide Flag, Unpadded, Extended;
  }

  lemma ContinuationAnnounces(c: Conn, dec: Decoder, flags: Byte, id: nat, payload: seq<Byte>)
    requires !c.closing && !c.phase.Preface?
    ensures var c' := OnContinuation(c, dec, flags, id, payload); c'.closing ==> Announced(c')
  {
    hide Flag;
  }

  lemma WindowUpdateAnnounces(c: Conn, id: nat, payload: seq<Byte>)
    requires !c.closing && !c.phase.Preface?
    ensures var c' := OnWindowUpdate(c, id, payload); c'.closing ==> Announced(c')
  {
    hide Be32;
  }

  lemma PhaseBounded(c: Conn, h: FrameHead, phase: Phase, recv: int, due: int)
    requires Bounded(c, due)
    ensures Bounded(c.(head := h, phase := phase), due) && Bounded(c.(phase := phase, recvWindow := recv), due)
  {
  }

  lemma PrefaceGood(c: Conn, due: int)
    requires Bounded(c, due)
    ensures Bounded(Emit(c.(closing := true), Closed(false)), due)
    ensures Bounded(Emit(c.(phase := FrameHeader), SettingsSent), due)
  {
    EmitBounded(c.(closing := true), Closed(false), due);
    EmitBounded(c.(phase := FrameHeader), SettingsSent, due);
  }

  lemma FatalGood(c: Conn, due: int)
    requires Bounded(c, due)
    ensures var c' := Fatal(c, FRAME_SIZE_ERROR);
            && Bounded(c', due) && c'.phase == c.phase && c'.head == c.head && c'.recvWindow == c.recvWindow
            && (c'.phase.FrameHeader? ==> Announced(c'))
  {
    FatalBounded(c, FRAME_SIZE_ERROR, due);
    hide Bounded;
  }

  ghost predicate SamePlace(c: Conn, c': Conn) {
    c'.phase == c.phase && c'.head == c.head && c'.recvWindow == c.recvWindow
  }

  lemma HandleKeeps(c: Conn, dec: Decoder, kind: Byte, flags: Byte, id: nat, payload: seq<Byte>)
    ensures SamePlace(c, Handle(c, dec, kind, flags, id, payload))
  {
    hide OnHeaders, OnData, OnContinuation, OnWindowUpdate, Flag;
    HeadersKeep(c, dec, flags, id, payload);
    DataKeeps(c, flags, id, payload);
    ContinuationKeeps(c, dec, flags, id, payload);
    WindowUpdateKeeps(c, id, payload);
  }

  lemma HeadersKeep(c: Conn, dec: Decoder, flags: Byte, id: nat, payload: seq<Byte>)
    ensures SamePlace(c, OnHeaders(c, dec, flags, id, payload))
  {
    hide Flag, Unpadded, Started;
  }

  lemma DataKeeps(c: Conn, flags: Byte, id: nat, payload: seq<Byte>)
    ensures SamePlace(c, OnData(c, flags, id, payload))
  {
    hide Flag, Unpadded, Extended;
  }

  lemma ContinuationKeeps(c: Conn, dec: Decoder, flags: Byte, id: nat, payload: seq<Byte>)
    ensures SamePlace(c, OnContinuation(c, dec, flags, id, payload))
  {
    hide Flag;
  }

  lemma WindowUpdateKeeps(c: Conn, id: nat, payload: seq<Byte>)
    ensures SamePlace(c, OnWindowUpdate(c, id, payload))
  {
    hide Be32;
  }

  /** Whatever bytes arrive, every bound holds when the machine waits again. */
  lemma {:induction false} RunGood(dec: Decoder, c: Conn, buf: seq<Byte>)
    requires Good(c)
    ensures Steady(Frames(dec)) && Good(Run(Frames(dec), c, buf).0)
    decreases |buf|, if c.closing then 0 else 1
  {
    FramesSteady(dec);
    assert StepSteady(Frames(dec), c, buf);
    hide Good, Step;
    if Step(dec, c, buf).Some? {
      StepGood(dec, c, buf);
      var (c', n) := Step(dec, c, buf).value;
      RunGood(dec, c', buf[n..]);
    }
  }

  lemma AlwaysGood(dec: Decoder, input: seq<Byte>)
    ensures Good(Fresh()) && Steady(Frames(dec)) && Good(Run(Frames(dec), Fresh(), input).0)
  {
    RunGood(dec, Fresh(), input);
  }

  // --------------------------------------------------------------------------
  // As the program does it
  // --------------------------------------------------------------------------

  class Http2Connection {
    const dec: Decoder
    var buffer: seq<Byte>
    var conn: Conn

    constructor (decoder: Decoder)
      ensures dec == decoder && buffer == [] && conn == Fresh() && Good(conn)
    {
      dec, buffer, conn := decoder, [], Fresh();
    }

    /** One read: the machine runs on what was left and what came. */
    method OnData(data: seq<Byte>)
      requires Good(conn)
      modifies this`buffer, this`conn
      ensures Good(conn) && Steady(Frames(dec))
      ensures (conn, buffer) == Run(Frames(dec), old(conn), old(buffer) + data)
    {
      hide Good, Step;
      FramesSteady(dec);
      buffer := buffer + data;
      if conn.closing {
        Stopped(dec, conn, buffer);
        return;
      }
      TryProcess();
    }

    /** One phase is over, or has to wait for more bytes. */
    ghost predicate Stepped(c: Conn, buf: seq<Byte>, waits: bool)
      reads this
    {
      match Step(dec, c, buf)
      case None => waits && conn == c && buffer == buf
      case Some((c', n)) => !waits && conn == c' && n <= |buf| && buffer == buf[n..]
    }

    method TakePreface() returns (waits: bool)
      requires conn.phase.Preface? && !conn.closing
      modifies this`buffer, this`conn
      ensures Stepped(old(conn), old(buffer), waits)
    {
      if |buffer| < 24 { return true; }
      if buffer[..24] != PREFACE {
        conn := Emit(conn.(closing := true), Closed(false));
        return false;
      }
      buffer := buffer[24..];
      conn := Emit(conn.(phase := FrameHeader), SettingsSent);
      return false;
    }

    method TakeHeader() returns (waits: bool)
      requires conn.phase.FrameHeader? && !conn.closing
      modifies this`buffer, this`conn
      ensures Stepped(old(conn), old(buffer), waits)
    {
      hide Handle, Fatal, HeadOf;
      if |buffer| < 9 { return true; }
      var h := HeadOf(buffer);
      buffer := buffer[9..];
      if h.length > MAX_FRAME_SIZE {
        conn := Fatal(conn, FRAME_SIZE_ERROR);
        return false;
      }
      if h.length == 0 {
        conn := Handle(conn, dec, h.kind, h.flags, h.id, []);
      } else {
        conn := conn.(head := h, phase := FramePayload);
      }
      return false;
    }

    method TakePayload() returns (waits: bool)
      requires conn.phase.FramePayload? && !conn.closing && conn.head.length > 0
      modifies this`buffer, this`conn
      ensures Stepped(old(conn), old(buffer), waits)
    {
      hide Handle;
      var h := conn.head;
      if |buffer| < h.length { return true; }
      var payload := buffer[..h.length];
      buffer := buffer[h.length..];
      conn := conn.(phase := FrameHeader,
                    recvWindow := if h.kind == 0x0 then conn.recvWindow - h.length else conn.recvWindow);
      conn := Handle(conn, dec, h.kind, h.flags, h.id, payload);
      return false;
    }

    method TryProcess()
      requires Good(conn)
      modifies this`buffer, this`conn
      ensures Good(conn) && Steady(Frames(dec))
      ensures (conn, buffer) == Run(Frames(dec), old(conn), old(buffer))
    {
      hide Good, Step;
      FramesSteady(dec);
      while !conn.closing
        invariant Good(conn)
        invariant Run(Frames(dec), conn, buffer) == Run(Frames(dec), old(conn), old(buffer))
        decreases |buffer|, if conn.closing then 0 else 1
      {
        Turn(dec, conn, buffer);
        Advances(dec, conn, buffer);
        var waits;
        match conn.phase {
          case Preface => waits := TakePreface();
          case FrameHeader => waits := TakeHeader();
          case FramePayload => waits := TakePayload();
        }
        if waits { return; }
      }
      Stopped(dec, conn, buffer);
    }
  }

  /** A step takes bytes off the front, unless it stops the connection. */
  lemma Advances(dec: Decoder, c: Conn, buf: seq<Byte>)
    requires Good(c) && !c.closing
    ensures Step(dec, c, buf).Some? ==> Step(dec, c, buf).value.1 > 0 || Step(dec, c, buf).value.0.closing
  {
    hide Handle, Fatal, HeadOf;
  }

  lemma Stopped(dec: Decoder, c: Conn, buf: seq<Byte>)
    requires c.closing || Step(dec, c, buf).None?
    ensures Steady(Frames(dec)) && Run(Frames(dec), c, buf) == (c, buf)
  {
    FramesSteady(dec);
  }

  /** One turn of the loop: either it waits, or it goes on from the stepped state. */
  lemma Turn(dec: Decoder, c: Conn, buf: seq<Byte>)
    requires Good(c) && !c.closing
    ensures Steady(Frames(dec))
    ensures Step(dec, c, buf).None? ==> Run(Frames(dec), c, buf) == (c, buf)
    ensures Step(dec, c, buf).Some? ==>
              var (c', n) := Step(dec, c, buf).value;
              n <= |buf| && Good(c') && Run(Frames(dec), c, buf) == Run(Frames(dec), c', buf[n..])
    ensures c.phase.FramePayload? ==> c.head.length > 0
  {
    FramesSteady(dec);
    assert StepSteady(Frames(dec), c, buf);
    if Step(dec, c, buf).Some? { StepGood(dec, c, buf); }
    hide Bounded, Step, Fatal;
  }
}
