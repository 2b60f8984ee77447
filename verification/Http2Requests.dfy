/**
 What the HTTP/2 frame machine makes of the frames a client sends: the requests
 of one stream come out whole, whatever the other streams do in between.
 */
module Http2Requests {
  import opened Bytes
  import opened Segments
  import opened Http2

  datatype Frame = Frame(kind: Byte, flags: Byte, id: nat, payload: seq<Byte>)

  const DATA: Byte := 0x0
  const HEADERS: Byte := 0x1
  const RST_STREAM: Byte := 0x3
  const SETTINGS: Byte := 0x4
  const PING: Byte := 0x6
  const WINDOW_UPDATE: Byte := 0x8
  const CONTINUATION: Byte := 0x9

  predicate ValidFrame(f: Frame) { |f.payload| <= MAX_FRAME_SIZE && f.id < 0x8000_0000 }

  // --------------------------------------------------------------------------
  // Frames on the wire
  // --------------------------------------------------------------------------

  function Wire(f: Frame): (bytes: seq<Byte>)
    requires ValidFrame(f)
    ensures |bytes| == 9 + |f.payload|
  {
    var n := |f.payload|;
    [n / 0x1_0000, n / 0x100 % 256, n % 256, f.kind, f.flags,
     f.id / 0x100_0000, f.id / 0x1_0000 % 256, f.id / 0x100 % 256, f.id % 256] + f.payload
  }

  function WireAll(fs: seq<Frame>): seq<Byte>
    requires forall i :: 0 <= i < |fs| ==> ValidFrame(fs[i])
  {
    if fs == [] then [] else Wire(fs[0]) + WireAll(fs[1..])
  }

  /** What a frame does to a connection that is between frames. */
  function Receive(dec: Decoder, c: Conn, f: Frame): Conn {
    if f.payload == [] then Handle(c, dec, f.kind, f.flags, f.id, [])
    else
      Handle(Charged(c, f), dec, f.kind, f.flags, f.id, f.payload)
  }

  /** The frame's head is stored and DATA is charged to the connection's receive window. */
  function Charged(c: Conn, f: Frame): Conn {
    c.(head := FrameHead(|f.payload|, f.kind, f.flags, f.id),
       recvWindow := if f.kind == DATA then c.recvWindow - |f.payload| else c.recvWindow)
  }

  function ReceiveAll(dec: Decoder, c: Conn, fs: seq<Frame>): Conn
    decreases |fs|
  {
    if fs == [] then c else ReceiveAll(dec, Receive(dec, c, fs[0]), fs[1..])
  }

  lemma BigEndian24(n: nat)
    requires n < 0x100_0000
    ensures var a: int, b: int := n / 0x1_0000, n / 0x100 % 256; a * 0x1_0000 + b * 0x100 + n % 256 == n
  {
  }

  lemma BigEndian32(n: nat)
    requires n < 0x8000_0000
    ensures Be32([n / 0x100_0000, n / 0x1_0000 % 256, n / 0x100 % 256, n % 256]) == n
  {
    Quarters(n);
    var p: seq<Byte> := [n / 0x100_0000, n / 0x1_0000 % 256, n / 0x100 % 256, n % 256];
    assert Be32(p) == p[0] as int * 0x100_0000 + p[1] as int * 0x1_0000 + p[2] as int * 0x100 + p[3] as int;
  }

  lemma Quarters(n: nat)
    ensures n / 0x100_0000 * 0x100_0000 + n / 0x1_0000 % 256 * 0x1_0000 + n / 0x100 % 256 * 0x100 + n % 256 == n
  {
    var q := n / 0x100;
    assert q / 0x100 == n / 0x1_0000 && q / 0x100 / 0x100 == n / 0x100_0000;
  }

  lemma HeadReads(f: Frame, rest: seq<Byte>)
    requires ValidFrame(f)
    ensures var buf := Wire(f) + rest;
            && |buf| >= 9 && HeadOf(buf) == FrameHead(|f.payload|, f.kind, f.flags, f.id)
            && buf[9..] == f.payload + rest
  {
    var buf := Wire(f) + rest;
    BigEndian24(|f.payload|);
    BigEndian32(f.id);
    assert buf[5..9] == [f.id / 0x100_0000, f.id / 0x1_0000 % 256, f.id / 0x100 % 256, f.id % 256];
    hide Be32;
  }

  /** A frame's bytes take the machine exactly through handling that frame. */
  lemma WireRuns(dec: Decoder, c: Conn, f: Frame, rest: seq<Byte>)
    requires ValidFrame(f) && !c.closing && c.phase.FrameHeader?
    ensures Steady(Frames(dec))
    ensures Run(Frames(dec), c, Wire(f) + rest) == Run(Frames(dec), Receive(dec, c, f), rest)
  {
    FramesSteady(dec);
    HeadReads(f, rest);
    hide Handle, Wire, HeadOf, Fatal, Run, Steady;
    var buf, n := Wire(f) + rest, |f.payload|;
    if f.payload == [] {
      assert [] + rest == rest;
      assert Step(dec, c, buf) == Some((Receive(dec, c, f), 9));
      RunStep(Frames(dec), c, buf, Receive(dec, c, f), 9);
    } else {
      var c1 := c.(head := FrameHead(n, f.kind, f.flags, f.id), phase := FramePayload);
      assert Step(dec, c, buf) == Some((c1, 9));
      RunStep(Frames(dec), c, buf, c1, 9);
      PayloadRuns(dec, c, c1, f, rest);
    }
  }

  lemma PayloadRuns(dec: Decoder, c: Conn, c1: Conn, f: Frame, rest: seq<Byte>)
    requires Steady(Frames(dec)) && ValidFrame(f) && !c.closing && c.phase.FrameHeader? && f.payload != []
    requires c1 == c.(head := FrameHead(|f.payload|, f.kind, f.flags, f.id), phase := FramePayload)
    ensures Run(Frames(dec), c1, f.payload + rest) == Run(Frames(dec), Receive(dec, c, f), rest)
  {
    hide Handle, Run, Steady;
    Cut(f.payload, rest);
    assert Step(dec, c1, f.payload + rest) == Some((Receive(dec, c, f), |f.payload|));
    RunStep(Frames(dec), c1, f.payload + rest, Receive(dec, c, f), |f.payload|);
  }

  lemma Cut(a: seq<Byte>, b: seq<Byte>)
    ensures (a + b)[..|a|] == a && (a + b)[|a|..] == b
  {
  }

  lemma ReceivePhase(dec: Decoder, c: Conn, f: Frame)
    ensures Receive(dec, c, f).phase == c.phase
  {
    hide Handle;
    HandleKeeps(c, dec, f.kind, f.flags, f.id, []);
    HandleKeeps(Charged(c, f), dec, f.kind, f.flags, f.id, f.payload);
  }

  lemma ClosingStays(dec: Decoder, c: Conn, f: Frame)
    ensures c.closing ==> Receive(dec, c, f).closing
  {
    HeadersStay(c, dec, f.flags, f.id, []);
    HeadersStay(Charged(c, f), dec, f.flags, f.id, f.payload);
    DataStays(c, f);
    hide OnHeaders, OnData, Flag, Be32;
  }

  lemma HeadersStay(c: Conn, dec: Decoder, flags: Byte, id: nat, payload: seq<Byte>)
    ensures c.closing ==> OnHeaders(c, dec, flags, id, payload).closing
  {
    hide Flag, Unpadded, Started;
  }

  lemma DataStays(c: Conn, f: Frame)
    ensures c.closing ==> OnData(c, f.flags, f.id, []).closing && OnData(Charged(c, f), f.flags, f.id, f.payload).closing
  {
    hide Flag, Unpadded, Extended;
  }

  lemma {:induction false} StaysOpen(dec: Decoder, c: Conn, fs: seq<Frame>)
    requires !ReceiveAll(dec, c, fs).closing
    ensures !c.closing
    decreases |fs|
  {
    hide Receive;
    if fs != [] {
      StaysOpen(dec, Receive(dec, c, fs[0]), fs[1..]);
      ClosingStays(dec, c, fs[0]);
    }
  }

  /** Reading the bytes of any frames that do not close the connection handles exactly those frames. */
  lemma {:induction false} BytesRun(dec: Decoder, c: Conn, fs: seq<Frame>)
    requires (forall i :: 0 <= i < |fs| ==> ValidFrame(fs[i])) && c.phase.FrameHeader?
    requires !ReceiveAll(dec, c, fs).closing
    ensures Steady(Frames(dec)) && Run(Frames(dec), c, WireAll(fs)) == (ReceiveAll(dec, c, fs), [])
    decreases |fs|
  {
    FramesSteady(dec);
    StaysOpen(dec, c, fs);
    if fs == [] {
      assert Step(dec, c, []).None?;
    } else {
      WireRuns(dec, c, fs[0], WireAll(fs[1..]));
      ReceivePhase(dec, c, fs[0]);
      hide Receive, Wire, ValidFrame, Run, Steady;
      BytesRun(dec, Receive(dec, c, fs[0]), fs[1..]);
    }
  }

  // --------------------------------------------------------------------------
  // Frames of other streams
  // --------------------------------------------------------------------------

  /** What the connection has to say about one stream: credit, resets and requests. */
  predicate Concerns(e: Event, id: nat) { (e.Credit? || e.Reset? || e.Dispatch?) && e.id == id }

  function EventsOf(out: seq<Event>, id: nat): seq<Event> {
    if out == [] then []
    else
      var e := out[|out| - 1];
      EventsOf(out[..|out| - 1], id) + if Concerns(e, id) then [e] else []
  }

  lemma EventsSnoc(out: seq<Event>, e: Event, id: nat)
    ensures EventsOf(out + [e], id) == EventsOf(out, id) + if Concerns(e, id) then [e] else []
  {
    assert (out + [e])[..|out|] == out;
  }

  lemma {:induction false} RequestsConcat(a: seq<Event>, b: seq<Event>, id: nat)
    ensures RequestsOf(a + b, id) == RequestsOf(a, id) + RequestsOf(b, id)
    decreases |b|
  {
    if b == [] {
      assert a + b == a;
    } else {
      var n := |b| - 1;
      assert (a + b)[..|a + b| - 1] == a + b[..n];
      RequestsConcat(a, b[..n], id);
    }
  }

  /** The requests of a stream are among what concerns it. */
  lemma {:induction false} RequestsAmong(out: seq<Event>, id: nat)
    ensures RequestsOf(EventsOf(out, id), id) == RequestsOf(out, id)
    decreases |out|
  {
    if out != [] {
      var n := |out| - 1;
      RequestsAmong(out[..n], id);
      RequestsSnoc(EventsOf(out[..n], id), out[n], id);
      assert EventsOf(out[..n], id) + [] == EventsOf(out[..n], id) && RequestsOf(out[..n], id) + [] == RequestsOf(out[..n], id);
    }
  }

  /** Stream id is as it was and nothing was said about it. */
  ghost predicate Aside(c: Conn, c': Conn, id: nat) {
    && (id in c.streams <==> id in c'.streams) && (id in c.streams ==> c'.streams[id] == c.streams[id])
    && EventsOf(c'.out, id) == EventsOf(c.out, id)
  }

  lemma EmitAside(c: Conn, e: Event, id: nat)
    requires !Concerns(e, id)
    ensures EventsOf(Emit(c, e).out, id) == EventsOf(c.out, id)
  {
    EventsSnoc(c.out, e, id);
  }

  lemma FatalAside(c: Conn, code: nat, id: nat)
    ensures Aside(c, Fatal(c, code), id) && Aside(c, OnGoaway(c), id)
  {
    hide EventsOf;
    EmitAside(c.(goawaySent := true), Goaway(c.lastHandled, code), id);
    EmitAside(SendGoaway(c, code).(closing := true), Closed(true), id);
    EmitAside(c.(goawaySent := true), Goaway(c.lastHandled, 0), id);
    EmitAside(SendGoaway(c, 0).(closing := true), Closed(true), id);
  }

  lemma ResetAside(c: Conn, other: nat, code: nat, id: nat)
    requires other != id
    ensures Aside(c, ResetStream(c, other, code), id)
  {
    hide EventsOf;
    EmitAside(c, Reset(other, code), id);
  }

  lemma HandoffAside(c: Conn, other: nat, s: Stream, id: nat)
    requires other != id
    ensures Aside(c, Handoff(c, other, s), id)
  {
    hide EventsOf;
    EmitAside(c.(lastHandled := other), Dispatch(other, s.headers, s.body), id);
  }

  lemma EndHeadersAside(c: Conn, dec: Decoder, other: nat, s: Stream, complete: bool, id: nat)
    requires other != id
    ensures Aside(c, EndHeaders(c, dec, other, s, complete), id)
  {
    hide EventsOf;
    HandoffAside(c, other, s.(headers := dec(s.pending), pending := []), id);
    hide Handoff;
  }

  lemma HeadersAside(c: Conn, dec: Decoder, flags: Byte, other: nat, payload: seq<Byte>, id: nat)
    requires other != id
    ensures Aside(c, OnHeaders(c, dec, flags, other, payload), id)
  {
    hide EventsOf, Fatal, ResetStream, EndHeaders, Flag, Unpadded, Started;
    FatalAside(c, PROTOCOL_ERROR, id);
    ResetAside(c, other, REFUSED_STREAM, id);
    var c1 := Opened(c, other);
    ResetAside(c1, other, PROTOCOL_ERROR, id);
    var u := Unpadded(flags, payload);
    if u.Some? && !(Flag(flags, 0x20) && u.value.0 + 5 > u.value.1) {
      EndHeadersAside(c1, dec, other, Started(c1.streams[other], flags, payload, u.value.0, u.value.1), Flag(flags, 0x1), id);
    }
  }

  lemma ContinuationAside(c: Conn, dec: Decoder, flags: Byte, other: nat, payload: seq<Byte>, id: nat)
    requires other != id
    ensures Aside(c, OnContinuation(c, dec, flags, other, payload), id)
  {
    hide EventsOf, Fatal, EndHeaders, Flag;
    FatalAside(c, PROTOCOL_ERROR, id);
    FatalAside(c, ENHANCE_YOUR_CALM, id);
    if other in c.streams {
      var s := c.streams[other].(pending := c.streams[other].pending + payload);
      EndHeadersAside(c, dec, other, s, s.endStream, id);
    }
  }

  lemma CreditsAside(c: Conn, other: nat, n: nat, id: nat)
    requires id != 0 && other != id
    ensures Credits(c, other, n).streams == c.streams && EventsOf(Credits(c, other, n).out, id) == EventsOf(c.out, id)
  {
    hide EventsOf;
    EmitAside(c, Credit(0, n), id);
    EmitAside(Emit(c, Credit(0, n)), Credit(other, n), id);
  }

  lemma DataAside(c: Conn, flags: Byte, other: nat, payload: seq<Byte>, id: nat)
    requires id != 0 && other != id
    ensures Aside(c, OnData(c, flags, other, payload), id)
  {
    hide EventsOf, Fatal, ResetStream, Handoff, Flag, Unpadded, Credits, Extended;
    FatalAside(c, PROTOCOL_ERROR, id);
    ResetAside(c, other, PROTOCOL_ERROR, id);
    ResetAside(c, other, ENHANCE_YOUR_CALM, id);
    var u := Unpadded(flags, payload);
    if other in c.streams && u.Some? {
      var s := Extended(c.streams[other], payload[u.value.0..u.value.1]);
      var c1 := c.(streams := c.streams[other := s]);
      CreditsAside(c1, other, |payload|, id);
      HandoffAside(Credits(c1, other, |payload|), other, s.(endStream := true), id);
    }
  }

  lemma SimpleAside(c: Conn, flags: Byte, other: nat, payload: seq<Byte>, id: nat)
    requires other != id
    ensures Aside(c, OnSettings(c, flags, other, payload), id) && Aside(c, OnPing(c, flags, other, payload), id)
    ensures Aside(c, OnRst(c, other, payload), id)
  {
    hide EventsOf, Fatal, Flag;
    FatalAside(c, PROTOCOL_ERROR, id);
    FatalAside(c, FRAME_SIZE_ERROR, id);
    EmitAside(c.(settings := c.settings + [payload]), SettingsAcked, id);
    EmitAside(c, Pong(payload), id);
  }

  lemma WindowUpdateAside(c: Conn, other: nat, payload: seq<Byte>, id: nat)
    requires other != id
    ensures Aside(c, OnWindowUpdate(c, other, payload), id)
  {
    hide EventsOf, Fatal, ResetStream, Be32;
    FatalAside(c, PROTOCOL_ERROR, id);
    FatalAside(c, FRAME_SIZE_ERROR, id);
    FatalAside(c, FLOW_CONTROL_ERROR, id);
    ResetAside(c, other, PROTOCOL_ERROR, id);
    ResetAside(c, other, FLOW_CONTROL_ERROR, id);
  }

  lemma HandleAside(c: Conn, dec: Decoder, kind: Byte, flags: Byte, other: nat, payload: seq<Byte>, id: nat)
    requires id != 0 && other != id
    ensures Aside(c, Handle(c, dec, kind, flags, other, payload), id)
  {
    hide Aside, OnHeaders, OnData, OnContinuation, OnWindowUpdate, OnSettings, OnPing, OnRst, OnGoaway;
    SimpleAside(c, flags, other, payload, id);
    FatalAside(c, 0, id);
    HeadersAside(c, dec, flags, other, payload, id);
    ContinuationAside(c, dec, flags, other, payload, id);
    DataAside(c, flags, other, payload, id);
    WindowUpdateAside(c, other, payload, id);
    AsideSelf(c, id);
  }

  lemma AsideSelf(c: Conn, id: nat)
    ensures Aside(c, c, id)
  {
  }

  /** A frame of another stream, or of the connection, leaves the stream alone. */
  lemma OtherFrame(dec: Decoder, c: Conn, f: Frame, id: nat)
    requires id != 0 && f.id != id
    ensures Aside(c, Receive(dec, c, f), id)
  {
    hide Handle, EventsOf;
    HandleAside(c, dec, f.kind, f.flags, f.id, [], id);
    HandleAside(Charged(c, f), dec, f.kind, f.flags, f.id, f.payload, id);
  }

  // --------------------------------------------------------------------------
  // What the frames of one stream come to
  // --------------------------------------------------------------------------

  /**
   How far a request has come: the header blocks completed so far, the block being collected, the body, whether
   a HEADERS frame has ended the stream, and the stream's send window.
   */
  datatype Progress = Progress(blocks: seq<seq<Byte>>, pending: seq<Byte>, body: seq<Byte>, ended: bool, window: int)

  /** What a frame comes to: how the stream goes on, what it is credited, and whether it is complete or refused. */
  datatype Turn = Turn(next: Option<Progress>, credit: nat, done: Option<Progress>, refused: Option<nat>)

  function Begun(): Progress { Progress([], [], [], false, INITIAL_WINDOW) }

  function GoOn(p: Option<Progress>): Turn { Turn(p, 0, None, None) }

  function Refuse(code: nat): Turn { Turn(None, 0, None, Some(code)) }

  /** What is left of a payload without padding and priority fields; none if they do not fit. */
  function Fragment(f: Frame): Option<seq<Byte>> {
    if f.kind == CONTINUATION then Some(f.payload)
    else
      match Unpadded(f.flags, f.payload)
      case None => None
      case Some((off, end)) =>
        if f.kind == HEADERS && Flag(f.flags, 0x20) then
          if off + 5 > end then None else Some(f.payload[off + 5..end])
        else Some(f.payload[off..end])
  }

  predicate EndsHeaders(f: Frame) { f.kind in {HEADERS, CONTINUATION} && Flag(f.flags, 0x4) }

  predicate EndsStream(f: Frame) { f.kind in {HEADERS, DATA} && Flag(f.flags, 0x1) }

  /** The block collected so far goes on, or is complete; a request whose end was seen is then complete as well. */
  function Collect(p: Progress, block: seq<Byte>, f: Frame, ends: bool): Turn {
    if !EndsHeaders(f) then GoOn(Some(p.(pending := block)))
    else
      var q := p.(blocks := p.blocks + [block], pending := []);
      if ends then Turn(None, 0, Some(q), None) else GoOn(Some(q))
  }

  function Turned(p: Option<Progress>, f: Frame): Turn {
    if f.kind == HEADERS then
      var q := if p.Some? then p.value else Begun();
      match Fragment(f)
      case None => Refuse(PROTOCOL_ERROR)
      case Some(b) => Collect(q.(ended := q.ended || EndsStream(f)), b, f, EndsStream(f))
    else if f.kind == RST_STREAM then GoOn(None)
    else if f.kind == WINDOW_UPDATE && |f.payload| == 4 then
      var inc := GrantedTo(f);
      if inc == 0 then Refuse(PROTOCOL_ERROR)
      else if p.None? then GoOn(p)
      else if p.value.window + inc > MAX_WINDOW then Refuse(FLOW_CONTROL_ERROR)
      else GoOn(Some(p.value.(window := p.value.window + inc)))
    else if p.None? then GoOn(p)
    else if f.kind == CONTINUATION then Collect(p.value, p.value.pending + f.payload, f, p.value.ended)
    else if f.kind == DATA then
      match Fragment(f)
      case None => Refuse(PROTOCOL_ERROR)
      case Some(b) =>
        if |p.value.body| + |b| > MAX_BODY_BYTES then Refuse(ENHANCE_YOUR_CALM)
        else
          var q := p.value.(body := p.value.body + b);
          if EndsStream(f) then Turn(None, |f.payload|, Some(q), None) else Turn(Some(q), |f.payload|, None, None)
    else GoOn(p)
  }

  /** The increment of a WINDOW_UPDATE frame. */
  function GrantedTo(f: Frame): nat {
    if f.kind == WINDOW_UPDATE && |f.payload| == 4 then Be32(f.payload) % 0x8000_0000 else 0
  }

  /** The headers of a request: of the last block that was completed, none if there was none. */
  function HeadersOf(dec: Decoder, blocks: seq<seq<Byte>>): Headers {
    if blocks == [] then map[] else dec(blocks[|blocks| - 1])
  }

  function RequestOf(dec: Decoder, id: nat, p: Progress): Event { Dispatch(id, HeadersOf(dec, p.blocks), p.body) }

  function Said(dec: Decoder, id: nat, t: Turn): seq<Event> {
    (if t.credit > 0 then [Credit(id, t.credit)] else [])
    + (if t.refused.Some? then [Reset(id, t.refused.value)] else [])
    + (if t.done.Some? then [RequestOf(dec, id, t.done.value)] else [])
  }

  /** Everything said about the stream while its frames come in. */
  function Answers(dec: Decoder, id: nat, p: Option<Progress>, os: seq<Frame>): seq<Event>
    decreases |os|
  {
    if os == [] then [] else Said(dec, id, Turned(p, os[0])) + Answers(dec, id, Turned(p, os[0]).next, os[1..])
  }

  function Standing(p: Option<Progress>, os: seq<Frame>): Option<Progress>
    decreases |os|
  {
    if os == [] then p else Standing(Turned(p, os[0]).next, os[1..])
  }

  /** The connection's record of the stream says what the progress says. */
  ghost predicate Tracks(dec: Decoder, c: Conn, id: nat, p: Option<Progress>) {
    && (id in c.streams <==> p.Some?)
    && (p.Some? ==> Records(dec, c.streams[id], p.value))
  }

  ghost predicate Records(dec: Decoder, s: Stream, p: Progress) {
    && s.headersReceived && s.headers == HeadersOf(dec, p.blocks) && s.pending == p.pending
    && s.body == p.body && s.endStream == p.ended && s.sendWindow == p.window
  }

  /** The frame was taken as the turn says. */
  ghost predicate Follows(dec: Decoder, c: Conn, c': Conn, id: nat, t: Turn) {
    Tracks(dec, c', id, t.next) && EventsOf(c'.out, id) == EventsOf(c.out, id) + Said(dec, id, t)
  }

  // --------------------------------------------------------------------------
  // The stream's own frames
  // --------------------------------------------------------------------------

  lemma HandoffSays(dec: Decoder, c: Conn, id: nat, s: Stream, p: Progress)
    requires s.headers == HeadersOf(dec, p.blocks) && s.body == p.body
    ensures EventsOf(Handoff(c, id, s).out, id) == EventsOf(c.out, id) + [RequestOf(dec, id, p)]
  {
    EventsSnoc(c.out, Dispatch(id, s.headers, s.body), id);
  }

  lemma ResetSays(c: Conn, id: nat, code: nat)
    ensures EventsOf(ResetStream(c, id, code).out, id) == EventsOf(c.out, id) + [Reset(id, code)]
  {
    EventsSnoc(c.out, Reset(id, code), id);
  }

  /** A stream refused, whatever its record. */
  lemma Refused(dec: Decoder, c: Conn, id: nat, code: nat)
    ensures Follows(dec, c, ResetStream(c, id, code), id, Refuse(code))
  {
    hide EventsOf;
    ResetSays(c, id, code);
  }

  /** The record goes on, with nothing said. */
  lemma WentOn(dec: Decoder, c: Conn, c': Conn, id: nat, s: Stream, p: Progress)
    requires Records(dec, s, p) && c'.streams == c.streams[id := s] && c'.out == c.out
    ensures Follows(dec, c, c', id, GoOn(Some(p)))
  {
  }

  lemma HeadersEnded(dec: Decoder, c: Conn, id: nat, s: Stream, p: Progress, complete: bool)
    requires Records(dec, s, p)
    ensures var q := p.(blocks := p.blocks + [p.pending], pending := []);
            Follows(dec, c, EndHeaders(c, dec, id, s, complete), id,
                    if complete then Turn(None, 0, Some(q), None) else GoOn(Some(q)))
  {
    hide EventsOf;
    var q := p.(blocks := p.blocks + [p.pending], pending := []);
    var s' := s.(headers := dec(s.pending), pending := []);
    if complete {
      HandoffSays(dec, c, id, s', q);
    } else {
      WentOn(dec, c, EndHeaders(c, dec, id, s, complete), id, s', q);
    }
  }

  /** A frame that adds to the block: collected, or the block ended. */
  lemma Collected(dec: Decoder, c: Conn, id: nat, s: Stream, p: Progress, f: Frame, ends: bool)
    requires Records(dec, s, p) && f.kind in {HEADERS, CONTINUATION}
    ensures Follows(dec, c,
                    if Flag(f.flags, 0x4) then EndHeaders(c, dec, id, s, ends) else c.(streams := c.streams[id := s]), id,
                    Collect(p, p.pending, f, ends))
  {
    hide EventsOf, EndHeaders, Follows, Flag;
    HeadersEnded(dec, c, id, s, p, ends);
    WentOn(dec, c, c.(streams := c.streams[id := s]), id, s, p);
  }

  lemma SameEvents(dec: Decoder, c: Conn, c0: Conn, c': Conn, id: nat, t: Turn)
    requires Follows(dec, c0, c', id, t) && c0.out == c.out
    ensures Follows(dec, c, c', id, t)
  {
  }

  lemma OwnHeaders(dec: Decoder, c: Conn, f: Frame, p: Option<Progress>)
    requires f.kind == HEADERS && f.id != 0 && Tracks(dec, c, f.id, p) && (p.None? ==> |c.streams| < MAX_STREAMS)
    ensures Follows(dec, c, OnHeaders(c, dec, f.flags, f.id, f.payload), f.id, Turned(p, f))
  {
    hide EventsOf, EndHeaders, Follows, Flag, Unpadded, Collect, ResetStream;
    var c1 := Opened(c, f.id);
    var q := if p.Some? then p.value else Begun();
    Refused(dec, c1, f.id, PROTOCOL_ERROR);
    match Fragment(f)
    case None => SameEvents(dec, c, c1, ResetStream(c1, f.id, PROTOCOL_ERROR), f.id, Refuse(PROTOCOL_ERROR));
    case Some(b) =>
      var (off, end) := Unpadded(f.flags, f.payload).value;
      var s := Started(c1.streams[f.id], f.flags, f.payload, off, end);
      var p1 := q.(ended := q.ended || EndsStream(f), pending := b);
      Collected(dec, c1, f.id, s, p1, f, EndsStream(f));
      CollectAlike(q.(ended := q.ended || EndsStream(f)), b, f, EndsStream(f));
      SameEvents(dec, c, c1, OnHeaders(c, dec, f.flags, f.id, f.payload), f.id, Turned(p, f));
  }

  lemma CollectAlike(p: Progress, block: seq<Byte>, f: Frame, ends: bool)
    ensures Collect(p.(pending := block), block, f, ends) == Collect(p, block, f, ends)
  {
  }

  lemma OwnContinuation(dec: Decoder, c: Conn, f: Frame, p: Option<Progress>)
    requires f.kind == CONTINUATION && Tracks(dec, c, f.id, p) && !OnContinuation(c, dec, f.flags, f.id, f.payload).closing
    ensures Follows(dec, c, OnContinuation(c, dec, f.flags, f.id, f.payload), f.id, Turned(p, f))
  {
    hide EventsOf, EndHeaders, Follows, Flag, Collect;
    var s, q := c.streams[f.id], p.value;
    var block := q.pending + f.payload;
    Collected(dec, c, f.id, s.(pending := block), q.(pending := block), f, q.ended);
    CollectAlike(q, block, f, q.ended);
  }

  lemma CreditsSay(c: Conn, id: nat, n: nat)
    requires id != 0
    ensures Credits(c, id, n).streams == c.streams
    ensures EventsOf(Credits(c, id, n).out, id) == EventsOf(c.out, id) + if n > 0 then [Credit(id, n)] else []
  {
    hide EventsOf;
    EventsSnoc(c.out, Credit(0, n), id);
    EventsSnoc(Emit(c, Credit(0, n)).out, Credit(id, n), id);
  }

  lemma OwnData(dec: Decoder, c: Conn, f: Frame, p: Option<Progress>)
    requires f.kind == DATA && f.id != 0 && Tracks(dec, c, f.id, p) && !OnData(c, f.flags, f.id, f.payload).closing
    ensures Follows(dec, c, OnData(c, f.flags, f.id, f.payload), f.id, Turned(p, f))
  {
    hide EventsOf, Flag, Unpadded, ResetStream, Handoff, Credits;
    Refused(dec, c, f.id, PROTOCOL_ERROR);
    Refused(dec, c, f.id, ENHANCE_YOUR_CALM);
    if Fragment(f).Some? && |p.value.body| + |Fragment(f).value| <= MAX_BODY_BYTES {
      var b := Fragment(f).value;
      var s := Extended(c.streams[f.id], b);
      var c1 := c.(streams := c.streams[f.id := s]);
      CreditsSay(c1, f.id, |f.payload|);
      HandoffSays(dec, Credits(c1, f.id, |f.payload|), f.id, s.(endStream := true), p.value.(body := p.value.body + b));
      HandoffForgets(Credits(c1, f.id, |f.payload|), f.id, s.(endStream := true));
    }
  }

  lemma HandoffForgets(c: Conn, id: nat, s: Stream)
    ensures id !in Handoff(c, id, s).streams
  {
  }

  lemma OwnWindowUpdate(dec: Decoder, c: Conn, f: Frame, p: Option<Progress>)
    requires f.kind == WINDOW_UPDATE && f.id != 0 && Tracks(dec, c, f.id, p) && !OnWindowUpdate(c, f.id, f.payload).closing
    ensures Follows(dec, c, OnWindowUpdate(c, f.id, f.payload), f.id, Turned(p, f))
  {
    hide EventsOf, Be32, ResetStream;
    Refused(dec, c, f.id, PROTOCOL_ERROR);
    Refused(dec, c, f.id, FLOW_CONTROL_ERROR);
  }

  lemma OwnHandled(dec: Decoder, c: Conn, f: Frame, p: Option<Progress>)
    requires f.id != 0 && Tracks(dec, c, f.id, p) && (f.kind == HEADERS && p.None? ==> |c.streams| < MAX_STREAMS)
    requires !Handle(c, dec, f.kind, f.flags, f.id, f.payload).closing
    ensures Follows(dec, c, Handle(c, dec, f.kind, f.flags, f.id, f.payload), f.id, Turned(p, f))
  {
    hide EventsOf, OnHeaders, OnContinuation, OnData, OnWindowUpdate, Flag, Fragment, Collect, GrantedTo;
    if f.kind == HEADERS {
      OwnHeaders(dec, c, f, p);
    } else if f.kind == CONTINUATION {
      OwnContinuation(dec, c, f, p);
    } else if f.kind == DATA {
      OwnData(dec, c, f, p);
    } else if f.kind == WINDOW_UPDATE {
      OwnWindowUpdate(dec, c, f, p);
    }
  }

  /** A frame of the stream is taken as its turn says. */
  lemma OwnFrame(dec: Decoder, c: Conn, f: Frame, p: Option<Progress>)
    requires f.id != 0 && Tracks(dec, c, f.id, p) && (f.kind == HEADERS && p.None? ==> |c.streams| < MAX_STREAMS)
    requires !Receive(dec, c, f).closing
    ensures Follows(dec, c, Receive(dec, c, f), f.id, Turned(p, f))
  {
    hide EventsOf, Handle, Turned;
    if f.payload == [] { OwnHandled(dec, c, f, p); } else { OwnHandled(dec, Charged(c, f), f, p); }
  }

  // --------------------------------------------------------------------------
  // Every stream, every sequence of frames
  // --------------------------------------------------------------------------

  /** The frames among fs that belong to one stream, in order. */
  function Project(fs: seq<Frame>, id: nat): seq<Frame> {
    if fs == [] then []
    else (if fs[0].id == id then [fs[0]] else []) + Project(fs[1..], id)
  }

  /** Whenever a HEADERS frame opens the stream there is a free slot. */
  ghost predicate Room(dec: Decoder, c: Conn, fs: seq<Frame>, id: nat)
    decreases |fs|
  {
    fs != [] ==>
      && (fs[0].id == id && fs[0].kind == HEADERS && id !in c.streams ==> |c.streams| < MAX_STREAMS)
      && Room(dec, Receive(dec, c, fs[0]), fs[1..], id)
  }

  /**
   Whatever frames arrive, in whatever order and however mixed with those of other streams: as long as the
   connection stays open and has room for the stream, all that is said about it, its requests included, is what
   its own frames come to by themselves.
   */
  lemma {:induction false} Outcome(dec: Decoder, c: Conn, fs: seq<Frame>, id: nat, p: Option<Progress>)
    requires id != 0 && Tracks(dec, c, id, p) && Room(dec, c, fs, id) && !ReceiveAll(dec, c, fs).closing
    ensures Tracks(dec, ReceiveAll(dec, c, fs), id, Standing(p, Project(fs, id)))
    ensures EventsOf(ReceiveAll(dec, c, fs).out, id) == EventsOf(c.out, id) + Answers(dec, id, p, Project(fs, id))
    decreases |fs|
  {
    hide Receive, EventsOf, Turned, Said, Records, Project, Answers, Standing;
    Projected(fs, id);
    if fs == [] {
      NoFrames(dec, id, p, EventsOf(c.out, id));
    } else {
      var f, c' := fs[0], Receive(dec, c, fs[0]);
      StaysOpen(dec, c', fs[1..]);
      if f.id != id {
        OtherFrame(dec, c, f, id);
        Outcome(dec, c', fs[1..], id, p);
      } else {
        var p', rest := Turned(p, f).next, Project(fs[1..], id);
        OwnFrame(dec, c, f, p);
        Outcome(dec, c', fs[1..], id, p');
        OneFrame(dec, id, p, f, rest);
        Assoc(EventsOf(c.out, id), Said(dec, id, Turned(p, f)), Answers(dec, id, p', rest));
      }
    }
  }

  lemma Projected(fs: seq<Frame>, id: nat)
    ensures fs == [] ==> Project(fs, id) == []
    ensures fs != [] && fs[0].id != id ==> Project(fs, id) == Project(fs[1..], id)
    ensures fs != [] && fs[0].id == id ==> Project(fs, id) == [fs[0]] + Project(fs[1..], id)
  {
  }

  lemma NoFrames(dec: Decoder, id: nat, p: Option<Progress>, said: seq<Event>)
    ensures Standing(p, []) == p && said + Answers(dec, id, p, []) == said
  {
  }

  lemma OneFrame(dec: Decoder, id: nat, p: Option<Progress>, f: Frame, rest: seq<Frame>)
    ensures Standing(p, [f] + rest) == Standing(Turned(p, f).next, rest)
    ensures Answers(dec, id, p, [f] + rest) == Said(dec, id, Turned(p, f)) + Answers(dec, id, Turned(p, f).next, rest)
  {
    assert ([f] + rest)[1..] == rest;
  }

  lemma Assoc(a: seq<Event>, b: seq<Event>, c: seq<Event>)
    ensures (a + b) + c == a + (b + c) && [] + c == c
  {
  }

  /** The same of the bytes that the frames take on the wire, on a connection that is between frames. */
  lemma OutcomeOfBytes(dec: Decoder, c: Conn, fs: seq<Frame>, id: nat, p: Option<Progress>)
    requires id != 0 && Tracks(dec, c, id, p) && Room(dec, c, fs, id) && !ReceiveAll(dec, c, fs).closing
    requires (forall i :: 0 <= i < |fs| ==> ValidFrame(fs[i])) && c.phase.FrameHeader?
    ensures Steady(Frames(dec))
    ensures EventsOf(Run(Frames(dec), c, WireAll(fs)).0.out, id)
            == EventsOf(c.out, id) + Answers(dec, id, p, Project(fs, id))
  {
    BytesRun(dec, c, fs);
    Outcome(dec, c, fs, id, p);
  }

  // --------------------------------------------------------------------------
  // Whose headers a request carries
  // --------------------------------------------------------------------------

  /** The frames of one opening: from none, they end with the request q. */
  ghost predicate Completes(p: Option<Progress>, os: seq<Frame>, q: Progress)
    decreases |os|
  {
    os != [] &&
      var t := Turned(p, os[0]);
      if |os| == 1 then t.done == Some(q) else t.next.Some? && t.done.None? && Completes(t.next, os[1..], q)
  }

  /** The header blocks that the frames complete, given what was collected before: each from its HEADERS frame to END_HEADERS. */
  function Blocks(before: seq<Byte>, os: seq<Frame>): seq<seq<Byte>>
    decreases |os|
  {
    if os == [] then []
    else
      var block := Collecting(before, os[0]);
      if EndsHeaders(os[0]) then [block] + Blocks([], os[1..]) else Blocks(block, os[1..])
  }

  function Collecting(before: seq<Byte>, f: Frame): seq<Byte> {
    if f.kind !in {HEADERS, CONTINUATION} || Fragment(f).None? then before
    else if f.kind == HEADERS then Fragment(f).value else before + f.payload
  }

  function Bodies(os: seq<Frame>): seq<Byte>
    decreases |os|
  {
    if os == [] then []
    else (if os[0].kind == DATA && Fragment(os[0]).Some? then Fragment(os[0]).value else []) + Bodies(os[1..])
  }

  function HeaderEnds(os: seq<Frame>): nat
    decreases |os|
  {
    if os == [] then 0 else (if EndsHeaders(os[0]) then 1 else 0) + HeaderEnds(os[1..])
  }

  lemma {:induction false} BlocksCounted(before: seq<Byte>, os: seq<Frame>)
    ensures |Blocks(before, os)| == HeaderEnds(os)
    decreases |os|
  {
    hide EndsHeaders, Collecting;
    if os != [] { BlocksCounted(if EndsHeaders(os[0]) then [] else Collecting(before, os[0]), os[1..]); }
  }

  /** One frame that does not refuse: what it adds to the blocks, to what is collected, and to the body. */
  lemma TurnAdds(p: Progress, f: Frame)
    ensures var t := Turned(Some(p), f);
            var q := if t.done.Some? then t.done else t.next;
            q.Some? ==>
              && q.value.blocks == p.blocks + Blocks(p.pending, [f])
              && q.value.pending == (if EndsHeaders(f) then [] else Collecting(p.pending, f))
              && q.value.body == p.body + Bodies([f])
  {
    hide Flag, Unpadded, GrantedTo;
    assert [f][1..] == [];
    assert p.blocks + [] == p.blocks && p.body + [] == p.body;
  }

  /** The request consists of the blocks and the body of its frames. */
  lemma {:induction false} CompletesWith(p: Progress, os: seq<Frame>, q: Progress)
    requires Completes(Some(p), os, q)
    ensures q.blocks == p.blocks + Blocks(p.pending, os) && q.body == p.body + Bodies(os)
    decreases |os|
  {
    hide Turned, EndsHeaders, Collecting, Fragment;
    var f, rest, t := os[0], os[1..], Turned(Some(p), os[0]);
    TurnAdds(p, f);
    Split(p.pending, f, rest);
    assert os == [f] + rest;
    if |os| == 1 {
      assert rest == [];
    } else {
      CompletesWith(t.next.value, rest, q);
      assert (p.blocks + Blocks(p.pending, [f])) + Blocks(t.next.value.pending, rest) == p.blocks + Blocks(p.pending, os);
      assert (p.body + Bodies([f])) + Bodies(rest) == p.body + Bodies(os);
    }
  }

  lemma Split(before: seq<Byte>, f: Frame, rest: seq<Frame>)
    ensures Blocks(before, [f] + rest)
            == Blocks(before, [f]) + Blocks(if EndsHeaders(f) then [] else Collecting(before, f), rest)
    ensures Bodies([f] + rest) == Bodies([f]) + Bodies(rest)
  {
    hide EndsHeaders, Collecting, Fragment;
    assert ([f] + rest)[1..] == rest && [f][1..] == [];
  }

  /** What a request takes from its frames: all the DATA, and of the header blocks the last that was completed. */
  lemma RequestFrom(os: seq<Frame>, q: Progress)
    requires Completes(None, os, q)
    ensures q.blocks == Blocks([], os) && q.body == Bodies(os) && |q.blocks| == HeaderEnds(os)
  {
    BlocksCounted([], os);
    Opening(os, q);
    CompletesWith(Begun(), os, q);
    assert [] + Blocks([], os) == Blocks([], os) && [] + Bodies(os) == Bodies(os);
    hide Blocks, Bodies, Completes;
  }

  /** An opening begins with a HEADERS frame, which is taken as by a stream just begun. */
  lemma Opening(os: seq<Frame>, q: Progress)
    requires Completes(None, os, q)
    ensures os[0].kind == HEADERS && Completes(Some(Begun()), os, q)
  {
    hide Fragment, Collect, GrantedTo;
  }

  /** The block a request begins with: the first that was completed, or what was collected of it. */
  function FirstBlock(os: seq<Frame>): seq<Byte> {
    var bs := Blocks([], os);
    if bs == [] then Unfinished([], os) else bs[0]
  }

  function LastBlock(os: seq<Frame>): seq<Byte> {
    var bs := Blocks([], os);
    if bs == [] then [] else bs[|bs| - 1]
  }

  function Unfinished(before: seq<Byte>, os: seq<Frame>): seq<Byte>
    decreases |os|
  {
    if os == [] then before else Unfinished(Collecting(before, os[0]), os[1..])
  }

  /**
   A request carries the headers of its first block, whatever the decompressor, if and only if END_HEADERS came
   before the end of the stream and the last block completed before that end is the same as the first.  So it does
   if exactly one frame of the stream carries END_HEADERS before the end, and does not if none does.
   */
  lemma HeadersAreFirstBlock(os: seq<Frame>, q: Progress)
    requires Completes(None, os, q)
    ensures (forall dec: Decoder :: HeadersOf(dec, q.blocks) == dec(FirstBlock(os)))
            <==> HeaderEnds(os) > 0 && LastBlock(os) == FirstBlock(os)
    ensures HeaderEnds(os) == 1 ==> forall dec: Decoder :: HeadersOf(dec, q.blocks) == dec(FirstBlock(os))
    ensures HeaderEnds(os) == 0 ==> forall dec: Decoder :: HeadersOf(dec, q.blocks) == map[]
  {
    RequestFrom(os, q);
    hide Completes, Blocks, HeaderEnds;
    var first := FirstBlock(os);
    var dec: Decoder := b => if b == first then map[[1] := []] else map[];
    assert dec(first) != map[] by { assert [1] in dec(first); }
    assert HeadersOf(dec, q.blocks) == dec(first) ==> q.blocks != [] && q.blocks[|q.blocks| - 1] == first;
  }

  /** The frames of one opening make exactly one request. */
  lemma {:induction false} CompletedOnce(dec: Decoder, id: nat, p: Option<Progress>, os: seq<Frame>, q: Progress)
    requires Completes(p, os, q)
    ensures RequestsOf(Answers(dec, id, p, os), id) == [RequestOf(dec, id, q)]
    decreases |os|
  {
    hide Turned, RequestOf, RequestsOf;
    var t, rest := Turned(p, os[0]), os[1..];
    TurnRequests(dec, id, t);
    if |os| == 1 {
      assert rest == [] && Said(dec, id, t) + [] == Said(dec, id, t);
    } else {
      CompletedOnce(dec, id, t.next, rest, q);
      RequestsConcat(Said(dec, id, t), Answers(dec, id, t.next, rest), id);
      assert [] + [RequestOf(dec, id, q)] == [RequestOf(dec, id, q)];
    }
  }

  lemma TurnRequests(dec: Decoder, id: nat, t: Turn)
    ensures RequestsOf(Said(dec, id, t), id) == if t.done.Some? then [RequestOf(dec, id, t.done.value)] else []
  {
    var a := if t.credit > 0 then [Credit(id, t.credit)] else [];
    var b := if t.refused.Some? then [Reset(id, t.refused.value)] else [];
    var c := if t.done.Some? then [RequestOf(dec, id, t.done.value)] else [];
    RequestsConcat(a + b, c, id);
    RequestsConcat(a, b, id);
    RequestsSnoc([], Credit(id, t.credit), id);
    if t.refused.Some? { RequestsSnoc([], Reset(id, t.refused.value), id); }
    if t.done.Some? { RequestsSnoc([], RequestOf(dec, id, t.done.value), id); }
  }

  /**
   Among any frames of other streams, the frames of one opening hand over exactly one request: all the DATA, and the
   headers of the last block completed before the end, none if there was none.
   */
  lemma Dispatched(dec: Decoder, c: Conn, fs: seq<Frame>, id: nat, q: Progress)
    requires id != 0 && id !in c.streams && Completes(None, Project(fs, id), q)
    requires Room(dec, c, fs, id) && !ReceiveAll(dec, c, fs).closing
    ensures var os := Project(fs, id);
            RequestsOf(ReceiveAll(dec, c, fs).out, id)
            == RequestsOf(c.out, id) + [Dispatch(id, HeadersOf(dec, Blocks([], os)), Bodies(os))]
  {
    hide ReceiveAll, Room, Project, Completes, Answers, RequestsOf, EventsOf, Blocks, Bodies, HeadersOf;
    var os, c' := Project(fs, id), ReceiveAll(dec, c, fs);
    Outcome(dec, c, fs, id, None);
    CompletedOnce(dec, id, None, os, q);
    RequestFrom(os, q);
    RequestsConcat(EventsOf(c.out, id), Answers(dec, id, None, os), id);
    RequestsAmong(c.out, id);
    RequestsAmong(c'.out, id);
  }

  lemma PlainFrame(kind: Byte, last: bool, ends: bool, id: nat, payload: seq<Byte>)
    ensures var f := Frame(kind, HeaderFlags(last, ends), id, payload);
            && Fragment(f) == Some(payload) && (kind in {HEADERS, CONTINUATION} ==> EndsHeaders(f) == last)
            && (kind in {HEADERS, DATA} ==> EndsStream(f) == ends)
  {
    FlagsRead(last, ends);
    hide Flag;
    assert payload[0..|payload|] == payload;
  }

  /** END_STREAM before END_HEADERS: the request has no headers at all, whatever the block was going to be. */
  lemma EndBeforeEndHeaders(dec: Decoder, id: nat, block: seq<Byte>) returns (q: Progress)
    ensures Completes(None, [Frame(HEADERS, HeaderFlags(false, false), id, block), Frame(DATA, HeaderFlags(false, true), id, [])], q)
    ensures RequestOf(dec, id, q) == Dispatch(id, map[], [])
  {
    PlainFrame(HEADERS, false, false, id, block);
    PlainFrame(DATA, false, true, id, []);
    hide Fragment, Flag, HeaderFlags;
    var f, g := Frame(HEADERS, HeaderFlags(false, false), id, block), Frame(DATA, HeaderFlags(false, true), id, []);
    q := Begun().(pending := block, body := [] + []);
    assert [f, g][1..] == [g];
  }

  /** Trailers take the place of the request's own headers. */
  lemma TrailersReplaceHeaders(dec: Decoder, id: nat, block: seq<Byte>, trailer: seq<Byte>) returns (q: Progress)
    ensures Completes(None, [Frame(HEADERS, HeaderFlags(true, false), id, block), Frame(HEADERS, HeaderFlags(true, true), id, trailer)], q)
    ensures RequestOf(dec, id, q) == Dispatch(id, dec(trailer), [])
  {
    PlainFrame(HEADERS, true, false, id, block);
    PlainFrame(HEADERS, true, true, id, trailer);
    hide Fragment, Flag, HeaderFlags;
    var f, g := Frame(HEADERS, HeaderFlags(true, false), id, block), Frame(HEADERS, HeaderFlags(true, true), id, trailer);
    q := Begun().(blocks := [block] + [trailer], ended := true);
    assert [f, g][1..] == [g] && [] + [block] == [block];
  }

  /** So does a CONTINUATION frame that comes after END_HEADERS. */
  lemma LateContinuationReplacesHeaders(dec: Decoder, id: nat, block: seq<Byte>, other: seq<Byte>) returns (q: Progress)
    ensures Completes(None, [Frame(HEADERS, HeaderFlags(true, false), id, block),
                             Frame(CONTINUATION, HeaderFlags(true, false), id, other),
                             Frame(DATA, HeaderFlags(false, true), id, [])], q)
    ensures RequestOf(dec, id, q) == Dispatch(id, dec(other), [])
  {
    PlainFrame(HEADERS, true, false, id, block);
    PlainFrame(CONTINUATION, true, false, id, other);
    PlainFrame(DATA, false, true, id, []);
    hide Fragment, Flag, HeaderFlags;
    var f, g := Frame(HEADERS, HeaderFlags(true, false), id, block), Frame(CONTINUATION, HeaderFlags(true, false), id, other);
    var h := Frame(DATA, HeaderFlags(false, true), id, []);
    var p := Begun().(blocks := [block]);
    q := p.(blocks := [block] + [other], body := [] + []);
    assert [f, g, h][1..] == [g, h] && [g, h][1..] == [h] && [] + [block] == [block] && [] + other == other;
    assert Turned(Some(p), g) == GoOn(Some(q)) && Turned(Some(q), h).done == Some(q);
    assert Completes(Some(p), [g, h], q) by { assert Completes(Some(q), [h], q); }
  }

  // --------------------------------------------------------------------------
  // Whole requests
  // --------------------------------------------------------------------------

  /** END_HEADERS and END_STREAM. */
  function HeaderFlags(last: bool, ends: bool): Byte {
    if last then (if ends then 0x5 else 0x4) else if ends then 0x1 else 0x0
  }

  lemma FlagsRead(last: bool, ends: bool)
    ensures var flags := HeaderFlags(last, ends);
            !Flag(flags, 0x8) && !Flag(flags, 0x20) && Flag(flags, 0x1) == ends && Flag(flags, 0x4) == last
  {
  }

  /** A header block in one HEADERS and any CONTINUATION frames; the first carries END_STREAM if there is no body. */
  function HeaderFrames(id: nat, kind: Byte, frags: seq<seq<Byte>>, ends: bool): seq<Frame>
    requires frags != []
    decreases |frags|
  {
    if |frags| == 1 then [Frame(kind, HeaderFlags(true, ends), id, frags[0])]
    else [Frame(kind, HeaderFlags(false, ends), id, frags[0])] + HeaderFrames(id, CONTINUATION, frags[1..], false)
  }

  /** A body in DATA frames, the last with END_STREAM. */
  function DataFrames(id: nat, chunks: seq<seq<Byte>>): seq<Frame>
    decreases |chunks|
  {
    if chunks == [] then []
    else [Frame(DATA, HeaderFlags(false, |chunks| == 1), id, chunks[0])] + DataFrames(id, chunks[1..])
  }

  function RequestFrames(id: nat, frags: seq<seq<Byte>>, chunks: seq<seq<Byte>>): seq<Frame>
    requires frags != []
  {
    HeaderFrames(id, HEADERS, frags, chunks == []) + DataFrames(id, chunks)
  }

  /** A frame that carries nothing of the request: credit for the response, or a kind that is ignored. */
  predicate Skippable(f: Frame) {
    f.kind !in {HEADERS, CONTINUATION, DATA, RST_STREAM} && (f.kind == WINDOW_UPDATE ==> |f.payload| == 4 && GrantedTo(f) > 0)
  }

  /** A frame without padding, priority fields and flags that do not matter. */
  function Plain(f: Frame): Frame {
    if f.kind !in {HEADERS, CONTINUATION, DATA} || Fragment(f).None? then f
    else Frame(f.kind, HeaderFlags(EndsHeaders(f), EndsStream(f)), f.id, Fragment(f).value)
  }

  function Contents(os: seq<Frame>): seq<Frame>
    decreases |os|
  {
    if os == [] then [] else (if Skippable(os[0]) then [] else [Plain(os[0])]) + Contents(os[1..])
  }

  /** The credit for the stream's DATA frames, padding included. */
  function CreditsFor(id: nat, os: seq<Frame>): seq<Event>
    decreases |os|
  {
    if os == [] then [] else CreditFor(id, os[0]) + CreditsFor(id, os[1..])
  }

  function CreditFor(id: nat, f: Frame): seq<Event> {
    if f.kind == DATA && f.payload != [] then [Credit(id, |f.payload|)] else []
  }

  lemma Unroll(dec: Decoder, id: nat, p: Option<Progress>, os: seq<Frame>)
    requires os != []
    ensures Answers(dec, id, p, os) == Said(dec, id, Turned(p, os[0])) + Answers(dec, id, Turned(p, os[0]).next, os[1..])
    ensures CreditsFor(id, os) == CreditFor(id, os[0]) + CreditsFor(id, os[1..])
    ensures GrantedAll(os) == GrantedTo(os[0]) + GrantedAll(os[1..])
  {
    hide Turned, Said, CreditFor, GrantedTo;
  }

  /** What is said of a frame that goes on, of one that is credited, and of one that completes the request. */
  lemma Saying(dec: Decoder, id: nat, f: Frame, p: Option<Progress>, q: Progress)
    ensures Said(dec, id, GoOn(p)) == [] && (f.kind != DATA ==> CreditFor(id, f) == [])
    ensures Said(dec, id, Turn(None, 0, Some(q), None)) == [RequestOf(dec, id, q)]
    ensures f.kind == DATA ==>
              && Said(dec, id, Turn(p, |f.payload|, None, None)) == CreditFor(id, f)
              && Said(dec, id, Turn(None, |f.payload|, Some(q), None)) == CreditFor(id, f) + [RequestOf(dec, id, q)]
  {
  }

  function GrantedAll(os: seq<Frame>): nat
    decreases |os|
  {
    if os == [] then 0 else GrantedTo(os[0]) + GrantedAll(os[1..])
  }

  /** A frame that is plainly a part of a request is one, with the same fragment and ends. */
  lemma PlainIs(f: Frame, kind: Byte, last: bool, ends: bool, id: nat, b: seq<Byte>)
    requires kind in {HEADERS, CONTINUATION, DATA} && Plain(f) == Frame(kind, HeaderFlags(last, ends), id, b)
    requires (kind == CONTINUATION ==> !ends) && (kind == DATA ==> !last)
    ensures f.kind == kind && Fragment(f) == Some(b) && EndsHeaders(f) == last && EndsStream(f) == ends && GrantedTo(f) == 0
  {
    FlagsRead(last, ends);
    hide Flag;
    if Fragment(f).None? {
      PlainFrame(kind, last, ends, id, b);
    } else {
      FlagsDiffer(EndsHeaders(f), EndsStream(f), last, ends);
    }
  }

  lemma FlagsDiffer(a: bool, b: bool, c: bool, d: bool)
    ensures HeaderFlags(a, b) == HeaderFlags(c, d) ==> a == c && b == d
  {
  }

  lemma FirstContent(os: seq<Frame>, own: seq<Frame>)
    requires os != [] && Contents(os) == own
    ensures Skippable(os[0]) ==> Contents(os[1..]) == own
    ensures !Skippable(os[0]) ==> own != [] && own[0] == Plain(os[0]) && Contents(os[1..]) == own[1..]
  {
    hide Skippable, Plain;
    if !Skippable(os[0]) { assert ([Plain(os[0])] + Contents(os[1..]))[1..] == Contents(os[1..]); }
  }

  lemma SkipTurn(p: Option<Progress>, f: Frame)
    requires Skippable(f) && (p.Some? ==> p.value.window + GrantedTo(f) <= MAX_WINDOW)
    ensures Turned(p, f) == GoOn(if p.Some? then Some(p.value.(window := p.value.window + GrantedTo(f))) else None)
    ensures f.kind != DATA
  {
  }

  /** Once the request is complete, what can be skipped says nothing more. */
  lemma {:induction false} NothingMore(dec: Decoder, id: nat, os: seq<Frame>)
    requires Contents(os) == []
    ensures Answers(dec, id, None, os) == [] && CreditsFor(id, os) == []
    decreases |os|
  {
    hide Skippable, Plain, Turned, GrantedTo;
    if os != [] {
      FirstContent(os, []);
      SkipTurn(None, os[0]);
      NothingMore(dec, id, os[1..]);
    }
  }

  /** The body: the rest of the DATA frames completes the request, whatever can be skipped in between. */
  lemma {:induction false} BodyAnswers(dec: Decoder, id: nat, p: Progress, os: seq<Frame>, chunks: seq<seq<Byte>>)
    requires os != [] && chunks != [] && Contents(os) == DataFrames(id, chunks)
    requires |p.body| + |Concat(chunks)| <= MAX_BODY_BYTES && p.window + GrantedAll(os) <= MAX_WINDOW
    ensures Answers(dec, id, Some(p), os)
            == CreditsFor(id, os) + [Dispatch(id, HeadersOf(dec, p.blocks), p.body + Concat(chunks))]
    decreases |os|
  {
    hide Skippable, Plain, Turned, GrantedTo, HeaderFlags, Answers, CreditsFor, GrantedAll, Contents, Said, CreditFor, Concat;
    var f, rest, last := os[0], os[1..], |chunks| == 1;
    Unroll(dec, id, Some(p), os);
    var q := p.(body := p.body + chunks[0]);
    Saying(dec, id, f, Turned(Some(p), f).next, q);
    FirstContent(os, DataFrames(id, chunks));
    ConcatFirst(chunks, p.body);
    if Skippable(f) {
      SkipTurn(Some(p), f);
      SomeContent(rest);
      BodyAnswers(dec, id, p.(window := p.window + GrantedTo(f)), rest, chunks);
    } else {
      DataPlain(f, id, chunks[0], last);
      DataTurn(p, f, chunks[0], last);
      assert DataFrames(id, chunks)[1..] == DataFrames(id, chunks[1..]);
      if last {
        NothingMore(dec, id, rest);
      } else {
        SomeContent(rest);
        BodyAnswers(dec, id, q, rest, chunks[1..]);
        Assoc(CreditFor(id, f), CreditsFor(id, rest), [Dispatch(id, HeadersOf(dec, p.blocks), p.body + Concat(chunks))]);
      }
    }
  }

  lemma SomeContent(os: seq<Frame>)
    ensures Contents(os) != [] ==> os != []
  {
  }

  lemma ConcatFirst(parts: seq<seq<Byte>>, before: seq<Byte>)
    requires parts != []
    ensures before + Concat(parts) == (before + parts[0]) + Concat(parts[1..])
    ensures |Concat(parts)| == |parts[0]| + |Concat(parts[1..])|
    ensures |parts| == 1 ==> before + Concat(parts) == before + parts[0] && Concat(parts) == parts[0]
  {
  }

  lemma DataPlain(f: Frame, id: nat, b: seq<Byte>, last: bool)
    requires Plain(f) == Frame(DATA, HeaderFlags(false, last), id, b)
    ensures f.kind == DATA && Fragment(f) == Some(b) && EndsStream(f) == last && GrantedTo(f) == 0
  {
    PlainIs(f, DATA, false, last, id, b);
  }

  lemma DataTurn(p: Progress, f: Frame, b: seq<Byte>, last: bool)
    requires f.kind == DATA && Fragment(f) == Some(b) && EndsStream(f) == last && |p.body| + |b| <= MAX_BODY_BYTES
    ensures var q := p.(body := p.body + b);
            Turned(Some(p), f) == if last then Turn(None, |f.payload|, Some(q), None) else Turn(Some(q), |f.payload|, None, None)
  {
    hide Fragment, EndsStream;
  }

  /** The header block: the rest of the CONTINUATION frames and then the body. */
  lemma {:induction false} BlockAnswers(
    dec: Decoder, id: nat, p: Progress, os: seq<Frame>, frags: seq<seq<Byte>>, chunks: seq<seq<Byte>>)
    requires os != [] && frags != [] && p.ended == (chunks == [])
    requires Contents(os) == HeaderFrames(id, CONTINUATION, frags, false) + DataFrames(id, chunks)
    requires |p.body| + |Concat(chunks)| <= MAX_BODY_BYTES && p.window + GrantedAll(os) <= MAX_WINDOW
    ensures Answers(dec, id, Some(p), os)
            == CreditsFor(id, os) + [Dispatch(id, dec(p.pending + Concat(frags)), p.body + Concat(chunks))]
    decreases |os|
  {
    hide Skippable, Plain, Turned, GrantedTo, HeaderFlags, DataFrames, Answers, CreditsFor, GrantedAll, Contents, Said,
         CreditFor, Concat;
    var f, rest, last := os[0], os[1..], |frags| == 1;
    Unroll(dec, id, Some(p), os);
    var q := p.(blocks := p.blocks + [p.pending + frags[0]], pending := []);
    Saying(dec, id, f, Turned(Some(p), f).next, q);
    var own := HeaderFrames(id, CONTINUATION, frags, false) + DataFrames(id, chunks);
    FirstContent(os, own);
    ConcatFirst(frags, p.pending);
    if Skippable(f) {
      SkipTurn(Some(p), f);
      SomeContent(rest);
      BlockAnswers(dec, id, p.(window := p.window + GrantedTo(f)), rest, frags, chunks);
    } else {
      PlainIs(f, CONTINUATION, last, false, id, frags[0]);
      var block := p.pending + frags[0];
      ContinuationTurn(p, f, frags[0], last);
      if !last {
        assert own[1..] == HeaderFrames(id, CONTINUATION, frags[1..], false) + DataFrames(id, chunks);
        SomeContent(rest);
        BlockAnswers(dec, id, p.(pending := block), rest, frags[1..], chunks);
      } else {
        assert own[1..] == DataFrames(id, chunks);
        AfterBlock(dec, id, q, rest, chunks);
      }
    }
  }

  lemma ContinuationTurn(p: Progress, f: Frame, b: seq<Byte>, last: bool)
    requires f.kind == CONTINUATION && Fragment(f) == Some(b) && EndsHeaders(f) == last
    ensures var q := p.(blocks := p.blocks + [p.pending + b], pending := []);
            Turned(Some(p), f) == if !last then GoOn(Some(p.(pending := p.pending + b)))
                                  else if p.ended then Turn(None, 0, Some(q), None) else GoOn(Some(q))
  {
    hide EndsHeaders;
  }

  /** After the block: nothing more, or the body. */
  lemma AfterBlock(dec: Decoder, id: nat, p: Progress, os: seq<Frame>, chunks: seq<seq<Byte>>)
    requires p.blocks != [] && Contents(os) == DataFrames(id, chunks)
    requires |p.body| + |Concat(chunks)| <= MAX_BODY_BYTES && p.window + GrantedAll(os) <= MAX_WINDOW
    ensures var request := Dispatch(id, dec(p.blocks[|p.blocks| - 1]), p.body + Concat(chunks));
            && (chunks != [] ==> Answers(dec, id, Some(p), os) == CreditsFor(id, os) + [request])
            && (chunks == [] ==> Answers(dec, id, None, os) == CreditsFor(id, os) == [] && request == RequestOf(dec, id, p))
  {
    hide Contents, CreditsFor, GrantedAll, Answers;
    if chunks == [] {
      NothingMore(dec, id, os);
      assert p.body + [] == p.body;
    } else {
      assert DataFrames(id, chunks) != [];
      SomeContent(os);
      BodyAnswers(dec, id, p, os, chunks);
    }
  }

  lemma HeadersTurn(f: Frame, b: seq<Byte>, last: bool, ends: bool)
    requires f.kind == HEADERS && Fragment(f) == Some(b) && EndsHeaders(f) == last && EndsStream(f) == ends
    ensures var q := Begun().(ended := ends, blocks := [b]);
            Turned(None, f) == if !last then GoOn(Some(Begun().(ended := ends, pending := b)))
                               else if ends then Turn(None, 0, Some(q), None) else GoOn(Some(q))
  {
    hide EndsHeaders, EndsStream, Fragment;
    assert [] + [b] == [b];
  }

  /** The stream's own frames, from none: exactly one request, with the whole block and the whole body. */
  lemma {:induction false} WholeAnswers(
    dec: Decoder, id: nat, os: seq<Frame>, frags: seq<seq<Byte>>, chunks: seq<seq<Byte>>)
    requires frags != [] && Contents(os) == RequestFrames(id, frags, chunks)
    requires |Concat(chunks)| <= MAX_BODY_BYTES && INITIAL_WINDOW + GrantedAll(os) <= MAX_WINDOW
    ensures Answers(dec, id, None, os) == CreditsFor(id, os) + [Dispatch(id, dec(Concat(frags)), Concat(chunks))]
    decreases |os|
  {
    hide Skippable, Plain, Turned, GrantedTo, HeaderFlags, DataFrames, Answers, CreditsFor, GrantedAll, Contents, Said,
         CreditFor, Concat;
    var own := RequestFrames(id, frags, chunks);
    SomeContent(os);
    var f, rest, last, ends := os[0], os[1..], |frags| == 1, chunks == [];
    Unroll(dec, id, None, os);
    var q := Begun().(ended := ends, blocks := [frags[0]]);
    Saying(dec, id, f, Turned(None, f).next, q);
    FirstContent(os, own);
    if Skippable(f) {
      SkipTurn(None, f);
      WholeAnswers(dec, id, rest, frags, chunks);
    } else {
      PlainIs(f, HEADERS, last, ends, id, frags[0]);
      HeadersTurn(f, frags[0], last, ends);
      ConcatFirst(frags, []);
      assert [] + Concat(frags) == Concat(frags) && [] + Concat(chunks) == Concat(chunks) && [] + frags[0] == frags[0];
      if !last {
        assert own[1..] == HeaderFrames(id, CONTINUATION, frags[1..], false) + DataFrames(id, chunks);
        SomeContent(rest);
        BlockAnswers(dec, id, Begun().(ended := ends, pending := frags[0]), rest, frags[1..], chunks);
      } else {
        assert own[1..] == DataFrames(id, chunks);
        AfterBlock(dec, id, q, rest, chunks);
      }
    }
  }

  /**
   However its block and body are cut into frames, padded or prefixed with priority fields, and whatever frames of
   other streams, window updates and ignored kinds of its own arrive in between: a request is handed over exactly
   once, with the headers of the whole block and the whole body, after credit for each DATA frame, unless the
   connection fails.
   */
  lemma RequestCompletes(
    dec: Decoder, c: Conn, id: nat, fs: seq<Frame>, frags: seq<seq<Byte>>, chunks: seq<seq<Byte>>)
    requires id != 0 && id !in c.streams && frags != [] && Contents(Project(fs, id)) == RequestFrames(id, frags, chunks)
    requires |Concat(chunks)| <= MAX_BODY_BYTES && INITIAL_WINDOW + GrantedAll(Project(fs, id)) <= MAX_WINDOW
    requires Room(dec, c, fs, id) && !ReceiveAll(dec, c, fs).closing
    ensures EventsOf(ReceiveAll(dec, c, fs).out, id)
            == EventsOf(c.out, id) + (CreditsFor(id, Project(fs, id)) + [Dispatch(id, dec(Concat(frags)), Concat(chunks))])
  {
    hide ReceiveAll, Room, Contents, Answers, EventsOf, Concat;
    Outcome(dec, c, fs, id, None);
    WholeAnswers(dec, id, Project(fs, id), frags, chunks);
  }

  /** The same of the bytes: the machine, fed the frames' bytes, hands the request over. */
  lemma RequestFromBytes(
    dec: Decoder, c: Conn, id: nat, fs: seq<Frame>, frags: seq<seq<Byte>>, chunks: seq<seq<Byte>>)
    requires id != 0 && id !in c.streams && frags != [] && Contents(Project(fs, id)) == RequestFrames(id, frags, chunks)
    requires |Concat(chunks)| <= MAX_BODY_BYTES && INITIAL_WINDOW + GrantedAll(Project(fs, id)) <= MAX_WINDOW
    requires Room(dec, c, fs, id) && !ReceiveAll(dec, c, fs).closing
    requires (forall i :: 0 <= i < |fs| ==> ValidFrame(fs[i])) && c.phase.FrameHeader?
    ensures Steady(Frames(dec))
    ensures EventsOf(Run(Frames(dec), c, WireAll(fs)).0.out, id)
            == EventsOf(c.out, id) + (CreditsFor(id, Project(fs, id)) + [Dispatch(id, dec(Concat(frags)), Concat(chunks))])
  {
    hide ReceiveAll, Room, Contents, Answers, EventsOf, Concat, ValidFrame, Run, Steady, WireAll;
    BytesRun(dec, c, fs);
    RequestCompletes(dec, c, id, fs, frags, chunks);
  }

  // --------------------------------------------------------------------------
  // Reset streams
  // --------------------------------------------------------------------------

  lemma SameRequests(a: seq<Event>, b: seq<Event>, id: nat)
    requires EventsOf(a, id) == EventsOf(b, id)
    ensures RequestsOf(a, id) == RequestsOf(b, id)
  {
    RequestsAmong(a, id);
    RequestsAmong(b, id);
  }

  lemma FatalHands(c: Conn, code: nat, id: nat)
    ensures RequestsOf(Fatal(c, code).out, id) == RequestsOf(c.out, id) == RequestsOf(OnGoaway(c).out, id)
    ensures Fatal(c, code).streams == c.streams == OnGoaway(c).streams
  {
    FatalAside(c, code, id);
    SameRequests(Fatal(c, code).out, c.out, id);
    SameRequests(OnGoaway(c).out, c.out, id);
    hide EventsOf, RequestsOf;
  }

  lemma UnknownHandled(dec: Decoder, c: Conn, f: Frame, payload: seq<Byte>)
    requires f.id !in c.streams && f.kind != HEADERS
    ensures var c' := Handle(c, dec, f.kind, f.flags, f.id, payload);
            f.id !in c'.streams && RequestsOf(c'.out, f.id) == RequestsOf(c.out, f.id)
  {
    hide RequestsOf, Fatal, Flag, Be32, OnGoaway;
    FatalHands(c, PROTOCOL_ERROR, f.id);
    FatalHands(c, FRAME_SIZE_ERROR, f.id);
    FatalHands(c, FLOW_CONTROL_ERROR, f.id);
    RequestsSnoc(c.out, Reset(f.id, PROTOCOL_ERROR), f.id);
    RequestsSnoc(c.out, SettingsAcked, f.id);
    RequestsSnoc(c.out, Pong(payload), f.id);
  }

  lemma UnknownFrame(dec: Decoder, c: Conn, f: Frame)
    requires f.id !in c.streams && f.kind != HEADERS
    ensures f.id !in Receive(dec, c, f).streams
    ensures RequestsOf(Receive(dec, c, f).out, f.id) == RequestsOf(c.out, f.id)
  {
    hide RequestsOf, Handle;
    UnknownHandled(dec, c, f, []);
    UnknownHandled(dec, Charged(c, f), f, f.payload);
  }

  lemma {:induction false} UnknownStays(dec: Decoder, c: Conn, id: nat, fs: seq<Frame>)
    requires id != 0 && id !in c.streams && forall i :: 0 <= i < |fs| && fs[i].id == id ==> fs[i].kind != HEADERS
    ensures RequestsOf(ReceiveAll(dec, c, fs).out, id) == RequestsOf(c.out, id)
    decreases |fs|
  {
    hide RequestsOf, EventsOf, Receive;
    if fs != [] {
      var c' := Receive(dec, c, fs[0]);
      if fs[0].id == id {
        UnknownFrame(dec, c, fs[0]);
      } else {
        OtherFrame(dec, c, fs[0], id);
        SameRequests(c'.out, c.out, id);
      }
      UnknownStays(dec, c', id, fs[1..]);
    }
  }

  /** After RST_STREAM, nothing of the request is handed over unless a new HEADERS frame opens the stream again. */
  lemma ResetForgets(dec: Decoder, c: Conn, id: nat, code: seq<Byte>, fs: seq<Frame>)
    requires id != 0 && |code| == 4
    requires forall i :: 0 <= i < |fs| && fs[i].id == id ==> fs[i].kind != HEADERS
    ensures RequestsOf(ReceiveAll(dec, c, [Frame(RST_STREAM, 0, id, code)] + fs).out, id) == RequestsOf(c.out, id)
  {
    var f := Frame(RST_STREAM, 0, id, code);
    assert ([f] + fs)[1..] == fs;
    UnknownStays(dec, Receive(dec, c, f), id, fs);
    hide RequestsOf;
  }

  // --------------------------------------------------------------------------
  // The connection's own frames
  // --------------------------------------------------------------------------

  function Pongs(out: seq<Event>): seq<seq<Byte>> {
    if out == [] then []
    else
      var e := out[|out| - 1];
      Pongs(out[..|out| - 1]) + if e.Pong? then [e.data] else []
  }

  function SettingsAcks(out: seq<Event>): nat {
    if out == [] then 0 else SettingsAcks(out[..|out| - 1]) + if out[|out| - 1].SettingsAcked? then 1 else 0
  }

  /** A frame of the given kind that is not itself an acknowledgement. */
  function AskedBy(f: Frame, kind: Byte): seq<seq<Byte>> {
    if f.kind == kind && !Flag(f.flags, 0x1) then [f.payload] else []
  }

  /** The payloads of those frames, in order. */
  function Asked(fs: seq<Frame>, kind: Byte): seq<seq<Byte>> {
    if fs == [] then [] else AskedBy(fs[0], kind) + Asked(fs[1..], kind)
  }

  function GrantedBy(f: Frame): nat { if f.id == 0 then GrantedTo(f) else 0 }

  /** The sum of the connection's window increments. */
  function Granted(fs: seq<Frame>): nat { if fs == [] then 0 else GrantedBy(fs[0]) + Granted(fs[1..]) }

  /** What the connection owes its peer, apart from requests. */
  datatype Ledger = Ledger(pongs: seq<seq<Byte>>, settings: seq<seq<Byte>>, acks: nat, window: int)

  function LedgerOf(c: Conn): Ledger { Ledger(Pongs(c.out), c.settings, SettingsAcks(c.out), c.sendWindow) }

  lemma EmitLedger(c: Conn, e: Event)
    ensures Pongs(Emit(c, e).out) == Pongs(c.out) + if e.Pong? then [e.data] else []
    ensures SettingsAcks(Emit(c, e).out) == SettingsAcks(c.out) + if e.SettingsAcked? then 1 else 0
  {
    assert (c.out + [e])[..|c.out|] == c.out;
  }

  lemma ResetLedger(c: Conn, id: nat, code: nat)
    ensures LedgerOf(ResetStream(c, id, code)) == LedgerOf(c)
  {
    hide Pongs, SettingsAcks;
    EmitLedger(c, Reset(id, code));
  }

  lemma EndLedger(c: Conn, dec: Decoder, id: nat, s: Stream, complete: bool)
    ensures LedgerOf(EndHeaders(c, dec, id, s, complete)) == LedgerOf(c) && LedgerOf(Handoff(c, id, s)) == LedgerOf(c)
  {
    hide Pongs, SettingsAcks;
    var s' := s.(headers := dec(s.pending), pending := []);
    EmitLedger(c.(lastHandled := id), Dispatch(id, s.headers, s.body));
    EmitLedger(c.(lastHandled := id), Dispatch(id, s'.headers, s'.body));
  }

  lemma HeadersLedger(c: Conn, dec: Decoder, flags: Byte, id: nat, payload: seq<Byte>)
    ensures !OnHeaders(c, dec, flags, id, payload).closing ==> LedgerOf(OnHeaders(c, dec, flags, id, payload)) == LedgerOf(c)
  {
    hide Pongs, SettingsAcks, ResetStream, EndHeaders, Flag, Unpadded, Started;
    ResetLedger(c, id, REFUSED_STREAM);
    var c1 := Opened(c, id);
    ResetLedger(c1, id, PROTOCOL_ERROR);
    var u := Unpadded(flags, payload);
    if u.Some? && !(Flag(flags, 0x20) && u.value.0 + 5 > u.value.1) {
      EndLedger(c1, dec, id, Started(c1.streams[id], flags, payload, u.value.0, u.value.1), Flag(flags, 0x1));
    }
  }

  lemma ContinuationLedger(c: Conn, dec: Decoder, flags: Byte, id: nat, payload: seq<Byte>)
    ensures var c' := OnContinuation(c, dec, flags, id, payload);
            !c'.closing ==> LedgerOf(c') == LedgerOf(c)
  {
    hide Pongs, SettingsAcks, EndHeaders, Flag;
    if id in c.streams {
      var s := c.streams[id].(pending := c.streams[id].pending + payload);
      EndLedger(c, dec, id, s, s.endStream);
    }
  }

  lemma DataLedger(c: Conn, dec: Decoder, flags: Byte, id: nat, payload: seq<Byte>)
    ensures !OnData(c, flags, id, payload).closing ==> LedgerOf(OnData(c, flags, id, payload)) == LedgerOf(c)
  {
    hide Pongs, SettingsAcks, ResetStream, Handoff, Flag, Unpadded, Extended;
    ResetLedger(c, id, PROTOCOL_ERROR);
    ResetLedger(c, id, ENHANCE_YOUR_CALM);
    var u := Unpadded(flags, payload);
    if id in c.streams && u.Some? {
      var s := Extended(c.streams[id], payload[u.value.0..u.value.1]);
      var c1, n := c.(streams := c.streams[id := s]), |payload|;
      EmitLedger(c1, Credit(0, n));
      EmitLedger(Emit(c1, Credit(0, n)), Credit(id, n));
      EndLedger(Credits(c1, id, n), dec, id, s.(endStream := true), true);
    }
  }

  /** The ledger after one frame that does not close the connection. */
  function Entered(l: Ledger, f: Frame): Ledger {
    Ledger(l.pongs + AskedBy(f, PING), l.settings + AskedBy(f, SETTINGS),
           l.acks + |AskedBy(f, SETTINGS)|, l.window + GrantedBy(f))
  }

  lemma NothingEntered(l: Ledger, f: Frame)
    requires AskedBy(f, PING) == [] && AskedBy(f, SETTINGS) == [] && GrantedBy(f) == 0
    ensures Entered(l, f) == l
  {
    assert l.pongs + [] == l.pongs && l.settings + [] == l.settings;
  }

  lemma OwnLedger(c: Conn, f: Frame)
    ensures f.kind == SETTINGS ==>
              var c' := OnSettings(c, f.flags, f.id, f.payload); !c'.closing ==> LedgerOf(c') == Entered(LedgerOf(c), f)
    ensures f.kind == PING ==>
              var c' := OnPing(c, f.flags, f.id, f.payload); !c'.closing ==> LedgerOf(c') == Entered(LedgerOf(c), f)
    ensures f.kind == WINDOW_UPDATE ==>
              var c' := OnWindowUpdate(c, f.id, f.payload); !c'.closing ==> LedgerOf(c') == Entered(LedgerOf(c), f)
  {
    hide Pongs, SettingsAcks, ResetStream, Flag, Be32;
    EmitLedger(c.(settings := c.settings + [f.payload]), SettingsAcked);
    EmitLedger(c, Pong(f.payload));
    ResetLedger(c, f.id, PROTOCOL_ERROR);
    ResetLedger(c, f.id, FLOW_CONTROL_ERROR);
    var l := LedgerOf(c);
    assert l.pongs + [] == l.pongs && l.settings + [] == l.settings;
  }

  lemma HandleLedger(c: Conn, dec: Decoder, f: Frame)
    ensures var c' := Handle(c, dec, f.kind, f.flags, f.id, f.payload);
            !c'.closing ==> LedgerOf(c') == Entered(LedgerOf(c), f)
  {
    hide Pongs, SettingsAcks, OnHeaders, OnContinuation, OnData, OnSettings, OnPing, OnWindowUpdate, Flag, Be32, Entered;
    OwnLedger(c, f);
    if f.kind !in {SETTINGS, PING, WINDOW_UPDATE} { NothingEntered(LedgerOf(c), f); }
    HeadersLedger(c, dec, f.flags, f.id, f.payload);
    ContinuationLedger(c, dec, f.flags, f.id, f.payload);
    DataLedger(c, dec, f.flags, f.id, f.payload);
  }

  /**
   While the connection stays open, every PING is answered with its own data, in order; every SETTINGS frame
   is kept and acknowledged; and the send window has grown by exactly the connection's increments.
   */
  lemma {:induction false} LedgerKept(dec: Decoder, c: Conn, fs: seq<Frame>)
    requires !ReceiveAll(dec, c, fs).closing
    ensures var l, l' := LedgerOf(c), LedgerOf(ReceiveAll(dec, c, fs));
            && l'.pongs == l.pongs + Asked(fs, PING) && l'.settings == l.settings + Asked(fs, SETTINGS)
            && l'.acks == l.acks + |Asked(fs, SETTINGS)| && l'.window == l.window + Granted(fs)
    decreases |fs|
  {
    hide Pongs, SettingsAcks, AskedBy, GrantedBy, Handle;
    if fs == [] {
      assert c.settings + [] == c.settings;
    } else {
      var f, c' := fs[0], Receive(dec, c, fs[0]);
      StaysOpen(dec, c', fs[1..]);
      HandleLedger(c, dec, f);
      HandleLedger(Charged(c, f), dec, f);
      LedgerKept(dec, c', fs[1..]);
    }
  }
}
