/**
 Connection-level receive flow control (connection.cpp, `on_stream_frame`,
 `on_reset_stream_frame`, `refresh_conn_recv_window`, `extend_conn_recv_window`,
 `retire_closed_streams`): how much data and how many streams the peer may send.
 */
module ConnWindow {
  import opened Bytes
  import opened Sums
  import R = Reassembly
  import S = Slots

  const MAX_OFFSET: nat := 0x3FFF_FFFF_FFFF_FFFF

  const FLOW_CONTROL_ERROR: nat := 0x03
  const STREAM_LIMIT_ERROR: nat := 0x04
  const FINAL_SIZE_ERROR: nat := 0x06

  /** The server's own transport parameters. */
  datatype Params = Params(
    maxData: nat, bidiLocal: nat, bidiRemote: nat, uni: nat, streamsBidi: nat, streamsUni: nat)

  type Receivers = map<nat, R.Recv>

  /** The two low bits of a stream id give its kind: who opened it, and whether it goes both ways. */
  predicate FromClient(id: nat) { id % 4 in {0, 2} }

  predicate Bidi(id: nat) { id % 4 in {0, 1} }

  function Index(id: nat): nat { id / 4 }

  function IdOf(bidi: bool, i: nat): nat { if bidi then 4 * i else 4 * i + 2 }

  function InitialLimit(p: Params, id: nat): nat {
    if Bidi(id) then (if FromClient(id) then p.bidiRemote else p.bidiLocal)
    else if FromClient(id) then p.uni else 0
  }

  function NewStream(p: Params, id: nat): R.Recv {
    R.Recv(map[], 0, 0, InitialLimit(p, id), None, None, R.Receiving)
  }

  function Ensured(p: Params, streams: Receivers, id: nat): Receivers {
    if id in streams then streams else streams[id := NewStream(p, id)]
  }

  function Highs(streams: Receivers): map<nat, nat> {
    map id | id in streams :: streams[id].highWater
  }

  function Reads(streams: Receivers): map<nat, nat> {
    map id | id in streams :: streams[id].readOff
  }

  predicate RecvDone(r: R.Recv) {
    r.phase in {R.DataRead, R.ResetRead, R.ResetRecvd}
  }

  /** Both directions the stream has are finished; `sendDone` are the streams whose send side is. */
  predicate Terminal(streams: Receivers, sendDone: set<nat>, id: nat) {
    && id in streams
    && (if Bidi(id) then RecvDone(streams[id]) && id in sendDone
        else if FromClient(id) then RecvDone(streams[id]) else id in sendDone)
  }

  ghost function Live(streams: Receivers, bidi: bool): set<nat> {
    set id | id in streams && FromClient(id) && Bidi(id) == bidi :: Index(id)
  }

  lemma Naming(id: nat, bidi: bool, i: nat)
    ensures FromClient(id) && Bidi(id) == bidi && Index(id) == i <==> id == IdOf(bidi, i)
  {
    assert id == 4 * Index(id) + id % 4;
  }

  lemma LiveHas(streams: Receivers, bidi: bool, i: nat)
    ensures i in Live(streams, bidi) <==> IdOf(bidi, i) in streams
  {
    hide FromClient, Bidi, Index, IdOf;
    Naming(IdOf(bidi, i), bidi, i);
    if i in Live(streams, bidi) {
      var d :| d in streams && FromClient(d) && Bidi(d) == bidi && Index(d) == i;
      Naming(d, bidi, i);
    }
  }

  lemma LiveOpen(streams: Receivers, id: nat, r: R.Recv, bidi: bool)
    ensures Live(streams[id := r], bidi)
            == Live(streams, bidi) + if FromClient(id) && Bidi(id) == bidi then {Index(id)} else {}
  {
    hide FromClient, Bidi, Index;
  }

  lemma LiveRetire(streams: Receivers, id: nat, bidi: bool)
    requires id in streams
    ensures Live(streams - {id}, bidi)
            == Live(streams, bidi) - if FromClient(id) && Bidi(id) == bidi then {Index(id)} else {}
  {
    hide FromClient, Bidi, Index, IdOf, Live;
    forall i: nat
      ensures i in Live(streams - {id}, bidi)
              <==> i in Live(streams, bidi) - if FromClient(id) && Bidi(id) == bidi then {Index(id)} else {}
    {
      LiveHas(streams, bidi, i);
      LiveHas(streams - {id}, bidi, i);
      Naming(id, bidi, i);
    }
  }

  // --------------------------------------------------------------------------
  // What a frame is answered with
  // --------------------------------------------------------------------------

  predicate OverLimit(streams: Receivers, maxStreams: nat, id: nat) {
    FromClient(id) && id !in streams && Index(id) >= maxStreams
  }

  /** A stream whose highest offset moves from `high` to `end` needs more than `room` bytes. */
  predicate Overruns(high: nat, end: nat, room: nat) {
    end > high && end - high > room
  }

  /** The error a STREAM frame closes the connection with; `room` is what the connection still allows. */
  function StreamCode(p: Params, streams: Receivers, maxStreams: nat, room: nat,
                      id: nat, off: nat, data: seq<Byte>, fin: bool): Option<nat> {
    var end := off + |data|;
    if OverLimit(streams, maxStreams, id) then Some(STREAM_LIMIT_ERROR)
    else if end > MAX_OFFSET then Some(FLOW_CONTROL_ERROR)
    else
      var r := Ensured(p, streams, id)[id];
      if Overruns(r.highWater, end, room) || !R.Deliver(r, off, data, fin).1 then Some(FLOW_CONTROL_ERROR) else None
  }

  /** The error a RESET_STREAM frame closes the connection with. */
  function ResetCode(p: Params, streams: Receivers, maxStreams: nat, room: nat,
                     id: nat, finalSize: nat, appError: nat): Option<nat> {
    if OverLimit(streams, maxStreams, id) then Some(STREAM_LIMIT_ERROR)
    else if finalSize > MAX_OFFSET then Some(FLOW_CONTROL_ERROR)
    else
      var r := Ensured(p, streams, id)[id];
      if Overruns(r.highWater, finalSize, room) then Some(FLOW_CONTROL_ERROR)
      else if !R.Reset(r, finalSize, appError).1 then Some(FINAL_SIZE_ERROR) else None
  }

  function FirstWins(was: Option<nat>, code: Option<nat>): Option<nat> {
    if was.Some? then was else code
  }

  // --------------------------------------------------------------------------
  // The accounts
  // --------------------------------------------------------------------------

  ghost predicate AllSound(streams: Receivers) {
    forall id :: id in streams ==> R.Sound(streams[id])
  }

  /** Received and consumed bytes, summed over retired and live streams, against the advertised limit. */
  ghost predicate Accounts(streams: Receivers, retired: nat, total: nat, consumed: nat, maxData: nat, window: nat) {
    && AllSound(streams)
    && total == retired + Total(Highs(streams))
    && consumed <= retired + Total(Reads(streams))
    && total <= maxData <= consumed + window
  }

  lemma ReadsBelowHighs(streams: Receivers)
    requires AllSound(streams)
    ensures Total(Reads(streams)) <= Total(Highs(streams))
  {
    TotalBelow(Reads(streams), Highs(streams));
  }

  /**
   Consumed <= received <= advertised, so no unsigned subtraction wraps; and what the peer has sent
   beyond what the application consumed never exceeds the initial window.
   */
  lemma NoWrap(streams: Receivers, retired: nat, total: nat, consumed: nat, maxData: nat, window: nat)
    requires Accounts(streams, retired, total, consumed, maxData, window)
    ensures consumed <= retired + Total(Reads(streams)) <= total <= maxData
    ensures total - (retired + Total(Reads(streams))) <= total - consumed <= window
  {
    ReadsBelowHighs(streams);
  }

  /** The limit after a refresh: a full window past what was consumed, once less than half is left. */
  function Extended(maxData: nat, consumed: nat, window: nat): (limit: nat)
    requires consumed <= maxData <= consumed + window
    ensures maxData <= limit && consumed + window / 2 <= limit <= consumed + window
  {
    if window != 0 && maxData - consumed < window / 2 then consumed + window else maxData
  }

  /** A peer whose data has all been consumed can always send more, if and only if the window is at least two bytes. */
  lemma NeverStarved(window: nat)
    ensures (forall maxData: nat, consumed: nat :: consumed <= maxData <= consumed + window ==>
               Extended(maxData, consumed, window) > consumed)
            <==> window >= 2
  {
    if window < 2 {
      assert Extended(1, 1, window) == 1;
    }
  }

  /** Replacing stream id moves the sums by its own change. */
  lemma Moved(streams: Receivers, id: nat, r: R.Recv)
    ensures Total(Highs(streams[id := r])) == Total(Highs(streams)) + r.highWater - (if id in streams then streams[id].highWater else 0)
    ensures Total(Reads(streams[id := r])) == Total(Reads(streams)) + r.readOff - (if id in streams then streams[id].readOff else 0)
  {
    assert Highs(streams[id := r]) == Highs(streams)[id := r.highWater];
    assert Reads(streams[id := r]) == Reads(streams)[id := r.readOff];
    TotalUpdate(Highs(streams), id, r.highWater);
    TotalUpdate(Reads(streams), id, r.readOff);
  }

  lemma EnsuredAccounts(p: Params, streams: Receivers, id: nat, retired: nat, total: nat, consumed: nat, maxData: nat, window: nat)
    requires Accounts(streams, retired, total, consumed, maxData, window)
    ensures Accounts(Ensured(p, streams, id), retired, total, consumed, maxData, window)
  {
    Moved(streams, id, NewStream(p, id));
  }

  /** A stream that receives up to the room left, or hands out bytes, leaves the accounts balanced. */
  lemma MovedAccounts(streams: Receivers, id: nat, r: R.Recv, retired: nat, total: nat, consumed: nat, maxData: nat, window: nat)
    requires Accounts(streams, retired, total, consumed, maxData, window) && id in streams
    requires R.Sound(r) && streams[id].highWater <= r.highWater && streams[id].readOff <= r.readOff
    requires r.highWater - streams[id].highWater <= maxData - total
    ensures Accounts(streams[id := r], retired, total + r.highWater - streams[id].highWater, consumed, maxData, window)
  {
    Moved(streams, id, r);
  }

  lemma RetiredAccounts(streams: Receivers, id: nat, retired: nat, total: nat, consumed: nat, maxData: nat, window: nat)
    requires Accounts(streams, retired, total, consumed, maxData, window) && id in streams
    ensures Accounts(streams - {id}, retired + streams[id].highWater, total, consumed, maxData, window)
  {
    assert Highs(streams - {id}) == Highs(streams) - {id};
    assert Reads(streams - {id}) == Reads(streams) - {id};
    TotalRemove(Highs(streams), id);
    TotalRemove(Reads(streams), id);
  }

  /** How far a frame can move a stream. */
  lemma DeliverMoves(r: R.Recv, off: nat, data: seq<Byte>, fin: bool, room: nat)
    requires R.Sound(r) && !Overruns(r.highWater, off + |data|, room)
    ensures var r' := R.Deliver(r, off, data, fin).0;
            R.Sound(r') && r'.readOff == r.readOff && r.highWater <= r'.highWater <= r.highWater + room
  {
    R.DeliverSound(r, off, data, fin);
    hide R.Sound, R.Absorb;
  }

  lemma ResetMoves(r: R.Recv, finalSize: nat, error: nat, room: nat)
    requires R.Sound(r) && !Overruns(r.highWater, finalSize, room)
    ensures var r' := R.Reset(r, finalSize, error).0;
            R.Sound(r') && r'.readOff == r.readOff && r.highWater <= r'.highWater <= r.highWater + room
  {
    R.ResetSound(r, finalSize, error);
    hide R.Sound;
  }

  lemma ReadAdvances(r: R.Recv)
    requires R.Sound(r)
    ensures var r' := R.Read(r).0;
            R.Sound(r') && r.readOff <= r'.readOff && r'.highWater == r.highWater
  {
    R.ReadSound(r);
    hide R.Sound, R.Run;
  }

  // --------------------------------------------------------------------------
  // The connection
  // --------------------------------------------------------------------------

  /** The slot record of one kind of stream tells what the connection stores. */
  ghost predicate Tracks(s: S.Slots, streams: Receivers, bidi: bool, window: nat, max: nat, closed: nat) {
    S.Sound(s) && s.window == window && s.max == max && s.closed == closed && s.live == Live(streams, bidi)
  }

  ghost function Opened(s: S.Slots, id: nat, bidi: bool): S.Slots {
    if FromClient(id) && Bidi(id) == bidi then S.Open(s, Index(id)) else s
  }

  ghost function Retired(s: S.Slots, id: nat, bidi: bool): S.Slots {
    if FromClient(id) && Bidi(id) == bidi && Index(id) in s.live then S.Close(s, Index(id)) else s
  }

  lemma TrackOpen(s: S.Slots, streams: Receivers, id: nat, r: R.Recv, bidi: bool, window: nat, max: nat, closed: nat)
    requires Tracks(s, streams, bidi, window, max, closed)
    requires Bidi(id) == bidi ==> !OverLimit(streams, max, id)
    ensures Tracks(Opened(s, id, bidi), streams[id := r], bidi, window, max, closed)
  {
    hide Live, FromClient, Bidi, Index, IdOf;
    LiveOpen(streams, id, r, bidi);
    if FromClient(id) && Bidi(id) == bidi {
      LiveHas(streams, bidi, Index(id));
      Naming(id, bidi, Index(id));
      S.OpenSound(s, Index(id));
    }
  }

  lemma TrackRetire(s: S.Slots, streams: Receivers, id: nat, bidi: bool, window: nat, max: nat, closed: nat)
    requires Tracks(s, streams, bidi, window, max, closed) && id in streams
    ensures Tracks(Retired(s, id, bidi), streams - {id}, bidi, window, max, closed + One(FromClient(id) && Bidi(id) == bidi))
  {
    hide Live, FromClient, Bidi, Index, IdOf;
    LiveRetire(streams, id, bidi);
    if FromClient(id) && Bidi(id) == bidi {
      LiveHas(streams, bidi, Index(id));
      Naming(id, bidi, Index(id));
      S.CloseSound(s, Index(id));
    }
  }

  function Keeping(streams: Receivers, sendDone: set<nat>): Receivers {
    map id | id in streams && !Terminal(streams, sendDone, id) :: streams[id]
  }

  lemma SameTerminal(a: Receivers, b: Receivers, sendDone: set<nat>, id: nat)
    requires id in a && id in b && a[id] == b[id]
    ensures Terminal(a, sendDone, id) == Terminal(b, sendDone, id)
  {
  }

  class Window {
    const params: Params
    var streams: Receivers
    var maxData: nat
    var total: nat
    var consumed: nat
    var retired: nat
    var maxDataPending: bool
    var maxBidi: nat
    var maxUni: nat
    var closedBidi: nat
    var closedUni: nat
    var error: Option<nat>
    ghost var bidi: S.Slots
    ghost var uni: S.Slots

    ghost predicate Valid()
      reads this
    {
      && Accounts(streams, retired, total, consumed, maxData, params.maxData)
      && Tracks(bidi, streams, true, params.streamsBidi, maxBidi, closedBidi)
      && Tracks(uni, streams, false, params.streamsUni, maxUni, closedUni)
    }

    constructor (p: Params)
      ensures Valid() && params == p && streams == map[] && error == None
      ensures maxData == p.maxData && maxBidi == p.streamsBidi && maxUni == p.streamsUni
      ensures total == consumed == retired == 0
    {
      params := p;
      streams, maxData, total, consumed, retired := map[], p.maxData, 0, 0, 0;
      maxDataPending, error := false, None;
      maxBidi, maxUni, closedBidi, closedUni := p.streamsBidi, p.streamsUni, 0, 0;
      bidi, uni := S.Start(p.streamsBidi), S.Start(p.streamsUni);
    }

    function MaxStreams(id: nat): nat
      reads this
    {
      if Bidi(id) then maxBidi else maxUni
    }

    method InitiateClose(code: nat)
      modifies this`error
      ensures error == FirstWins(old(error), Some(code))
    {
      if error.None? { error := Some(code); }
    }

    method EnforceStreamLimit(id: nat) returns (ok: bool)
      modifies this`error
      ensures ok == !OverLimit(streams, MaxStreams(id), id)
      ensures error == if ok then old(error) else FirstWins(old(error), Some(STREAM_LIMIT_ERROR))
    {
      if !FromClient(id) || id in streams { return true; }
      if Index(id) >= MaxStreams(id) {
        InitiateClose(STREAM_LIMIT_ERROR);
        return false;
      }
      return true;
    }

    method EnsureStream(id: nat)
      requires Valid() && !OverLimit(streams, MaxStreams(id), id)
      modifies this`streams, this`bidi, this`uni
      ensures Valid() && streams == Ensured(params, old(streams), id)
    {
      hide Accounts, Tracks;
      EnsuredAccounts(params, streams, id, retired, total, consumed, maxData, params.maxData);
      if id !in streams {
        var r := NewStream(params, id);
        TrackOpen(bidi, streams, id, r, true, params.streamsBidi, maxBidi, closedBidi);
        TrackOpen(uni, streams, id, r, false, params.streamsUni, maxUni, closedUni);
        bidi, uni := Opened(bidi, id, true), Opened(uni, id, false);
        streams := streams[id := r];
      }
    }

    /** Stream id, already open, is replaced; the kinds and slots stay what they are. */
    method Replace(id: nat, r: R.Recv)
      requires Valid() && id in streams
      requires R.Sound(r) && streams[id].highWater <= r.highWater && streams[id].readOff <= r.readOff
      requires r.highWater - streams[id].highWater <= maxData - total
      modifies this`streams, this`total, this`bidi, this`uni
      ensures Valid() && streams == old(streams)[id := r]
      ensures total == old(total) + r.highWater - old(streams)[id].highWater
    {
      hide Accounts, Tracks, Opened, Bidi, FromClient, Index, R.Sound;
      MovedAccounts(streams, id, r, retired, total, consumed, maxData, params.maxData);
      TrackOpen(bidi, streams, id, r, true, params.streamsBidi, maxBidi, closedBidi);
      TrackOpen(uni, streams, id, r, false, params.streamsUni, maxUni, closedUni);
      bidi, uni := Opened(bidi, id, true), Opened(uni, id, false);
      total := total + r.highWater - streams[id].highWater;
      streams := streams[id := r];
    }

    /** A STREAM frame is charged for the bytes by which it raises its stream, or closes the connection. */
    method OnStreamFrame(id: nat, off: nat, data: seq<Byte>, fin: bool) returns (code: Option<nat>)
      requires Valid()
      modifies this`streams, this`total, this`error, this`bidi, this`uni
      ensures Valid()
      ensures code == old(StreamCode(params, streams, MaxStreams(id), maxData - total, id, off, data, fin))
      ensures error == FirstWins(old(error), code)
      ensures code == None ==>
                var r := Ensured(params, old(streams), id)[id];
                var r' := R.Deliver(r, off, data, fin).0;
                streams == old(streams)[id := r'] && total == old(total) + r'.highWater - r.highWater
      ensures code != None ==>
                total == old(total) && (streams == old(streams) || streams == Ensured(params, old(streams), id))
    {
      hide Accounts, Tracks, R.Deliver, R.Sound;
      var ok := EnforceStreamLimit(id);
      if !ok { return Some(STREAM_LIMIT_ERROR); }
      var end := off + |data|;
      if end > MAX_OFFSET {
        InitiateClose(FLOW_CONTROL_ERROR);
        return Some(FLOW_CONTROL_ERROR);
      }
      EnsureStream(id);
      StreamsBalanced();
      var r := streams[id];
      if end > r.highWater {
        if end - r.highWater > maxData - total {
          InitiateClose(FLOW_CONTROL_ERROR);
          return Some(FLOW_CONTROL_ERROR);
        }
      }
      DeliverMoves(r, off, data, fin, maxData - total);
      var (r', accepted) := R.Deliver(r, off, data, fin);
      if !accepted {
        InitiateClose(FLOW_CONTROL_ERROR);
        return Some(FLOW_CONTROL_ERROR);
      }
      Replace(id, r');
      return None;
    }

    lemma StreamsBalanced()
      requires Valid()
      ensures total <= maxData && forall id :: id in streams ==> R.Sound(streams[id])
    {
    }

    /** A RESET_STREAM frame is charged for the final size it declares, or closes the connection. */
    method OnResetStream(id: nat, finalSize: nat, appError: nat) returns (code: Option<nat>)
      requires Valid()
      modifies this`streams, this`total, this`error, this`bidi, this`uni
      ensures Valid()
      ensures code == old(ResetCode(params, streams, MaxStreams(id), maxData - total, id, finalSize, appError))
      ensures error == FirstWins(old(error), code)
      ensures code == None ==>
                var r := Ensured(params, old(streams), id)[id];
                var r' := R.Reset(r, finalSize, appError).0;
                streams == old(streams)[id := r'] && total == old(total) + r'.highWater - r.highWater
      ensures code != None ==>
                total == old(total) && (streams == old(streams) || streams == Ensured(params, old(streams), id))
    {
      hide Accounts, Tracks, R.Reset, R.Sound;
      var ok := EnforceStreamLimit(id);
      if !ok { return Some(STREAM_LIMIT_ERROR); }
      if finalSize > MAX_OFFSET {
        InitiateClose(FLOW_CONTROL_ERROR);
        return Some(FLOW_CONTROL_ERROR);
      }
      EnsureStream(id);
      StreamsBalanced();
      var r := streams[id];
      if finalSize > r.highWater {
        if finalSize - r.highWater > maxData - total {
          InitiateClose(FLOW_CONTROL_ERROR);
          return Some(FLOW_CONTROL_ERROR);
        }
      }
      ResetMoves(r, finalSize, appError, maxData - total);
      var (r', accepted) := R.Reset(r, finalSize, appError);
      if !accepted {
        InitiateClose(FINAL_SIZE_ERROR);
        return Some(FINAL_SIZE_ERROR);
      }
      Replace(id, r');
      return None;
    }

    method ReadStream(id: nat) returns (data: seq<Byte>, fin: bool)
      requires Valid()
      modifies this`streams, this`total, this`bidi, this`uni
      ensures Valid() && total == old(total)
      ensures id !in old(streams) ==> streams == old(streams) && data == [] && !fin
      ensures id in old(streams) ==>
                var (r, res) := R.Read(old(streams)[id]);
                streams == old(streams)[id := r] && data == res.data && fin == res.fin
    {
      hide Accounts, Tracks, R.Read, R.Sound;
      if id !in streams { return [], false; }
      StreamsBalanced();
      ReadAdvances(streams[id]);
      var (r, res) := R.Read(streams[id]);
      Replace(id, r);
      return res.data, res.fin;
    }

    /**
     Recomputes what the application has consumed and extends the limit once less than half a window
     is left.  The limit never decreases, and at least half a window of credit remains.
     */
    method RefreshWindow()
      requires Valid()
      modifies this`consumed, this`maxData, this`maxDataPending
      ensures Valid()
      ensures consumed == retired + Total(Reads(streams)) <= old(maxData) <= consumed + params.maxData
      ensures maxData == Extended(old(maxData), consumed, params.maxData)
      ensures maxDataPending == (old(maxDataPending) || maxData != old(maxData))
    {
      NoWrap(streams, retired, total, consumed, maxData, params.maxData);
      consumed := SumConsumed();
      ExtendWindow();
    }

    method SumConsumed() returns (sum: nat)
      ensures sum == retired + Total(Reads(streams))
    {
      sum := retired;
      var todo := streams.Keys;
      ghost var done: Receivers := map[];
      while todo != {}
        invariant todo <= streams.Keys
        invariant done == (map id | id in streams && id !in todo :: streams[id])
        invariant sum == retired + Total(Reads(done))
        decreases |todo|
      {
        hide *;
        var id :| id in todo;
        Moved(done, id, streams[id]);
        todo := todo - {id};
        sum := sum + streams[id].readOff;
        done := done[id := streams[id]];
      }
      assert done == streams;
    }

    method ExtendWindow()
      requires Valid() && consumed <= total
      modifies this`maxData, this`maxDataPending
      ensures Valid() && consumed <= old(maxData) <= consumed + params.maxData
      ensures maxData == Extended(old(maxData), consumed, params.maxData)
      ensures maxDataPending == (old(maxDataPending) || maxData != old(maxData))
    {
      hide Tracks, Highs, Reads, AllSound;
      var window := params.maxData;
      if window == 0 { return; }
      if maxData - consumed < window / 2 {
        maxData := consumed + window;
        maxDataPending := true;
      }
    }

    /** Takes one finished stream out, counting its received bytes as consumed and freeing its slot. */
    method Retire(id: nat)
      requires Valid() && id in streams
      modifies this`streams, this`retired, this`closedBidi, this`closedUni, this`bidi, this`uni
      ensures Valid() && streams == old(streams) - {id}
      ensures retired == old(retired) + old(streams)[id].highWater
    {
      hide Accounts, Tracks, Retired, Bidi, FromClient;
      RetiredAccounts(streams, id, retired, total, consumed, maxData, params.maxData);
      TrackRetire(bidi, streams, id, true, params.streamsBidi, maxBidi, closedBidi);
      TrackRetire(uni, streams, id, false, params.streamsUni, maxUni, closedUni);
      bidi, uni := Retired(bidi, id, true), Retired(uni, id, false);
      if FromClient(id) {
        if Bidi(id) {
          closedBidi := closedBidi + 1;
        } else {
          closedUni := closedUni + 1;
        }
      }
      retired := retired + streams[id].highWater;
      streams := streams - {id};
    }

    /** Takes out exactly the finished streams and raises both stream limits by the slots freed. */
    method RetireClosedStreams(sendDone: set<nat>)
      requires Valid()
      modifies this`streams, this`retired, this`closedBidi, this`closedUni, this`maxBidi, this`maxUni, this`bidi, this`uni
      ensures Valid() && streams == Keeping(old(streams), sendDone)
      ensures retired + Total(Highs(streams)) == old(retired) + Total(Highs(old(streams))) == total
      ensures old(maxBidi) <= maxBidi && (params.streamsBidi > 0 ==> maxBidi == closedBidi + params.streamsBidi)
      ensures old(maxUni) <= maxUni && (params.streamsUni > 0 ==> maxUni == closedUni + params.streamsUni)
    {
      hide Accounts, Tracks, Terminal, Highs, Total;
      ghost var all := streams;
      var todo := streams.Keys;
      TotalIs();
      while todo != {}
        invariant todo <= streams.Keys && Valid()
        invariant forall id :: id in streams <==> id in all && (id in todo || !Terminal(all, sendDone, id))
        invariant forall id :: id in streams ==> streams[id] == all[id]
        invariant maxBidi == old(maxBidi) && maxUni == old(maxUni)
        decreases |todo|
      {
        var id :| id in todo;
        todo := todo - {id};
        SameTerminal(streams, all, sendDone, id);
        if Terminal(streams, sendDone, id) {
          Retire(id);
        }
      }
      assert streams == Keeping(all, sendDone);
      TotalIs();
      CreditStreams();
    }

    lemma TotalIs()
      requires Valid()
      ensures retired + Total(Highs(streams)) == total
    {
    }

    method CreditStreams()
      requires Valid()
      modifies this`maxBidi, this`maxUni, this`bidi, this`uni
      ensures Valid()
      ensures old(maxBidi) <= maxBidi && (params.streamsBidi > 0 ==> maxBidi == closedBidi + params.streamsBidi)
      ensures old(maxUni) <= maxUni && (params.streamsUni > 0 ==> maxUni == closedUni + params.streamsUni)
    {
      hide Accounts, Live;
      S.CreditSound(bidi);
      S.CreditSound(uni);
      hide S.Sound;
      if params.streamsBidi > 0 && closedBidi + params.streamsBidi > maxBidi {
        maxBidi := closedBidi + params.streamsBidi;
      }
      if params.streamsUni > 0 && closedUni + params.streamsUni > maxUni {
        maxUni := closedUni + params.streamsUni;
      }
      bidi, uni := S.Credit(bidi), S.Credit(uni);
    }

    /** No more client streams of either kind are open than the window, plus one per id admitted again. */
    lemma OpenStreamsBounded()
      requires Valid()
      ensures |Live(streams, true)| <= params.streamsBidi + bidi.reopened
      ensures |Live(streams, false)| <= params.streamsUni + uni.reopened
    {
      S.Concurrency(bidi);
      S.Concurrency(uni);
    }
  }

  /** The first byte of a stream, taken and read. */
  lemma FirstByte(p: Params, b: Byte)
    requires p == Params(1, 1, 1, 1, 1, 1)
    ensures StreamCode(p, map[], 1, 1, 0, 0, [b], false) == None
    ensures var r := R.Deliver(NewStream(p, 0), 0, [b], false).0;
            NewStream(p, 0).highWater == 0 && r.highWater == 1 && R.Read(r).0.readOff == 1
  {
    var r0 := NewStream(p, 0);
    var r := R.Deliver(r0, 0, [b], false).0;
    assert r.held == map[0 := b] && r.readOff == 0;
    assert R.Run(r.held, 0) == [b] by {
      assert r.held - {0} == map[];
      assert R.Run(map[], 1) == [];
    }
  }

  lemma OneRead(r: R.Recv)
    ensures Total(Reads(map[0 := r])) == r.readOff
  {
    assert Reads(map[0 := r]) == map[][0 := r.readOff];
    TotalUpdate(map[], 0, r.readOff);
  }

  /** A connection with a one-byte window that has received one byte, which the application has read. */
  method OneByteRead(b: Byte) returns (w: Window)
    ensures fresh(w) && w.Valid() && w.params.maxData == 1 && w.total == w.maxData == 1
    ensures w.retired == 0 && 0 in w.streams && w.streams == map[0 := w.streams[0]] && w.streams[0].readOff == 1
  {
    hide R.Deliver, R.Read, Accounts, Tracks, StreamCode, NewStream, Total, Reads, Highs;
    w := new Window(Params(1, 1, 1, 1, 1, 1));
    FirstByte(w.params, b);
    assert w.MaxStreams(0) == 1;
    var code := w.OnStreamFrame(0, 0, [b], false);
    assert code == None;
    var data, fin := w.ReadStream(0);
  }

  /**
   A one-byte window starves: one byte arrives, the application reads it and the window is refreshed, and still
   the peer may send nothing more, however often it is refreshed.
   */
  method OneByteStarves(b: Byte) returns (w: Window)
    ensures fresh(w) && w.Valid() && w.params.maxData == 1
    ensures w.consumed == w.total == w.maxData == 1 == Extended(w.maxData, w.consumed, w.params.maxData)
  {
    hide Accounts, Tracks, Total, Reads;
    w := OneByteRead(b);
    OneRead(w.streams[0]);
    w.RefreshWindow();
  }
}
