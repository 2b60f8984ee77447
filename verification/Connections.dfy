/**
 A buffered connection as the program keeps it (src/reactor/buffered_connection.cpp,
 `BufferedConnection`), without TLS: its flags and output buffer, its registration
 in the descriptor table, and the gauge of buffered bytes that it adjusts.  Each
 method computes the operation of the same name in `Reactor`.
 */
module Connections {
  import opened Bytes
  import B = Buffers
  import D = Descriptors
  import opened Reactor

  /** The flush that a socket with these answers makes of `len` queued bytes. */
  function FlushOf(len: nat, socket: seq<B.SendResult>): Flush {
    var (n, end) := B.Taken(len, socket);
    match end
    case Flushed => Flushed
    case WouldBlock => Blocked(n)
    case Failed => Failed(n)
  }

  /** A flush of a buffer is one that `Reactor` allows, and leaves and sends what it says there. */
  lemma FlushIs(out: seq<Byte>, socket: seq<B.SendResult>, wire: seq<Byte>, rest: seq<Byte>)
    requires wire + rest == out && |wire| == B.Taken(|out|, socket).0
    ensures var f := FlushOf(|out|, socket); Possible(out, f) && Left(out, f) == rest && Sent(out, f) == wire
  {
    assert rest == out[|wire|..] && wire == out[..|wire|];
  }

  lemma FlushPossible(out: seq<Byte>, socket: seq<B.SendResult>)
    ensures Possible(out, FlushOf(|out|, socket)) && (out == [] ==> FlushOf(|out|, socket) == Flushed)
  {
  }

  predicate ReadInterest(pending: map<nat, D.Pending>, fd: nat) { fd in pending && pending[fd].read.Some? }

  predicate WriteInterest(pending: map<nat, D.Pending>, fd: nat) { fd in pending && pending[fd].write.Some? }

  /** Only the registration of fd may differ. */
  ghost predicate OnlyAt(a: map<nat, D.Pending>, b: map<nat, D.Pending>, fd: nat) { a - {fd} == b - {fd} }

  /** The parts of the event loop that its connections share. */
  class IoContext {
    const table: D.IoTable
    var bytesBuffered: nat

    constructor ()
      ensures table.Valid() && table.pending == map[] && bytesBuffered == 0 && fresh(table)
    {
      table := new D.IoTable();
      bytesBuffered := 0;
    }

    /** The gauge is unsigned; no adjustment takes it below zero. */
    method AdjustBytesBuffered(delta: int)
      requires bytesBuffered + delta >= 0
      modifies this`bytesBuffered
      ensures bytesBuffered == old(bytesBuffered) + delta
    {
      bytesBuffered := bytesBuffered + delta;
    }
  }

  class BufferedConnection {
    const ctx: IoContext
    const fd: nat
    const output: B.OutputBuffer
    var closed: bool
    var writeInterestArmed: bool
    var closingAfterFlush: bool
    ghost var started: bool
    ghost var asked: seq<Byte>
    ghost var wire: seq<Byte>
    ghost var cut: bool

    ghost predicate Valid()
      reads this, ctx.table, output
    {
      ctx.table.Valid() && output.Valid()
    }

    ghost function View(): Conn
      requires Valid()
      reads this, ctx.table, output
    {
      var pending := ctx.table.pending;
      Conn(started, closed, writeInterestArmed, closingAfterFlush, output.Pending(), ReadInterest(pending, fd),
           WriteInterest(pending, fd), asked, wire, cut)
    }

    constructor (ctx: IoContext, fd: nat)
      requires ctx.table.Valid() && fd !in ctx.table.pending
      ensures Valid() && View() == NewConn() && this.ctx == ctx && this.fd == fd && fresh(output)
    {
      this.ctx, this.fd := ctx, fd;
      output := new B.OutputBuffer();
      closed, writeInterestArmed, closingAfterFlush := false, false, false;
      started, asked, wire, cut := false, [], [], false;
    }

    method SetIoHandler(read: bool, write: bool)
      requires Valid()
      modifies ctx.table
      ensures Valid() && View() == old(View()).(read := read || old(View()).read, write := write || old(View()).write)
      ensures OnlyAt(old(ctx.table.pending), ctx.table.pending, fd)
    {
      ctx.table.SetIoHandler(fd, fd, read, write);
    }

    method ReportBufferedDelta(before: nat)
      requires Valid() && ctx.bytesBuffered + Delta(View(), before) >= 0
      modifies ctx`bytesBuffered
      ensures ctx.bytesBuffered == old(ctx.bytesBuffered) + Delta(View(), before)
    {
      var delta := output.PendingBytes() - before;
      if delta != 0 {
        ctx.AdjustBytesBuffered(delta);
      }
    }

    /** `cutting` says whether this is more than the end of a closing after a flush. */
    method Close(ghost cutting: bool)
      requires Valid() && Held(View()) <= ctx.bytesBuffered
      modifies this`closed, this`cut, ctx`bytesBuffered, ctx.table
      ensures Valid() && OnlyAt(old(ctx.table.pending), ctx.table.pending, fd)
      ensures Outcome(View(), ctx.bytesBuffered - old(ctx.bytesBuffered))
              == if cutting then CutOff(old(View())) else Shut(old(View()))
    {
      if closed { return; }
      closed := true;
      var pending: int := output.PendingBytes();
      if pending > 0 {
        ctx.AdjustBytesBuffered(-pending);
      }
      ctx.table.RemoveIo(fd);
      if cutting { cut := true; }
    }

    method Start()
      requires Valid()
      modifies this`started, ctx.table
      ensures Valid() && OnlyAt(old(ctx.table.pending), ctx.table.pending, fd)
      ensures Outcome(View(), 0) == OnStart(old(View()))
    {
      if closed { return; }
      started := true;
      SetIoHandler(true, false);
    }

    /** What is left of `on_readable` once the socket has nothing more. */
    method Reregister()
      requires Valid()
      modifies ctx.table
      ensures Valid() && OnlyAt(old(ctx.table.pending), ctx.table.pending, fd)
      ensures Outcome(View(), 0) == Rearm(old(View()))
    {
      if closed { return; }
      SetIoHandler(true, writeInterestArmed);
    }

    /** The output buffer is sent as far as the socket takes it. */
    method FlushOutput(socket: seq<B.SendResult>) returns (result: B.FlushResult)
      requires Valid()
      modifies this`wire, output
      ensures Valid() && View() == Drain(old(View()), FlushOf(|old(View().out)|, socket))
      ensures Possible(old(View().out), FlushOf(|old(View().out)|, socket))
      ensures result == B.Taken(|old(View().out)|, socket).1
    {
      hide B.Taken, Left, Sent, Possible, FlushOf;
      var taken;
      result, taken := output.TryFlush(socket);
      wire := wire + taken;
      FlushIs(old(View().out), socket, taken, output.Pending());
    }

    /** What `write` does once it has tried a flush, or has found other bytes waiting. */
    method FinishWrite(result: B.FlushResult, before: nat, ghost f: Flush)
      requires Valid() && !closed && ctx.bytesBuffered >= before
      requires result == (match f case Flushed => B.Flushed case Blocked(_) => B.WouldBlock case Failed(_) => B.Failed)
      modifies this, ctx`bytesBuffered, ctx.table
      ensures Valid() && OnlyAt(old(ctx.table.pending), ctx.table.pending, fd)
      ensures Outcome(View(), ctx.bytesBuffered - old(ctx.bytesBuffered)) == AfterWrite(old(View()), f, before)
    {
      if result == B.Failed {
        ReportBufferedDelta(before);
        Close(true);
        return;
      }
      if result == B.Flushed {
        ReportBufferedDelta(before);
        return;
      }
      if !writeInterestArmed {
        writeInterestArmed := true;
        SetIoHandler(true, true);
      }
      ReportBufferedDelta(before);
    }

    method Write(data: seq<Byte>, socket: seq<B.SendResult>)
      requires Valid() && Held(View()) <= ctx.bytesBuffered
      modifies this, output, ctx`bytesBuffered, ctx.table
      ensures Valid() && OnlyAt(old(ctx.table.pending), ctx.table.pending, fd)
      ensures Outcome(View(), ctx.bytesBuffered - old(ctx.bytesBuffered))
              == OnWrite(old(View()), data, FlushOf(|data|, socket))
      ensures Possible(data, FlushOf(|data|, socket))
    {
      hide B.Taken, AfterWrite, Drain, Possible;
      FlushPossible(data, socket);
      if closed || data == [] { return; }
      var before := output.PendingBytes();
      output.Append(data);
      asked := asked + data;
      if before == 0 {
        assert output.Pending() == data;
        var result := FlushOutput(socket);
        FinishWrite(result, before, FlushOf(|data|, socket));
      } else {
        FinishWrite(B.WouldBlock, before, Blocked(0));
      }
    }

    /** What `on_writable` does after its flush. */
    method FinishFlush(result: B.FlushResult, before: nat, ghost f: Flush)
      requires Valid() && !closed && ctx.bytesBuffered >= before
      requires result == (match f case Flushed => B.Flushed case Blocked(_) => B.WouldBlock case Failed(_) => B.Failed)
      modifies this, ctx`bytesBuffered, ctx.table
      ensures Valid() && OnlyAt(old(ctx.table.pending), ctx.table.pending, fd)
      ensures Outcome(View(), ctx.bytesBuffered - old(ctx.bytesBuffered)) == AfterFlush(old(View()), f, before)
    {
      ReportBufferedDelta(before);
      if result == B.Failed {
        Close(true);
        return;
      }
      if result == B.Flushed {
        if closingAfterFlush {
          Close(false);
          return;
        }
        writeInterestArmed := false;
        SetIoHandler(true, false);
        return;
      }
      SetIoHandler(true, true);
    }

    method Writable(socket: seq<B.SendResult>)
      requires Valid() && Held(View()) <= ctx.bytesBuffered
      modifies this, output, ctx`bytesBuffered, ctx.table
      ensures Valid() && OnlyAt(old(ctx.table.pending), ctx.table.pending, fd)
      ensures Outcome(View(), ctx.bytesBuffered - old(ctx.bytesBuffered))
              == OnWritable(old(View()), FlushOf(|old(View().out)|, socket))
      ensures Possible(old(View().out), FlushOf(|old(View().out)|, socket))
    {
      hide B.Taken, AfterFlush, Drain, Possible;
      FlushPossible(output.Pending(), socket);
      if closed { return; }
      var before := output.PendingBytes();
      ghost var f := FlushOf(before, socket);
      var result := FlushOutput(socket);
      FinishFlush(result, before, f);
    }

    method CloseAfterFlush()
      requires Valid() && Held(View()) <= ctx.bytesBuffered
      modifies this, ctx`bytesBuffered, ctx.table
      ensures Valid() && OnlyAt(old(ctx.table.pending), ctx.table.pending, fd)
      ensures Outcome(View(), ctx.bytesBuffered - old(ctx.bytesBuffered)) == OnCloseAfterFlush(old(View()))
    {
      if closed { return; }
      var pending := output.PendingBytes();
      if pending == 0 {
        Close(false);
        return;
      }
      closingAfterFlush := true;
    }

    /** The destructor of a connection that was never closed takes it out of the table and leaves the gauge alone. */
    method Destroy()
      requires Valid()
      modifies ctx.table
      ensures ctx.table.Valid() && OnlyAt(old(ctx.table.pending), ctx.table.pending, fd)
      ensures !closed ==> fd !in ctx.table.pending
    {
      if !closed {
        ctx.table.RemoveIo(fd);
      }
    }
  }
}
