/**
 The byte buffers of a connection (src/reactor/buffered_connection.cpp,
 `InputBuffer` and `OutputBuffer`): vectors with read and write positions that
 are compacted or reset instead of shifted on every read.
 */
module Buffers {
  import opened Bytes

  class InputBuffer {
    var buf: seq<Byte>
    var readPos: nat
    var writePos: nat

    ghost predicate Valid()
      reads this
    {
      readPos <= writePos <= |buf|
    }

    /** The bytes received and not yet consumed. */
    ghost function Contents(): seq<Byte>
      requires Valid()
      reads this
    {
      buf[readPos..writePos]
    }

    constructor ()
      ensures Valid() && Contents() == []
    {
      buf, readPos, writePos := [], 0, 0;
    }

    /** Room for at least `min` bytes after the contents, which stay what they are. */
    method Prepare(min: nat)
      requires Valid()
      modifies this
      ensures Valid() && Contents() == old(Contents()) && |buf| - writePos >= min
    {
      if readPos > 0 && |buf| - writePos < min {
        var remaining := writePos - readPos;
        buf := buf[readPos..writePos] + buf[remaining..];
        readPos, writePos := 0, remaining;
      }
      if |buf| - writePos < min {
        buf := buf[..writePos] + seq(min, _ => 0);
      }
    }

    /** The bytes a read put into the prepared room become part of the contents. */
    method Commit(data: seq<Byte>)
      requires Valid() && |data| <= |buf| - writePos
      modifies this
      ensures Valid() && Contents() == old(Contents()) + data
    {
      buf := buf[..writePos] + data + buf[writePos + |data|..];
      writePos := writePos + |data|;
    }

    /** Drops up to n bytes from the front; an emptied buffer starts over. */
    method Consume(n: nat)
      requires Valid()
      modifies this
      ensures Valid() && Contents() == if n < |old(Contents())| then old(Contents())[n..] else []
    {
      readPos := readPos + if n < writePos - readPos then n else writePos - readPos;
      if readPos == writePos {
        readPos, writePos := 0, 0;
      }
    }
  }

  /** What the socket answers to one send. */
  datatype SendResult = Sent(n: nat) | Retry | Error

  datatype FlushResult = Flushed | WouldBlock | Failed

  /** How many of `left` bytes a socket takes that answers like this, and how that ends. */
  function Taken(left: nat, socket: seq<SendResult>): (res: (nat, FlushResult))
    ensures res.0 <= left && (res.1 == Flushed <==> res.0 == left)
    decreases |socket|
  {
    if left == 0 then (0, Flushed)
    else if socket == [] || socket[0].Retry? || socket[0] == Sent(0) then (0, WouldBlock)
    else if socket[0].Error? then (0, Failed)
    else
      var n := if socket[0].n < left then socket[0].n else left;
      var (more, end) := Taken(left - n, socket[1..]);
      (n + more, end)
  }

  class OutputBuffer {
    var buf: seq<Byte>
    var readPos: nat

    ghost predicate Valid()
      reads this
    {
      readPos <= |buf|
    }

    /** The bytes queued and not yet sent. */
    ghost function Pending(): seq<Byte>
      requires Valid()
      reads this
    {
      buf[readPos..]
    }

    constructor ()
      ensures Valid() && Pending() == []
    {
      buf, readPos := [], 0;
    }

    function PendingBytes(): (n: nat)
      requires Valid()
      reads this
      ensures n == |Pending()|
    {
      |buf| - readPos
    }

    method Append(bytes: seq<Byte>)
      requires Valid()
      modifies this
      ensures Valid() && Pending() == old(Pending()) + bytes
    {
      if bytes == [] { return; }
      if readPos >= |buf| {
        buf, readPos := bytes, 0;
      } else {
        buf := buf + bytes;
      }
    }

    /**
     Sends from the front until all is sent or the socket stops: what went out and what is left are
     the old contents, in order, cut where the socket stopped; only a complete flush empties the buffer.
     */
    method TryFlush(socket: seq<SendResult>) returns (result: FlushResult, wire: seq<Byte>)
      requires Valid()
      modifies this
      ensures Valid() && wire + Pending() == old(Pending())
      ensures (|wire|, result) == Taken(|old(Pending())|, socket)
      ensures result == Flushed <==> Pending() == []
    {
      wire := [];
      var i := 0;
      assert socket[0..] == socket;
      while readPos < |buf|
        invariant Valid() && wire + Pending() == old(Pending()) && i <= |socket|
        invariant var (n, end) := Taken(|Pending()|, socket[i..]);
                  Taken(|old(Pending())|, socket) == (|wire| + n, end)
        decreases |buf| - readPos
      {
        assert i < |socket| ==> socket[i..][1..] == socket[i + 1..];
        if i == |socket| || socket[i].Retry? || socket[i] == Sent(0) { return WouldBlock, wire; }
        if socket[i].Error? { return Failed, wire; }
        var left := |buf| - readPos;
        var n := if socket[i].n < left then socket[i].n else left;
        wire := wire + buf[readPos..readPos + n];
        readPos := readPos + n;
        i := i + 1;
      }
      buf, readPos := [], 0;
      return Flushed, wire;
    }
  }
}
