/** QUIC variable-length integers (varint.cpp; section 16 of RFC 9000). */
module VarInt {
  import opened Bytes
  import opened PrefixInt

  /** Values from here on cannot be written: 2^62. */
  const LIMIT: nat := 0x4000_0000_0000_0000

  function Size(v: nat): (n: nat)
    requires v < LIMIT
    ensures n in {1, 2, 4, 8}
  {
    if v < 0x40 then 1 else if v < 0x4000 then 2 else if v < 0x4000_0000 then 4 else 8
  }

  /** The k low bytes of v, most significant first. */
  function BigEndian(v: nat, k: nat): (bytes: seq<Byte>)
    ensures |bytes| == k
  {
    if k == 0 then [] else BigEndian(v / 256, k - 1) + [v % 256]
  }

  /** Shifts the bytes in one by one. */
  function Fold(acc: nat, bytes: seq<Byte>): nat
    decreases |bytes|
  {
    if bytes == [] then acc else Fold(acc * 256 + bytes[0], bytes[1..])
  }

  /** The two top bits of the first byte that announce the size. */
  function Tag(n: nat): nat {
    if n == 1 then 0 else if n == 2 then 0x40 else if n == 4 then 0x80 else 0xC0
  }

  /** 256 to the power of n - 1, for the four sizes. */
  function Unit(n: nat): nat {
    if n == 1 then 1 else if n == 2 then 0x100 else if n == 4 then 0x100_0000 else 0x100_0000_0000_0000
  }

  lemma Top(v: nat)
    requires v < LIMIT
    ensures v / Unit(Size(v)) < 0x40
  {
  }

  function Enc(v: nat): (bytes: seq<Byte>)
    requires v < LIMIT
    ensures |bytes| == Size(v)
  {
    var n := Size(v);
    Top(v);
    [Tag(n) + v / Unit(n)] + BigEndian(v % Unit(n), n - 1)
  }

  function SizeOf(first: Byte): nat {
    if first < 0x40 then 1 else if first < 0x80 then 2 else if first < 0xC0 then 4 else 8
  }

  function Read(buf: seq<Byte>): (p: Option<Parsed<nat>>)
    ensures p.Some? ==> |p.value.rest| < |buf|
  {
    if buf == [] then None
    else
      var n := SizeOf(buf[0]);
      if n > |buf| then None else Some(Parsed(Fold(buf[0] % 64, buf[1..n]), buf[n..]))
  }

  function Power(k: nat): nat { if k == 0 then 1 else 256 * Power(k - 1) }

  lemma {:induction false} FoldSnoc(acc: nat, bytes: seq<Byte>, b: Byte)
    ensures Fold(acc, bytes + [b]) == Fold(acc, bytes) * 256 + b
    decreases |bytes|
  {
    if bytes == [] {
      assert ([] + [b])[1..] == [];
    } else {
      FoldSnoc(acc * 256 + bytes[0], bytes[1..], b);
      assert (bytes + [b])[1..] == bytes[1..] + [b];
    }
  }

  lemma {:induction false} FoldBigEndian(acc: nat, v: nat, k: nat)
    requires v < Power(k)
    ensures Fold(acc, BigEndian(v, k)) == acc * Power(k) + v
    decreases k
  {
    if k > 0 {
      FoldBigEndian(acc, v / 256, k - 1);
      FoldSnoc(acc, BigEndian(v / 256, k - 1), v % 256);
      Regroup(acc, Power(k - 1), v);
    }
  }

  lemma Regroup(acc: nat, p: nat, v: nat)
    ensures (acc * p + v / 256) * 256 + v % 256 == acc * (256 * p) + v
  {
  }

  lemma Units(v: nat)
    requires v < LIMIT
    ensures Unit(Size(v)) == Power(Size(v) - 1)
  {
    assert Power(3) == 0x100_0000;
    assert Power(7) == 256 * (256 * (256 * (256 * Power(3))));
  }

  /** Every value below 2^62 is read back, and nothing after it is touched. */
  lemma RoundTrip(v: nat, rest: seq<Byte>)
    requires v < LIMIT
    ensures Read(Enc(v) + rest) == Some(Parsed(v, rest))
  {
    var n := Size(v);
    var u := Unit(n);
    var buf := Enc(v) + rest;
    Top(v);
    Units(v);
    assert SizeOf(buf[0]) == n && buf[0] % 64 == v / u;
    assert buf[1..n] == BigEndian(v % u, n - 1) && buf[n..] == rest;
    FoldBigEndian(v / u, v % u, n - 1);
    assert (v / u) * u + v % u == v;
  }

  lemma {:induction false} FoldBound(acc: nat, bytes: seq<Byte>)
    ensures Fold(acc, bytes) < (acc + 1) * Power(|bytes|)
    decreases |bytes|
  {
    if bytes != [] {
      FoldBound(acc * 256 + bytes[0], bytes[1..]);
      Widened(acc, bytes[0], Power(|bytes| - 1));
    }
  }

  lemma Widened(acc: nat, b: Byte, p: nat)
    ensures (acc * 256 + b + 1) * p <= (acc + 1) * (256 * p)
  {
    assert (acc + 1) * (256 * p) - (acc * 256 + b + 1) * p == (255 - b) * p;
  }

  /** No encoding that is read as a value is shorter than the one written. */
  lemma Shortest(buf: seq<Byte>)
    requires Read(buf).Some?
    ensures Read(buf).value.value < LIMIT && Size(Read(buf).value.value) <= |buf| - |Read(buf).value.rest|
  {
    var n := SizeOf(buf[0]);
    FoldBound(buf[0] % 64, buf[1..n]);
    assert Power(3) == 0x100_0000 && Power(7) == 256 * (256 * (256 * (256 * Power(3))));
    AtMost(buf[0] % 64 + 1, 64, Power(n - 1));
  }

  // --------------------------------------------------------------------------
  // As the program does it
  // --------------------------------------------------------------------------

  method Decode(buf: seq<Byte>, offset0: nat) returns (res: Option<nat>, offset: nat)
    requires offset0 <= |buf|
    ensures res.Some? ==> offset0 < offset <= |buf| && Read(buf[offset0..]) == Some(Parsed(res.value, buf[offset..]))
    ensures res.None? ==> offset == offset0 && Read(buf[offset0..]) == None
  {
    offset := offset0;
    if offset >= |buf| { return None, offset; }
    var first := buf[offset];
    assert buf[offset..][0] == first;
    var size := SizeOf(first);
    if offset + size > |buf| { return None, offset; }
    assert buf[offset..][1..size] == buf[offset + 1..offset + size] && buf[offset..][size..] == buf[offset + size..];
    var result: nat := first % 64;
    var i := 1;
    while i < size
      invariant 1 <= i <= size
      invariant Fold(first % 64, buf[offset..][1..size]) == Fold(result, buf[offset + i..offset + size])
    {
      assert buf[offset + i..offset + size][1..] == buf[offset + (i + 1)..offset + size];
      result := result * 256 + buf[offset + i];
      i := i + 1;
    }
    offset := offset + size;
    return Some(result), offset;
  }
}
