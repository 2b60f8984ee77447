/**
 Integers with an N-bit prefix (section 5.1 of RFC 7541), as written and read by
 both header codecs (qpack.cpp, `write_int` and `read_int`; http2 codec.cpp,
 `encode_prefix_int` and `decode_prefix_int`).
 */
module PrefixInt {
  import opened Bytes
  import opened BitStrings

  /** A reader's accumulator width and the largest shift it still reads a byte at. */
  datatype Limits = Limits(width: nat, maxShift: nat)

  /** `read_int`: 64 bits, gives up past a shift of 63. */
  const QPACK: Limits := Limits(64, 63)

  /** `decode_prefix_int`: 32 bits, gives up past a shift of 28. */
  const HPACK: Limits := Limits(32, 28)

  datatype Parsed<+T> = Parsed(value: T, rest: seq<Byte>)

  /** Seven bits per byte, least significant first, the top bit set on all but the last. */
  function Groups(v: nat): (bytes: seq<Byte>)
    ensures bytes != []
  {
    if v < 128 then [v] else [v % 128 + 128] + Groups(v / 128)
  }

  /** The first byte carries `prefix` in its high bits. */
  function IntBytes(v: nat, prefix: nat, n: nat): seq<Byte>
    requires 1 <= n <= 8 && prefix + Pow2(n) <= 256
  {
    var top := Pow2(n) - 1;
    if v < top then [prefix + v] else [prefix + top] + Groups(v - top)
  }

  /** `v << shift`, before the accumulator wraps. */
  function Shifted(v: nat, shift: nat): nat { v * Pow2(shift) }

  function Wrap(x: nat, width: nat): nat { x % Pow2(width) }

  /** Adds the groups up, wrapping at the accumulator's width. */
  function ReadGroups(buf: seq<Byte>, acc: nat, shift: nat, l: Limits): Option<Parsed<nat>>
    decreases |buf|
  {
    if buf == [] then None
    else
      var acc' := Wrap(acc + Shifted(buf[0] % 128, shift), l.width);
      if buf[0] < 128 then Some(Parsed(acc', buf[1..]))
      else if shift + 7 > l.maxShift then None
      else ReadGroups(buf[1..], acc', shift + 7, l)
  }

  function ReadInt(buf: seq<Byte>, n: nat, l: Limits): Option<Parsed<nat>>
    requires 1 <= n <= 8
  {
    if buf == [] then None
    else
      var v := buf[0] % Pow2(n);
      if v < Pow2(n) - 1 then Some(Parsed(v, buf[1..])) else ReadGroups(buf[1..], v, 0, l)
  }

  lemma {:induction false} ReadShortens(buf: seq<Byte>, acc: nat, shift: nat, l: Limits)
    ensures ReadGroups(buf, acc, shift, l).Some? ==> |ReadGroups(buf, acc, shift, l).value.rest| < |buf|
    decreases |buf|
  {
    if buf != [] && buf[0] >= 128 && shift + 7 <= l.maxShift {
      ReadShortens(buf[1..], Wrap(acc + Shifted(buf[0] % 128, shift), l.width), shift + 7, l);
    }
  }

  lemma IntShortens(buf: seq<Byte>, n: nat, l: Limits)
    requires 1 <= n <= 8
    ensures ReadInt(buf, n, l).Some? ==> |ReadInt(buf, n, l).value.rest| < |buf|
  {
    if buf != [] { ReadShortens(buf[1..], buf[0] % Pow2(n), 0, l); }
  }

  lemma Small(x: nat, m: nat)
    requires x < m
    ensures x % m == x
  {
  }

  lemma AtMost(a: nat, b: nat, p: nat)
    requires a <= b
    ensures a * p <= b * p
  {
  }

  /** A further group means that the value reaches past the next shift, which the reader still accepts. */
  lemma ShiftFits(v: nat, shift: nat, l: Limits)
    requires v >= 128 && Shifted(v, shift) < Pow2(l.width) && shift % 7 == 0 && l in {QPACK, HPACK}
    ensures shift + 7 <= l.maxShift
  {
    Reach(v, shift);
    hide Shifted, Pow2;
    if shift + 7 >= l.width { PowMono(l.width, shift + 7); }
  }

  lemma Reach(v: nat, shift: nat)
    requires v >= 128
    ensures Pow2(shift + 7) <= Shifted(v, shift)
  {
    AtMost(128, v, Pow2(shift));
    PowAdd(shift, 7);
    assert Pow2(7) == 128;
  }

  /** What is left of v after its first group, and where the accumulator stands then. */
  lemma NextGroup(v: nat, b: Byte, acc: nat, shift: nat, l: Limits)
    requires v >= 128 && acc + Shifted(v, shift) < Pow2(l.width) && b == v % 128 + 128
    ensures var acc' := acc + Shifted(b % 128, shift);
            Wrap(acc', l.width) == acc' && acc' + Shifted(v / 128, shift + 7) == acc + Shifted(v, shift)
  {
    PowAdd(shift, 7);
    assert Pow2(7) == 128;
    assert b % 128 == v % 128;
    hide Pow2;
    NextArith(v, v % 128, v / 128, acc, Pow2(shift), Pow2(l.width));
  }

  lemma NextArith(v: nat, d: nat, q: nat, acc: nat, p: nat, m: nat)
    requires v == 128 * q + d && acc + v * p < m
    ensures acc + d * p < m && (acc + d * p) % m == acc + d * p
    ensures acc + d * p + q * (p * 128) == acc + v * p
  {
    assert v * p == d * p + q * (p * 128);
    Small(acc + d * p, m);
  }

  lemma ReadMore(b: Byte, rest: seq<Byte>, acc: nat, shift: nat, l: Limits)
    requires b >= 128 && shift + 7 <= l.maxShift
    ensures ReadGroups([b] + rest, acc, shift, l)
            == ReadGroups(rest, Wrap(acc + Shifted(b % 128, shift), l.width), shift + 7, l)
  {
    assert ([b] + rest)[1..] == rest;
  }

  lemma ReadLast(b: Byte, rest: seq<Byte>, acc: nat, shift: nat, l: Limits)
    requires b < 128 && acc + Shifted(b, shift) < Pow2(l.width)
    ensures ReadGroups([b] + rest, acc, shift, l) == Some(Parsed(acc + Shifted(b, shift), rest))
  {
    assert ([b] + rest)[1..] == rest;
    hide Shifted, Pow2;
    Small(acc + Shifted(b, shift), Pow2(l.width));
  }

  lemma GroupsStep(v: nat, rest: seq<Byte>)
    requires v >= 128
    ensures Groups(v) + rest == [v % 128 + 128] + (Groups(v / 128) + rest)
  {
  }

  /** The groups of v are read back as long as the sum fits the accumulator. */
  lemma {:induction false} GroupsRoundTrip(v: nat, acc: nat, shift: nat, l: Limits, rest: seq<Byte>)
    requires acc + Shifted(v, shift) < Pow2(l.width) && shift % 7 == 0 && l in {QPACK, HPACK}
    ensures ReadGroups(Groups(v) + rest, acc, shift, l) == Some(Parsed(acc + Shifted(v, shift), rest))
    decreases v
  {
    hide ReadGroups, Pow2, Shifted, Wrap;
    if v < 128 {
      ReadLast(v, rest, acc, shift, l);
    } else {
      var b: Byte := v % 128 + 128;
      GroupsStep(v, rest);
      ShiftFits(v, shift, l);
      NextGroup(v, b, acc, shift, l);
      ReadMore(b, Groups(v / 128) + rest, acc, shift, l);
      GroupsRoundTrip(v / 128, acc + Shifted(b % 128, shift), shift + 7, l, rest);
    }
  }

  /** Every integer the reader's accumulator can hold is read back, and nothing after it is touched. */
  lemma IntRoundTrip(v: nat, prefix: nat, n: nat, l: Limits, rest: seq<Byte>)
    requires 1 <= n <= 8 && prefix % Pow2(n) == 0 && prefix + Pow2(n) <= 256
    requires v < Pow2(l.width) && l in {QPACK, HPACK}
    ensures ReadInt(IntBytes(v, prefix, n) + rest, n, l) == Some(Parsed(v, rest))
  {
    hide Groups, ReadGroups, Pow2;
    var m := Pow2(n);
    if v < m - 1 {
      assert (IntBytes(v, prefix, n) + rest)[1..] == rest;
      Masked(prefix, v, m);
    } else {
      assert (IntBytes(v, prefix, n) + rest)[1..] == Groups(v - (m - 1)) + rest;
      Masked(prefix, m - 1, m);
      Unshifted(v - (m - 1));
      hide Shifted;
      GroupsRoundTrip(v - (m - 1), m - 1, 0, l, rest);
    }
  }

  /** The room of the prefixes that the header codecs use. */
  lemma Prefixes()
    ensures Pow2(3) == 8 && Pow2(4) == 16 && Pow2(5) == 32 && Pow2(6) == 64 && Pow2(7) == 128 && Pow2(8) == 256
  {
  }

  /** The first byte of an integer stays within its prefix. */
  lemma FirstByte(v: nat, prefix: nat, n: nat, rest: seq<Byte>)
    requires 1 <= n <= 8 && prefix + Pow2(n) <= 256
    ensures IntBytes(v, prefix, n) != [] && prefix <= IntBytes(v, prefix, n)[0] < prefix + Pow2(n)
    ensures IntBytes(v, prefix, n) + rest != [] && (IntBytes(v, prefix, n) + rest)[0] == IntBytes(v, prefix, n)[0]
  {
  }

  lemma Unshifted(v: nat)
    ensures Shifted(v, 0) == v
  {
  }

  lemma Masked(prefix: nat, v: nat, m: nat)
    requires m > 0 && prefix % m == 0 && v < m
    ensures (prefix + v) % m == v
  {
    QuotientIs(prefix + v, m, prefix / m, v);
  }

  // --------------------------------------------------------------------------
  // As the program does it
  // --------------------------------------------------------------------------

  /** Appends the encoding. */
  method WriteInt(out0: seq<Byte>, value: nat, prefix: nat, n: nat) returns (out: seq<Byte>)
    requires 1 <= n <= 8 && prefix + Pow2(n) <= 256
    ensures out == out0 + IntBytes(value, prefix, n)
  {
    var top := Pow2(n) - 1;
    if value < top {
      return out0 + [prefix + value];
    }
    var tail := WriteGroups(value - top);
    out := out0 + ([prefix + top] + tail);
  }

  method WriteGroups(value: nat) returns (out: seq<Byte>)
    ensures out == Groups(value)
  {
    out := [];
    var v: nat := value;
    while v >= 128
      invariant out + Groups(v) == Groups(value)
    {
      assert out + Groups(v) == (out + [v % 128 + 128]) + Groups(v / 128);
      out := out + [v % 128 + 128];
      v := v / 128;
    }
    out := out + [v];
  }

  /** Reads at a cursor; the cursor moves past the integer. */
  method ReadAt(buf: seq<Byte>, off0: nat, n: nat, l: Limits) returns (res: Option<nat>, off: nat)
    requires off0 <= |buf| && 1 <= n <= 8
    ensures off0 <= off <= |buf|
    ensures res.Some? ==> ReadInt(buf[off0..], n, l) == Some(Parsed(res.value, buf[off..])) && off0 < off
    ensures res.None? ==> ReadInt(buf[off0..], n, l) == None
  {
    off := off0;
    if off >= |buf| { return None, off; }
    var v: nat := buf[off] % Pow2(n);
    off := off + 1;
    assert buf[off0..][1..] == buf[off..];
    if v < Pow2(n) - 1 { return Some(v), off; }
    var shift := 0;
    while true
      invariant off0 < off <= |buf|
      invariant ReadInt(buf[off0..], n, l) == ReadGroups(buf[off..], v, shift, l)
      decreases |buf| - off
    {
      if off >= |buf| { return None, off; }
      var b := buf[off];
      assert buf[off..][0] == b && buf[off..][1..] == buf[off + 1..];
      off := off + 1;
      v := Wrap(v + Shifted(b % 128, shift), l.width);
      if b < 128 { return Some(v), off; }
      shift := shift + 7;
      if shift > l.maxShift { return None, off; }
    }
  }
}
