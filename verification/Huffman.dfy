/**
 The static Huffman code of HPACK and QPACK (src/codec/huffman.cpp; section 5.2
 of RFC 7541), for any code table that is prefix-free and pads with EOS.
 */
module Huffman {
  import opened Bytes
  import opened BitStrings

  /** The `bits` low bits of `code`. */
  datatype Entry = Entry(code: nat, bits: nat)

  type Table = seq<Entry>

  const EOS: nat := 256

  function Code(t: Table, s: nat): Bits
    requires s < |t|
  {
    BitsOf(t[s].code, t[s].bits)
  }

  function Ones(n: nat): (bs: Bits)
    ensures |bs| == n && forall i :: 0 <= i < n ==> bs[i]
  {
    if n == 0 then [] else Ones(n - 1) + [true]
  }

  ghost predicate PrefixFree(t: Table) {
    forall a, b :: 0 <= a < |t| && 0 <= b < |t| && Code(t, a) <= Code(t, b) ==> a == b
  }

  /** A code for every byte and EOS, of 5 to 30 bits, prefix-free, with EOS thirty ones. */
  ghost predicate ValidTable(t: Table) {
    && |t| == 257
    && (forall s :: 0 <= s < 257 ==> 5 <= t[s].bits <= 30 && t[s].code < Pow2(t[s].bits))
    && Code(t, EOS) == Ones(30)
    && PrefixFree(t)
  }

  // --------------------------------------------------------------------------
  // What a string is encoded as
  // --------------------------------------------------------------------------

  /** The codes of the bytes, one after the other. */
  function Spell(t: Table, s: seq<Byte>): Bits
    requires |t| == 257
  {
    if s == [] then [] else Code(t, s[0]) + Spell(t, s[1..])
  }

  function PadLen(n: nat): (p: nat)
    ensures p <= 7 && (n + p) % 8 == 0
  {
    (8 - n % 8) % 8
  }

  function Padded(bs: Bits): (r: Bits)
    ensures |r| % 8 == 0
  {
    bs + Ones(PadLen(|bs|))
  }

  function Encode(t: Table, s: seq<Byte>): (bytes: seq<Byte>)
    requires |t| == 257
  {
    Pack(Padded(Spell(t, s)))
  }

  lemma Assoc(a: Bits, b: Bits, c: Bits)
    ensures (a + b) + c == a + (b + c)
  {
  }

  lemma {:induction false} SpellConcat(t: Table, a: seq<Byte>, b: seq<Byte>)
    requires |t| == 257
    ensures Spell(t, a + b) == Spell(t, a) + Spell(t, b)
  {
    hide Code;
    if a == [] {
      assert a + b == b;
    } else {
      SpellConcat(t, a[1..], b);
      assert (a + b)[1..] == a[1..] + b;
      Assoc(Code(t, a[0]), Spell(t, a[1..]), Spell(t, b));
    }
  }

  lemma SpellOne(t: Table, x: Byte)
    requires |t| == 257
    ensures Spell(t, [x]) == Code(t, x)
  {
    assert [x][1..] == [];
  }

  lemma Comparable(all: Bits, a: Bits, b: Bits)
    requires a <= all && b <= all
    ensures a <= b || b <= a
  {
    if |a| <= |b| { assert a == all[..|b|][..|a|]; } else { assert b == all[..|a|][..|b|]; }
  }

  lemma OnesPrefix(bs: Bits, p: nat, n: nat)
    requires p <= n
    ensures bs <= Ones(p) ==> bs <= Ones(n)
  {
    if bs <= Ones(p) {
      assert forall i :: 0 <= i < |bs| ==> bs[i] == Ones(p)[i];
    }
  }

  /** No byte's code consists of padding bits only. */
  lemma NoCodeIsPadding(t: Table, x: Byte, p: nat)
    requires ValidTable(t) && p <= 30
    ensures !(Code(t, x) <= Ones(p))
  {
    assert !(Code(t, x) <= Code(t, EOS));
    OnesPrefix(Code(t, x), p, 30);
  }

  lemma DropPrefix(a: Bits, b: Bits, c: Bits)
    ensures a + b <= a + c <==> b <= c
  {
    if a + b <= a + c {
      assert b == (a + b)[|a|..] && c == (a + c)[|a|..];
      assert (a + c)[..|a| + |b|] == a + b;
      assert c[..|b|] == b;
    }
    if b <= c { assert (a + c)[..|a| + |b|] == a + c[..|b|]; }
  }

  /** Bytes spelled as a prefix of a padded spelling are a prefix of the bytes spelled. */
  lemma {:induction false} SpelledPrefix(t: Table, u: seq<Byte>, s: seq<Byte>, p: nat)
    requires ValidTable(t) && p <= 7
    requires Spell(t, u) <= Spell(t, s) + Ones(p)
    ensures u <= s
    decreases |u|
  {
    if u != [] {
      var bs := Spell(t, s) + Ones(p);
      assert Code(t, u[0]) <= bs by { assert Code(t, u[0]) == Spell(t, u)[..|Code(t, u[0])|]; }
      if s == [] {
        assert bs == Ones(p);
        NoCodeIsPadding(t, u[0], p);
      } else {
        Assoc(Code(t, s[0]), Spell(t, s[1..]), Ones(p));
        Comparable(bs, Code(t, u[0]), Code(t, s[0]));
        DropPrefix(Code(t, s[0]), Spell(t, u[1..]), Spell(t, s[1..]) + Ones(p));
        SpelledPrefix(t, u[1..], s[1..], p);
      }
    }
  }

  /** Different strings have different encodings. */
  lemma EncodeInjective(t: Table, a: seq<Byte>, b: seq<Byte>)
    requires ValidTable(t) && Encode(t, a) == Encode(t, b)
    ensures a == b
  {
    var x, y := Spell(t, a), Spell(t, b);
    UnpackPack(Padded(x));
    UnpackPack(Padded(y));
    assert x <= Padded(x) && y <= Padded(y);
    SpelledPrefix(t, a, b, PadLen(|y|));
    SpelledPrefix(t, b, a, PadLen(|x|));
  }

  /** The string whose encoding the bytes are, if any. */
  ghost function Decoded(t: Table, bytes: seq<Byte>): Option<seq<Byte>>
    requires |t| == 257
  {
    if exists s :: bytes == Encode(t, s) then
      var s :| bytes == Encode(t, s);
      Some(s)
    else None
  }

  /** Decoding inverts encoding, and nothing else decodes. */
  lemma DecodedIs(t: Table, bytes: seq<Byte>, s: seq<Byte>)
    requires ValidTable(t)
    ensures Decoded(t, bytes) == Some(s) <==> bytes == Encode(t, s)
  {
    if bytes == Encode(t, s) {
      EncodeInjective(t, s, Decoded(t, bytes).value);
    }
  }

  // --------------------------------------------------------------------------
  // The encoder and its 64-bit accumulator
  // --------------------------------------------------------------------------

  /** The accumulator's low bits hold the pending bits. */
  ghost predicate Holds(buf: nat, rest: Bits) {
    buf % Pow2(|rest|) == Value(rest)
  }

  /** Shifting left within 64 bits, as `buf << n`. */
  function ShiftLeft(buf: nat, n: nat): nat { (buf * Pow2(n)) % Pow2(64) }

  lemma Below(p: nat, b: nat, v: nat, code: nat)
    requires v < p && code < b
    ensures v * b + code < p * b
  {
    Scaled(b, v, p);
  }

  lemma NonNegative(p: nat, q: int, r: int)
    requires p * q + r >= 0 && r < p
    ensures q >= 0
  {
    if q < 0 { Scaled(p, 0, -q); }
  }

  lemma Regroup(pb: nat, m: nat, q: nat, k: nat)
    ensures (pb * m) * k == pb * (m * k)
    ensures pb * (q - m * k) == pb * q - pb * (m * k)
  {
  }

  /** Multiplying modulo a multiple of p * b and adding less than b keeps the remainder modulo p. */
  lemma ShiftArith(buf: nat, p: nat, b: nat, m: nat, code: nat)
    requires p > 0 && b > 0 && m > 0 && code < b
    requires p * b > 0 && p * b * m > 0
    ensures ((buf * b) % (p * b * m) + code) % (p * b) == (buf % p) * b + code
  {
    var q, v, x := buf / p, buf % p, buf * b;
    var k, top := x / (p * b * m), x % (p * b * m);
    assert x == (p * b) * q + v * b by { assert buf == p * q + v; }
    assert x == (p * b * m) * k + top;
    Regroup(p * b, m, q, k);
    Below(p, b, v, code);
    NonNegative(p * b, q - m * k, v * b);
    QuotientIs(top + code, p * b, q - m * k, v * b + code);
  }

  /** Shifting a code in puts its bits after the pending ones; what overflows no longer matters. */
  lemma ShiftIn(buf: nat, rest: Bits, code: nat, bits: nat)
    requires Holds(buf, rest) && |rest| < 8 && bits <= 30 && code < Pow2(bits)
    ensures Holds(ShiftLeft(buf, bits) + code, rest + BitsOf(code, bits))
  {
    var h := |rest| + bits;
    hide Pow2, Value, BitsOf;
    PowAdd(|rest|, bits);
    PowAdd(h, 64 - h);
    ValueOfBits(code, bits);
    ValueConcat(rest, BitsOf(code, bits));
    ShiftArith(buf, Pow2(|rest|), Pow2(bits), Pow2(64 - h), code);
  }

  /** The two remainders of a number that ends in a * p + b. */
  lemma SplitArith(buf: nat, p: nat, n: nat, a: nat, b: nat)
    requires n == p * 256 && n > 0 && buf % n == a * p + b && a < 256 && b < p
    ensures (buf / p) % 256 == a && buf % p == b
  {
    var q := buf / n;
    assert buf == n * q + (a * p + b);
    assert n * q + a * p == p * (256 * q + a);
    QuotientIs(buf, p, 256 * q + a, b);
    QuotientIs(256 * q + a, 256, q, a);
  }

  function Times(a: nat, b: nat): nat { a * b }

  lemma SplitTimes(buf: nat, p: nat, n: nat, a: nat, b: nat)
    requires n == Times(p, 256) && n > 0 && p > 0 && buf % n == Times(a, p) + b && a < 256 && b < p
    ensures (buf / p) % 256 == a && buf % p == b
  {
    SplitArith(buf, p, n, a, b);
  }

  /** Taking the top eight pending bits off. */
  lemma ShiftOut(buf: nat, rest: Bits)
    requires Holds(buf, rest) && |rest| >= 8
    ensures (buf / Pow2(|rest| - 8)) % 256 == Value(rest[..8]) < 256
    ensures Holds(buf, rest[8..])
  {
    hide Times, Pow2, Value;
    ValueSplit(rest);
    SplitTimes(buf, Pow2(|rest| - 8), Pow2(|rest|), Value(rest[..8]), Value(rest[8..]));
  }

  lemma ValueSplit(rest: Bits)
    requires |rest| >= 8
    ensures Value(rest) == Times(Value(rest[..8]), Pow2(|rest| - 8)) + Value(rest[8..])
    ensures Value(rest[..8]) < 256 && Value(rest[8..]) < Pow2(|rest| - 8)
    ensures Pow2(|rest|) == Times(Pow2(|rest| - 8), 256)
  {
    assert rest == rest[..8] + rest[8..];
    ValueConcat(rest[..8], rest[8..]);
    ValueBound(rest[..8]);
    ValueBound(rest[8..]);
    PowAdd(|rest| - 8, 8);
    assert Pow2(8) == 256;
  }

  lemma {:induction false} AllOnes(n: nat)
    ensures BitsOf(Pow2(n) - 1, n) == Ones(n)
  {
    if n > 0 {
      AllOnes(n - 1);
      assert (Pow2(n) - 1) / 2 == Pow2(n - 1) - 1;
    }
  }

  lemma UnpackSnoc(bytes: seq<Byte>, b: Byte, bs: Bits)
    requires |bs| == 8 && b == Value(bs)
    ensures Unpack(bytes + [b]) == Unpack(bytes) + bs
  {
    assert (bytes + [b])[..|bytes|] == bytes;
    BitsOfValue(bs);
  }

  /** Moves whole bytes from the accumulator to the output. */
  method Flush(buf: nat, bits: nat, ghost rest: Bits) returns (bytes: seq<Byte>, held: nat, ghost left: Bits)
    requires Holds(buf, rest) && |rest| == bits
    ensures held < 8 && Unpack(bytes) <= rest && |Unpack(bytes)| + held == bits
    ensures held == |left| && Holds(buf, left) && Unpack(bytes) + left == rest
  {
    hide Holds, Unpack, Value, Pow2;
    held, bytes, left := bits, [], rest;
    assert Unpack(bytes) == [];
    while held >= 8
      invariant held == |left| && Holds(buf, left) && Unpack(bytes) + left == rest
    {
      ShiftOut(buf, left);
      held := held - 8;
      var byte := (buf / Pow2(held)) % 256;
      UnpackSnoc(bytes, byte, left[..8]);
      assert left == left[..8] + left[8..];
      bytes, left := bytes + [byte], left[8..];
    }
  }

  /** The last byte, filled up with ones. */
  method FlushLast(buf: nat, held: nat, ghost rest: Bits) returns (byte: Byte)
    requires Holds(buf, rest) && |rest| == held && 0 < held < 8
    ensures byte == Value(rest + Ones(8 - held))
  {
    var pad := 8 - held;
    AllOnes(pad);
    ShiftIn(buf, rest, Pow2(pad) - 1, pad);
    assert Pow2(8) == 256;
    byte := (ShiftLeft(buf, pad) + (Pow2(pad) - 1)) % 256;
  }

  method EncodeByte(t: Table, x: Byte, buf0: nat, held0: nat, ghost rest0: Bits)
    returns (buf: nat, held: nat, bytes: seq<Byte>, ghost rest: Bits)
    requires ValidTable(t) && |rest0| == held0 < 8 && Holds(buf0, rest0)
    ensures held < 8 && Unpack(bytes) <= rest0 + Code(t, x) && |Unpack(bytes)| + held == held0 + t[x].bits
    ensures held == |rest| && Holds(buf, rest) && Unpack(bytes) + rest == rest0 + Code(t, x)
  {
    hide Holds, Unpack, BitsOf, ShiftLeft, PrefixFree, Ones;
    var sym := t[x];
    ShiftIn(buf0, rest0, sym.code, sym.bits);
    buf := ShiftLeft(buf0, sym.bits) + sym.code;
    bytes, held, rest := Flush(buf, held0 + sym.bits, rest0 + Code(t, x));
  }

  /** The whole bytes of the spelling; up to seven bits stay in the accumulator. */
  method EncodeBytes(t: Table, input: seq<Byte>) returns (done: seq<Byte>, buf: nat, held: nat, ghost rest: Bits)
    requires ValidTable(t)
    ensures |t| == 257 && held < 8 && Unpack(done) <= Spell(t, input) && |Unpack(done)| + held == |Spell(t, input)|
    ensures held == |rest| && Holds(buf, rest) && Unpack(done) + rest == Spell(t, input)
  {
    assert |t| == 257;
    Nothing(t, input);
    hide *;
    buf, held, done, rest := 0, 0, [], [];
    for i := 0 to |input|
      invariant held == |rest| < 8 && Holds(buf, rest)
      invariant Unpack(done) + rest == Spell(t, input[..i])
    {
      SpellNext(t, input, i);
      var bytes;
      ghost var was := rest;
      buf, held, bytes, rest := EncodeByte(t, input[i], buf, held, rest);
      UnpackConcat(done, bytes);
      Joined(Unpack(done), was, Code(t, input[i]), Unpack(bytes), rest);
      done := done + bytes;
    }
    assert input[..|input|] == input;
  }

  /** Appends exactly the encoding of the input. */
  method EncodeTo(t: Table, input: seq<Byte>, out0: seq<Byte>) returns (out: seq<Byte>)
    requires ValidTable(t)
    ensures out == out0 + Encode(t, input)
  {
    assert |t| == 257;
    hide *;
    var done, buf, held;
    ghost var rest;
    done, buf, held, rest := EncodeBytes(t, input);
    if held == 0 {
      Finished(t, input, done, rest, done);
      out := out0 + done;
    } else {
      var byte := FlushLast(buf, held, rest);
      var all := done + [byte];
      UnpackSnoc(done, byte, rest + Ones(8 - held));
      Finished(t, input, done, rest, all);
      out := out0 + all;
    }
  }

  lemma Joined(done: Bits, was: Bits, code: Bits, bytes: Bits, rest: Bits)
    requires bytes + rest == was + code
    ensures (done + bytes) + rest == (done + was) + code
  {
    Assoc(done, bytes, rest);
    Assoc(done, was, code);
  }

  lemma Nothing(t: Table, input: seq<Byte>)
    requires |t| == 257
    ensures Holds(0, []) && Unpack([]) + [] == Spell(t, input[..0])
  {
  }

  lemma SpellNext(t: Table, input: seq<Byte>, i: nat)
    requires |t| == 257 && i < |input|
    ensures Spell(t, input[..i + 1]) == Spell(t, input[..i]) + Code(t, input[i])
  {
    SpellConcat(t, input[..i], [input[i]]);
    SpellOne(t, input[i]);
    assert input[..i + 1] == input[..i] + [input[i]];
  }

  lemma Finished(t: Table, input: seq<Byte>, done: seq<Byte>, rest: Bits, all: seq<Byte>)
    requires |t| == 257 && Unpack(done) + rest == Spell(t, input) && |rest| < 8
    requires Unpack(all) == Unpack(done) + if rest == [] then [] else rest + Ones(8 - |rest|)
    ensures all == Encode(t, input)
  {
    hide Unpack, Spell, Pack, Ones, PadLen;
    var bs := Spell(t, input);
    PadTail(|done|, |rest|);
    assert Unpack(all) == Padded(bs);
    UnpackPack(Padded(bs));
    UnpackInjective(all, Pack(Padded(bs)));
  }

  lemma PadTail(bytes: nat, rest: nat)
    requires rest < 8
    ensures PadLen(8 * bytes + rest) == (if rest == 0 then 0 else 8 - rest) && Ones(0) == []
  {
  }

  /** The size computed in advance is the size of the encoding. */
  method EncodedSize(t: Table, input: seq<Byte>) returns (n: nat)
    requires |t| == 257
    ensures n == |Encode(t, input)|
  {
    var bits := 0;
    for i := 0 to |input|
      invariant bits == |Spell(t, input[..i])|
    {
      SpellNext(t, input, i);
      bits := bits + t[input[i]].bits;
    }
    assert input[..|input|] == input;
    n := (bits + 7) / 8;
  }
}
