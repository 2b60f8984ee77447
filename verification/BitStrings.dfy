/** Numbers as strings of bits, most significant first. */
module BitStrings {
  import opened Bytes

  type Bits = seq<bool>

  function Pow2(n: nat): (p: nat)
    ensures p > 0
  {
    if n == 0 then 1 else 2 * Pow2(n - 1)
  }

  /** The n low bits of x. */
  function BitsOf(x: nat, n: nat): (bs: Bits)
    ensures |bs| == n
  {
    if n == 0 then [] else BitsOf(x / 2, n - 1) + [x % 2 == 1]
  }

  function Value(bs: Bits): nat {
    if bs == [] then 0 else 2 * Value(bs[..|bs| - 1]) + One(bs[|bs| - 1])
  }

  lemma {:induction false} PowAdd(m: nat, n: nat)
    ensures Pow2(m + n) == Pow2(m) * Pow2(n)
    decreases n
  {
    if n > 0 {
      PowAdd(m, n - 1);
      assert Pow2(m) * (2 * Pow2(n - 1)) == 2 * (Pow2(m) * Pow2(n - 1));
    } else {
      assert Pow2(m) * 1 == Pow2(m);
    }
  }

  lemma {:induction false} PowMono(m: nat, n: nat)
    requires m <= n
    ensures Pow2(m) <= Pow2(n)
    decreases n
  {
    if m < n { PowMono(m, n - 1); }
  }

  lemma {:induction false} ValueBound(bs: Bits)
    ensures Value(bs) < Pow2(|bs|)
  {
    if bs != [] { ValueBound(bs[..|bs| - 1]); }
  }

  lemma {:induction false} BitsOfValue(bs: Bits)
    ensures BitsOf(Value(bs), |bs|) == bs
  {
    if bs != [] {
      BitsOfValue(bs[..|bs| - 1]);
      assert Value(bs) / 2 == Value(bs[..|bs| - 1]);
    }
  }

  lemma {:induction false} ValueOfBits(x: nat, n: nat)
    requires x < Pow2(n)
    ensures Value(BitsOf(x, n)) == x
  {
    if n > 0 {
      assert x / 2 < Pow2(n - 1);
      ValueOfBits(x / 2, n - 1);
      var front := BitsOf(x / 2, n - 1);
      assert BitsOf(x, n) == front + [x % 2 == 1] && BitsOf(x, n)[..n - 1] == front;
    }
  }

  lemma Doubled(x: nat, p: nat)
    ensures 2 * (x * p) == x * (2 * p)
  {
  }

  lemma {:induction false} ValueConcat(a: Bits, b: Bits)
    ensures Value(a + b) == Value(a) * Pow2(|b|) + Value(b)
    decreases |b|
  {
    if b == [] {
      assert a + b == a;
    } else {
      var front := b[..|b| - 1];
      ValueConcat(a, front);
      assert (a + b)[..|a + b| - 1] == a + front;
      Doubled(Value(a), Pow2(|b| - 1));
    }
  }

  /** Shifting right drops the low bits; halving commutes with it. */
  lemma {:induction false} HalfThenShift(x: nat, n: nat)
    ensures x / Pow2(n + 1) == (x / 2) / Pow2(n)
  {
    var d, p := x / 2, Pow2(n);
    var q, r := d / p, d % p;
    assert d == p * q + r;
    assert x == 2 * p * q + (2 * r + x % 2);
    assert 0 <= 2 * r + x % 2 < 2 * p;
    QuotientIs(x, 2 * p, q, 2 * r + x % 2);
  }

  lemma {:induction false} Scaled(m: nat, q: nat, p: nat)
    requires q < p
    ensures m * q + m <= m * p
    decreases p
  {
    assert m * p == m * (p - 1) + m;
    if q < p - 1 { Scaled(m, q, p - 1); }
  }

  lemma QuotientUnique(m: nat, q: nat, r: nat, q': nat, r': nat)
    requires m * q + r == m * q' + r' && r < m && r' < m
    ensures q == q' && r == r'
  {
    if q < q' { Scaled(m, q, q'); } else if q' < q { Scaled(m, q', q); }
  }

  lemma QuotientIs(x: nat, m: nat, q: nat, r: nat)
    requires x == m * q + r && r < m
    ensures x / m == q && x % m == r
  {
    QuotientUnique(m, q, r, x / m, x % m);
  }

  /** Bit i of the string is found by shifting and masking, as the program does. */
  lemma {:induction false} BitAt(x: nat, n: nat, i: nat)
    requires i < n
    ensures BitsOf(x, n)[i] == ((x / Pow2(n - 1 - i)) % 2 == 1)
    decreases n
  {
    if i < n - 1 {
      BitAt(x / 2, n - 1, i);
      HalfThenShift(x, n - 2 - i);
    }
  }

  // --------------------------------------------------------------------------
  // Whole bytes
  // --------------------------------------------------------------------------

  function Unpack(bytes: seq<Byte>): (bs: Bits)
    ensures |bs| == 8 * |bytes|
  {
    if bytes == [] then [] else Unpack(bytes[..|bytes| - 1]) + BitsOf(bytes[|bytes| - 1], 8)
  }

  lemma {:induction false} UnpackConcat(a: seq<Byte>, b: seq<Byte>)
    ensures Unpack(a + b) == Unpack(a) + Unpack(b)
    decreases |b|
  {
    if b == [] {
      assert a + b == a;
    } else {
      UnpackConcat(a, b[..|b| - 1]);
      assert (a + b)[..|a + b| - 1] == a + b[..|b| - 1];
    }
  }

  lemma {:induction false} UnpackInjective(a: seq<Byte>, b: seq<Byte>)
    requires Unpack(a) == Unpack(b)
    ensures a == b
  {
    if a != [] {
      var x, y := a[..|a| - 1], b[..|b| - 1];
      assert Unpack(x) == Unpack(a)[..8 * |x|] == Unpack(y);
      UnpackInjective(x, y);
      assert BitsOf(a[|a| - 1], 8) == Unpack(a)[8 * |x|..] == BitsOf(b[|b| - 1], 8);
      assert Pow2(8) == 256;
      ValueOfBits(a[|a| - 1], 8);
      ValueOfBits(b[|b| - 1], 8);
      assert a == x + [a[|a| - 1]] && b == y + [b[|b| - 1]];
    } else {
      assert b == [];
    }
  }

  /** Bit j of byte i. */
  lemma UnpackAt(bytes: seq<Byte>, i: nat, j: nat)
    requires i < |bytes| && j < 8
    ensures Unpack(bytes)[8 * i + (7 - j)] == ((bytes[i] / Pow2(j)) % 2 == 1)
  {
    var a, b := bytes[..i + 1], bytes[i + 1..];
    assert bytes == a + b && a[..i] == bytes[..i] && a[i] == bytes[i];
    UnpackConcat(a, b);
    assert Unpack(a) == Unpack(a[..i]) + BitsOf(a[i], 8);
    BitAt(a[i], 8, 7 - j);
  }

  function Pack(bs: Bits): (bytes: seq<Byte>)
    requires |bs| % 8 == 0
    ensures 8 * |bytes| == |bs|
  {
    if bs == [] then []
    else
      var last := bs[|bs| - 8..];
      ValueBound(last);
      assert Pow2(8) == 256;
      Pack(bs[..|bs| - 8]) + [Value(last)]
  }

  lemma {:induction false} UnpackPack(bs: Bits)
    requires |bs| % 8 == 0
    ensures Unpack(Pack(bs)) == bs
  {
    if bs != [] {
      UnpackPack(bs[..|bs| - 8]);
      BitsOfValue(bs[|bs| - 8..]);
      assert Pack(bs)[..|Pack(bs)| - 1] == Pack(bs[..|bs| - 8]);
    }
  }
}
