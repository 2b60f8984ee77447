/** Packet-number reconstruction (packet.cpp, `decode_packet_number`; Appendix A.3 of RFC 9000). */
module PacketNumber {
  import opened BitStrings

  const LIMIT: nat := 0x4000_0000_0000_0000

  /** Windows of 1 to 4 bytes. */
  predicate IsWindow(w: nat) { w in {0x100, 0x1_0000, 0x100_0000, 0x1_0000_0000} }

  /** The number closest to `largest + 1` among those that end in the truncated bits, as the program finds it. */
  function Decode(largest: nat, truncated: nat, w: nat): nat
    requires IsWindow(w) && truncated < w
  {
    var expected, half := largest + 1, w / 2;
    var candidate := expected / w * w + truncated;
    if expected > half && candidate <= expected - half && candidate < LIMIT - w then candidate + w
    else if candidate > expected + half && candidate >= w then candidate - w
    else candidate
  }

  /** The same over unbounded integers, as Appendix A.3 writes it. */
  function Reference(largest: nat, truncated: nat, w: nat): int
    requires IsWindow(w) && truncated < w
  {
    var expected, half := largest + 1, w / 2;
    var candidate := expected / w * w + truncated;
    if candidate <= expected - half && candidate < LIMIT - w then candidate + w
    else if candidate > expected + half && candidate >= w then candidate - w
    else candidate
  }

  /** Both agree, except where the guard against underflow also shuts out equality. */
  lemma AgreesWithReference(largest: nat, truncated: nat, w: nat)
    requires IsWindow(w) && truncated < w
    ensures Decode(largest, truncated, w) == Reference(largest, truncated, w)
            <==> !(largest + 1 == w / 2 && truncated == 0)
  {
    var expected := largest + 1;
    if expected < w {
      assert expected / w == 0;
    }
    hide Decode, Reference;
    AgreesWhenBeyond(largest, truncated, w);
  }

  lemma AgreesWhenBeyond(largest: nat, truncated: nat, w: nat)
    requires IsWindow(w) && truncated < w
    requires largest + 1 < w ==> (largest + 1) / w == 0
    ensures Decode(largest, truncated, w) == Reference(largest, truncated, w)
            <==> !(largest + 1 == w / 2 && truncated == 0)
  {
    var q := (largest + 1) / w;
    assert q >= 0 && q * w >= 0;
  }

  /** Multiples of the window are equal, neighbours, or two windows apart. */
  lemma Multiples(w: nat, a: nat, m: nat)
    ensures m == a + 1 ==> w * m == w * a + w
    ensures m > a + 1 ==> w * m >= w * a + 2 * w
  {
    if m > a + 1 { Scaled(w, a, a + 1); Scaled(w, a + 1, m); }
  }

  /**
   Every packet number within half a window of the expected one is recovered from its low bits, with
   one exception for each window: the window itself, when half of it is expected.
   */
  lemma Recovers(largest: nat, pn: nat, w: nat)
    requires IsWindow(w) && pn < LIMIT
    requires largest + 1 - w / 2 < pn <= largest + 1 + w / 2
    ensures Decode(largest, pn % w, w) == pn <==> !(largest + 1 == w / 2 && pn == w)
  {
    var expected := largest + 1;
    Recover(expected, expected / w, expected % w, pn, pn / w, pn % w, w);
  }

  lemma Recover(expected: nat, a: nat, r: nat, pn: nat, m: nat, t: nat, w: nat)
    requires IsWindow(w) && expected > 0 && pn < LIMIT && expected - w / 2 < pn <= expected + w / 2
    requires expected == w * a + r && r < w && pn == w * m + t && t < w && a == expected / w && t == pn % w
    ensures Decode(expected - 1, t, w) == pn <==> !(expected == w / 2 && pn == w)
  {
    var candidate := a * w + t;
    Multiples(w, a, m);
    Multiples(w, m, a);
    Settles(expected, candidate, pn, w);
  }

  lemma Settles(expected: nat, candidate: nat, pn: nat, w: nat)
    requires IsWindow(w) && expected > 0 && pn < LIMIT && expected - w / 2 < pn <= expected + w / 2
    requires candidate == pn || candidate + w == pn || candidate - w == pn
    ensures var half := w / 2;
            var decoded := if expected > half && candidate <= expected - half && candidate < LIMIT - w then candidate + w
                           else if candidate > expected + half && candidate >= w then candidate - w
                           else candidate;
            decoded == pn <==> !(expected == half && candidate == 0 && pn == w)
  {
  }
}
