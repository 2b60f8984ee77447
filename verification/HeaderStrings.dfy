/** Length-prefixed strings, plain or Huffman-coded (section 5.2 of RFC 7541), as both header codecs read them. */
module HeaderStrings {
  import opened Bytes
  import opened BitStrings
  import opened Huffman
  import HuffTree
  import opened PrefixInt

  type Text = seq<Byte>

  datatype Field = Field(name: Text, value: Text)

  type StaticTable = seq<Field>

  predicate Flag(b: Byte, n: nat) { (b / Pow2(n)) % 2 == 1 }

  ghost function ReadString(t: Table, buf: seq<Byte>, n: nat, l: Limits): Option<Parsed<Text>>
    requires |t| == 257 && 1 <= n <= 7
  {
    if buf == [] then None
    else
      match ReadInt(buf, n, l)
      case None => None
      case Some(p) =>
        if p.value > |p.rest| then None
        else if !Flag(buf[0], n) then Some(Parsed(p.rest[..p.value], p.rest[p.value..]))
        else
          match Decoded(t, p.rest[..p.value])
          case None => None
          case Some(s) => Some(Parsed(s, p.rest[p.value..]))
  }

  lemma StringShortens(t: Table, buf: seq<Byte>, n: nat, l: Limits)
    requires |t| == 257 && 1 <= n <= 7
    ensures ReadString(t, buf, n, l).Some? ==> |ReadString(t, buf, n, l).value.rest| < |buf|
  {
    IntShortens(buf, n, l);
  }

  lemma ReadCoded(t: Table, buf: seq<Byte>, n: nat, code: seq<Byte>, s: Text, rest: seq<Byte>, l: Limits)
    requires |t| == 257 && 1 <= n <= 7 && buf != [] && Flag(buf[0], n)
    requires ReadInt(buf, n, l) == Some(Parsed(|code|, code + rest)) && Decoded(t, code) == Some(s)
    ensures ReadString(t, buf, n, l) == Some(Parsed(s, rest))
  {
    assert (code + rest)[..|code|] == code && (code + rest)[|code|..] == rest;
    hide ReadInt, Decoded, Flag;
  }

  lemma At(buf: seq<Byte>, off: nat, k: nat)
    requires off <= |buf| && k <= |buf| - off
    ensures buf[off..][..k] == buf[off..off + k] && buf[off..][k..] == buf[off + k..]
    ensures off < |buf| ==> buf[off..][0] == buf[off]
  {
  }

  method ReadStringAt(tree: HuffTree.Tree, buf: seq<Byte>, off0: nat, n: nat, l: Limits) returns (res: Option<Text>, off: nat)
    requires tree.Valid() && off0 <= |buf| && 1 <= n <= 7
    ensures off0 <= off <= |buf| && |tree.table| == 257
    ensures res.Some? ==> ReadString(tree.table, buf[off0..], n, l) == Some(Parsed(res.value, buf[off..])) && off0 < off
    ensures res.None? ==> ReadString(tree.table, buf[off0..], n, l) == None
  {
    hide HuffTree.Trie, PrefixFree, Ones, BitsOf, ReadInt, Decoded, Flag;
    tree.TableIs();
    off := off0;
    if off >= |buf| { return None, off; }
    var huff := Flag(buf[off], n);
    At(buf, off0, 0);
    var len;
    len, off := ReadAt(buf, off, n, l);
    if len.None? { return None, off; }
    if len.value > |buf| - off { return None, off; }
    At(buf, off, len.value);
    var raw := buf[off..off + len.value];
    off := off + len.value;
    if !huff { return Some(raw), off; }
    res := tree.Decode(raw);
  }
}
