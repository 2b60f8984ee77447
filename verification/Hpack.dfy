/**
 HPACK without a dynamic table (example/http2/src/codec.cpp, `HPACK::encode_headers`
 and `HPACK::decode_headers`): header maps to bytes and back.
 */
module Hpack {
  import opened Bytes
  import opened BitStrings
  import opened Huffman
  import HuffTree
  import opened PrefixInt
  import opened HeaderStrings

  type Headers = map<Text, Text>

  /** Entry 0 is a placeholder; the others have names. */
  predicate NamedStatic(tbl: StaticTable) {
    |tbl| == 62 && forall i :: 1 <= i < |tbl| ==> tbl[i].name != []
  }

  // --------------------------------------------------------------------------
  // Encoding
  // --------------------------------------------------------------------------

  /** The first entry from i on that is the field; |tbl| if there is none. */
  function FindPair(tbl: StaticTable, f: Field, i: nat): (k: nat)
    requires i <= |tbl|
    ensures i <= k <= |tbl| && (k < |tbl| ==> tbl[k] == f)
    decreases |tbl| - i
  {
    if i == |tbl| || tbl[i] == f then i else FindPair(tbl, f, i + 1)
  }

  function FindName(tbl: StaticTable, name: Text, i: nat): (k: nat)
    requires i <= |tbl|
    ensures i <= k <= |tbl| && (k < |tbl| ==> tbl[k].name == name)
    decreases |tbl| - i
  {
    if i == |tbl| || tbl[i].name == name then i else FindName(tbl, name, i + 1)
  }

  /** A plain string after its length. */
  function PlainBytes(s: Text): seq<Byte> {
    Prefixes();
    IntBytes(|s|, 0, 7) + s
  }

  function Emit(tbl: StaticTable, f: Field): seq<Byte>
    requires |tbl| >= 1
  {
    Prefixes();
    var i, j := FindPair(tbl, f, 1), FindName(tbl, f.name, 1);
    if i < |tbl| then IntBytes(i, 0x80, 7)
    else if j < |tbl| then IntBytes(j, 0, 4) + PlainBytes(f.value)
    else [0] + PlainBytes(f.name) + PlainBytes(f.value)
  }

  function EmitAll(tbl: StaticTable, fs: seq<Field>): seq<Byte>
    requires |tbl| >= 1
  {
    if fs == [] then [] else Emit(tbl, fs[0]) + EmitAll(tbl, fs[1..])
  }

  // --------------------------------------------------------------------------
  // Decoding
  // --------------------------------------------------------------------------

  function Put(h: Headers, name: Text, value: Text): Headers {
    if name == [] then h else h[name := value]
  }

  /** A literal: an indexed or spelled-out name, then a value; an unknown index is an empty name. */
  ghost function ReadLiteral(t: Table, tbl: StaticTable, h: Headers, buf: seq<Byte>, n: nat): Option<Parsed<Headers>>
    requires |t| == 257 && n in {4, 6}
  {
    match ReadInt(buf, n, HPACK)
    case None => None
    case Some(i) =>
      var name := if i.value == 0 then ReadString(t, i.rest, 7, HPACK)
                  else Some(Parsed(if i.value < |tbl| then tbl[i.value].name else [], i.rest));
      match name
      case None => None
      case Some(k) =>
        match ReadString(t, k.rest, 7, HPACK)
        case None => None
        case Some(v) => Some(Parsed(Put(h, k.value, v.value), v.rest))
  }

  /** One representation; none where the decoder stops and keeps what it has. */
  ghost function ReadOne(t: Table, tbl: StaticTable, h: Headers, buf: seq<Byte>): Option<Parsed<Headers>>
    requires |t| == 257 && buf != []
  {
    var b := buf[0];
    if b >= 0x80 then
      match ReadInt(buf, 7, HPACK)
      case None => None
      case Some(i) =>
        if i.value == 0 || i.value >= |tbl| then Some(Parsed(h, i.rest))
        else Some(Parsed(h[tbl[i.value].name := tbl[i.value].value], i.rest))
    else if b >= 0x40 then ReadLiteral(t, tbl, h, buf, 6)
    else if b >= 0x20 then
      match ReadInt(buf, 5, HPACK)
      case None => None
      case Some(size) => Some(Parsed(h, size.rest))
    else ReadLiteral(t, tbl, h, buf, 4)
  }

  lemma LiteralShortens(t: Table, tbl: StaticTable, h: Headers, buf: seq<Byte>, n: nat)
    requires |t| == 257 && n in {4, 6}
    ensures ReadLiteral(t, tbl, h, buf, n).Some? ==> |ReadLiteral(t, tbl, h, buf, n).value.rest| < |buf|
  {
    IntShortens(buf, n, HPACK);
    forall rest: seq<Byte>
      ensures ReadString(t, rest, 7, HPACK).Some? ==> |ReadString(t, rest, 7, HPACK).value.rest| < |rest|
    {
      StringShortens(t, rest, 7, HPACK);
    }
    hide ReadString, ReadInt;
  }

  lemma OneShortens(t: Table, tbl: StaticTable, h: Headers, buf: seq<Byte>)
    requires |t| == 257 && buf != []
    ensures ReadOne(t, tbl, h, buf).Some? ==> |ReadOne(t, tbl, h, buf).value.rest| < |buf|
  {
    IntShortens(buf, 7, HPACK);
    IntShortens(buf, 5, HPACK);
    LiteralShortens(t, tbl, h, buf, 6);
    LiteralShortens(t, tbl, h, buf, 4);
    hide ReadInt, ReadLiteral;
  }

  ghost function DecodeInto(t: Table, tbl: StaticTable, h: Headers, buf: seq<Byte>): Headers
    requires |t| == 257
    decreases |buf|
  {
    if buf == [] then h
    else
      OneShortens(t, tbl, h, buf);
      match ReadOne(t, tbl, h, buf)
      case None => h
      case Some(p) => DecodeInto(t, tbl, p.value, p.rest)
  }

  // --------------------------------------------------------------------------
  // Round trip
  // --------------------------------------------------------------------------

  /** Lengths are cut to 32 bits when written. */
  predicate Fits(f: Field) { |f.name| < 0x1_0000_0000 && |f.value| < 0x1_0000_0000 }

  lemma Width32()
    ensures Pow2(HPACK.width) == 0x1_0000_0000
  {
    assert Pow2(8) == 256;
    PowAdd(8, 8);
    PowAdd(16, 16);
  }

  /** An integer written with one of the three prefixes the encoder uses is read back. */
  lemma IntReads(v: nat, prefix: nat, n: nat, rest: seq<Byte>)
    requires (prefix == 0x80 && n == 7) || (prefix == 0 && n in {4, 7})
    requires v < 0x1_0000_0000
    ensures prefix + Pow2(n) <= 256 && ReadInt(IntBytes(v, prefix, n) + rest, n, HPACK) == Some(Parsed(v, rest))
  {
    Prefixes();
    Width32();
    hide ReadInt, IntBytes, Pow2;
    IntRoundTrip(v, prefix, n, HPACK, rest);
  }

  lemma PlainFlag(b: Byte)
    requires b < 128
    ensures !Flag(b, 7)
  {
    Prefixes();
  }

  lemma ReadPlain(t: Table, buf: seq<Byte>, s: Text, rest: seq<Byte>)
    requires |t| == 257 && buf != [] && !Flag(buf[0], 7) && ReadInt(buf, 7, HPACK) == Some(Parsed(|s|, s + rest))
    ensures ReadString(t, buf, 7, HPACK) == Some(Parsed(s, rest))
  {
    assert (s + rest)[..|s|] == s && (s + rest)[|s|..] == rest;
    hide ReadInt, Flag, Decoded;
  }

  lemma StringReads(t: Table, s: Text, rest: seq<Byte>)
    requires |t| == 257 && |s| < 0x1_0000_0000
    ensures ReadString(t, PlainBytes(s) + rest, 7, HPACK) == Some(Parsed(s, rest))
  {
    Prefixes();
    hide ReadInt, IntBytes, ReadString, Flag, Pow2;
    var len := IntBytes(|s|, 0, 7);
    IntReads(|s|, 0, 7, s + rest);
    FirstByte(|s|, 0, 7, s + rest);
    PlainFlag((len + (s + rest))[0]);
    ReadPlain(t, len + (s + rest), s, rest);
    assert (len + s) + rest == len + (s + rest);
  }

  lemma ReadIndexed(t: Table, tbl: StaticTable, h: Headers, buf: seq<Byte>, i: nat, rest: seq<Byte>)
    requires |t| == 257 && buf != [] && buf[0] >= 0x80 && 1 <= i < |tbl|
    requires ReadInt(buf, 7, HPACK) == Some(Parsed(i, rest))
    ensures ReadOne(t, tbl, h, buf) == Some(Parsed(h[tbl[i].name := tbl[i].value], rest))
  {
    hide ReadInt, ReadLiteral;
  }

  lemma ReadNamed(t: Table, tbl: StaticTable, h: Headers, buf: seq<Byte>, i: nat, mid: seq<Byte>, v: Text, rest: seq<Byte>)
    requires |t| == 257 && buf != [] && buf[0] < 0x10 && 1 <= i < |tbl|
    requires ReadInt(buf, 4, HPACK) == Some(Parsed(i, mid)) && ReadString(t, mid, 7, HPACK) == Some(Parsed(v, rest))
    ensures ReadOne(t, tbl, h, buf) == Some(Parsed(Put(h, tbl[i].name, v), rest))
  {
    hide ReadInt, ReadString;
  }

  lemma ReadSpelled(t: Table, tbl: StaticTable, h: Headers, buf: seq<Byte>, s1: seq<Byte>, k: Text, s2: seq<Byte>, v: Text, rest: seq<Byte>)
    requires |t| == 257 && buf != [] && buf[0] < 0x10 && ReadInt(buf, 4, HPACK) == Some(Parsed(0, s1))
    requires ReadString(t, s1, 7, HPACK) == Some(Parsed(k, s2)) && ReadString(t, s2, 7, HPACK) == Some(Parsed(v, rest))
    ensures ReadOne(t, tbl, h, buf) == Some(Parsed(Put(h, k, v), rest))
  {
    hide ReadInt, ReadString;
  }

  lemma ZeroByte(rest: seq<Byte>)
    ensures ReadInt([0] + rest, 4, HPACK) == Some(Parsed(0, rest))
  {
    Prefixes();
    assert ([0] + rest)[1..] == rest;
  }

  /** A field is read back, unless its name is empty: then nothing is stored. */
  lemma EmitReads(t: Table, tbl: StaticTable, h: Headers, f: Field, rest: seq<Byte>)
    requires |t| == 257 && NamedStatic(tbl) && Fits(f)
    ensures Emit(tbl, f) != []
    ensures ReadOne(t, tbl, h, Emit(tbl, f) + rest) == Some(Parsed(Put(h, f.name, f.value), rest))
  {
    Prefixes();
    hide ReadInt, IntBytes, ReadString, ReadOne, PlainBytes, Pow2;
    var i, j := FindPair(tbl, f, 1), FindName(tbl, f.name, 1);
    if i < |tbl| {
      IntReads(i, 0x80, 7, rest);
      FirstByte(i, 0x80, 7, rest);
      ReadIndexed(t, tbl, h, IntBytes(i, 0x80, 7) + rest, i, rest);
    } else if j < |tbl| {
      var tail := PlainBytes(f.value);
      IntReads(j, 0, 4, tail + rest);
      FirstByte(j, 0, 4, tail + rest);
      StringReads(t, f.value, rest);
      ReadNamed(t, tbl, h, IntBytes(j, 0, 4) + (tail + rest), j, tail + rest, f.value, rest);
      assert IntBytes(j, 0, 4) + tail + rest == IntBytes(j, 0, 4) + (tail + rest);
    } else {
      var name, tail := PlainBytes(f.name), PlainBytes(f.value);
      ZeroByte(name + (tail + rest));
      StringReads(t, f.name, tail + rest);
      StringReads(t, f.value, rest);
      ReadSpelled(t, tbl, h, [0] + (name + (tail + rest)), name + (tail + rest), f.name, tail + rest, f.value, rest);
      assert [0] + name + tail + rest == [0] + (name + (tail + rest));
    }
  }

  /** The map that a list of fields spells out; later ones win, and an empty name is dropped. */
  function Stored(h: Headers, fs: seq<Field>): Headers
    decreases |fs|
  {
    if fs == [] then h else Stored(Put(h, fs[0].name, fs[0].value), fs[1..])
  }

  lemma {:induction false} DecodeEmitted(t: Table, tbl: StaticTable, h: Headers, fs: seq<Field>)
    requires |t| == 257 && NamedStatic(tbl) && forall i :: 0 <= i < |fs| ==> Fits(fs[i])
    ensures DecodeInto(t, tbl, h, EmitAll(tbl, fs)) == Stored(h, fs)
    decreases |fs|
  {
    hide Emit, ReadOne, Put, Fits;
    if fs != [] {
      EmitReads(t, tbl, h, fs[0], EmitAll(tbl, fs[1..]));
      DecodeEmitted(t, tbl, Put(h, fs[0].name, fs[0].value), fs[1..]);
    }
  }

  /** The fields are those of the map, each once, in any order. */
  ghost predicate Lists(fs: seq<Field>, h: Headers) {
    && (forall i :: 0 <= i < |fs| ==> fs[i].name in h && h[fs[i].name] == fs[i].value)
    && (forall k :: k in h ==> Field(k, h[k]) in fs)
  }

  lemma {:induction false} StoredIs(h: Headers, fs: seq<Field>, k: Text)
    requires forall i, j :: 0 <= i < |fs| && 0 <= j < |fs| && fs[i].name == fs[j].name ==> fs[i] == fs[j]
    ensures k in Stored(h, fs) <==> k in h || (k != [] && exists i :: 0 <= i < |fs| && fs[i].name == k)
    ensures forall i :: 0 <= i < |fs| && fs[i].name == k && k != [] ==> k in Stored(h, fs) && Stored(h, fs)[k] == fs[i].value
    ensures k in h && (forall i :: 0 <= i < |fs| ==> fs[i].name != k) ==> Stored(h, fs)[k] == h[k]
    decreases |fs|
  {
    if fs != [] {
      var rest := fs[1..];
      StoredIs(Put(h, fs[0].name, fs[0].value), rest, k);
      assert forall i :: 0 < i < |fs| ==> fs[i] == rest[i - 1];
    }
  }

  /**
   Decoding the encoding of a header map gives the map back, if and only if it has no empty name;
   the order in which the encoder lists the fields does not matter.
   */
  lemma RoundTrip(t: Table, tbl: StaticTable, h: Headers, fs: seq<Field>)
    requires |t| == 257 && NamedStatic(tbl) && Lists(fs, h) && forall i :: 0 <= i < |fs| ==> Fits(fs[i])
    ensures DecodeInto(t, tbl, map[], EmitAll(tbl, fs)) == h <==> [] !in h
  {
    DecodeEmitted(t, tbl, map[], fs);
    var got := Stored(map[], fs);
    forall k ensures k in got <==> k in h && k != [] {
      StoredIs(map[], fs, k);
      if k in h { assert Field(k, h[k]) in fs; }
    }
    forall k | k in got ensures got[k] == h[k] {
      StoredIs(map[], fs, k);
      assert Field(k, h[k]) in fs;
    }
    if [] !in h { assert got == h; }
  }

  // --------------------------------------------------------------------------
  // As the program does it
  // --------------------------------------------------------------------------

  method WriteString(out0: seq<Byte>, s: Text) returns (out: seq<Byte>)
    ensures out == out0 + PlainBytes(s)
  {
    Prefixes();
    hide IntBytes;
    out := WriteInt(out0, |s|, 0, 7);
    out := out + s;
  }

  /** Searches the table twice, first for the pair and then for the name. */
  method WriteField(tbl: StaticTable, out0: seq<Byte>, f: Field) returns (out: seq<Byte>)
    requires |tbl| >= 1
    ensures out == out0 + Emit(tbl, f)
  {
    Prefixes();
    hide IntBytes, PlainBytes;
    var i := 1;
    while i < |tbl|
      invariant 1 <= i <= |tbl| && FindPair(tbl, f, 1) == FindPair(tbl, f, i)
    {
      if tbl[i] == f {
        out := WriteInt(out0, i, 0x80, 7);
        return;
      }
      i := i + 1;
    }
    var j := 1;
    while j < |tbl|
      invariant 1 <= j <= |tbl| && FindName(tbl, f.name, 1) == FindName(tbl, f.name, j)
    {
      if tbl[j].name == f.name {
        out := WriteInt(out0, j, 0, 4);
        out := WriteString(out, f.value);
        return;
      }
      j := j + 1;
    }
    out := WriteString(out0 + [0], f.name);
    out := WriteString(out, f.value);
    assert out == out0 + ([0] + PlainBytes(f.name) + PlainBytes(f.value));
  }

  /** A literal read at the cursor. */
  method ReadLiteralAt(tree: HuffTree.Tree, tbl: StaticTable, h: Headers, buf: seq<Byte>, off0: nat, n: nat)
    returns (res: Option<Headers>, off: nat)
    requires tree.Valid() && off0 < |buf| && n in {4, 6}
    ensures off0 <= off <= |buf| && |tree.table| == 257
    ensures res.Some? ==> ReadLiteral(tree.table, tbl, h, buf[off0..], n) == Some(Parsed(res.value, buf[off..])) && off0 < off
    ensures res.None? ==> ReadLiteral(tree.table, tbl, h, buf[off0..], n) == None
  {
    hide HuffTree.Trie, PrefixFree, Ones, BitsOf, ReadInt, ReadString;
    tree.TableIs();
    off := off0;
    var index;
    index, off := ReadAt(buf, off, n, HPACK);
    if index.None? { return None, off; }
    var name: Option<Text> := Some([]);
    if index.value == 0 {
      name, off := ReadStringAt(tree, buf, off, 7, HPACK);
      if name.None? { return None, off; }
    } else if index.value < |tbl| {
      name := Some(tbl[index.value].name);
    }
    var value;
    value, off := ReadStringAt(tree, buf, off, 7, HPACK);
    if value.None? { return None, off; }
    return Some(if name.value == [] then h else h[name.value := value.value]), off;
  }

  method ReadOneAt(tree: HuffTree.Tree, tbl: StaticTable, h: Headers, buf: seq<Byte>, off0: nat)
    returns (res: Option<Headers>, off: nat)
    requires tree.Valid() && off0 < |buf|
    ensures off0 <= off <= |buf| && |tree.table| == 257
    ensures res.Some? ==> ReadOne(tree.table, tbl, h, buf[off0..]) == Some(Parsed(res.value, buf[off..])) && off0 < off
    ensures res.None? ==> ReadOne(tree.table, tbl, h, buf[off0..]) == None
  {
    hide HuffTree.Trie, PrefixFree, Ones, BitsOf, ReadInt, ReadLiteral;
    tree.TableIs();
    var b := buf[off0];
    At(buf, off0, 0);
    if b >= 0x80 {
      var index;
      index, off := ReadAt(buf, off0, 7, HPACK);
      if index.None? { return None, off; }
      if index.value == 0 || index.value >= |tbl| { return Some(h), off; }
      return Some(h[tbl[index.value].name := tbl[index.value].value]), off;
    } else if b >= 0x40 {
      res, off := ReadLiteralAt(tree, tbl, h, buf, off0, 6);
    } else if b >= 0x20 {
      var size;
      size, off := ReadAt(buf, off0, 5, HPACK);
      if size.None? { return None, off; }
      return Some(h), off;
    } else {
      res, off := ReadLiteralAt(tree, tbl, h, buf, off0, 4);
    }
  }

  method DecodeHeaders(tree: HuffTree.Tree, tbl: StaticTable, data: seq<Byte>) returns (headers: Headers)
    requires tree.Valid()
    ensures |tree.table| == 257 && headers == DecodeInto(tree.table, tbl, map[], data)
  {
    hide HuffTree.Trie, PrefixFree, Ones, BitsOf, ReadOne, DecodeInto;
    tree.TableIs();
    headers := map[];
    var off := 0;
    At(data, 0, |data|);
    while off < |data|
      invariant off <= |data|
      invariant DecodeInto(tree.table, tbl, map[], data) == DecodeInto(tree.table, tbl, headers, data[off..])
    {
      DecodeStep(tree.table, tbl, headers, data[off..]);
      var next;
      next, off := ReadOneAt(tree, tbl, headers, data, off);
      if next.None? { return; }
      headers := next.value;
    }
    assert data[off..] == [];
    DecodeNothing(tree.table, tbl, headers);
  }

  lemma DecodeNothing(t: Table, tbl: StaticTable, h: Headers)
    requires |t| == 257
    ensures DecodeInto(t, tbl, h, []) == h
  {
  }

  lemma DecodeStep(t: Table, tbl: StaticTable, h: Headers, buf: seq<Byte>)
    requires |t| == 257 && buf != []
    ensures var p := ReadOne(t, tbl, h, buf);
            DecodeInto(t, tbl, h, buf) == if p.None? then h else DecodeInto(t, tbl, p.value.value, p.value.rest)
  {
    hide ReadOne;
  }
}
