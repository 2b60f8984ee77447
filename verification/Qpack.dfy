/**
 QPACK without a dynamic table (qpack.cpp; section 4.5 of RFC 9204): header lists
 to bytes and back, for any static table whose entries contain no separator.
 */
module Qpack {
  import opened Bytes
  import opened BitStrings
  import opened Huffman
  import HuffTree
  import opened PrefixInt
  import opened HeaderStrings

  /** The byte put between name and value in the key of a pair. */
  const SEPARATOR: Byte := 0x1f

  predicate ValidStatic(tbl: StaticTable) {
    |tbl| == 99 && forall i :: 0 <= i < |tbl| ==> SEPARATOR !in tbl[i].name && SEPARATOR !in tbl[i].value
  }

  // --------------------------------------------------------------------------
  // Looking entries up
  // --------------------------------------------------------------------------

  function Key(f: Field): Text { f.name + [SEPARATOR] + f.value }

  lemma SeparatorAt(e: Field, i: nat)
    requires SEPARATOR !in e.name && SEPARATOR !in e.value && i < |Key(e)|
    ensures Key(e)[i] == SEPARATOR <==> i == |e.name|
  {
    if i < |e.name| {
      assert Key(e)[i] == e.name[i];
    } else if i > |e.name| {
      assert Key(e)[i] == e.value[i - |e.name| - 1];
    }
  }

  /** A pair has the key of a static entry only if it is that entry, whatever bytes it contains. */
  lemma KeyIdentifies(f: Field, e: Field)
    requires SEPARATOR !in e.name && SEPARATOR !in e.value && Key(f) == Key(e)
    ensures f == e
  {
    var k := |f.name|;
    assert Key(f)[k] == SEPARATOR;
    SeparatorAt(e, k);
    assert f.name == Key(f)[..k] && e.name == Key(e)[..k];
    assert f.value == Key(f)[k + 1..] && e.value == Key(e)[k + 1..];
  }

  datatype StaticIndex = StaticIndex(byPair: map<Text, nat>, byName: map<Text, nat>)

  /** The key k leads to an entry with that key, among the first n. */
  predicate PairLeads(tbl: StaticTable, byPair: map<Text, nat>, k: Text, n: nat) {
    k in byPair && byPair[k] < n <= |tbl| && Key(tbl[byPair[k]]) == k
  }

  predicate NameLeads(tbl: StaticTable, byName: map<Text, nat>, k: Text, n: nat) {
    k in byName && byName[k] < n <= |tbl| && tbl[byName[k]].name == k
  }

  /** Entry i is found by its name, at or before its own place. */
  predicate NameFound(tbl: StaticTable, byName: map<Text, nat>, i: nat) {
    i < |tbl| && tbl[i].name in byName && byName[tbl[i].name] <= i
  }

  predicate PairFound(tbl: StaticTable, byPair: map<Text, nat>, i: nat) {
    i < |tbl| && Key(tbl[i]) in byPair
  }

  /** Each of the first n entries is found by its key and by its name; a name leads to its first entry. */
  ghost predicate IndexesTo(tbl: StaticTable, x: StaticIndex, n: nat) {
    && (forall k :: k in x.byPair ==> PairLeads(tbl, x.byPair, k, n))
    && (forall i: nat :: i < n ==> PairFound(tbl, x.byPair, i))
    && (forall k :: k in x.byName ==> NameLeads(tbl, x.byName, k, n))
    && (forall i: nat :: i < n ==> NameFound(tbl, x.byName, i))
  }

  ghost predicate Indexes(tbl: StaticTable, x: StaticIndex) {
    IndexesTo(tbl, x, |tbl|)
  }

  function Indexed(x: StaticIndex, f: Field, i: nat): StaticIndex {
    StaticIndex(x.byPair[Key(f) := i], if f.name in x.byName then x.byName else x.byName[f.name := i])
  }

  lemma IndexedNext(tbl: StaticTable, x: StaticIndex, n: nat)
    requires n < |tbl| && IndexesTo(tbl, x, n)
    ensures IndexesTo(tbl, Indexed(x, tbl[n], n), n + 1)
  {
    hide Key;
    var y, f := Indexed(x, tbl[n], n), tbl[n];
    forall k | k in y.byPair ensures PairLeads(tbl, y.byPair, k, n + 1) {
      if k != Key(f) { assert PairLeads(tbl, x.byPair, k, n); }
    }
    forall i: nat | i < n + 1 ensures PairFound(tbl, y.byPair, i) {
      if i < n { assert PairFound(tbl, x.byPair, i); }
    }
    forall k | k in y.byName ensures NameLeads(tbl, y.byName, k, n + 1) {
      if k in x.byName { assert NameLeads(tbl, x.byName, k, n); }
    }
    forall i: nat | i < n + 1 ensures NameFound(tbl, y.byName, i) {
      if i < n { assert NameFound(tbl, x.byName, i); }
      else if f.name in x.byName { assert NameLeads(tbl, x.byName, f.name, n); }
    }
  }

  method BuildIndex(tbl: StaticTable) returns (x: StaticIndex)
    ensures Indexes(tbl, x)
  {
    x := StaticIndex(map[], map[]);
    for i := 0 to |tbl|
      invariant IndexesTo(tbl, x, i)
    {
      hide *;
      IndexedNext(tbl, x, i);
      x := Indexed(x, tbl[i], i);
    }
  }

  // --------------------------------------------------------------------------
  // What a header list is encoded as
  // --------------------------------------------------------------------------

  function StringBytes(t: Table, s: Text, prefix: nat, n: nat): seq<Byte>
    requires |t| == 257 && 1 <= n <= 7 && prefix + 2 * Pow2(n) <= 256
  {
    IntBytes(|Encode(t, s)|, prefix + Pow2(n), n) + Encode(t, s)
  }

  /** An indexed pair, a literal with an indexed name, or two literals. */
  function FieldBytes(t: Table, x: StaticIndex, f: Field): seq<Byte>
    requires |t| == 257
  {
    Prefixes();
    if Key(f) in x.byPair then IntBytes(x.byPair[Key(f)], 0xC0, 6)
    else if f.name in x.byName then IntBytes(x.byName[f.name], 0x50, 4) + StringBytes(t, f.value, 0, 7)
    else StringBytes(t, f.name, 0x20, 3) + StringBytes(t, f.value, 0, 7)
  }

  function FieldsBytes(t: Table, x: StaticIndex, fs: seq<Field>): seq<Byte>
    requires |t| == 257
  {
    if fs == [] then [] else FieldBytes(t, x, fs[0]) + FieldsBytes(t, x, fs[1..])
  }

  function Encoding(t: Table, x: StaticIndex, fs: seq<Field>): seq<Byte>
    requires |t| == 257
  {
    [0, 0] + FieldsBytes(t, x, fs)
  }

  // --------------------------------------------------------------------------
  // What bytes decode to
  // --------------------------------------------------------------------------

  ghost function ReadField(t: Table, tbl: StaticTable, buf: seq<Byte>): Option<Parsed<Field>>
    requires |t| == 257 && buf != []
  {
    var b := buf[0];
    if Flag(b, 7) then
      match ReadInt(buf, 6, QPACK)
      case None => None
      case Some(p) => if !Flag(b, 6) || p.value >= |tbl| then None else Some(Parsed(tbl[p.value], p.rest))
    else if Flag(b, 6) then
      match ReadInt(buf, 4, QPACK)
      case None => None
      case Some(p) =>
        match ReadString(t, p.rest, 7, QPACK)
        case None => None
        case Some(v) =>
          if !Flag(b, 4) || p.value >= |tbl| then None
          else Some(Parsed(Field(tbl[p.value].name, v.value), v.rest))
    else if Flag(b, 5) then
      match ReadString(t, buf, 3, QPACK)
      case None => None
      case Some(name) =>
        match ReadString(t, name.rest, 7, QPACK)
        case None => None
        case Some(v) => Some(Parsed(Field(name.value, v.value), v.rest))
    else None
  }

  lemma FieldShortens(t: Table, tbl: StaticTable, buf: seq<Byte>)
    requires |t| == 257 && buf != []
    ensures ReadField(t, tbl, buf).Some? ==> |ReadField(t, tbl, buf).value.rest| < |buf|
  {
    IntShortens(buf, 6, QPACK);
    IntShortens(buf, 4, QPACK);
    StringShortens(t, buf, 3, QPACK);
    forall rest: seq<Byte> ensures ReadString(t, rest, 7, QPACK).Some? ==> |ReadString(t, rest, 7, QPACK).value.rest| < |rest| {
      StringShortens(t, rest, 7, QPACK);
    }
    hide ReadString, ReadInt;
  }

  ghost function ReadFields(t: Table, tbl: StaticTable, buf: seq<Byte>): Option<seq<Field>>
    requires |t| == 257
    decreases |buf|
  {
    if buf == [] then Some([])
    else
      FieldShortens(t, tbl, buf);
      match ReadField(t, tbl, buf)
      case None => None
      case Some(p) =>
        match ReadFields(t, tbl, p.rest)
        case None => None
        case Some(fs) => Some([p.value] + fs)
  }

  /** The header list a field section stands for, if it is one. */
  ghost function Decoding(t: Table, tbl: StaticTable, input: seq<Byte>): Option<seq<Field>>
    requires |t| == 257
  {
    match ReadInt(input, 8, QPACK)
    case None => None
    case Some(count) =>
      match ReadInt(count.rest, 7, QPACK)
      case None => None
      case Some(base) =>
        if count.value != 0 || base.value != 0 then None else ReadFields(t, tbl, base.rest)
  }

  // --------------------------------------------------------------------------
  // Round trip
  // --------------------------------------------------------------------------

  /** The lengths of encoded strings fit the 64 bits they are read into. */
  ghost predicate Fits(t: Table, s: Text)
    requires |t| == 257
  {
    |Encode(t, s)| < Pow2(64)
  }

  ghost predicate FieldFits(t: Table, f: Field)
    requires |t| == 257
  {
    Fits(t, f.name) && Fits(t, f.value)
  }

  /** The flag bits of the first bytes the encoder writes. */
  lemma Flags(b: Byte)
    ensures b >= 0xC0 ==> Flag(b, 7) && Flag(b, 6)
    ensures 0x50 <= b < 0x60 ==> !Flag(b, 7) && Flag(b, 6) && Flag(b, 4)
    ensures 0x28 <= b < 0x30 ==> !Flag(b, 7) && !Flag(b, 6) && Flag(b, 5) && Flag(b, 3)
    ensures b >= 0x80 ==> Flag(b, 7)
  {
    Prefixes();
    assert Pow2(5) == 32;
  }

  /** The two kinds of string prefix in use: a name with 3 bits of length, a value with 7. */
  predicate StringPrefix(prefix: nat, n: nat) {
    (prefix == 0x20 && n == 3) || (prefix == 0 && n == 7)
  }

  lemma StringHead(v: nat, prefix: nat, n: nat, rest: seq<Byte>)
    requires StringPrefix(prefix, n)
    ensures prefix + 2 * Pow2(n) <= 256
    ensures var buf := IntBytes(v, prefix + Pow2(n), n) + rest;
            && buf != [] && Flag(buf[0], n)
            && (n == 3 ==> !Flag(buf[0], 7) && !Flag(buf[0], 6) && Flag(buf[0], 5))
  {
    Prefixes();
    FirstByte(v, prefix + Pow2(n), n, rest);
    Flags((IntBytes(v, prefix + Pow2(n), n) + rest)[0]);
    hide IntBytes, Flag;
  }

  lemma LengthRoundTrip(v: nat, prefix: nat, n: nat, rest: seq<Byte>)
    requires StringPrefix(prefix, n) && prefix + 2 * Pow2(n) <= 256 && v < Pow2(64)
    ensures ReadInt(IntBytes(v, prefix + Pow2(n), n) + rest, n, QPACK) == Some(Parsed(v, rest))
  {
    Prefixes();
    assert (prefix + Pow2(n)) % Pow2(n) == 0;
    hide ReadInt, IntBytes, Pow2;
    IntRoundTrip(v, prefix + Pow2(n), n, QPACK, rest);
  }

  lemma TableSize(t: Table)
    requires ValidTable(t)
    ensures |t| == 257
  {
  }

  lemma StringRoundTrip(t: Table, s: Text, prefix: nat, n: nat, rest: seq<Byte>)
    requires ValidTable(t) && StringPrefix(prefix, n) && prefix + 2 * Pow2(n) <= 256 && Fits(t, s)
    ensures ReadString(t, StringBytes(t, s, prefix, n) + rest, n, QPACK) == Some(Parsed(s, rest))
  {
    hide Encode, IntBytes, ReadInt, ReadString, Decoded, ValidTable, Pow2, Flag;
    TableSize(t);
    var code := Encode(t, s);
    var len := IntBytes(|code|, prefix + Pow2(n), n);
    StringHead(|code|, prefix, n, code + rest);
    LengthRoundTrip(|code|, prefix, n, code + rest);
    DecodedIs(t, code, s);
    ReadCoded(t, len + (code + rest), n, code, s, rest, QPACK);
    assert (len + code) + rest == len + (code + rest);
  }

  lemma Small64(v: nat)
    requires v < 128
    ensures v < Pow2(64)
  {
    assert Pow2(7) == 128;
    PowMono(7, 64);
  }

  /** What each kind of field line is read as. */
  lemma ReadPair(t: Table, tbl: StaticTable, buf: seq<Byte>, i: nat, rest: seq<Byte>)
    requires |t| == 257 && buf != [] && Flag(buf[0], 7) && Flag(buf[0], 6) && i < |tbl|
    requires ReadInt(buf, 6, QPACK) == Some(Parsed(i, rest))
    ensures ReadField(t, tbl, buf) == Some(Parsed(tbl[i], rest))
  {
    hide ReadInt, Flag, ReadString;
  }

  lemma ReadNamed(t: Table, tbl: StaticTable, buf: seq<Byte>, i: nat, mid: seq<Byte>, v: Text, rest: seq<Byte>)
    requires |t| == 257 && buf != [] && !Flag(buf[0], 7) && Flag(buf[0], 6) && Flag(buf[0], 4) && i < |tbl|
    requires ReadInt(buf, 4, QPACK) == Some(Parsed(i, mid)) && ReadString(t, mid, 7, QPACK) == Some(Parsed(v, rest))
    ensures ReadField(t, tbl, buf) == Some(Parsed(Field(tbl[i].name, v), rest))
  {
    hide ReadInt, Flag, ReadString;
  }

  lemma ReadLiteral(t: Table, tbl: StaticTable, buf: seq<Byte>, name: Text, mid: seq<Byte>, v: Text, rest: seq<Byte>)
    requires |t| == 257 && buf != [] && !Flag(buf[0], 7) && !Flag(buf[0], 6) && Flag(buf[0], 5)
    requires ReadString(t, buf, 3, QPACK) == Some(Parsed(name, mid)) && ReadString(t, mid, 7, QPACK) == Some(Parsed(v, rest))
    ensures ReadField(t, tbl, buf) == Some(Parsed(Field(name, v), rest))
  {
    hide ReadInt, Flag, ReadString;
  }

  /** Each field is read back, and nothing after it is touched. */
  lemma FieldRoundTrip(t: Table, tbl: StaticTable, x: StaticIndex, f: Field, rest: seq<Byte>)
    requires ValidTable(t) && ValidStatic(tbl) && Indexes(tbl, x) && FieldFits(t, f)
    ensures FieldBytes(t, x, f) != []
    ensures ReadField(t, tbl, FieldBytes(t, x, f) + rest) == Some(Parsed(f, rest))
  {
    Prefixes();
    assert |t| == 257 && Fits(t, f.name) && Fits(t, f.value);
    hide ValidTable, ReadField, IntBytes, StringBytes, Fits, Key;
    if Key(f) in x.byPair {
      var i := x.byPair[Key(f)];
      assert PairLeads(tbl, x.byPair, Key(f), |tbl|);
      KeyIdentifies(f, tbl[i]);
      PairRoundTrip(t, tbl, i, rest);
    } else if f.name in x.byName {
      assert NameLeads(tbl, x.byName, f.name, |tbl|);
      NameRoundTrip(t, tbl, x.byName[f.name], f.value, rest);
    } else {
      LiteralRoundTrip(t, tbl, f, rest);
    }
  }

  lemma PairRoundTrip(t: Table, tbl: StaticTable, i: nat, rest: seq<Byte>)
    requires |t| == 257 && i < |tbl| == 99 && 0xC0 + Pow2(6) <= 256
    ensures IntBytes(i, 0xC0, 6) != [] && ReadField(t, tbl, IntBytes(i, 0xC0, 6) + rest) == Some(Parsed(tbl[i], rest))
  {
    Prefixes();
    hide IntBytes, ReadInt, ReadField, Flag, Pow2;
    FirstByte(i, 0xC0, 6, rest);
    Small64(i);
    IntRoundTrip(i, 0xC0, 6, QPACK, rest);
    Flags((IntBytes(i, 0xC0, 6) + rest)[0]);
    ReadPair(t, tbl, IntBytes(i, 0xC0, 6) + rest, i, rest);
  }

  lemma NameRoundTrip(t: Table, tbl: StaticTable, i: nat, value: Text, rest: seq<Byte>)
    requires ValidTable(t) && i < |tbl| == 99 && Fits(t, value) && 0x50 + Pow2(4) <= 256 && 2 * Pow2(7) <= 256
    ensures var bytes := IntBytes(i, 0x50, 4) + StringBytes(t, value, 0, 7);
            bytes != [] && ReadField(t, tbl, bytes + rest) == Some(Parsed(Field(tbl[i].name, value), rest))
  {
    Prefixes();
    assert |t| == 257;
    hide IntBytes, ReadInt, ReadField, StringBytes, ReadString, Flag, Pow2, ValidTable, Fits;
    var tail := StringBytes(t, value, 0, 7);
    assert IntBytes(i, 0x50, 4) + tail + rest == IntBytes(i, 0x50, 4) + (tail + rest);
    FirstByte(i, 0x50, 4, tail + rest);
    Small64(i);
    IntRoundTrip(i, 0x50, 4, QPACK, tail + rest);
    StringRoundTrip(t, value, 0, 7, rest);
    Flags((IntBytes(i, 0x50, 4) + (tail + rest))[0]);
    ReadNamed(t, tbl, IntBytes(i, 0x50, 4) + (tail + rest), i, tail + rest, value, rest);
  }

  lemma LiteralRoundTrip(t: Table, tbl: StaticTable, f: Field, rest: seq<Byte>)
    requires ValidTable(t) && FieldFits(t, f) && 0x20 + 2 * Pow2(3) <= 256 && 2 * Pow2(7) <= 256
    ensures var bytes := StringBytes(t, f.name, 0x20, 3) + StringBytes(t, f.value, 0, 7);
            bytes != [] && ReadField(t, tbl, bytes + rest) == Some(Parsed(f, rest))
  {
    Prefixes();
    assert |t| == 257 && Fits(t, f.name) && Fits(t, f.value);
    hide *;
    var head, tail := StringBytes(t, f.name, 0x20, 3), StringBytes(t, f.value, 0, 7);
    LiteralPrefixes();
    NameFirst(t, f.name, tail + rest);
    StringRoundTrip(t, f.name, 0x20, 3, tail + rest);
    StringRoundTrip(t, f.value, 0, 7, rest);
    ReadLiteral(t, tbl, head + (tail + rest), f.name, tail + rest, f.value, rest);
    Rejoined(head, tail, rest);
  }

  lemma LiteralPrefixes()
    ensures StringPrefix(0x20, 3) && StringPrefix(0, 7)
  {
    Prefixes();
  }

  lemma Rejoined(a: seq<Byte>, b: seq<Byte>, c: seq<Byte>)
    ensures (a + b) + c == a + (b + c)
  {
  }

  lemma NameFirst(t: Table, s: Text, rest: seq<Byte>)
    requires |t| == 257 && 0x20 + 2 * Pow2(3) <= 256
    ensures var head := StringBytes(t, s, 0x20, 3);
            && head != [] && head + rest != []
            && !Flag((head + rest)[0], 7) && !Flag((head + rest)[0], 6) && Flag((head + rest)[0], 5)
  {
    hide IntBytes, Flag, Encode, Pow2;
    var code := Encode(t, s);
    LiteralPrefixes();
    StringHead(|code|, 0x20, 3, code);
    StringHead(|code|, 0x20, 3, code + rest);
    Rejoined(IntBytes(|code|, 0x20 + Pow2(3), 3), code, rest);
  }

  lemma {:induction false} FieldsRoundTrip(t: Table, tbl: StaticTable, x: StaticIndex, fs: seq<Field>)
    requires ValidTable(t) && ValidStatic(tbl) && Indexes(tbl, x)
    requires forall i :: 0 <= i < |fs| ==> FieldFits(t, fs[i])
    ensures ReadFields(t, tbl, FieldsBytes(t, x, fs)) == Some(fs)
  {
    assert |t| == 257;
    hide FieldBytes, ReadField, FieldFits, ValidTable, ValidStatic, Indexes, ReadFields;
    if fs == [] {
      ReadNone(t, tbl);
    } else {
      var rest := FieldsBytes(t, x, fs[1..]);
      FieldRoundTrip(t, tbl, x, fs[0], rest);
      FieldsRoundTrip(t, tbl, x, fs[1..]);
      ReadNext(t, tbl, FieldBytes(t, x, fs[0]) + rest, fs[0], rest, fs[1..]);
      assert [fs[0]] + fs[1..] == fs;
    }
  }

  lemma ReadNone(t: Table, tbl: StaticTable)
    requires |t| == 257
    ensures ReadFields(t, tbl, []) == Some([])
  {
  }

  lemma ReadNext(t: Table, tbl: StaticTable, buf: seq<Byte>, f: Field, rest: seq<Byte>, fs: seq<Field>)
    requires |t| == 257 && buf != [] && ReadField(t, tbl, buf) == Some(Parsed(f, rest))
    requires ReadFields(t, tbl, rest) == Some(fs)
    ensures ReadFields(t, tbl, buf) == Some([f] + fs)
  {
    hide ReadField;
  }

  /** Decoding the encoding of any ordered header list gives that list back. */
  lemma RoundTrip(t: Table, tbl: StaticTable, x: StaticIndex, fs: seq<Field>)
    requires ValidTable(t) && ValidStatic(tbl) && Indexes(tbl, x)
    requires forall i :: 0 <= i < |fs| ==> FieldFits(t, fs[i])
    ensures Decoding(t, tbl, Encoding(t, x, fs)) == Some(fs)
  {
    assert |t| == 257;
    hide FieldsBytes, ReadFields, Decoding, ValidTable, ValidStatic, Indexes, FieldFits;
    FieldsRoundTrip(t, tbl, x, fs);
    DecodingBody(t, tbl, FieldsBytes(t, x, fs));
  }

  lemma DecodingBody(t: Table, tbl: StaticTable, body: seq<Byte>)
    requires |t| == 257
    ensures Decoding(t, tbl, [0, 0] + body) == ReadFields(t, tbl, body)
  {
    hide ReadFields, ReadInt;
    assert [0, 0] + body == [0] + ([0] + body);
    ReadZero(8, [0] + body);
    ReadZero(7, body);
  }

  lemma ReadZero(n: nat, rest: seq<Byte>)
    requires n in {7, 8}
    ensures ReadInt([0] + rest, n, QPACK) == Some(Parsed(0, rest))
  {
    Prefixes();
    assert ([0] + rest)[1..] == rest;
  }

  // --------------------------------------------------------------------------
  // As the program does it: an output vector, and a cursor over the input
  // --------------------------------------------------------------------------

  method WriteString(t: Table, out0: seq<Byte>, s: Text, prefix: nat, n: nat) returns (out: seq<Byte>)
    requires ValidTable(t) && 1 <= n <= 7 && prefix + 2 * Pow2(n) <= 256
    ensures |t| == 257 && out == out0 + StringBytes(t, s, prefix, n)
  {
    hide IntBytes, Encode, Pow2, PrefixFree, Ones, BitsOf;
    var huff := EncodeTo(t, s, []);
    assert [] + Encode(t, s) == Encode(t, s);
    out := WriteInt(out0, |huff|, prefix + Pow2(n), n);
    out := out + huff;
  }

  method WriteField(t: Table, x: StaticIndex, out0: seq<Byte>, f: Field) returns (out: seq<Byte>)
    requires ValidTable(t)
    ensures |t| == 257 && out == out0 + FieldBytes(t, x, f)
  {
    hide IntBytes, StringBytes, Pow2, Key, PrefixFree, Ones, BitsOf;
    Prefixes();
    if Key(f) in x.byPair {
      out := WriteInt(out0, x.byPair[Key(f)], 0xC0, 6);
      return;
    }
    var tail := WriteString(t, [], f.value, 0, 7);
    Nil(StringBytes(t, f.value, 0, 7));
    if f.name in x.byName {
      out := WriteInt([], x.byName[f.name], 0x50, 4);
      Nil(IntBytes(x.byName[f.name], 0x50, 4));
    } else {
      out := WriteString(t, [], f.name, 0x20, 3);
      Nil(StringBytes(t, f.name, 0x20, 3));
    }
    out := out0 + (out + tail);
  }

  lemma Nil(s: seq<Byte>)
    ensures [] + s == s
  {
  }

  method EncodeHeaders(t: Table, x: StaticIndex, headers: seq<Field>) returns (out: seq<Byte>)
    requires ValidTable(t)
    ensures |t| == 257 && out == Encoding(t, x, headers)
  {
    hide FieldBytes, PrefixFree, Ones, BitsOf;
    out := [0, 0];
    for i := 0 to |headers|
      invariant out == [0, 0] + FieldsBytes(t, x, headers[..i])
    {
      FieldsNext(t, x, headers, i);
      out := WriteField(t, x, out, headers[i]);
    }
    assert headers[..|headers|] == headers;
  }

  lemma FieldsNext(t: Table, x: StaticIndex, fs: seq<Field>, i: nat)
    requires |t| == 257 && i < |fs|
    ensures [0, 0] + FieldsBytes(t, x, fs[..i + 1]) == ([0, 0] + FieldsBytes(t, x, fs[..i])) + FieldBytes(t, x, fs[i])
  {
    hide FieldBytes;
    FieldsSnoc(t, x, fs[..i], fs[i]);
    assert fs[..i + 1] == fs[..i] + [fs[i]];
  }

  lemma {:induction false} FieldsSnoc(t: Table, x: StaticIndex, fs: seq<Field>, f: Field)
    requires |t| == 257
    ensures FieldsBytes(t, x, fs + [f]) == FieldsBytes(t, x, fs) + FieldBytes(t, x, f)
  {
    hide FieldBytes;
    if fs == [] {
      assert ([] + [f])[1..] == [];
    } else {
      FieldsSnoc(t, x, fs[1..], f);
      assert (fs + [f])[1..] == fs[1..] + [f];
    }
  }

  method ReadFieldAt(tree: HuffTree.Tree, tbl: StaticTable, buf: seq<Byte>, off0: nat) returns (res: Option<Field>, off: nat)
    requires tree.Valid() && off0 < |buf|
    ensures off0 <= off <= |buf| && |tree.table| == 257
    ensures res.Some? ==> ReadField(tree.table, tbl, buf[off0..]) == Some(Parsed(res.value, buf[off..])) && off0 < off
    ensures res.None? ==> ReadField(tree.table, tbl, buf[off0..]) == None
  {
    hide HuffTree.Trie, PrefixFree, Ones, BitsOf, ReadInt, ReadString, Flag;
    tree.TableIs();
    off := off0;
    var b := buf[off];
    At(buf, off0, 0);
    if Flag(b, 7) {
      var index;
      index, off := ReadAt(buf, off, 6, QPACK);
      if index.None? || !Flag(b, 6) || index.value >= |tbl| { return None, off; }
      return Some(tbl[index.value]), off;
    } else if Flag(b, 6) {
      var index, value;
      index, off := ReadAt(buf, off, 4, QPACK);
      if index.None? { return None, off; }
      value, off := ReadStringAt(tree, buf, off, 7, QPACK);
      if value.None? || !Flag(b, 4) || index.value >= |tbl| { return None, off; }
      return Some(Field(tbl[index.value].name, value.value)), off;
    } else if Flag(b, 5) {
      var name, value;
      name, off := ReadStringAt(tree, buf, off, 3, QPACK);
      if name.None? { return None, off; }
      value, off := ReadStringAt(tree, buf, off, 7, QPACK);
      if value.None? { return None, off; }
      return Some(Field(name.value, value.value)), off;
    }
    return None, off;
  }

  function Prepend(out: seq<Field>, more: Option<seq<Field>>): Option<seq<Field>> {
    match more case None => None case Some(fs) => Some(out + fs)
  }

  method DecodeHeaders(tree: HuffTree.Tree, tbl: StaticTable, input: seq<Byte>) returns (res: Option<seq<Field>>)
    requires tree.Valid()
    ensures |tree.table| == 257 && res == Decoding(tree.table, tbl, input)
  {
    hide HuffTree.Trie, PrefixFree, Ones, BitsOf, ReadInt, ReadFields;
    tree.TableIs();
    At(input, 0, |input|);
    var count, off := ReadAt(input, 0, 8, QPACK);
    if count.None? { return None; }
    if off >= |input| {
      ReadNothing(7);
      return None;
    }
    var base;
    base, off := ReadAt(input, off, 7, QPACK);
    if base.None? { return None; }
    if count.value != 0 || base.value != 0 { return None; }
    res := DecodeFrom(tree, tbl, input, off);
  }

  /** The field lines from the cursor on. */
  method DecodeFrom(tree: HuffTree.Tree, tbl: StaticTable, input: seq<Byte>, off0: nat) returns (res: Option<seq<Field>>)
    requires tree.Valid() && off0 <= |input|
    ensures |tree.table| == 257 && res == ReadFields(tree.table, tbl, input[off0..])
  {
    hide HuffTree.Trie, PrefixFree, Ones, BitsOf, ReadField, ReadFields;
    tree.TableIs();
    var out: seq<Field>, off := [], off0;
    PrependNone(ReadFields(tree.table, tbl, input[off..]));
    while off < |input|
      invariant off <= |input|
      invariant ReadFields(tree.table, tbl, input[off0..]) == Prepend(out, ReadFields(tree.table, tbl, input[off..]))
    {
      ghost var was := off;
      var f;
      f, off := ReadFieldAt(tree, tbl, input, off);
      FieldsStep(tree.table, tbl, input[was..]);
      if f.None? { return None; }
      PrependMore(out, f.value, ReadFields(tree.table, tbl, input[off..]));
      out := out + [f.value];
    }
    ReadNone(tree.table, tbl);
    assert input[off..] == [] && out + [] == out;
    return Some(out);
  }

  lemma ReadNothing(n: nat)
    requires 1 <= n <= 8
    ensures ReadInt([], n, QPACK) == None
  {
  }

  lemma PrependNone(more: Option<seq<Field>>)
    ensures Prepend([], more) == more
  {
    if more.Some? { assert [] + more.value == more.value; }
  }

  lemma PrependMore(out: seq<Field>, f: Field, more: Option<seq<Field>>)
    ensures Prepend(out + [f], more) == Prepend(out, Prepend([f], more))
  {
    if more.Some? { assert out + [f] + more.value == out + ([f] + more.value); }
  }

  lemma FieldsStep(t: Table, tbl: StaticTable, buf: seq<Byte>)
    requires |t| == 257 && buf != []
    ensures ReadField(t, tbl, buf) == None ==> ReadFields(t, tbl, buf) == None
    ensures ReadField(t, tbl, buf).Some? ==>
              ReadFields(t, tbl, buf)
              == Prepend([ReadField(t, tbl, buf).value.value], ReadFields(t, tbl, ReadField(t, tbl, buf).value.rest))
  {
    hide ReadField;
  }
}
