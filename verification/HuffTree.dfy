/**
 The decoding trie (src/codec/huffman.cpp, `HuffTree` and `huffman_decode`):
 built by inserting every code, then walked bit by bit.
 */
module HuffTree {
  import opened Bytes
  import opened BitStrings
  import opened Huffman

  /** Child indices and symbol; -1 where there is none. */
  datatype Node = Node(zero: int, one: int, symbol: int)

  function Child(n: Node, b: bool): int { if b then n.one else n.zero }

  function WithChild(n: Node, b: bool, c: int): Node { if b then n.(one := c) else n.(zero := c) }

  const LEAF: Node := Node(-1, -1, -1)

  type Paths = map<Bits, nat>

  function Lookup(at: Paths, p: Bits): int { if p in at then at[p] else -1 }

  /** `paths[i]` is the path from the root to node i, `at` its inverse; children are one bit longer. */
  ghost predicate Shape(nodes: seq<Node>, paths: seq<Bits>, at: Paths) {
    && |nodes| == |paths|
    && [] in at && at[[]] == 0
    && (forall p :: p in at ==> at[p] < |paths| && paths[at[p]] == p)
    && (forall i :: 0 <= i < |paths| ==> paths[i] in at && at[paths[i]] == i)
    && (forall i, b :: 0 <= i < |nodes| ==> Child(nodes[i], b) == Lookup(at, paths[i] + [b]))
    && (forall p, b :: p + [b] in at ==> p in at)
  }

  /** A node carries symbol s exactly when its path is the code of s, for the first n symbols. */
  ghost predicate Labelled(t: Table, nodes: seq<Node>, paths: seq<Bits>, n: nat)
    requires n <= |t| && |nodes| == |paths|
  {
    forall i :: 0 <= i < |nodes| ==>
      && -1 <= nodes[i].symbol < n
      && (nodes[i].symbol >= 0 ==> Code(t, nodes[i].symbol) == paths[i])
      && (forall s :: 0 <= s < n && Code(t, s) == paths[i] ==> nodes[i].symbol == s)
  }

  /** The paths of the trie are exactly the prefixes of the first n codes. */
  ghost predicate Covers(t: Table, at: Paths, n: nat)
    requires n <= |t|
  {
    && (forall s, p :: 0 <= s < n && p <= Code(t, s) ==> p in at)
    && (forall p :: p in at ==> p == [] || exists s :: 0 <= s < n && p <= Code(t, s))
  }

  lemma ChildIs(nodes: seq<Node>, paths: seq<Bits>, at: Paths, i: nat, b: bool)
    requires Shape(nodes, paths, at) && i < |nodes|
    ensures var c := Child(nodes[i], b);
            if paths[i] + [b] in at then 0 <= c < |nodes| && c == at[paths[i] + [b]] && paths[c] == paths[i] + [b]
            else c == -1
  {
  }

  lemma SnocInjective(p: Bits, b: bool, q: Bits, c: bool)
    ensures p + [b] == q + [c] <==> p == q && b == c
  {
    if p + [b] == q + [c] {
      assert p == (p + [b])[..|p|] && q == (q + [c])[..|q|];
      assert b == (p + [b])[|p|] && c == (q + [c])[|q|];
    }
  }

  /** Adding the missing child of node cur. */
  lemma GrowShape(nodes: seq<Node>, paths: seq<Bits>, at: Paths, cur: nat, b: bool)
    requires Shape(nodes, paths, at) && cur < |nodes| && paths[cur] + [b] !in at
    ensures var path := paths[cur] + [b];
            Shape(nodes[cur := WithChild(nodes[cur], b, |nodes|)] + [LEAF], paths + [path], at[path := |nodes|])
  {
    var path := paths[cur] + [b];
    var nodes' := nodes[cur := WithChild(nodes[cur], b, |nodes|)] + [LEAF];
    var paths', at' := paths + [path], at[path := |nodes|];
    forall i, c | 0 <= i < |nodes'| ensures Child(nodes'[i], c) == Lookup(at', paths'[i] + [c]) {
      SnocInjective(paths'[i], c, paths[cur], b);
      if i < |nodes| {
        assert Child(nodes[i], c) == Lookup(at, paths[i] + [c]);
      } else {
        assert path + [c] !in at;
      }
    }
    forall p, c | p + [c] in at' ensures p in at' {
      SnocInjective(p, c, paths[cur], b);
    }
  }

  /** A new unlabelled node keeps the labels right, because its path is no code so far. */
  lemma GrowLabels(t: Table, nodes: seq<Node>, paths: seq<Bits>, at: Paths, n: nat, cur: nat, b: bool)
    requires n <= |t| && |nodes| == |paths| && Labelled(t, nodes, paths, n) && cur < |nodes|
    requires forall s, p :: 0 <= s < n && p <= Code(t, s) ==> p in at
    requires paths[cur] + [b] !in at
    ensures Labelled(t, nodes[cur := WithChild(nodes[cur], b, |nodes|)] + [LEAF], paths + [paths[cur] + [b]], n)
  {
    forall s | 0 <= s < n ensures Code(t, s) != paths[cur] + [b] {
      assert Code(t, s) <= Code(t, s);
    }
  }

  /** Labelling the node of code n. */
  lemma SetLabel(t: Table, nodes: seq<Node>, paths: seq<Bits>, at: Paths, n: nat, cur: nat)
    requires ValidTable(t) && n < 257 && Shape(nodes, paths, at) && Labelled(t, nodes, paths, n)
    requires cur < |nodes| && paths[cur] == Code(t, n)
    ensures var nodes' := nodes[cur := nodes[cur].(symbol := n)];
            Shape(nodes', paths, at) && Labelled(t, nodes', paths, n + 1)
  {
    hide BitsOf, Ones, Pow2;
    var nodes' := nodes[cur := nodes[cur].(symbol := n)];
    forall i, b | 0 <= i < |nodes'| ensures Child(nodes'[i], b) == Lookup(at, paths[i] + [b]) {
      assert Child(nodes[i], b) == Lookup(at, paths[i] + [b]);
    }
    assert Shape(nodes', paths, at);
    forall s | 0 <= s < n ensures Code(t, s) != Code(t, n) {
      assert !(Code(t, s) <= Code(t, n));
    }
    forall i, s | 0 <= i < |nodes'| && 0 <= s < n + 1 && Code(t, s) == paths[i] ensures nodes'[i].symbol == s {
      assert at[paths[i]] == i && at[paths[cur]] == cur;
    }
  }

  // --------------------------------------------------------------------------
  // Why a rejected input encodes nothing
  // --------------------------------------------------------------------------

  /** The bits read so far: the bytes put out, then the path to the current node. */
  ghost predicate Read(t: Table, bs: Bits, out: seq<Byte>, path: Bits)
    requires |t| == 257
  {
    Spell(t, out) + path <= bs
  }

  /** If the input encodes anything, it encodes an extension of what was put out. */
  lemma Continues(t: Table, bs: Bits, out: seq<Byte>, path: Bits, s: seq<Byte>)
    requires ValidTable(t) && Read(t, bs, out, path) && bs == Padded(Spell(t, s))
    ensures out <= s && path <= Padded(Spell(t, s))[|Spell(t, out)|..]
    ensures bs[|Spell(t, out)|..] == Spell(t, s[|out|..]) + Ones(PadLen(|Spell(t, s)|))
  {
    var p := PadLen(|Spell(t, s)|);
    assert Spell(t, out) <= bs by { assert Spell(t, out) == (Spell(t, out) + path)[..|Spell(t, out)|]; }
    SpelledPrefix(t, out, s, p);
    assert s == out + s[|out|..];
    SpellConcat(t, out, s[|out|..]);
    Assoc(Spell(t, out), Spell(t, s[|out|..]), Ones(p));
    DropPrefix(Spell(t, out), path, Spell(t, s[|out|..]) + Ones(p));
  }

  /** A path that runs along rest ++ padding, and has no code as a prefix, lies inside one code. */
  lemma Inside(t: Table, path: Bits, rest: seq<Byte>, p: nat)
    requires ValidTable(t) && p <= 7 && path <= Spell(t, rest) + Ones(p)
    requires forall y: Byte :: !(Code(t, y) <= path)
    ensures path <= Code(t, if rest == [] then EOS else rest[0])
  {
    if rest == [] {
      assert Spell(t, rest) + Ones(p) == Ones(p);
      OnesPrefix(path, p, 30);
    } else {
      Assoc(Code(t, rest[0]), Spell(t, rest[1..]), Ones(p));
      Comparable(Spell(t, rest) + Ones(p), path, Code(t, rest[0]));
    }
  }

  /** No code is a proper prefix of a path of the trie, nor a path whose node has no symbol. */
  lemma NoCodeWithin(t: Table, nodes: seq<Node>, paths: seq<Bits>, at: Paths, node: nat)
    requires ValidTable(t) && Shape(nodes, paths, at) && Labelled(t, nodes, paths, 257) && Covers(t, at, 257)
    requires node < |nodes| && nodes[node].symbol < 0
    ensures forall y: Byte :: !(Code(t, y) <= paths[node])
  {
    var path := paths[node];
    forall y: Byte ensures !(Code(t, y) <= path) {
      if path != [] {
        var z :| 0 <= z < 257 && path <= Code(t, z);
        PrefixThrough(Code(t, y), path, Code(t, z));
      }
    }
  }

  lemma PrefixThrough(a: Bits, b: Bits, c: Bits)
    requires b <= c
    ensures a <= b ==> a <= c && (a == c ==> a == b)
  {
  }

  ghost predicate Trie(t: Table, nodes: seq<Node>, paths: seq<Bits>, at: Paths) {
    ValidTable(t) && Shape(nodes, paths, at) && Labelled(t, nodes, paths, 257) && Covers(t, at, 257)
  }

  /** While the input can still encode something, the next bit leads to a node, and not to EOS. */
  lemma Extends(t: Table, nodes: seq<Node>, paths: seq<Bits>, at: Paths, bs: Bits, out: seq<Byte>, node: nat, b: bool, s: seq<Byte>)
    requires Trie(t, nodes, paths, at) && node < |nodes| && nodes[node].symbol < 0
    requires Read(t, bs, out, paths[node] + [b]) && bs == Padded(Spell(t, s))
    ensures paths[node] + [b] in at && paths[node] + [b] != Ones(30)
  {
    var path := paths[node] + [b];
    NoCodeWithin(t, nodes, paths, at, node);
    Continues(t, bs, out, path, s);
    var rest, p := s[|out|..], PadLen(|Spell(t, s)|);
    hide Shape, Labelled, Read, Spell, Padded;
    if y: Byte :| Code(t, y) <= path {
      assert Code(t, y) == path by { PrefixOfSnoc(Code(t, y), paths[node], b); }
      assert Code(t, y) <= Code(t, y) && !(Code(t, EOS) <= Code(t, y));
    } else {
      Inside(t, path, rest, p);
      if rest == [] {
        assert |path| <= p by { EmptySpell(t, rest, p); }
      } else {
        assert !(Code(t, EOS) <= Code(t, rest[0]));
      }
    }
  }

  lemma EmptySpell(t: Table, rest: seq<Byte>, p: nat)
    requires |t| == 257 && rest == []
    ensures |Spell(t, rest) + Ones(p)| == p
  {
  }

  lemma PrefixOfSnoc(a: Bits, p: Bits, b: bool)
    requires a <= p + [b]
    ensures a <= p || a == p + [b]
  {
    if |a| <= |p| { assert a == p[..|a|]; }
  }

  /** An input that encodes something ends after a whole code, followed by at most seven ones. */
  lemma Ends(t: Table, nodes: seq<Node>, paths: seq<Bits>, at: Paths, bs: Bits, out: seq<Byte>, node: nat, s: seq<Byte>)
    requires Trie(t, nodes, paths, at) && node < |nodes| && nodes[node].symbol < 0
    requires Spell(t, out) + paths[node] == bs == Padded(Spell(t, s))
    ensures paths[node] == Ones(|paths[node]|) && |paths[node]| <= 7
  {
    var path := paths[node];
    NoCodeWithin(t, nodes, paths, at, node);
    Continues(t, bs, out, path, s);
    var rest, p := s[|out|..], PadLen(|Spell(t, s)|);
    assert path == Spell(t, rest) + Ones(p) by { assert bs[|Spell(t, out)|..] == path; }
    assert rest == [] by {
      if rest != [] { Assoc(Code(t, rest[0]), Spell(t, rest[1..]), Ones(p)); }
    }
    assert path == Ones(p);
  }

  lemma PadUnique(n: nat, k: nat, bytes: nat)
    requires n + k == 8 * bytes && k <= 7
    ensures PadLen(n) == k
  {
  }

  /** Accepted bits are the padded spelling of what was put out. */
  lemma Accepts(t: Table, input: seq<Byte>, out: seq<Byte>, path: Bits)
    requires |t| == 257 && Unpack(input) == Spell(t, out) + path && path == Ones(|path|) && |path| <= 7
    ensures input == Encode(t, out)
  {
    hide Unpack, Spell, Pack, Ones, PadLen;
    var bs := Spell(t, out);
    PadUnique(|bs|, |path|, |input|);
    UnpackPack(Padded(bs));
    UnpackInjective(input, Encode(t, out));
  }

  // --------------------------------------------------------------------------
  // The trie as the program builds and walks it
  // --------------------------------------------------------------------------

  /** The first n codes are in, and the first i bits of code n. */
  ghost predicate Partly(t: Table, at: Paths, n: nat, i: nat)
    requires n < |t| && i <= |Code(t, n)|
  {
    && (forall s, p :: 0 <= s < n && p <= Code(t, s) ==> p in at)
    && (forall p :: p in at ==> p == [] || exists s :: 0 <= s <= n && p <= Code(t, s))
    && (forall k :: 0 <= k <= i ==> Code(t, n)[..k] in at)
  }

  lemma PartlyGrows(t: Table, at: Paths, n: nat, i: nat, v: nat)
    requires n < |t| && i < |Code(t, n)| && Partly(t, at, n, i)
    ensures Partly(t, at[Code(t, n)[..i + 1] := v], n, i + 1)
    ensures Code(t, n)[..i + 1] in at ==> Partly(t, at, n, i + 1)
  {
  }

  lemma PartlyDone(t: Table, at: Paths, n: nat)
    requires n < |t| && Partly(t, at, n, |Code(t, n)|)
    ensures Covers(t, at, n + 1)
  {
    forall p | p <= Code(t, n) ensures p in at {
      assert p == Code(t, n)[..|p|];
    }
  }

  ghost predicate InsertingAt(t: Table, nodes: seq<Node>, paths: seq<Bits>, at: Paths, sym: nat, i: nat, cur: nat) {
    && ValidTable(t) && sym < 257 && i <= |Code(t, sym)|
    && Shape(nodes, paths, at) && Labelled(t, nodes, paths, sym) && Partly(t, at, sym, i)
    && cur < |nodes| && paths[cur] == Code(t, sym)[..i]
  }

  /** Growing the missing node for bit i keeps the insertion going. */
  lemma Grown(t: Table, nodes: seq<Node>, paths: seq<Bits>, at: Paths, sym: nat, i: nat, cur: nat, b: bool)
    requires InsertingAt(t, nodes, paths, at, sym, i, cur) && i < |Code(t, sym)|
    requires paths[cur] + [b] == Code(t, sym)[..i + 1] && paths[cur] + [b] !in at
    ensures InsertingAt(t, nodes[cur := WithChild(nodes[cur], b, |nodes|)] + [LEAF], paths + [paths[cur] + [b]],
                        at[paths[cur] + [b] := |nodes|], sym, i + 1, |nodes|)
  {
    PartlyGrows(t, at, sym, i, |nodes|);
    GrowLabels(t, nodes, paths, at, sym, cur, b);
    GrowShape(nodes, paths, at, cur, b);
    assert |nodes| == |paths|;
    hide Shape, Labelled, ValidTable, Partly, BitsOf;
  }

  class Tree {
    const table: Table
    var nodes: seq<Node>
    ghost var paths: seq<Bits>
    ghost var at: Paths

    ghost predicate Built(n: nat)
      reads this
    {
      && ValidTable(table) && n <= 257
      && Shape(nodes, paths, at) && Labelled(table, nodes, paths, n) && Covers(table, at, n)
    }

    ghost predicate Valid()
      reads this
    {
      Trie(table, nodes, paths, at)
    }

    /** After all 257 insertions a node carries symbol s exactly when its path is the code of s. */
    constructor (t: Table)
      requires ValidTable(t)
      ensures Valid() && table == t && |nodes| <= 1 + 30 * 257 < 0x8000
    {
      table := t;
      nodes, paths, at := [LEAF], [[]], map[[] := 0];
      new;
      hide *;
      Unbuilt();
      for s := 0 to 257
        invariant Built(s) && |nodes| <= 1 + 30 * s
      {
        Insert(s);
      }
      BuiltAll();
    }

    lemma BuiltAll()
      requires Built(257)
      ensures Valid()
    {
    }

    lemma Unbuilt()
      requires ValidTable(table) && nodes == [LEAF] && paths == [[]] && at == map[[] := 0]
      ensures Built(0)
    {
    }

    /** Node cur stands for the first i bits of the code being inserted. */
    ghost predicate Inserting(sym: nat, i: nat, cur: nat)
      reads this
    {
      InsertingAt(table, nodes, paths, at, sym, i, cur)
    }

    /** Bit i of a code, as the insertion reads it. */
    function BitOf(sym: nat, i: nat): bool
      requires sym < |table| && i < table[sym].bits
    {
      (table[sym].code / Pow2(table[sym].bits - 1 - i)) % 2 == 1
    }

    lemma NextBit(sym: nat, i: nat, cur: nat)
      requires Inserting(sym, i, cur) && i < table[sym].bits
      ensures sym < |table| && cur < |nodes| == |paths| && i < |Code(table, sym)|
      ensures paths[cur] + [BitOf(sym, i)] == Code(table, sym)[..i + 1]
      ensures var c := Child(nodes[cur], BitOf(sym, i));
              if c < 0 then paths[cur] + [BitOf(sym, i)] !in at else Inserting(sym, i + 1, c)
    {
      hide BitOf, BitsOf, Labelled, Partly, PrefixFree, Pow2;
      CodeNext(sym, i);
      ChildIs(nodes, paths, at, cur, BitOf(sym, i));
      assert |nodes| == |paths|;
      hide Shape;
      PartlyGrows(table, at, sym, i, |nodes|);
    }

    lemma CodeNext(sym: nat, i: nat)
      requires sym < |table| && i < table[sym].bits
      ensures Code(table, sym)[..i + 1] == Code(table, sym)[..i] + [BitOf(sym, i)]
    {
      BitAt(table[sym].code, table[sym].bits, i);
    }

    /** One bit of the code: the child for it, made if it is missing. */
    method Descend(sym: nat, i: nat, cur: nat) returns (next: nat)
      requires Inserting(sym, i, cur) && i < table[sym].bits
      modifies this`nodes, this`paths, this`at
      ensures Inserting(sym, i + 1, next) && |nodes| <= |old(nodes)| + 1
    {
      hide *;
      NextBit(sym, i, cur);
      InsertingIs(sym, i, cur);
      var b := BitOf(sym, i);
      var c := Child(nodes[cur], b);
      if c >= 0 {
        next := c;
      } else {
        Grown(table, nodes, paths, at, sym, i, cur, b);
        next := |nodes|;
        paths, at := paths + [paths[cur] + [b]], at[paths[cur] + [b] := |nodes|];
        nodes := nodes[cur := WithChild(nodes[cur], b, |nodes|)] + [LEAF];
        InsertingThat(sym, i + 1, next);
      }
    }

    lemma InsertingIs(sym: nat, i: nat, cur: nat)
      requires Inserting(sym, i, cur)
      ensures InsertingAt(table, nodes, paths, at, sym, i, cur)
    {
    }

    lemma InsertingThat(sym: nat, i: nat, cur: nat)
      requires InsertingAt(table, nodes, paths, at, sym, i, cur)
      ensures Inserting(sym, i, cur)
    {
    }

    lemma Opening(sym: nat)
      requires sym < 257 && Built(sym)
      ensures |table| == 257 && Inserting(sym, 0, 0) && |Code(table, sym)| == table[sym].bits <= 30
    {
    }

    method Insert(sym: nat)
      requires sym < 257 && Built(sym)
      modifies this`nodes, this`paths, this`at
      ensures Built(sym + 1) && |nodes| <= |old(nodes)| + 30
    {
      hide *;
      Opening(sym);
      var bits := table[sym].bits;
      var cur: nat := 0;
      for i := 0 to bits
        invariant Inserting(sym, i, cur) && |nodes| <= |old(nodes)| + i
      {
        cur := Descend(sym, i, cur);
      }
      Inserted(sym, cur);
      nodes := nodes[cur := nodes[cur].(symbol := sym)];
      BuiltIs(sym + 1);
    }

    lemma BuiltIs(n: nat)
      requires ValidTable(table) && n <= 257
      requires Shape(nodes, paths, at) && Labelled(table, nodes, paths, n) && Covers(table, at, n)
      ensures Built(n)
    {
    }

    lemma Inserted(sym: nat, cur: nat)
      requires sym < |table| && Inserting(sym, |Code(table, sym)|, cur)
      ensures ValidTable(table) && sym < 257 && Covers(table, at, sym + 1) && cur < |nodes|
      ensures var nodes' := nodes[cur := nodes[cur].(symbol := sym)];
              Shape(nodes', paths, at) && Labelled(table, nodes', paths, sym + 1)
    {
      assert Code(table, sym)[..|Code(table, sym)|] == Code(table, sym);
      SetLabel(table, nodes, paths, at, sym, cur);
      PartlyDone(table, at, sym);
    }

    /** Walks ones from the root, as the padding check does. */
    method WalkOnes(n: nat) returns (node: nat)
      requires Valid() && n <= 7
      ensures node < |nodes| && |paths| == |nodes| && paths[node] == Ones(n)
    {
      hide *;
      node := 0;
      RootHasNoSymbol();
      NoOnes();
      for i := 0 to n
        invariant node < |nodes| && |paths| == |nodes| && paths[node] == Ones(i)
      {
        OneMore(node, i);
        node := Child(nodes[node], true);
      }
    }

    lemma NoOnes()
      ensures Ones(0) == []
    {
    }

    lemma OneMore(node: nat, i: nat)
      requires Valid() && i < 7 && node < |nodes| && |paths| == |nodes| && paths[node] == Ones(i)
      ensures 0 <= Child(nodes[node], true) < |nodes| && paths[Child(nodes[node], true)] == Ones(i + 1)
    {
      assert Ones(i + 1) == Ones(i) + [true];
      OnesPrefix(Ones(i + 1), i + 1, 30);
      assert Ones(i + 1) <= Code(table, EOS);
      ChildIs(nodes, paths, at, node, true);
    }

    /** One bit: the node it leads to, or none when nothing can be encoded that way. */
    method StepBit(ghost bs: Bits, ghost out: seq<Byte>, node: nat, b: bool) returns (next: Option<nat>)
      requires Valid() && node < |nodes| && nodes[node].symbol < 0 && |paths| == |nodes|
      requires |table| == 257 && Read(table, bs, out, paths[node] + [b])
      ensures next.None? ==> forall s :: bs != Padded(Spell(table, s))
      ensures next.Some? ==> next.value < |nodes| && paths[next.value] == paths[node] + [b]
      ensures next.Some? ==> -1 <= nodes[next.value].symbol < 256
      ensures next.Some? && nodes[next.value].symbol >= 0 ==> Code(table, nodes[next.value].symbol) == paths[next.value]
    {
      ChildIs(nodes, paths, at, node, b);
      var c := Child(nodes[node], b);
      if c < 0 || nodes[c].symbol == EOS {
        forall s ensures bs != Padded(Spell(table, s)) {
          if bs == Padded(Spell(table, s)) {
            Extends(table, nodes, paths, at, bs, out, node, b, s);
          }
        }
        return None;
      }
      return Some(c);
    }

    /** What the decoder has read: whole codes, then the path to a node without a symbol. */
    ghost predicate Reading(bs: Bits, k: nat, out: seq<Byte>, node: nat)
      reads this
    {
      && Valid() && |table| == 257 && |paths| == |nodes| && node < |nodes| && nodes[node].symbol < 0
      && k <= |bs| && Spell(table, out) + paths[node] == bs[..k]
    }

    /** Takes bit k: the symbol it completes is put out and the walk starts again at the root. */
    method TakeBit(ghost bs: Bits, ghost k: nat, out: seq<Byte>, node: nat, b: bool)
      returns (ok: bool, out': seq<Byte>, node': nat)
      requires Reading(bs, k, out, node) && k < |bs| && bs[k] == b
      ensures !ok ==> forall s :: bs != Padded(Spell(table, s))
      ensures ok ==> Reading(bs, k + 1, out', node')
      ensures ok && node' == 0 ==> out' != out && |Spell(table, out')| == k + 1
      ensures ok && node' != 0 ==> out' == out
    {
      hide Trie, Spell, BitsOf, Read;
      out', node' := out, node;
      ReadsOn(bs, k, Spell(table, out), paths[node]);
      assert Read(table, bs, out, paths[node] + [b]) by { ReadIs(bs, k, out, node, b); }
      var next := StepBit(bs, out, node, b);
      if next.None? { return false, out, node; }
      RootHasNoSymbol();
      if nodes[next.value].symbol >= 0 {
        out', node' := out + [nodes[next.value].symbol], 0;
        SpellConcat(table, out, [nodes[next.value].symbol]);
        SpellOne(table, nodes[next.value].symbol);
      } else {
        node' := next.value;
      }
      return true, out', node';
    }

    lemma ReadsOn(bs: Bits, k: nat, done: Bits, path: Bits)
      requires k < |bs| && done + path == bs[..k]
      ensures done + (path + [bs[k]]) == bs[..k + 1] && (done + (path + [bs[k]])) + [] == bs[..k + 1]
    {
    }

    lemma ReadIs(bs: Bits, k: nat, out: seq<Byte>, node: nat, b: bool)
      requires |table| == 257 && node < |paths| && k < |bs|
      requires Spell(table, out) + (paths[node] + [b]) == bs[..k + 1]
      ensures Read(table, bs, out, paths[node] + [b])
    {
    }

    lemma RootHasNoSymbol()
      requires Valid()
      ensures |nodes| > 0 && |paths| == |nodes| && paths[0] == [] && nodes[0].symbol < 0
    {
      forall s | 0 <= s < 257 ensures Code(table, s) != [] {
      }
    }

    /** Accepts exactly the encodings, and gives back the string that was encoded. */
    method Decode(input: seq<Byte>) returns (res: Option<seq<Byte>>)
      requires Valid()
      ensures |table| == 257 && res == Decoded(table, input)
    {
      hide *;
      ghost var bs := Unpack(input);
      var out: seq<Byte>, node: nat, bitCount: nat, padStart: nat := [], 0, 0, 0;
      StartReading(bs);
      var i := 0;
      while i < |input|
        invariant i <= |input| && bitCount == 8 * i
        invariant Reading(bs, bitCount, out, node) && padStart == |Spell(table, out)|
      {
        var j := 7;
        while j >= 0
          invariant -1 <= j <= 7 && bitCount == 8 * i + (7 - j)
          invariant Reading(bs, bitCount, out, node) && padStart == |Spell(table, out)|
        {
          UnpackAt(input, i, j);
          var ok;
          ok, out, node := TakeBit(bs, bitCount, out, node, (input[i] / Pow2(j)) % 2 == 1);
          if !ok {
            NotEncoded(input);
            return None;
          }
          bitCount := bitCount + 1;
          if node == 0 { padStart := bitCount; }
          j := j - 1;
        }
        i := i + 1;
      }
      res := CheckPadding(input, out, node, bitCount - padStart);
    }

    lemma StartReading(bs: Bits)
      requires Valid()
      ensures Reading(bs, 0, [], 0) && |table| == 257 && |Spell(table, [])| == 0
    {
      RootHasNoSymbol();
    }

    /** The bits after the last whole code must be at most seven ones. */
    method CheckPadding(input: seq<Byte>, out: seq<Byte>, node: nat, padBits: int) returns (res: Option<seq<Byte>>)
      requires Reading(Unpack(input), |Unpack(input)|, out, node)
      requires padBits == |Unpack(input)| - |Spell(table, out)|
      ensures res == Decoded(table, input)
    {
      hide Trie, Unpack, Spell, Padded, Encode, Decoded;
      ghost var bs := Unpack(input);
      assert bs[..|bs|] == bs;
      assert padBits == |paths[node]|;
      RootHasNoSymbol();
      if node != 0 {
        var check := 0;
        if padBits <= 7 { check := WalkOnes(padBits); }
        SameNode(check, node);
        if padBits > 7 || check != node {
          forall s ensures bs != Padded(Spell(table, s)) {
            if bs == Padded(Spell(table, s)) {
              Ends(table, nodes, paths, at, bs, out, node, s);
            }
          }
          NotEncoded(input);
          return None;
        }
      }
      Accepts(table, input, out, paths[node]);
      TableIs();
      DecodedIs(table, input, out);
      return Some(out);
    }

    lemma TableIs()
      requires Valid()
      ensures ValidTable(table)
    {
    }

    lemma SameNode(a: nat, b: nat)
      requires Valid() && a < |nodes| && b < |nodes|
      ensures |paths| == |nodes| && (paths[a] == paths[b] <==> a == b)
    {
    }

    lemma NotEncoded(input: seq<Byte>)
      requires |table| == 257 && forall s :: Unpack(input) != Padded(Spell(table, s))
      ensures Decoded(table, input) == None
    {
      forall s ensures input != Encode(table, s) {
        UnpackPack(Padded(Spell(table, s)));
      }
    }
  }
}
