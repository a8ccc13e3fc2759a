/** What the writer emits for a tree, and that the reader undoes it. */
module FdtFormat {
  import opened Wrappers
  import opened FdtTree
  import opened FdtReader

  /* ------------------------------------------------------------------ */
  /* The tree a node stands for.                                          */
  /* ------------------------------------------------------------------ */

  ghost function PropsOf(properties: map<Bytes, Property>, names: seq<Bytes>): seq<Prop>
    requires forall x :: x in names ==> x in properties
  {
    if names == [] then []
    else [Prop(names[0], Value(properties[names[0]]))] + PropsOf(properties, names[1..])
  }

  /** Properties by name, children in order. */
  ghost function TreeOf(n: Node): Tree
    decreases n
  {
    Tree(n.name, PropsOf(n.properties, SortedNames(n.properties.Keys)), TreesOf(n.children))
  }

  ghost function TreesOf(ns: seq<Node>): (ts: seq<Tree>)
    ensures |ts| == |ns|
    decreases ns
  {
    if ns == [] then [] else [TreeOf(ns[0])] + TreesOf(ns[1..])
  }

  predicate NulFree(s: Bytes) { 0 !in s }

  predicate PropsNulFree(ps: seq<Prop>) {
    ps == [] || (NulFree(ps[0].name) && PropsNulFree(ps[1..]))
  }

  predicate TreeNulFree(t: Tree)
    decreases t
  {
    NulFree(t.name) && PropsNulFree(t.props) && TreesNulFree(t.children)
  }

  predicate TreesNulFree(ts: seq<Tree>)
    decreases ts
  {
    ts == [] || (TreeNulFree(ts[0]) && TreesNulFree(ts[1..]))
  }

  /* ------------------------------------------------------------------ */
  /* Interned names.                                                      */
  /* ------------------------------------------------------------------ */

  /** The strings block so far and where each name begins in it. */
  datatype Table = Table(block: Bytes, offsets: map<Bytes, nat>)

  const EMPTY := Table([], map[])

  function Intern(t: Table, name: Bytes): (u: Table)
    ensures name in u.offsets && t.block <= u.block
  {
    if name in t.offsets then t else Table(t.block + name + [0], t.offsets[name := |t.block| % U32_LIMIT])
  }

  predicate PointsAt(block: Bytes, at: nat, name: Bytes) {
    at + |name| + 1 <= |block| && block[at..at + |name| + 1] == name + [0]
  }

  /** Every offset points at its name followed by NUL. */
  predicate Interned(t: Table) {
    forall name :: name in t.offsets ==> PointsAt(t.block, t.offsets[name], name)
  }

  lemma InternKeeps(t: Table, name: Bytes)
    requires Interned(t) && |t.block| < U32_LIMIT
    ensures Interned(Intern(t, name))
  {
    hide PointsAt;
    var u := Intern(t, name);
    forall x | x in u.offsets
      ensures PointsAt(u.block, u.offsets[x], x)
    {
      if x in t.offsets {
        PointsExtend(t.block, u.block, t.offsets[x], x);
      } else {
        PointsNew(t.block, x);
      }
    }
  }

  lemma PointsNew(block: Bytes, name: Bytes)
    ensures PointsAt(block + name + [0], |block|, name)
  {
    assert (block + name + [0])[|block|..] == name + [0];
  }

  lemma PointsExtend(a: Bytes, b: Bytes, at: nat, name: Bytes)
    requires a <= b && PointsAt(a, at, name)
    ensures PointsAt(b, at, name)
  {
    assert b[at..at + |name| + 1] == a[at..at + |name| + 1];
  }

  /* ------------------------------------------------------------------ */
  /* Emission.                                                            */
  /* ------------------------------------------------------------------ */

  /** Bytes of the structure block, and the names interned after them. */
  datatype Emitted = Emitted(bytes: Bytes, table: Table)

  function PropBytes(p: Prop, offset: nat): (s: Bytes)
    ensures |s| == 12 + Padded(|p.value|)
  {
    Be32(PROP) + Be32(|p.value|) + Be32(offset) + Pad(p.value)
  }

  function EmitProps(t: Table, ps: seq<Prop>): (e: Emitted)
    ensures |e.bytes| % 4 == 0 && t.block <= e.table.block
    decreases ps
  {
    if ps == [] then Emitted([], t)
    else
      var u := Intern(t, ps[0].name);
      var more := EmitProps(u, ps[1..]);
      Emitted(PropBytes(ps[0], u.offsets[ps[0].name]) + more.bytes, more.table)
  }

  /** Every token starts at a multiple of four because every piece is that long. */
  function EmitTree(t: Table, tree: Tree): (e: Emitted)
    ensures |e.bytes| % 4 == 0 && t.block <= e.table.block
    decreases tree
  {
    var props := EmitProps(t, tree.props);
    var children := EmitTrees(props.table, tree.children);
    Emitted(Be32(BEGIN_NODE) + Pad(tree.name + [0]) + props.bytes + children.bytes + Be32(END_NODE), children.table)
  }

  function EmitTrees(t: Table, trees: seq<Tree>): (e: Emitted)
    ensures |e.bytes| % 4 == 0 && t.block <= e.table.block
    decreases trees
  {
    if trees == [] then Emitted([], t)
    else
      var first := EmitTree(t, trees[0]);
      var more := EmitTrees(first.table, trees[1..]);
      Emitted(first.bytes + more.bytes, more.table)
  }

  const HEADER_SIZE := 40
  const RESERVE_SIZE := 16

  function HeaderWords(structSize: nat, stringsSize: nat): (ws: seq<nat>)
    ensures |ws| == 10
  {
    var structAt := HEADER_SIZE + RESERVE_SIZE;
    [MAGIC, structAt + structSize + stringsSize, structAt, structAt + structSize, HEADER_SIZE, 17, 16, 0, stringsSize, structSize]
  }

  /** Header, an empty reservation block, the structure block and the strings block. */
  function Assembled(block: Bytes, strings: Bytes): (blob: Bytes)
    ensures |blob| == HEADER_SIZE + RESERVE_SIZE + |block| + |strings|
  {
    Words(HeaderWords(|block|, |strings|)) + Zeros(RESERVE_SIZE) + block + strings
  }

  function Blob(tree: Tree): Bytes {
    var e := EmitTree(EMPTY, tree);
    Assembled(e.bytes + Be32(END), e.table.block)
  }

  /* ------------------------------------------------------------------ */
  /* Reading back.                                                        */
  /* ------------------------------------------------------------------ */

  lemma {:induction false} CStringBack(name: Bytes, rest: Bytes)
    requires NulFree(name)
    ensures CString(name + [0] + rest) == Some(name)
  {
    var s := name + [0] + rest;
    if name != [] {
      assert s[1..] == name[1..] + [0] + rest;
      CStringBack(name[1..], rest);
      assert [name[0]] + name[1..] == name;
    }
  }

  /** A name interned in a prefix of the strings block is found there. */
  lemma NameBack(t: Table, strings: Bytes, name: Bytes)
    requires Interned(t) && name in t.offsets && t.block <= strings && NulFree(name)
    ensures t.offsets[name] <= |strings| && CString(strings[t.offsets[name]..]) == Some(name)
  {
    PointsExtend(t.block, strings, t.offsets[name], name);
    var tail := strings[t.offsets[name]..];
    assert tail == name + [0] + tail[|name| + 1..] by {
      assert tail[..|name| + 1] == name + [0];
    }
    CStringBack(name, tail[|name| + 1..]);
  }

  /** Three words at the front of some bytes. */
  lemma ThreeWords(a: nat, b: nat, c: nat, rest: Bytes)
    ensures var s := Be32(a) + Be32(b) + Be32(c) + rest;
            && |s| == 12 + |rest| && Word(s) == a % U32_LIMIT && Word(s[4..]) == b % U32_LIMIT
            && Word(s[8..]) == c % U32_LIMIT && s[12..] == rest
  {
    hide Be32, Word;
    var s := Be32(a) + Be32(b) + Be32(c) + rest;
    var s2 := Be32(c) + rest;
    var s1 := Be32(b) + s2;
    assert s == Be32(a) + s1;
    WordBack(a, s1);
    WordBack(b, s2);
    WordBack(c, rest);
    assert s[8..] == s[4..][4..] && s[12..] == s[8..][4..];
  }

  /** The four fields of an emitted property. */
  lemma PropFields(p: Prop, offset: nat, rest: Bytes)
    requires |p.value| < U32_LIMIT && offset < U32_LIMIT
    ensures var s := PropBytes(p, offset) + rest;
            && StartsWith(s, PROP) && |s| >= 12 + Padded(|p.value|)
            && Word(s[4..]) == |p.value| && Word(s[8..]) == offset
            && s[12..12 + |p.value|] == p.value && s[12 + Padded(|p.value|)..] == rest
  {
    hide Be32, Word, Zeros;
    var value, n := Pad(p.value), |p.value|;
    var s := PropBytes(p, offset) + rest;
    assert s == Be32(PROP) + Be32(n) + Be32(offset) + (value + rest);
    ThreeWords(PROP, n, offset, value + rest);
    hide PropBytes;
    assert s[12..12 + n] == s[12..][..n];
    assert s[12 + Padded(n)..] == s[12..][Padded(n)..];
  }

  lemma OneProp(p: Prop, offset: nat, strings: Bytes, rest: Bytes)
    requires |p.value| < U32_LIMIT && offset <= |strings| < U32_LIMIT && CString(strings[offset..]) == Some(p.name)
    ensures var r := ReadProps(rest, strings);
            ReadProps(PropBytes(p, offset) + rest, strings) == if r.Fail? then Fail else Got([p] + r.value, r.rest)
  {
    hide Word, CString, PropBytes;
    PropFields(p, offset, rest);
  }

  /** Not the start of a property, nor of padding between tokens. */
  predicate EndsProps(s: Bytes) { !StartsWith(s, NOP) && !StartsWith(s, PROP) }

  lemma {:induction false} PropsBack(t: Table, ps: seq<Prop>, strings: Bytes, rest: Bytes)
    requires Interned(t) && PropsNulFree(ps) && EndsProps(rest)
    requires EmitProps(t, ps).table.block <= strings && |strings| < U32_LIMIT && |EmitProps(t, ps).bytes| < U32_LIMIT
    ensures ReadProps(EmitProps(t, ps).bytes + rest, strings) == Got(ps, rest)
    ensures Interned(EmitProps(t, ps).table)
    decreases ps
  {
    hide Word, Be32, Interned, Intern, CString, PropBytes;
    if ps == [] {
      assert [] + rest == rest;
    } else {
      var u := Intern(t, ps[0].name);
      var more := EmitProps(u, ps[1..]);
      var offset := u.offsets[ps[0].name];
      assert t.block <= u.block <= more.table.block <= strings;
      InternKeeps(t, ps[0].name);
      PropsBack(u, ps[1..], strings, rest);
      NameBack(u, strings, ps[0].name);
      OneProp(ps[0], offset, strings, more.bytes + rest);
      assert EmitProps(t, ps).bytes + rest == PropBytes(ps[0], offset) + (more.bytes + rest);
      assert [ps[0]] + ps[1..] == ps;
    }
  }

  /** The token at the front of what follows the properties. */
  lemma TokenFront(token: nat, rest: Bytes)
    requires token < U32_LIMIT
    ensures StartsWith(Be32(token) + rest, token) && (Be32(token) + rest)[4..] == rest
    ensures forall other :: other != token ==> !StartsWith(Be32(token) + rest, other)
  {
    hide Be32, Word;
    WordBack(token, rest);
  }

  /** The begin token and the name of an emitted node. */
  lemma NameFields(name: Bytes, rest: Bytes)
    requires NulFree(name)
    ensures var s := Be32(BEGIN_NODE) + Pad(name + [0]) + rest;
            && StartsWith(s, BEGIN_NODE) && CString(s[4..]) == Some(name)
            && 4 + Padded(|name| + 1) <= |s| && s[4 + Padded(|name| + 1)..] == rest
  {
    hide Word, Be32;
    var padded := Pad(name + [0]);
    var s := Be32(BEGIN_NODE) + padded + rest;
    assert s == Be32(BEGIN_NODE) + (padded + rest);
    WordBack(BEGIN_NODE, padded + rest);
    var zeros := Zeros(Padded(|name| + 1) - (|name| + 1));
    assert padded + rest == name + [0] + (zeros + rest);
    CStringBack(name, zeros + rest);
    assert s[4 + Padded(|name| + 1)..] == s[4..][Padded(|name| + 1)..];
  }

  /** What a node's children begin with ends its properties. */
  lemma ChildrenFront(t: Table, trees: seq<Tree>, rest: Bytes)
    ensures EndsProps(EmitTrees(t, trees).bytes + Be32(END_NODE) + rest)
    ensures trees != [] ==> !StartsWith(EmitTrees(t, trees).bytes + rest, NOP) && !StartsWith(EmitTrees(t, trees).bytes + rest, END_NODE)
  {
    hide Be32, Word, Pad, EmitProps;
    if trees == [] {
      TokenFront(END_NODE, rest);
      assert EmitTrees(t, trees).bytes + Be32(END_NODE) + rest == Be32(END_NODE) + rest;
    } else {
      var first := EmitTree(t, trees[0]).bytes;
      var bytes := EmitTrees(t, trees).bytes;
      assert first == Be32(BEGIN_NODE) + first[4..];
      assert bytes == Be32(BEGIN_NODE) + bytes[4..];
      TokenFront(BEGIN_NODE, bytes[4..] + Be32(END_NODE) + rest);
      TokenFront(BEGIN_NODE, bytes[4..] + rest);
      assert bytes + Be32(END_NODE) + rest == Be32(BEGIN_NODE) + (bytes[4..] + Be32(END_NODE) + rest);
      assert bytes + rest == Be32(BEGIN_NODE) + (bytes[4..] + rest);
    }
  }

  /** The strings block holds every name of what was emitted, and all sizes fit in a word. */
  predicate Fits(e: Emitted, strings: Bytes) {
    e.table.block <= strings && |strings| < U32_LIMIT && |e.bytes| < U32_LIMIT
  }

  lemma {:induction false} TreeBack(t: Table, tree: Tree, strings: Bytes, rest: Bytes)
    requires Interned(t) && TreeNulFree(tree) && Fits(EmitTree(t, tree), strings)
    ensures ReadNode(EmitTree(t, tree).bytes + rest, strings) == Got(tree, rest)
    ensures Interned(EmitTree(t, tree).table)
    decreases tree
  {
    hide Be32, Word, Pad, Interned, CString, EmitProps, ReadProps;
    var props := EmitProps(t, tree.props);
    var children := EmitTrees(props.table, tree.children);
    var tail := children.bytes + Be32(END_NODE) + rest;
    var front := Be32(BEGIN_NODE) + Pad(tree.name + [0]);
    assert EmitTree(t, tree).bytes == front + props.bytes + children.bytes + Be32(END_NODE);
    assert EmitTree(t, tree).bytes + rest == front + (props.bytes + tail);
    assert props.table.block <= children.table.block;
    NameFields(tree.name, props.bytes + tail);
    ChildrenFront(props.table, tree.children, rest);
    PropsBack(t, tree.props, strings, tail);
    TreesBack(props.table, tree.children, strings, rest);
  }

  lemma {:induction false} TreesBack(t: Table, trees: seq<Tree>, strings: Bytes, rest: Bytes)
    requires Interned(t) && TreesNulFree(trees) && Fits(EmitTrees(t, trees), strings)
    ensures ReadChildren(EmitTrees(t, trees).bytes + Be32(END_NODE) + rest, strings) == Got(trees, rest)
    ensures Interned(EmitTrees(t, trees).table)
    decreases trees
  {
    hide Be32, Word, Interned, EmitTree, TreeNulFree, ReadNode;
    if trees == [] {
      TokenFront(END_NODE, rest);
      assert EmitTrees(t, trees).bytes + Be32(END_NODE) + rest == Be32(END_NODE) + rest;
    } else {
      var first := EmitTree(t, trees[0]);
      var more := EmitTrees(first.table, trees[1..]);
      var tail := more.bytes + Be32(END_NODE) + rest;
      var s := EmitTrees(t, trees).bytes + Be32(END_NODE) + rest;
      assert s == first.bytes + tail;
      assert s == EmitTrees(t, trees).bytes + (Be32(END_NODE) + rest);
      ChildrenFront(t, trees, Be32(END_NODE) + rest);
      TreeBack(t, trees[0], strings, tail);
      TreesBack(first.table, trees[1..], strings, rest);
      assert [trees[0]] + trees[1..] == trees;
    }
  }

  /** Every header field reads back. */
  lemma FieldBack(block: Bytes, strings: Bytes, i: nat)
    requires i < 10 && |Assembled(block, strings)| < U32_LIMIT
    ensures Field(Assembled(block, strings), i) == HeaderWords(|block|, |strings|)[i]
  {
    hide Word, Words;
    var ws, rest := HeaderWords(|block|, |strings|), Zeros(RESERVE_SIZE) + block + strings;
    assert Assembled(block, strings) == Words(ws) + rest;
    WordAt(ws, rest, i);
  }

  /** Every block is where the header says. */
  lemma BlocksBack(block: Bytes, strings: Bytes)
    ensures var blob, at := Assembled(block, strings), HEADER_SIZE + RESERVE_SIZE;
            && blob[at..at + |block|] == block && blob[at + |block|..at + |block| + |strings|] == strings
            && blob[HEADER_SIZE..] == Zeros(RESERVE_SIZE) + (block + strings)
  {
    hide Words;
  }

  lemma NoReservations(rest: Bytes)
    ensures ReadReservations(Zeros(RESERVE_SIZE) + rest) == Some([])
  {
    hide Word;
    var s := Zeros(RESERVE_SIZE) + rest;
    ZeroWord(s, 0);
    ZeroWord(s, 4);
    ZeroWord(s, 8);
    ZeroWord(s, 12);
    assert s[0..] == s;
  }

  lemma ZeroWord(s: Bytes, i: nat)
    requires i + 4 <= |s| && s[i] == 0 && s[i + 1] == 0 && s[i + 2] == 0 && s[i + 3] == 0
    ensures Word(s[i..]) == 0
  {
    var t := s[i..];
    assert t[0] == s[i] && t[1] == s[i + 1] && t[2] == s[i + 2] && t[3] == s[i + 3];
  }

  /** The reader undoes the writer. */
  lemma BlobBack(tree: Tree)
    requires TreeNulFree(tree) && |Blob(tree)| < U32_LIMIT
    ensures ReadBlob(Blob(tree)) == Some(Device(tree, []))
  {
    hide Word, Words, Be32, Assembled, Zeros, EmitTree, ReadNode, ReadReservations, Field;
    var e := EmitTree(EMPTY, tree);
    var block, strings := e.bytes + Be32(END), e.table.block;
    TreeBack(EMPTY, tree, strings, Be32(END));
    TokenFront(END, []);
    assert Be32(END) + [] == Be32(END);
    BlocksBack(block, strings);
    NoReservations(block + strings);
    FieldsBack(block, strings);
  }

  lemma FieldsBack(block: Bytes, strings: Bytes)
    requires |Assembled(block, strings)| < U32_LIMIT
    ensures forall i :: 0 <= i < 10 ==> Field(Assembled(block, strings), i) == HeaderWords(|block|, |strings|)[i]
  {
    hide Field, Assembled, HeaderWords;
    forall i | 0 <= i < 10
      ensures Field(Assembled(block, strings), i) == HeaderWords(|block|, |strings|)[i]
    {
      FieldBack(block, strings, i);
    }
  }

  /* A NUL in a name is lost: whatever is read is free of them. */

  lemma {:induction false} CStringNulFree(s: Bytes)
    ensures CString(s).Some? ==> NulFree(CString(s).value)
  {
    if s != [] && s[0] != 0 {
      CStringNulFree(s[1..]);
    }
  }

  lemma {:induction false} ReadPropsNulFree(s: Bytes, strings: Bytes)
    ensures ReadProps(s, strings).Got? ==> PropsNulFree(ReadProps(s, strings).value)
    decreases |s|
  {
    hide CString, Word;
    if StartsWith(s, NOP) {
      ReadPropsNulFree(s[4..], strings);
    } else if ReadProps(s, strings).Got? && StartsWith(s, PROP) {
      CStringNulFree(strings[Word(s[8..])..]);
      ReadPropsNulFree(s[12 + Padded(Word(s[4..]))..], strings);
    }
  }

  lemma {:induction false} ReadNodeNulFree(s: Bytes, strings: Bytes)
    ensures ReadNode(s, strings).Got? ==> TreeNulFree(ReadNode(s, strings).value)
    decreases |s|, 0
  {
    hide CString, Word, ReadProps;
    if ReadNode(s, strings).Got? {
      CStringNulFree(s[4..]);
      var name := CString(s[4..]).value;
      var after := s[4 + Padded(|name| + 1)..];
      ReadPropsNulFree(after, strings);
      ReadChildrenNulFree(ReadProps(after, strings).rest, strings);
    }
  }

  lemma {:induction false} ReadChildrenNulFree(s: Bytes, strings: Bytes)
    ensures ReadChildren(s, strings).Got? ==> TreesNulFree(ReadChildren(s, strings).value)
    decreases |s|, 1
  {
    hide CString, Word, TreeNulFree, ReadNode;
    if StartsWith(s, NOP) {
      ReadChildrenNulFree(s[4..], strings);
    } else if ReadChildren(s, strings).Got? && !StartsWith(s, END_NODE) {
      ReadNodeNulFree(s, strings);
      ReadChildrenNulFree(ReadNode(s, strings).rest, strings);
    }
  }

  /** The round trip holds for exactly the trees without NUL in a name. */
  lemma RoundTripIff(tree: Tree)
    requires |Blob(tree)| < U32_LIMIT
    ensures ReadBlob(Blob(tree)) == Some(Device(tree, [])) <==> TreeNulFree(tree)
  {
    hide Blob, ReadNode, ReadReservations, TreeNulFree;
    var blob := Blob(tree);
    if TreeNulFree(tree) {
      BlobBack(tree);
    }
    if ReadBlob(blob) == Some(Device(tree, [])) {
      var structAt, stringsAt := Field(blob, 2), Field(blob, 3);
      ReadNodeNulFree(blob[structAt..structAt + Field(blob, 9)], blob[stringsAt..stringsAt + Field(blob, 8)]);
    }
  }
}
