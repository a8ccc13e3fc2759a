/** What a reader of the blob finds: nodes by their names, properties by theirs, and values by their kind. */
module FdtFound {
  import opened MachineTypes
  import opened Wrappers
  import opened FdtTree
  import opened FdtReader
  import opened FdtFormat

  /* ------------------------------------------------------------------ */
  /* Which nodes can be built, and what their trees hold.                 */
  /* ------------------------------------------------------------------ */

  predicate PropsBuildable(properties: map<Bytes, Property>) {
    forall x :: x in properties ==> Single(properties[x])
  }

  /** Every property anywhere has exactly one kind of value. */
  predicate Buildable(n: Node)
    decreases n
  {
    PropsBuildable(n.properties) && AllBuildable(n.children)
  }

  predicate AllBuildable(ns: seq<Node>)
    decreases ns
  {
    ns == [] || (Buildable(ns[0]) && AllBuildable(ns[1..]))
  }

  predicate NamesNulFree(n: Node)
    decreases n
  {
    NulFree(n.name) && (forall x :: x in n.properties ==> NulFree(x)) && AllNamesNulFree(n.children)
  }

  predicate AllNamesNulFree(ns: seq<Node>)
    decreases ns
  {
    ns == [] || (NamesNulFree(ns[0]) && AllNamesNulFree(ns[1..]))
  }

  lemma {:induction false} PropsOfNulFree(properties: map<Bytes, Property>, names: seq<Bytes>)
    requires forall x :: x in names ==> x in properties
    ensures PropsNulFree(PropsOf(properties, names)) <==> forall x :: x in names ==> NulFree(x)
  {
    if names != [] {
      PropsOfNulFree(properties, names[1..]);
      assert forall x :: x in names <==> x == names[0] || x in names[1..];
    }
  }

  lemma {:induction false} TreeOfNulFree(n: Node)
    ensures TreeNulFree(TreeOf(n)) <==> NamesNulFree(n)
    decreases n
  {
    PropsOfNulFree(n.properties, SortedNames(n.properties.Keys));
    TreesOfNulFree(n.children);
  }

  lemma {:induction false} TreesOfNulFree(ns: seq<Node>)
    ensures TreesNulFree(TreesOf(ns)) <==> AllNamesNulFree(ns)
    decreases ns
  {
    if ns != [] {
      TreeOfNulFree(ns[0]);
      TreesOfNulFree(ns[1..]);
    }
  }

  /** What is built from a node reads back as that node exactly when no name in it holds a NUL. */
  lemma BuiltReadsBack(n: Node)
    requires |Blob(TreeOf(n))| < U32_LIMIT
    ensures ReadBlob(Blob(TreeOf(n))) == Some(Device(TreeOf(n), [])) <==> NamesNulFree(n)
  {
    TreeOfNulFree(n);
    RoundTripIff(TreeOf(n));
  }

  /* What a reader finds by name. */

  function ChildNode(ns: seq<Node>, name: Bytes): Option<Node> {
    if ns == [] then None
    else if ns[0].name == name then Some(ns[0])
    else ChildNode(ns[1..], name)
  }

  /** The node at a path of names below `n`. */
  function NodeAt(n: Node, path: seq<Bytes>): Option<Node>
    decreases |path|
  {
    if path == [] then Some(n)
    else
      match ChildNode(n.children, path[0])
      case None => None
      case Some(child) => NodeAt(child, path[1..])
  }

  lemma {:induction false} LookupPropsOf(properties: map<Bytes, Property>, names: seq<Bytes>, x: Bytes)
    requires forall y :: y in names ==> y in properties
    ensures Lookup(PropsOf(properties, names), x) == if x in names then Some(Value(properties[x])) else None
  {
    hide Value;
    if names != [] {
      LookupPropsOf(properties, names[1..], x);
      assert PropsOf(properties, names)[1..] == PropsOf(properties, names[1..]);
    }
  }

  lemma {:induction false} ChildTreesOf(ns: seq<Node>, name: Bytes)
    ensures Child(TreesOf(ns), name)
         == match ChildNode(ns, name) { case None => None case Some(m) => Some(TreeOf(m)) }
  {
    if ns != [] {
      ChildTreesOf(ns[1..], name);
      assert TreesOf(ns)[1..] == TreesOf(ns[1..]);
    }
  }

  lemma {:induction false} DescendTreeOf(n: Node, path: seq<Bytes>)
    ensures Descend(TreeOf(n), path) == match NodeAt(n, path) { case None => None case Some(m) => Some(TreeOf(m)) }
    decreases |path|
  {
    if path != [] {
      ChildTreesOf(n.children, path[0]);
      var child := ChildNode(n.children, path[0]);
      if child.Some? {
        DescendTreeOf(child.value, path[1..]);
      }
    }
  }

  /* ------------------------------------------------------------------ */
  /* What the values mean.                                                */
  /* ------------------------------------------------------------------ */

  /** Strings one after the other, each ended by a NUL (section 2.2.4 of the Devicetree Specification). */
  function ReadStrings(s: Bytes, current: Bytes): Option<seq<Bytes>>
    decreases |s|
  {
    if s == [] then if current == [] then Some([]) else None
    else if s[0] != 0 then ReadStrings(s[1..], current + [s[0]])
    else
      match ReadStrings(s[1..], [])
      case None => None
      case Some(more) => Some([current] + more)
  }

  lemma {:induction false} OneStringBack(x: Bytes, rest: Bytes, current: Bytes)
    requires NulFree(x)
    ensures ReadStrings(x + [0] + rest, current)
         == match ReadStrings(rest, []) { case None => None case Some(more) => Some([current + x] + more) }
    decreases |x|
  {
    var s := x + [0] + rest;
    if x == [] {
      assert s[1..] == rest && current + x == current;
    } else {
      assert s[1..] == x[1..] + [0] + rest;
      assert current + [x[0]] + x[1..] == current + x;
      OneStringBack(x[1..], rest, current + [x[0]]);
    }
  }

  predicate AllNulFree(strings: seq<Bytes>) {
    strings == [] || (NulFree(strings[0]) && AllNulFree(strings[1..]))
  }

  lemma {:induction false} StringsBack(strings: seq<Bytes>)
    requires AllNulFree(strings)
    ensures ReadStrings(Terminated(strings), []) == Some(strings)
  {
    if strings != [] {
      StringsBack(strings[1..]);
      OneStringBack(strings[0], Terminated(strings[1..]), []);
      assert [] + strings[0] == strings[0] && [strings[0]] + strings[1..] == strings;
    }
  }

  /** What is read never holds a NUL. */
  lemma {:induction false} StringsNulFree(s: Bytes, current: Bytes)
    requires NulFree(current)
    ensures ReadStrings(s, current).Some? ==> AllNulFree(ReadStrings(s, current).value)
    decreases |s|
  {
    if s != [] {
      StringsNulFree(s[1..], if s[0] != 0 then current + [s[0]] else []);
      if s[0] == 0 && ReadStrings(s[1..], []).Some? {
        var more := ReadStrings(s[1..], []).value;
        assert ([current] + more)[1..] == more;
      }
    }
  }

  /** Exactly one kind of value is given. */
  predicate Single(p: Property) {
    var s, w, d, b, f := p.strings != [], p.u32 != [], p.u64 != [], p.bytes != [], p.flag;
    || (s && !w && !d && !b && !f)
    || (!s && w && !d && !b && !f)
    || (!s && !w && d && !b && !f)
    || (!s && !w && !d && b && !f)
    || (!s && !w && !d && !b && f)
  }

  /** The bytes mean the value: strings come back if they can, cells and bytes always, and a flag has no bytes. */
  predicate Decodes(p: Property, value: Bytes) {
    && (p.strings != [] ==> (ReadStrings(value, []) == Some(p.strings) <==> AllNulFree(p.strings)))
    && (p.u32 != [] ==> |value| == 4 * |p.u32| && ReadWords(value) == p.u32)
    && (p.u64 != [] ==> |value| == 8 * |p.u64| && ReadDoubleWords(value) == p.u64)
    && (p.bytes != [] ==> value == p.bytes)
    && (p.flag ==> value == [])
  }

  lemma SingleIff(p: Property)
    ensures DefinedCount(p) == 1 <==> Single(p)
  {
  }

  lemma {:induction false} DoubleWordsSize(vs: seq<uint64>)
    ensures |DoubleWords(vs)| == 8 * |vs|
  {
    if vs != [] {
      DoubleWordsSize(vs[1..]);
    }
  }

  lemma ValueDecodes(p: Property)
    requires Single(p)
    ensures Decodes(p, Value(p))
  {
    hide Terminated, Words, DoubleWords, ReadWords, ReadDoubleWords, ReadStrings, AllNulFree;
    if p.strings != [] {
      StringsNulFree(Terminated(p.strings), []);
      if AllNulFree(p.strings) {
        StringsBack(p.strings);
      }
    }
    WordsBack(p.u32);
    DoubleWordsBack(p.u64);
    DoubleWordsSize(p.u64);
  }

  /* ------------------------------------------------------------------ */
  /* What is found in a blob.                                             */
  /* ------------------------------------------------------------------ */

  /** `a` comes before `b`: at the first byte in which they differ it is smaller, or has ended. */
  ghost predicate Precedes(a: Bytes, b: Bytes) {
    exists k: nat :: FirstDifference(a, b, k)
  }

  predicate FirstDifference(a: Bytes, b: Bytes, k: nat) {
    k <= |a| && k < |b| && a[..k] == b[..k] && (k == |a| || a[k] < b[k])
  }

  lemma {:induction false} BeforePrecedes(a: Bytes, b: Bytes)
    requires Before(a, b)
    ensures Precedes(a, b)
    decreases |a|
  {
    if a != [] && a[0] == b[0] {
      BeforePrecedes(a[1..], b[1..]);
      var k: nat :| FirstDifference(a[1..], b[1..], k);
      assert a[..k + 1] == [a[0]] + a[1..][..k] && b[..k + 1] == [b[0]] + b[1..][..k];
      assert FirstDifference(a, b, k + 1);
    } else {
      assert FirstDifference(a, b, 0);
    }
  }

  /** The names of the properties, in the order they are listed. */
  ghost predicate ByName(ps: seq<Prop>) {
    forall i, j :: 0 <= i < j < |ps| ==> Precedes(ps[i].name, ps[j].name)
  }

  lemma {:induction false} PropsOfNames(properties: map<Bytes, Property>, names: seq<Bytes>)
    requires forall x :: x in names ==> x in properties
    ensures |PropsOf(properties, names)| == |names|
    ensures forall i :: 0 <= i < |names| ==> PropsOf(properties, names)[i].name == names[i]
  {
    if names != [] {
      PropsOfNames(properties, names[1..]);
    }
  }

  lemma {:induction false} IncreasingPrecedes(names: seq<Bytes>, i: nat, j: nat)
    requires Increasing(names) && i < j < |names|
    ensures Precedes(names[i], names[j])
  {
    if i == 0 {
      IncreasingHead(names, j);
      BeforePrecedes(names[0], names[j]);
    } else {
      IncreasingPrecedes(names[1..], i - 1, j - 1);
    }
  }

  lemma PropsByName(properties: map<Bytes, Property>)
    ensures ByName(PropsOf(properties, SortedNames(properties.Keys)))
  {
    hide SortedNames, Precedes;
    var names := SortedNames(properties.Keys);
    PropsOfNames(properties, names);
    hide PropsOf;
    forall i, j | 0 <= i < j < |names|
      ensures Precedes(names[i], names[j])
    {
      IncreasingPrecedes(names, i, j);
    }
  }

  lemma {:induction false} TreesOfAt(ns: seq<Node>, i: nat)
    requires i < |ns|
    ensures TreesOf(ns)[i] == TreeOf(ns[i])
  {
    if i > 0 {
      TreesOfAt(ns[1..], i - 1);
    }
  }

  /**
   At a path of names the device has what the node has there: the same name, the same children in
   order, its properties in the order of their names, and under the name `x` a value that decodes
   to the property `x`, or nothing.
   */
  ghost predicate Found(d: Option<Device>, n: Node, path: seq<Bytes>, x: Bytes) {
    d.Some? && d.value.reservations == [] &&
    match NodeAt(n, path)
    case None => Descend(d.value.tree, path).None?
    case Some(m) =>
      var t := Descend(d.value.tree, path);
      && t.Some? && t.value.name == m.name && |t.value.children| == |m.children|
      && (forall i :: 0 <= i < |m.children| ==> t.value.children[i].name == m.children[i].name)
      && |t.value.props| == |m.properties| && ByName(t.value.props)
      && (var v := Lookup(t.value.props, x);
          && (v.Some? <==> x in m.properties)
          && (v.Some? && Single(m.properties[x]) ==> Decodes(m.properties[x], v.value)))
  }

  lemma FoundByName(n: Node, path: seq<Bytes>, x: Bytes)
    requires |Blob(TreeOf(n))| < U32_LIMIT && NamesNulFree(n)
    ensures Found(ReadBlob(Blob(TreeOf(n))), n, path, x)
  {
    hide Blob, ReadBlob, Value, NamesNulFree, SortedNames, Increasing, ByName, Decodes, Single;
    BuiltReadsBack(n);
    DescendTreeOf(n, path);
    var m := NodeAt(n, path);
    if m.Some? {
      PropsFound(m.value, x);
      hide PropsOf;
      forall i | 0 <= i < |m.value.children|
        ensures TreeOf(m.value).children[i].name == m.value.children[i].name
      {
        TreesOfAt(m.value.children, i);
      }
    }
  }

  lemma PropsFound(m: Node, x: Bytes)
    ensures var ps := TreeOf(m).props;
            && |ps| == |m.properties| && ByName(ps)
            && (var v := Lookup(ps, x);
                && (v.Some? <==> x in m.properties)
                && (v.Some? && Single(m.properties[x]) ==> Decodes(m.properties[x], v.value)))
  {
    hide Value, SortedNames, Increasing, ByName, Decodes, Single;
    var names := SortedNames(m.properties.Keys);
    LookupPropsOf(m.properties, names, x);
    PropsByName(m.properties);
    PropsOfNames(m.properties, names);
    MembersCount(names);
    assert |m.properties| == |m.properties.Keys|;
    assert x in names <==> x in Members(names);
    if x in m.properties && Single(m.properties[x]) {
      ValueDecodes(m.properties[x]);
    }
  }

  lemma {:induction false} MembersCount(names: seq<Bytes>)
    requires Increasing(names)
    ensures |Members(names)| == |names|
  {
    if names != [] {
      TailMembers(names);
      MembersCount(names[1..]);
    } else {
      assert Members(names) == {};
    }
  }

  /** The header: magic, sizes and offsets of the blocks, version 17, compatible with 16, boot processor 0. */
  lemma HeaderIs(n: Node)
    requires |Blob(TreeOf(n))| < U32_LIMIT
    ensures var blob := Blob(TreeOf(n));
            && |blob| >= 56 && Field(blob, 0) == 0xd00d_feed && Field(blob, 1) == |blob|
            && Field(blob, 2) == 56 && Field(blob, 3) == 56 + Field(blob, 9) && Field(blob, 4) == 40
            && Field(blob, 5) == 17 && Field(blob, 6) == 16 && Field(blob, 7) == 0
            && Field(blob, 3) + Field(blob, 8) == |blob|
  {
    var e := EmitTree(EMPTY, TreeOf(n));
    var block := e.bytes + Be32(END);
    FieldsBack(block, e.table.block);
    hide Field, Words, EmitTree, TreeOf;
  }

  /** A name that is interned again changes nothing. */
  lemma InternOnce(t: Table, name: Bytes)
    ensures Intern(Intern(t, name), name) == Intern(t, name)
  {
  }
}
