/** The writer itself: a structure buffer, a strings buffer and the interned offsets. */
module FdtBuilder {
  import opened MachineTypes
  import opened Wrappers
  import opened FdtTree
  import opened FdtReader
  import opened FdtFormat
  import opened FdtFound

  /* ------------------------------------------------------------------ */
  /* Helpers of the writer.                                               */
  /* ------------------------------------------------------------------ */

  /** `keys` are sorted, and with those left they are all there are. */
  ghost predicate Listing(keys: seq<Bytes>, left: set<Bytes>, all: set<Bytes>) {
    Increasing(keys) && Members(keys) + left == all && Members(keys) !! left
  }

  lemma ListOne(keys: seq<Bytes>, left: set<Bytes>, all: set<Bytes>, x: Bytes)
    requires Listing(keys, left, all) && x in left
    ensures Listing(Placed(keys, x), left - {x}, all)
  {
    hide Placed, Before, Increasing;
    assert x in keys ==> x in Members(keys);
    PlacedIncreasing(keys, x);
  }

  method SortedKeys(properties: map<Bytes, Property>) returns (keys: seq<Bytes>)
    ensures keys == SortedNames(properties.Keys)
  {
    hide Placed, SortedNames, Before, Members, Listing;
    ghost var all := properties.Keys;
    keys := [];
    var left := properties.Keys;
    NothingListed(all);
    while left != {}
      invariant Listing(keys, left, all)
      decreases |left|
    {
      var x :| x in left;
      ListOne(keys, left, all, x);
      keys := Placed(keys, x);
      left := left - {x};
    }
    AllListed(keys, all);
  }

  lemma NothingListed(all: set<Bytes>)
    ensures Listing([], all, all)
  {
  }

  lemma AllListed(keys: seq<Bytes>, all: set<Bytes>)
    requires Listing(keys, {}, all)
    ensures keys == SortedNames(all)
  {
    hide Increasing, Members, SortedNames;
    assert Members(keys) + {} == Members(keys);
    IncreasingUnique(keys, SortedNames(all));
  }

  method JoinStrings(strings: seq<Bytes>) returns (data: Bytes)
    ensures data == Terminated(strings)
  {
    data := [];
    var i := 0;
    while i < |strings|
      invariant i <= |strings| && data + Terminated(strings[i..]) == Terminated(strings)
    {
      assert strings[i..][1..] == strings[i + 1..];
      data := data + strings[i] + [0];
      i := i + 1;
    }
  }

  method JoinWords(vs: seq<uint32>) returns (data: Bytes)
    ensures data == Words(vs)
  {
    hide Be32;
    data := [];
    var i := 0;
    while i < |vs|
      invariant i <= |vs| && data + Words(vs[i..]) == Words(vs)
    {
      assert vs[i..][1..] == vs[i + 1..];
      data := data + Be32(vs[i]);
      i := i + 1;
    }
  }

  method JoinDoubleWords(vs: seq<uint64>) returns (data: Bytes)
    ensures data == DoubleWords(vs)
  {
    hide Be64;
    data := [];
    var i := 0;
    while i < |vs|
      invariant i <= |vs| && data + DoubleWords(vs[i..]) == DoubleWords(vs)
    {
      assert vs[i..][1..] == vs[i + 1..];
      data := data + Be64(vs[i]);
      i := i + 1;
    }
  }

  method PropertyData(p: Property) returns (data: Bytes)
    ensures data == Value(p) && (Single(p) ==> Decodes(p, data))
  {
    if Single(p) {
      ValueDecodes(p);
    }
    hide Decodes;
    match KindOf(p)
    case StringsKind => data := JoinStrings(p.strings);
    case U32Kind => data := JoinWords(p.u32);
    case U64Kind => data := JoinDoubleWords(p.u64);
    case BytesKind => data := p.bytes;
    case FlagKind => data := [];
    case NoKind => data := [];
  }

  method PutUint32(blob: array<byte>, at: nat, v: nat)
    requires at + 4 <= blob.Length
    modifies blob
    ensures blob[..] == old(blob[..at]) + Be32(v) + old(blob[at + 4..])
  {
    hide Be32;
    var s := Be32(v);
    blob[at], blob[at + 1], blob[at + 2], blob[at + 3] := s[0], s[1], s[2], s[3];
  }

  method CopyInto(blob: array<byte>, at: nat, data: Bytes)
    requires at + |data| <= blob.Length
    modifies blob
    ensures blob[..] == old(blob[..at]) + data + old(blob[at + |data|..])
  {
    forall i | 0 <= i < |data| {
      blob[at + i] := data[i];
    }
  }

  method PutHeader(blob: array<byte>, words: seq<nat>)
    requires 4 * |words| <= blob.Length
    modifies blob
    ensures blob[..] == Words(words) + old(blob[4 * |words|..])
  {
    hide Be32;
    var i := 0;
    while i < |words|
      invariant i <= |words|
      invariant blob[..4 * i] + Words(words[i..]) == Words(words)
      invariant blob[4 * i..] == old(blob[4 * i..])
    {
      ghost var before := blob[..4 * i];
      PutUint32(blob, 4 * i, words[i]);
      assert blob[..4 * (i + 1)] == before + Be32(words[i]);
      i := i + 1;
    }
    assert blob[..] == blob[..4 * i] + blob[4 * i..];
  }

  lemma PadAfter(s: Bytes, t: Bytes)
    requires |s| % 4 == 0
    ensures Pad(s + t) == s + Pad(t)
  {
    assert Padded(|s| + |t|) == |s| + Padded(|t|);
  }

  lemma EmitNoProps(properties: map<Bytes, Property>, keys: seq<Bytes>, t: Table)
    requires forall x :: x in keys ==> x in properties
    ensures EmitProps(t, PropsOf(properties, keys[|keys|..])) == Emitted([], t)
  {
  }

  lemma KeysAre(properties: map<Bytes, Property>, keys: seq<Bytes>)
    requires keys == SortedNames(properties.Keys)
    ensures (forall x :: x in keys <==> x in properties) && keys[0..] == keys
  {
    hide SortedNames, Increasing;
    assert forall x :: x in keys <==> x in Members(keys);
  }

  lemma BuildableIff(properties: map<Bytes, Property>, keys: seq<Bytes>)
    requires forall x :: x in keys <==> x in properties
    ensures PropsBuildable(properties) <==> forall j :: 0 <= j < |keys| ==> DefinedCount(properties[keys[j]]) == 1
  {
    hide DefinedCount, Single;
    forall p {
      SingleIff(p);
    }
    if forall j :: 0 <= j < |keys| ==> DefinedCount(properties[keys[j]]) == 1 {
      forall x | x in properties
        ensures DefinedCount(properties[x]) == 1
      {
        var j :| 0 <= j < |keys| && keys[j] == x;
      }
    }
  }

  /** One more property emitted. */
  lemma EmitPropsStep(t: Table, properties: map<Bytes, Property>, keys: seq<Bytes>, i: nat, done: Bytes)
    requires (forall x :: x in keys ==> x in properties) && i < |keys|
    ensures var e, u := EmitProps(t, PropsOf(properties, keys[i..])), Intern(t, keys[i]);
            var more := EmitProps(u, PropsOf(properties, keys[i + 1..]));
            var piece := PropBytes(Prop(keys[i], Value(properties[keys[i]])), u.offsets[keys[i]]);
            e.table == more.table && done + e.bytes == done + piece + more.bytes
  {
    hide Intern, PropBytes, Value;
    var p := Prop(keys[i], Value(properties[keys[i]]));
    assert keys[i..][1..] == keys[i + 1..];
    assert PropsOf(properties, keys[i..]) == [p] + PropsOf(properties, keys[i + 1..]);
  }

  /** One more child emitted. */
  lemma EmitTreesStep(t: Table, ns: seq<Node>, i: nat, done: Bytes)
    requires i < |ns|
    ensures var e, first := EmitTrees(t, TreesOf(ns[i..])), EmitTree(t, TreeOf(ns[i]));
            var more := EmitTrees(first.table, TreesOf(ns[i + 1..]));
            e.table == more.table && done + e.bytes == done + first.bytes + more.bytes
  {
    hide EmitTree, TreeOf;
    assert ns[i..][1..] == ns[i + 1..];
    assert TreesOf(ns[i..]) == [TreeOf(ns[i])] + TreesOf(ns[i + 1..]);
  }

  lemma AllBuildableStep(ns: seq<Node>, i: nat)
    requires i < |ns|
    ensures AllBuildable(ns[i..]) <==> Buildable(ns[i]) && AllBuildable(ns[i + 1..])
  {
    assert ns[i..][1..] == ns[i + 1..];
  }

  class Builder {
    var structBuf: Bytes
    var strings: Bytes
    var stringsOff: map<Bytes, nat>

    ghost function Names(): Table
      reads this`strings, this`stringsOff
    {
      Table(strings, stringsOff)
    }

    constructor ()
      ensures structBuf == [] && Names() == EMPTY
    {
      structBuf, strings, stringsOff := [], [], map[];
    }

    method WriteToken(token: nat)
      modifies this`structBuf
      ensures structBuf == old(structBuf) + Be32(token)
    {
      structBuf := structBuf + Be32(token);
    }

    method PadStruct()
      modifies this`structBuf
      ensures structBuf == Pad(old(structBuf))
    {
      var n := 0;
      while |structBuf| % 4 != 0
        invariant structBuf == old(structBuf) + Zeros(n) && |structBuf| <= Padded(|old(structBuf)|)
        decreases Padded(|old(structBuf)|) - |structBuf|
      {
        structBuf := structBuf + [0];
        assert Zeros(n + 1) == Zeros(n) + [0];
        n := n + 1;
      }
    }

    method StringOffset(name: Bytes) returns (offset: nat)
      modifies this`strings, this`stringsOff
      ensures Names() == Intern(old(Names()), name) && offset == stringsOff[name]
    {
      if name in stringsOff {
        return stringsOff[name];
      }
      offset := |strings| % U32_LIMIT;
      strings := strings + name + [0];
      stringsOff := stringsOff[name := offset];
    }

    method BeginNode(name: Bytes)
      requires |structBuf| % 4 == 0
      modifies this`structBuf
      ensures structBuf == old(structBuf) + (Be32(BEGIN_NODE) + Pad(name + [0])) && |structBuf| % 4 == 0
    {
      hide Pad, Be32;
      WriteToken(BEGIN_NODE);
      PadAfter(structBuf, name + [0]);
      structBuf := structBuf + name;
      structBuf := structBuf + [0];
      assert structBuf == old(structBuf) + Be32(BEGIN_NODE) + (name + [0]);
      PadStruct();
    }

    method WriteProperty(p: Prop)
      requires |structBuf| % 4 == 0
      modifies this
      ensures var t := Intern(old(Names()), p.name);
              Names() == t && structBuf == old(structBuf) + PropBytes(p, t.offsets[p.name])
      ensures |structBuf| % 4 == 0
    {
      hide Pad, Be32, Intern;
      WriteToken(PROP);
      WriteToken(|p.value|);
      var offset := StringOffset(p.name);
      WriteToken(offset);
      PadAfter(structBuf, p.value);
      structBuf := structBuf + p.value;
      PadStruct();
      assert structBuf == old(structBuf) + (Be32(PROP) + Be32(|p.value|) + Be32(offset) + Pad(p.value));
    }

    method EmitProperty(name: Bytes, p: Property) returns (ok: bool)
      requires |structBuf| % 4 == 0
      modifies this
      ensures ok == (DefinedCount(p) == 1) && |structBuf| % 4 == 0
      ensures ok ==> var t := Intern(old(Names()), name);
              Names() == t && structBuf == old(structBuf) + PropBytes(Prop(name, Value(p)), t.offsets[name])
    {
      hide Value, PropBytes, Intern;
      if DefinedCount(p) != 1 {
        return false;
      }
      var data := PropertyData(p);
      WriteProperty(Prop(name, data));
      return true;
    }

    method EmitProperties(properties: map<Bytes, Property>) returns (ok: bool)
      requires |structBuf| % 4 == 0
      modifies this
      ensures ok == PropsBuildable(properties) && |structBuf| % 4 == 0
      ensures ok ==> var e := EmitProps(old(Names()), PropsOf(properties, SortedNames(properties.Keys)));
              structBuf == old(structBuf) + e.bytes && Names() == e.table
    {
      hide Intern, PropBytes, Value, DefinedCount, SortedNames, Increasing, Members, EmitProps, PropsOf, PropsBuildable;
      var keys := SortedKeys(properties);
      KeysAre(properties, keys);
      ghost var all, done := EmitProps(Names(), PropsOf(properties, keys)), [];
      var i := 0;
      while i < |keys|
        invariant i <= |keys| && |structBuf| % 4 == 0
        invariant structBuf == old(structBuf) + done
        invariant var e := EmitProps(Names(), PropsOf(properties, keys[i..])); all == Emitted(done + e.bytes, e.table)
        invariant forall j :: 0 <= j < i ==> DefinedCount(properties[keys[j]]) == 1
      {
        ghost var t := Names();
        var fine := EmitProperty(keys[i], properties[keys[i]]);
        if !fine {
          BuildableIff(properties, keys);
          return false;
        }
        EmitPropsStep(t, properties, keys, i, done);
        done := done + PropBytes(Prop(keys[i], Value(properties[keys[i]])), Names().offsets[keys[i]]);
        i := i + 1;
      }
      EmitNoProps(properties, keys, Names());
      BuildableIff(properties, keys);
      ok := true;
    }

    method EmitNode(n: Node) returns (ok: bool)
      requires |structBuf| % 4 == 0
      modifies this
      ensures ok == Buildable(n) && |structBuf| % 4 == 0
      ensures ok ==> var e := EmitTree(old(Names()), TreeOf(n)); structBuf == old(structBuf) + e.bytes && Names() == e.table
      decreases n
    {
      hide Be32, Pad, EmitProps, PropsOf, PropsBuildable, AllBuildable, TreesOf, EmitTrees;
      BeginNode(n.name);
      var fine := EmitProperties(n.properties);
      if !fine {
        return false;
      }
      var built := EmitChildren(n.children);
      if !built {
        return false;
      }
      WriteToken(END_NODE);
      return true;
    }

    method EmitChildren(ns: seq<Node>) returns (ok: bool)
      requires |structBuf| % 4 == 0
      modifies this
      ensures ok == AllBuildable(ns) && |structBuf| % 4 == 0
      ensures ok ==> var e := EmitTrees(old(Names()), TreesOf(ns)); structBuf == old(structBuf) + e.bytes && Names() == e.table
      decreases ns
    {
      hide Buildable, TreeOf, EmitTree;
      ghost var all, done := EmitTrees(Names(), TreesOf(ns)), [];
      assert ns[0..] == ns;
      var i := 0;
      while i < |ns|
        invariant i <= |ns| && |structBuf| % 4 == 0
        invariant structBuf == old(structBuf) + done
        invariant var e := EmitTrees(Names(), TreesOf(ns[i..])); all == Emitted(done + e.bytes, e.table)
        invariant AllBuildable(ns) == AllBuildable(ns[i..])
      {
        AllBuildableStep(ns, i);
        ghost var t := Names();
        var built := EmitNode(ns[i]);
        if !built {
          return false;
        }
        EmitTreesStep(t, ns, i, done);
        done := done + EmitTree(t, TreeOf(ns[i])).bytes;
        i := i + 1;
      }
      ok := true;
    }

    method Finish() returns (blob: Bytes)
      requires |structBuf| % 4 == 0
      modifies this`structBuf
      ensures blob == Assembled(old(structBuf) + Be32(END), strings)
    {
      hide Be32, Words;
      WriteToken(END);
      PadStruct();
      assert structBuf == old(structBuf) + Be32(END);
      var structAt := HEADER_SIZE + RESERVE_SIZE;
      var stringsAt := structAt + |structBuf|;
      var out := new byte[stringsAt + |strings|](_ => 0);
      PutHeader(out, HeaderWords(|structBuf|, |strings|));
      CopyInto(out, HEADER_SIZE, Zeros(RESERVE_SIZE));
      CopyInto(out, structAt, structBuf);
      CopyInto(out, stringsAt, strings);
      blob := out[..];
    }
  }

  /** The blob, or nothing when some property is unusable. */
  method Build(root: Node) returns (r: Option<Bytes>)
    ensures r.None? <==> !Buildable(root)
    ensures r.Some? ==> r.value == Blob(TreeOf(root))
    ensures r.Some? && |r.value| < U32_LIMIT ==>
              (ReadBlob(r.value) == Some(Device(TreeOf(root), [])) <==> NamesNulFree(root))
    ensures r.Some? && |r.value| < U32_LIMIT && NamesNulFree(root) ==>
              forall path, x :: Found(ReadBlob(r.value), root, path, x)
  {
    hide EmitTree, TreeOf, Assembled, Buildable, NamesNulFree, ReadBlob, Found;
    var b := new Builder();
    var ok := b.EmitNode(root);
    if !ok {
      return None;
    }
    assert b.structBuf == EmitTree(EMPTY, TreeOf(root)).bytes;
    var blob := b.Finish();
    if |blob| < U32_LIMIT {
      BuiltReadsBack(root);
      if NamesNulFree(root) {
        forall path, x
          ensures Found(ReadBlob(blob), root, path, x)
        {
          FoundByName(root, path, x);
        }
      }
    }
    return Some(blob);
  }
}
