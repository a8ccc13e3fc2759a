/** The node table agrees with path lookup. */
module ImageLookup {
  import opened Wrappers
  import opened ImageNamespace

  /* ------------------------------------------------------------------ */
  /* Shape of the table.                                                  */
  /* ------------------------------------------------------------------ */

  /** Every node but the first is numbered by its place and comes after its parent. */
  predicate Dense(nodes: seq<Node>) {
    |nodes| >= 2 && nodes[1].id == 1 && nodes[1].parent == 1
    && forall i :: 1 <= i < |nodes| ==> nodes[i].id == i && (i > 1 ==> 1 <= nodes[i].parent < i)
  }

  /** Nothing changes but the children of one node, and those only by growing past the end. */
  predicate Extends(nodes: seq<Node>, more: seq<Node>, parent: nat) {
    parent < |nodes| <= |more|
    && (forall i :: 0 <= i < |nodes| && i != parent ==> more[i] == nodes[i])
    && more[parent] == nodes[parent].(children := more[parent].children)
  }

  lemma WithNodeDense(nodes: seq<Node>, parent: nat, name: string, entry: Entry)
    requires Dense(nodes) && 1 <= parent < |nodes|
    ensures Dense(WithNode(nodes, parent, name, entry)) && Extends(nodes, WithNode(nodes, parent, name, entry), parent)
  {
  }

  lemma {:induction false} AddDirectoryDense(nodes: seq<Node>, parent: nat, dir: Dir)
    requires Dense(nodes) && 1 <= parent < |nodes| && AddDirectory(nodes, parent, dir).Some?
    ensures var r := AddDirectory(nodes, parent, dir).value; Dense(r) && Extends(nodes, r, parent)
    decreases dir, if dir.listing.Some? then |dir.listing.value| + 1 else 0
  {
    AddEntriesDense(nodes, parent, dir, Sorted(dir.listing.value));
  }

  lemma {:induction false} AddEntriesDense(nodes: seq<Node>, parent: nat, dir: Dir, names: seq<string>)
    requires Dense(nodes) && 1 <= parent < |nodes| && AddEntries(nodes, parent, dir, names).Some?
    ensures var r := AddEntries(nodes, parent, dir, names).value; Dense(r) && Extends(nodes, r, parent)
    decreases dir, |names|
  {
    if names != [] {
      if Dots(names[0]) {
        AddEntriesDense(nodes, parent, dir, names[1..]);
      } else {
        var below := AfterOne(nodes, parent, dir, names[0]);
        AddEntriesDense(below, parent, dir, names[1..]);
      }
    }
  }

  /** The table after one name and everything below it. */
  lemma {:induction false} AfterOne(nodes: seq<Node>, parent: nat, dir: Dir, name: string) returns (below: seq<Node>)
    requires Dense(nodes) && 1 <= parent < |nodes| && name in dir.lookup
    requires var one := WithNode(nodes, parent, name, dir.lookup[name]);
             dir.lookup[name].DirEntry? ==> AddDirectory(one, |nodes|, dir.lookup[name].dir).Some?
    ensures var entry, one := dir.lookup[name], WithNode(nodes, parent, name, dir.lookup[name]);
            below == (if entry.DirEntry? then AddDirectory(one, |nodes|, entry.dir).value else one)
    ensures Dense(below) && Extends(nodes, below, parent)
    ensures |nodes| < |below| && below[parent].children == nodes[parent].children[name := |nodes|]
    decreases dir, 0
  {
    var entry := dir.lookup[name];
    var one := WithNode(nodes, parent, name, entry);
    WithNodeDense(nodes, parent, name, entry);
    below := one;
    if entry.DirEntry? {
      below := AddDirectory(one, |nodes|, entry.dir).value;
      AddDirectoryDense(one, |nodes|, entry.dir);
    }
  }

  /* ------------------------------------------------------------------ */
  /* Each node mirrors its entry.                                         */
  /* ------------------------------------------------------------------ */

  /** The names a clean path can use. */
  function Names(dir: Dir): set<string> { set x | x in dir.lookup && !Dots(x) }

  ghost predicate Mirrors(nodes: seq<Node>, id: nat, e: Entry)
    decreases e, 0
  {
    id < |nodes| && nodes[id].entry == e
    && if e.DirEntry? then nodes[id].children.Keys == Names(e.dir) && MirrorsSome(nodes, id, e.dir, Names(e.dir))
       else nodes[id].children == map[]
  }

  /** Children for these names are there and mirror what lookup gives. */
  ghost predicate MirrorsSome(nodes: seq<Node>, id: nat, dir: Dir, names: set<string>)
    requires id < |nodes|
    decreases dir, 1
  {
    forall x :: x in names ==>
      x in nodes[id].children && x in dir.lookup
      && id < nodes[id].children[x] && Mirrors(nodes, nodes[id].children[x], dir.lookup[x])
  }

  /** Later changes only touch earlier nodes. */
  lemma {:induction false} MirrorsStable(nodes: seq<Node>, more: seq<Node>, id: nat, e: Entry)
    requires Mirrors(nodes, id, e) && |nodes| <= |more| && forall i :: id <= i < |nodes| ==> more[i] == nodes[i]
    ensures Mirrors(more, id, e)
    decreases e
  {
    if e.DirEntry? {
      forall x | x in Names(e.dir)
        ensures Mirrors(more, more[id].children[x], e.dir.lookup[x])
      {
        MirrorsStable(nodes, more, nodes[id].children[x], e.dir.lookup[x]);
      }
    }
  }

  lemma SomeStable(nodes: seq<Node>, more: seq<Node>, parent: nat, dir: Dir, names: set<string>)
    requires parent < |nodes| && MirrorsSome(nodes, parent, dir, names) && |nodes| <= |more|
    requires forall i :: parent < i < |nodes| ==> more[i] == nodes[i]
    requires forall x :: x in names ==> x in more[parent].children && more[parent].children[x] == nodes[parent].children[x]
    ensures MirrorsSome(more, parent, dir, names)
  {
    forall x | x in names
      ensures Mirrors(more, more[parent].children[x], dir.lookup[x])
    {
      MirrorsStable(nodes, more, nodes[parent].children[x], dir.lookup[x]);
    }
  }

  /** Listing and looking up agree, all the way down. */
  predicate Faithful(dir: Dir)
    decreases dir
  {
    dir.listing.Some?
    && (forall x :: x in dir.lookup && !Dots(x) ==> x in dir.listing.value)
    && (forall x :: x in dir.listing.value && !Dots(x) ==> x in dir.lookup)
    && (forall x :: x in dir.lookup && !Dots(x) && dir.lookup[x].DirEntry? ==> Faithful(dir.lookup[x].dir))
  }

  /** Adding a faithful directory always works, and its node then mirrors it. */
  lemma {:induction false} AddDirectoryMirrors(nodes: seq<Node>, parent: nat, dir: Dir)
    requires Dense(nodes) && 1 <= parent < |nodes| && Faithful(dir)
    requires nodes[parent].entry == DirEntry(dir) && nodes[parent].children == map[]
    ensures AddDirectory(nodes, parent, dir).Some? && Mirrors(AddDirectory(nodes, parent, dir).value, parent, DirEntry(dir))
    decreases dir, |dir.listing.value| + 1
  {
    var names := Sorted(dir.listing.value);
    AddEntriesMirror(nodes, parent, dir, names);
    var r := AddEntries(nodes, parent, dir, names).value;
    AddEntriesDense(nodes, parent, dir, names);
    assert Names(dir) == set x | x in names && !Dots(x);
    assert r[parent].children.Keys == Names(dir);
  }

  lemma {:induction false} AddEntriesMirror(nodes: seq<Node>, parent: nat, dir: Dir, names: seq<string>)
    requires Dense(nodes) && 1 <= parent < |nodes| && Faithful(dir)
    requires forall x :: x in names && !Dots(x) ==> x in dir.lookup
    requires MirrorsSome(nodes, parent, dir, nodes[parent].children.Keys)
    ensures AddEntries(nodes, parent, dir, names).Some?
    ensures var r := AddEntries(nodes, parent, dir, names).value;
            r[parent].children.Keys == nodes[parent].children.Keys + (set x | x in names && !Dots(x))
            && MirrorsSome(r, parent, dir, r[parent].children.Keys)
    decreases dir, |names|
  {
    hide MirrorsSome, Dense, Faithful, AddDirectory;
    if names != [] {
      var name := names[0];
      assert forall x :: x in names <==> x == name || x in names[1..];
      if Dots(name) {
        AddEntriesMirror(nodes, parent, dir, names[1..]);
      } else {
        var below := OneMirrors(nodes, parent, dir, name);
        AddEntriesMirror(below, parent, dir, names[1..]);
      }
    }
  }

  /** One name added, with everything below it, beside those already there. */
  lemma {:induction false} OneMirrors(nodes: seq<Node>, parent: nat, dir: Dir, name: string) returns (below: seq<Node>)
    requires Dense(nodes) && 1 <= parent < |nodes| && Faithful(dir) && name in dir.lookup && !Dots(name)
    requires MirrorsSome(nodes, parent, dir, nodes[parent].children.Keys)
    ensures var entry, one := dir.lookup[name], WithNode(nodes, parent, name, dir.lookup[name]);
            && (entry.DirEntry? ==> AddDirectory(one, |nodes|, entry.dir).Some?)
            && below == (if entry.DirEntry? then AddDirectory(one, |nodes|, entry.dir).value else one)
    ensures Dense(below) && parent < |below| && below[parent].children.Keys == nodes[parent].children.Keys + {name}
    ensures MirrorsSome(below, parent, dir, below[parent].children.Keys)
    decreases dir, 0
  {
    var entry, one := dir.lookup[name], WithNode(nodes, parent, name, dir.lookup[name]);
    WithNodeDense(nodes, parent, name, entry);
    if entry.DirEntry? {
      AddDirectoryMirrors(one, |nodes|, entry.dir);
    }
    below := AfterOne(nodes, parent, dir, name);
    assert Mirrors(below, |nodes|, entry);
    SomeStable(nodes, below, parent, dir, nodes[parent].children.Keys - {name});
  }

  /* ------------------------------------------------------------------ */
  /* When the table can be built.                                         */
  /* ------------------------------------------------------------------ */

  /** Every directory that is reached lists, and what it lists can be looked up. */
  predicate Readable(dir: Dir)
    decreases dir, 1
  {
    dir.listing.Some? && forall x :: x in dir.listing.value ==> NameReadable(dir, x)
  }

  predicate NameReadable(dir: Dir, x: string)
    decreases dir, 0
  {
    Dots(x) || (x in dir.lookup && (dir.lookup[x].DirEntry? ==> Readable(dir.lookup[x].dir)))
  }

  lemma {:induction false} AddDirectoryIff(nodes: seq<Node>, parent: nat, dir: Dir)
    requires parent < |nodes|
    ensures AddDirectory(nodes, parent, dir).Some? <==> Readable(dir)
    decreases dir, if dir.listing.Some? then |dir.listing.value| + 1 else 0
  {
    if dir.listing.Some? {
      AddEntriesIff(nodes, parent, dir, Sorted(dir.listing.value));
    }
  }

  lemma {:induction false} AddEntriesIff(nodes: seq<Node>, parent: nat, dir: Dir, names: seq<string>)
    requires parent < |nodes|
    ensures AddEntries(nodes, parent, dir, names).Some? <==> forall x :: x in names ==> NameReadable(dir, x)
    decreases dir, |names|
  {
    if names != [] {
      assert forall x :: x in names <==> x == names[0] || x in names[1..];
      assert names[0] in names;
      if Dots(names[0]) {
        AddEntriesIff(nodes, parent, dir, names[1..]);
      } else if names[0] in dir.lookup {
        var entry := dir.lookup[names[0]];
        var one := WithNode(nodes, parent, names[0], entry);
        if entry.DirEntry? {
          AddDirectoryIff(one, |nodes|, entry.dir);
        }
        var below := if entry.DirEntry? then AddDirectory(one, |nodes|, entry.dir) else Some(one);
        if below.Some? {
          AddEntriesIff(below.value, parent, dir, names[1..]);
        }
      }
    }
  }

  /* ------------------------------------------------------------------ */
  /* Walking the table.                                                   */
  /* ------------------------------------------------------------------ */

  /** Following children along a path. */
  function Walk(nodes: seq<Node>, id: nat, parts: seq<string>): Option<Entry>
    decreases |parts|
  {
    if id >= |nodes| then None
    else if parts == [] then Some(nodes[id].entry)
    else if parts[0] !in nodes[id].children then None
    else Walk(nodes, nodes[id].children[parts[0]], parts[1..])
  }

  lemma {:induction false} WalkFinds(nodes: seq<Node>, id: nat, e: Entry, parts: seq<string>)
    requires Mirrors(nodes, id, e) && forall i :: 0 <= i < |parts| ==> !Dots(parts[i])
    ensures Walk(nodes, id, parts) == Find(e, parts)
    decreases |parts|
  {
    if parts != [] && e.DirEntry? && parts[0] in e.dir.lookup {
      assert parts[0] in Names(e.dir);
      WalkFinds(nodes, nodes[id].children[parts[0]], e.dir.lookup[parts[0]], parts[1..]);
    }
  }

  /** The namespace of a faithful image exists, is dense, and finds exactly what path lookup finds. */
  lemma NamespaceFinds(root: Dir, guestPath: string)
    requires Faithful(root)
    ensures AddDirectory(Root(root), 1, root).Some?
    ensures var nodes := AddDirectory(Root(root), 1, root).value;
            Dense(nodes) && Walk(nodes, 1, Clean(Split(guestPath))) == Find(DirEntry(root), Clean(Split(guestPath)))
  {
    var nodes := Root(root);
    AddDirectoryMirrors(nodes, 1, root);
    AddDirectoryDense(nodes, 1, root);
    WalkFinds(AddDirectory(nodes, 1, root).value, 1, DirEntry(root), Clean(Split(guestPath)));
  }
}
