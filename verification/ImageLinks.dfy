/** Parents, names and order in the node table, and what cleaning a path means. */
module ImageLinks {
  import opened Wrappers
  import opened StringOrder
  import opened ImageNamespace
  import opened ImageLookup

  /* ------------------------------------------------------------------ */
  /* The order of names.                                                  */
  /* ------------------------------------------------------------------ */

  /** No name comes after a later one. */
  predicate InOrder(names: seq<string>) {
    forall i, j :: 0 <= i < j < |names| ==> !Below(names[j], names[i])
  }

  lemma {:induction false} InsertOrder(names: seq<string>, x: string)
    requires InOrder(names)
    ensures InOrder(Insert(names, x)) && multiset(Insert(names, x)) == multiset(names) + multiset{x}
  {
    if names == [] {
    } else if Below(x, names[0]) {
      var r := [x] + names;
      forall j | 0 < j < |r|
        ensures !Below(r[j], x)
      {
        if Below(r[j], x) {
          BelowTrans(r[j], x, names[0]);
          BelowSides(r[j], names[0]);
        }
      }
    } else {
      InsertOrder(names[1..], x);
      var rest := Insert(names[1..], x);
      assert names == [names[0]] + names[1..];
      forall y | y in rest
        ensures !Below(y, names[0])
      {
        if y in names[1..] {
          var k :| 0 <= k < |names[1..]| && names[1..][k] == y;
        }
      }
    }
  }

  lemma {:induction false} SortedOrder(names: seq<string>)
    ensures InOrder(Sorted(names)) && multiset(Sorted(names)) == multiset(names)
  {
    if names != [] {
      var front, last := names[..|names| - 1], names[|names| - 1];
      SortedOrder(front);
      InsertOrder(Sorted(front), last);
      assert names == front + [last];
    }
  }

  /* ------------------------------------------------------------------ */
  /* Links between nodes.                                                 */
  /* ------------------------------------------------------------------ */

  /** A child knows its parent and its name, and children are numbered in the order of their names. */
  ghost predicate Linked(nodes: seq<Node>) {
    && (forall i, x :: 1 <= i < |nodes| && x in nodes[i].children ==>
          var c := nodes[i].children[x]; i < c < |nodes| && nodes[c].parent == i && nodes[c].name == x)
    && (forall i, x, y :: 1 <= i < |nodes| && x in nodes[i].children && y in nodes[i].children && Below(x, y) ==>
          nodes[i].children[x] < nodes[i].children[y])
  }

  /** Every node but the root is the child of its parent under its name. */
  predicate Owned(nodes: seq<Node>) {
    forall i :: 2 <= i < |nodes| ==> OwnedAt(nodes, i)
  }

  predicate OwnedAt(nodes: seq<Node>, i: nat)
    requires i < |nodes|
  {
    var n := nodes[i];
    1 <= n.parent < |nodes| && n.name in nodes[n.parent].children && nodes[n.parent].children[n.name] == i
  }

  /** None of the children comes after the name. */
  predicate Upto(node: Node, name: string) {
    forall x :: x in node.children ==> !Below(name, x)
  }

  lemma WithNodeLinked(nodes: seq<Node>, parent: nat, name: string, entry: Entry)
    requires Dense(nodes) && Linked(nodes) && 1 <= parent < |nodes| && Upto(nodes[parent], name)
    ensures Linked(WithNode(nodes, parent, name, entry))
  {
    hide Below;
    var r := WithNode(nodes, parent, name, entry);
    assert r[|nodes|].parent == parent && r[|nodes|].name == name;
    forall i, x, y | 1 <= i < |r| && x in r[i].children && y in r[i].children && Below(x, y)
      ensures r[i].children[x] < r[i].children[y]
    {
      BelowSides(x, y);
      if i == parent && y == name && x != name {
        assert r[i].children[x] == nodes[i].children[x];
      }
    }
  }

  lemma OwnedStill(nodes: seq<Node>, parent: nat, name: string, entry: Entry, i: nat)
    requires Dense(nodes) && 1 <= parent < |nodes| && 2 <= i < |nodes|
    ensures OwnedAt(WithNode(nodes, parent, name, entry), i)
       <==> OwnedAt(nodes, i) && !(nodes[i].parent == parent && nodes[i].name == name)
  {
    var r := WithNode(nodes, parent, name, entry);
    assert r[i].parent == nodes[i].parent && r[i].name == nodes[i].name;
  }

  lemma WithNodeOwned(nodes: seq<Node>, parent: nat, name: string, entry: Entry)
    requires Dense(nodes) && Linked(nodes) && 1 <= parent < |nodes|
    ensures Owned(WithNode(nodes, parent, name, entry)) <==> Owned(nodes) && name !in nodes[parent].children
  {
    var r := WithNode(nodes, parent, name, entry);
    assert OwnedAt(r, |nodes|);
    if name in nodes[parent].children {
      ChildNamed(nodes, parent, name);
      OwnedStill(nodes, parent, name, entry, nodes[parent].children[name]);
      assert !Owned(r);
    } else {
      hide Linked, Dense, OwnedAt;
      forall i | 2 <= i < |nodes|
        ensures OwnedAt(r, i) <==> OwnedAt(nodes, i)
      {
        OwnedStill(nodes, parent, name, entry, i);
        NamedIsChild(nodes, parent, name, i);
      }
    }
  }

  lemma ChildNamed(nodes: seq<Node>, parent: nat, name: string)
    requires Linked(nodes) && 1 <= parent < |nodes| && name in nodes[parent].children
    ensures var c := nodes[parent].children[name]; 2 <= c < |nodes| && nodes[c].parent == parent && nodes[c].name == name
  {
  }

  lemma NamedIsChild(nodes: seq<Node>, parent: nat, name: string, i: nat)
    requires i < |nodes| && parent < |nodes| && name !in nodes[parent].children
    ensures nodes[i].parent == parent && nodes[i].name == name ==> !OwnedAt(nodes, i)
  {
  }

  /* ------------------------------------------------------------------ */
  /* Images that list a name twice.                                       */
  /* ------------------------------------------------------------------ */

  /** Among the names there are none twice, and none of the taken ones, but for dots. */
  predicate Fresh(names: seq<string>, taken: set<string>) {
    names == [] ||
    ((Dots(names[0]) || (names[0] !in taken && names[0] !in names[1..])) && Fresh(names[1..], taken))
  }

  /** No directory that is reached lists a name twice. */
  ghost predicate OnceEach(dir: Dir)
    decreases dir, 1
  {
    dir.listing.Some? && Fresh(dir.listing.value, {}) && OnceBelow(dir, dir.listing.value)
  }

  ghost predicate OnceBelow(dir: Dir, names: seq<string>)
    decreases dir, 0
  {
    forall x :: x in names && !Dots(x) && x in dir.lookup && dir.lookup[x].DirEntry? ==> OnceEach(dir.lookup[x].dir)
  }

  lemma {:induction false} FreshIs(names: seq<string>, taken: set<string>)
    ensures Fresh(names, taken)
       <==> forall x :: x in names && !Dots(x) ==> multiset(names)[x] == 1 && x !in taken
  {
    if names != [] {
      FreshIs(names[1..], taken);
      assert names == [names[0]] + names[1..];
      assert multiset(names) == multiset{names[0]} + multiset(names[1..]);
      var x := names[0];
      assert x in names[1..] <==> multiset(names[1..])[x] > 0;
      if forall x :: x in names && !Dots(x) ==> multiset(names)[x] == 1 && x !in taken {
        forall y | y in names[1..] && !Dots(y)
          ensures multiset(names[1..])[y] == 1 && y !in taken
        {
          assert y in names;
          if y == x {
            assert multiset(names)[x] == 1;
          }
        }
      }
    }
  }

  lemma SortedFresh(names: seq<string>)
    ensures Fresh(Sorted(names), {}) <==> Fresh(names, {})
  {
    SortedOrder(names);
    FreshIs(names, {});
    FreshIs(Sorted(names), {});
  }

  lemma {:induction false} FreshMore(names: seq<string>, taken: set<string>, x: string)
    requires !Dots(x)
    ensures Fresh(names, taken + {x}) <==> Fresh(names, taken) && x !in names
  {
    if names != [] {
      FreshMore(names[1..], taken, x);
      assert x in names <==> x == names[0] || x in names[1..];
    }
  }

  /* ------------------------------------------------------------------ */
  /* The whole table.                                                     */
  /* ------------------------------------------------------------------ */

  lemma {:induction false} AddDirectoryLinks(nodes: seq<Node>, parent: nat, dir: Dir)
    requires Dense(nodes) && Linked(nodes) && 1 <= parent < |nodes| && nodes[parent].children == map[]
    requires AddDirectory(nodes, parent, dir).Some?
    ensures var r := AddDirectory(nodes, parent, dir).value; Linked(r) && (Owned(r) <==> Owned(nodes) && OnceEach(dir))
    decreases dir, if dir.listing.Some? then |dir.listing.value| + 1 else 0
  {
    var listed := dir.listing.value;
    SortedOrder(listed);
    SortedFresh(listed);
    AddEntriesLinks(nodes, parent, dir, Sorted(listed));
    assert nodes[parent].children.Keys == {};
  }

  lemma {:induction false} AddEntriesLinks(nodes: seq<Node>, parent: nat, dir: Dir, names: seq<string>)
    requires Dense(nodes) && Linked(nodes) && 1 <= parent < |nodes| && InOrder(names)
    requires forall x :: x in names ==> Upto(nodes[parent], x)
    requires AddEntries(nodes, parent, dir, names).Some?
    ensures var r := AddEntries(nodes, parent, dir, names).value;
            && Linked(r)
            && (Owned(r) <==> Owned(nodes) && Fresh(names, nodes[parent].children.Keys) && OnceBelow(dir, names))
    decreases dir, |names|
  {
    hide Linked, Owned, Below, Dense, AddDirectory, OnceEach;
    if names != [] {
      var name := names[0];
      assert forall x :: x in names <==> x == name || x in names[1..];
      if Dots(name) {
        AddEntriesLinks(nodes, parent, dir, names[1..]);
      } else {
        var below := OneLinks(nodes, parent, dir, name);
        StillUpto(nodes, below, parent, names);
        AddEntriesLinks(below, parent, dir, names[1..]);
        FreshMore(names[1..], nodes[parent].children.Keys, name);
        assert below[parent].children.Keys == nodes[parent].children.Keys + {name};
      }
    }
  }

  lemma StillUpto(nodes: seq<Node>, below: seq<Node>, parent: nat, names: seq<string>)
    requires parent < |nodes| && parent < |below| && names != [] && InOrder(names)
    requires forall x :: x in names ==> Upto(nodes[parent], x)
    requires below[parent].children == nodes[parent].children[names[0] := |nodes|]
    ensures forall x :: x in names[1..] ==> Upto(below[parent], x)
  {
    hide Below;
    forall x, y | x in names[1..] && y in below[parent].children
      ensures !Below(x, y)
    {
      var k :| 0 <= k < |names[1..]| && names[1..][k] == x;
      assert names[k + 1] == x && x in names;
      if y != names[0] {
        assert Upto(nodes[parent], x);
      }
    }
  }

  lemma {:induction false} OneLinks(nodes: seq<Node>, parent: nat, dir: Dir, name: string) returns (below: seq<Node>)
    requires Dense(nodes) && Linked(nodes) && 1 <= parent < |nodes| && Upto(nodes[parent], name)
    requires name in dir.lookup && !Dots(name)
    requires var one := WithNode(nodes, parent, name, dir.lookup[name]);
             dir.lookup[name].DirEntry? ==> AddDirectory(one, |nodes|, dir.lookup[name].dir).Some?
    ensures var entry, one := dir.lookup[name], WithNode(nodes, parent, name, dir.lookup[name]);
            below == (if entry.DirEntry? then AddDirectory(one, |nodes|, entry.dir).value else one)
    ensures Dense(below) && Linked(below) && parent < |below|
    ensures below[parent].children == nodes[parent].children[name := |nodes|]
    ensures Owned(below)
       <==> Owned(nodes) && name !in nodes[parent].children
            && (dir.lookup[name].DirEntry? ==> OnceEach(dir.lookup[name].dir))
    decreases dir, 0
  {
    hide Linked, Owned, Below, OnceEach;
    var entry := dir.lookup[name];
    var one := WithNode(nodes, parent, name, entry);
    WithNodeDense(nodes, parent, name, entry);
    WithNodeLinked(nodes, parent, name, entry);
    WithNodeOwned(nodes, parent, name, entry);
    if entry.DirEntry? {
      AddDirectoryLinks(one, |nodes|, entry.dir);
    }
    below := AfterOne(nodes, parent, dir, name);
  }

  /**
   In every table each child names its parent and its own name, and siblings are numbered in the
   order of their names. Every node is also the child of its parent exactly when no directory
   lists a name twice; if one does, the node made first cannot be reached.
   */
  lemma NamespaceLinks(root: Dir)
    requires AddDirectory(Root(root), 1, root).Some?
    ensures var nodes := AddDirectory(Root(root), 1, root).value;
            && |nodes| >= 2 && nodes[1].name == "/" && nodes[1].parent == 1
            && (forall i, x :: 1 <= i < |nodes| && x in nodes[i].children ==>
                  var c := nodes[i].children[x]; i < c < |nodes| && nodes[c].parent == i && nodes[c].name == x)
            && (forall i, x, y :: 1 <= i < |nodes| && x in nodes[i].children && y in nodes[i].children && Precedes(x, y) ==>
                  nodes[i].children[x] < nodes[i].children[y])
            && (Owned(nodes) <==> OnceEach(root))
  {
    hide Below, Precedes;
    var nodes := Root(root);
    AddDirectoryLinks(nodes, 1, root);
    AddDirectoryDense(nodes, 1, root);
    forall x, y {
      BelowIs(x, y);
    }
  }

  /** A directory that lists "x" twice: the first of its two nodes is nobody's child. */
  lemma ListedTwice(file: nat)
    ensures var root := Dir(Some(["x", "x"]), map["x" := FileEntry(file)]);
            var r := AddDirectory(Root(root), 1, root);
            r.Some? && !Owned(r.value) && |r.value| == 4 && r.value[2].name == "x" && r.value[1].children == map["x" := 3]
  {
    var root := Dir(Some(["x", "x"]), map["x" := FileEntry(file)]);
    assert ["x", "x"][..1] == ["x"] && ["x"][..0] == [];
    assert Sorted([]) == [] && Insert([], "x") == ["x"];
    assert Sorted(["x"]) == ["x"];
    assert Insert(["x"], "x") == ["x", "x"] by {
      BelowSides("x", "x");
      assert ["x"][1..] == [];
    }
    assert ["x", "x"][1..] == ["x"] && ["x"][1..] == [];
    var one := WithNode(Root(root), 1, "x", FileEntry(file));
    var two := WithNode(one, 1, "x", FileEntry(file));
    assert AddEntries(two, 1, root, []) == Some(two);
    assert AddEntries(one, 1, root, ["x"]) == Some(two);
    assert !OwnedAt(two, 2);
  }

  /* ------------------------------------------------------------------ */
  /* Cleaning paths.                                                      */
  /* ------------------------------------------------------------------ */

  /** The pieces with slashes between them. */
  function Joined(parts: seq<string>): string {
    if parts == [] then "" else if |parts| == 1 then parts[0] else parts[0] + "/" + Joined(parts[1..])
  }

  /** A path is its pieces with slashes between them, and no piece has a slash in it. */
  lemma {:induction false} SplitJoins(s: string)
    ensures Joined(Split(s)) == s && forall i :: 0 <= i < |Split(s)| ==> '/' !in Split(s)[i]
  {
    if s != "" {
      SplitJoins(s[1..]);
      var rest := Split(s[1..]);
      if s[0] == '/' {
        assert ([""] + rest)[1..] == rest;
        assert s == "/" + s[1..];
      } else {
        var parts := [[s[0]] + rest[0]] + rest[1..];
        assert parts[1..] == rest[1..];
        assert s == [s[0]] + s[1..];
      }
    }
  }

  predicate Plain(parts: seq<string>) {
    forall i :: 0 <= i < |parts| ==> parts[i] != "" && parts[i] != "." && parts[i] != ".."
  }

  /** Plain pieces stay as they are. */
  lemma {:induction false} CleanPlain(parts: seq<string>)
    requires Plain(parts)
    ensures Clean(parts) == parts
  {
    if parts != [] {
      CleanPlain(parts[..|parts| - 1]);
    }
  }

  lemma CleanLast(a: seq<string>, x: string)
    ensures Clean(a + [x]) == if x == "" || x == "." then Clean(a)
                              else if x != ".." then Clean(a) + [x]
                              else if Clean(a) == [] then [] else Clean(a)[..|Clean(a)| - 1]
  {
    assert (a + [x])[..|a|] == a;
  }

  lemma LastApart(a: seq<string>, c: seq<string>)
    requires c != []
    ensures a + c == a + c[..|c| - 1] + [c[|c| - 1]]
  {
  }

  lemma {:induction false} CleanAfter(a: seq<string>, b: seq<string>, c: seq<string>)
    requires Clean(a) == Clean(b)
    ensures Clean(a + c) == Clean(b + c)
    decreases |c|
  {
    hide Clean;
    if c == [] {
      assert a + c == a && b + c == b;
    } else {
      var front, last := c[..|c| - 1], c[|c| - 1];
      CleanAfter(a, b, front);
      CleanLast(a + front, last);
      CleanLast(b + front, last);
      LastApart(a, c);
      LastApart(b, c);
    }
  }

  /** An empty piece or a dot anywhere does not count. */
  lemma CleanDot(a: seq<string>, x: string, b: seq<string>)
    requires x == "" || x == "."
    ensures Clean(a + [x] + b) == Clean(a + b)
  {
    CleanLast(a, x);
    CleanAfter(a + [x], a, b);
  }

  /** A piece followed by two dots goes with them. */
  lemma CleanUp(a: seq<string>, x: string, b: seq<string>)
    requires x != "" && !Dots(x)
    ensures Clean(a + [x, ".."] + b) == Clean(a + b)
  {
    CleanLast(a, x);
    CleanLast(a + [x], "..");
    assert a + [x] + [".."] == a + [x, ".."];
    CleanAfter(a + [x, ".."], a, b);
  }

  /** There is nothing above the root. */
  lemma CleanRoot(b: seq<string>)
    ensures Clean([".."] + b) == Clean(b)
  {
    CleanLast([], "..");
    assert [] + [".."] == [".."] && [] + b == b;
    CleanAfter([".."], [], b);
  }
}
