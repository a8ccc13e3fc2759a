/** The dense node table of a filesystem image, and path lookup in the image itself. */
module ImageNamespace {
  import opened Wrappers
  import opened StringOrder

  /** A directory: what listing it gives, unless that fails, and what looking names up gives. */
  datatype Dir = Dir(listing: Option<seq<string>>, lookup: map<string, Entry>)

  datatype Entry = FileEntry(file: nat) | SymlinkEntry(link: nat) | DirEntry(dir: Dir)

  datatype Node = Node(id: nat, parent: nat, name: string, entry: Entry, children: map<string, nat>)

  /** Slot 0 of the table is not used. */
  const NO_NODE := Node(0, 0, "", FileEntry(0), map[])

  predicate Dots(name: string) { name == "." || name == ".." }

  /* ------------------------------------------------------------------ */
  /* Paths.                                                               */
  /* ------------------------------------------------------------------ */

  /** The pieces between slashes. */
  function Split(s: string): (parts: seq<string>)
    ensures |parts| >= 1
  {
    if s == "" then [""]
    else
      var rest := Split(s[1..]);
      if s[0] == '/' then [""] + rest else [[s[0]] + rest[0]] + rest[1..]
  }

  /** A rooted path cleaned: empty pieces and "." go, ".." takes the piece before it along. */
  function Clean(parts: seq<string>): (r: seq<string>)
    ensures forall i :: 0 <= i < |r| ==> r[i] != "" && !Dots(r[i])
  {
    if parts == [] then []
    else
      var front, last := Clean(parts[..|parts| - 1]), parts[|parts| - 1];
      if last == "" || last == "." then front
      else if last == ".." then (if front == [] then [] else front[..|front| - 1])
      else front + [last]
  }

  function Find(e: Entry, parts: seq<string>): Option<Entry>
    decreases |parts|
  {
    if parts == [] then Some(e)
    else if !e.DirEntry? || parts[0] !in e.dir.lookup then None
    else Find(e.dir.lookup[parts[0]], parts[1..])
  }

  /** Looking up each piece of a guest path in turn. */
  method LookupPath(root: Dir, guestPath: string) returns (r: Option<Entry>)
    ensures r == Find(DirEntry(root), Clean(Split(guestPath)))
  {
    var parts := Clean(Split(guestPath));
    if parts == [] {
      return Some(DirEntry(root));
    }
    var current, i := root, 0;
    assert parts[0..] == parts;
    while i < |parts|
      invariant i < |parts| && Find(DirEntry(current), parts[i..]) == Find(DirEntry(root), parts)
    {
      assert parts[i..][1..] == parts[i + 1..];
      if parts[i] !in current.lookup {
        return None;
      }
      var entry := current.lookup[parts[i]];
      if i == |parts| - 1 {
        return Some(entry);
      }
      if !entry.DirEntry? {
        return None;
      }
      current := entry.dir;
      i := i + 1;
    }
  }

  /* ------------------------------------------------------------------ */
  /* Building the table.                                                  */
  /* ------------------------------------------------------------------ */

  function Insert(names: seq<string>, x: string): (r: seq<string>)
    ensures |r| == |names| + 1 && forall y :: y in r <==> y == x || y in names
  {
    if names == [] || Below(x, names[0]) then [x] + names
    else
      assert names == [names[0]] + names[1..];
      [names[0]] + Insert(names[1..], x)
  }

  /** The names by order of their bytes. */
  function Sorted(names: seq<string>): (r: seq<string>)
    ensures |r| == |names| && forall y :: y in r <==> y in names
  {
    if names == [] then []
    else
      assert names == names[..|names| - 1] + [names[|names| - 1]];
      Insert(Sorted(names[..|names| - 1]), names[|names| - 1])
  }

  /** A new node under `parent`. */
  function WithNode(nodes: seq<Node>, parent: nat, name: string, entry: Entry): (r: seq<Node>)
    requires parent < |nodes|
    ensures |r| == |nodes| + 1
  {
    var p := nodes[parent];
    nodes[parent := p.(children := p.children[name := |nodes|])] + [Node(|nodes|, p.id, name, entry, map[])]
  }

  function AddDirectory(nodes: seq<Node>, parent: nat, dir: Dir): (r: Option<seq<Node>>)
    requires parent < |nodes|
    ensures r.Some? ==> |nodes| <= |r.value|
    decreases dir, if dir.listing.Some? then |dir.listing.value| + 1 else 0
  {
    if dir.listing.None? then None else AddEntries(nodes, parent, dir, Sorted(dir.listing.value))
  }

  function AddEntries(nodes: seq<Node>, parent: nat, dir: Dir, names: seq<string>): (r: Option<seq<Node>>)
    requires parent < |nodes|
    ensures r.Some? ==> |nodes| <= |r.value|
    decreases dir, |names|
  {
    if names == [] then Some(nodes)
    else if Dots(names[0]) then AddEntries(nodes, parent, dir, names[1..])
    else if names[0] !in dir.lookup then None
    else
      var entry := dir.lookup[names[0]];
      var one := WithNode(nodes, parent, names[0], entry);
      var below := if entry.DirEntry? then AddDirectory(one, |nodes|, entry.dir) else Some(one);
      if below.None? then None else AddEntries(below.value, parent, dir, names[1..])
  }

  function Root(root: Dir): seq<Node> { [NO_NODE, Node(1, 1, "/", DirEntry(root), map[])] }

  class Namespace {
    var nodes: seq<Node>

    constructor (root: Dir)
      ensures nodes == Root(root)
    {
      nodes := Root(root);
    }

    method AddDirectoryNodes(parent: nat, dir: Dir) returns (ok: bool)
      requires parent < |nodes|
      modifies this
      ensures var r := AddDirectory(old(nodes), parent, dir); ok == r.Some? && (ok ==> nodes == r.value)
      decreases dir
    {
      if dir.listing.None? {
        return false;
      }
      var names := SortNames(dir.listing.value);
      ghost var whole := AddEntries(nodes, parent, dir, names);
      assert names[0..] == names;
      var i := 0;
      while i < |names|
        invariant i <= |names| && parent < |nodes|
        invariant AddEntries(nodes, parent, dir, names[i..]) == whole
      {
        assert names[i..][1..] == names[i + 1..];
        if !Dots(names[i]) {
          if names[i] !in dir.lookup {
            return false;
          }
          var entry := dir.lookup[names[i]];
          var id := |nodes|;
          nodes := WithNode(nodes, parent, names[i], entry);
          if entry.DirEntry? {
            var fine := AddDirectoryNodes(id, entry.dir);
            if !fine {
              return false;
            }
          }
        }
        i := i + 1;
      }
      ok := true;
    }
  }

  method SortNames(names: seq<string>) returns (sorted: seq<string>)
    ensures sorted == Sorted(names)
  {
    sorted := [];
    var i := 0;
    while i < |names|
      invariant i <= |names| && sorted == Sorted(names[..i])
    {
      assert names[..i + 1][..i] == names[..i];
      sorted := Insert(sorted, names[i]);
      i := i + 1;
    }
    assert names[..i] == names;
  }

  /** The namespace of an image, or nothing when a directory cannot be read. */
  method BuildNamespace(root: Dir) returns (r: Option<seq<Node>>)
    ensures r == AddDirectory(Root(root), 1, root)
  {
    var ns := new Namespace(root);
    var ok := ns.AddDirectoryNodes(1, root);
    return if ok then Some(ns.nodes) else None;
  }
}
