/**
 A reader of flattened device trees, written from the format's own description:
 sections 5.2 (header), 5.3 (memory reservation block), 5.4 (structure block),
 5.5 (strings block) and 5.6 (alignment) of the Devicetree Specification.
 */
module FdtReader {
  import opened MachineTypes
  import opened Wrappers
  import opened FdtTree

  datatype Prop = Prop(name: Bytes, value: Bytes)

  datatype Tree = Tree(name: Bytes, props: seq<Prop>, children: seq<Tree>)

  const MAGIC := 0xd00d_feed
  const BEGIN_NODE := 1
  const END_NODE := 2
  const PROP := 3
  const NOP := 4
  const END := 9

  /** Something read, and the bytes after it. */
  datatype Read<T> = Fail | Got(value: T, rest: Bytes)

  /** A string up to its NUL. */
  function CString(s: Bytes): Option<Bytes> {
    if s == [] then None
    else if s[0] == 0 then Some([])
    else
      var r := CString(s[1..]);
      if r.None? then None else Some([s[0]] + r.value)
  }

  predicate StartsWith(s: Bytes, token: int) { |s| >= 4 && Word(s) == token }

  /** Properties come first in a node; anything that is not one ends them. */
  function ReadProps(s: Bytes, strings: Bytes): (r: Read<seq<Prop>>)
    ensures r.Got? ==> |r.rest| <= |s|
    decreases |s|
  {
    if StartsWith(s, NOP) then ReadProps(s[4..], strings)
    else if !StartsWith(s, PROP) then Got([], s)
    else if |s| < 12 then Fail
    else
      var size, offset := Word(s[4..]), Word(s[8..]);
      if offset > |strings| || 12 + Padded(size) > |s| then Fail
      else
        var name := CString(strings[offset..]);
        var more := ReadProps(s[12 + Padded(size)..], strings);
        if name.None? || more.Fail? then Fail
        else Got([Prop(name.value, s[12..12 + size])] + more.value, more.rest)
  }

  /** A node from its begin token to its end token. */
  function ReadNode(s: Bytes, strings: Bytes): (r: Read<Tree>)
    ensures r.Got? ==> |r.rest| < |s|
    decreases |s|, 0
  {
    if !StartsWith(s, BEGIN_NODE) then Fail
    else
      var name := CString(s[4..]);
      if name.None? || 4 + Padded(|name.value| + 1) > |s| then Fail
      else
        var props := ReadProps(s[4 + Padded(|name.value| + 1)..], strings);
        if props.Fail? then Fail
        else
          var children := ReadChildren(props.rest, strings);
          if children.Fail? then Fail else Got(Tree(name.value, props.value, children.value), children.rest)
  }

  /** Sub-nodes up to the end token of their parent. */
  function ReadChildren(s: Bytes, strings: Bytes): (r: Read<seq<Tree>>)
    ensures r.Got? ==> |r.rest| < |s|
    decreases |s|, 1
  {
    if StartsWith(s, NOP) then ReadChildren(s[4..], strings)
    else if StartsWith(s, END_NODE) then Got([], s[4..])
    else
      var first := ReadNode(s, strings);
      if first.Fail? then Fail
      else
        var more := ReadChildren(first.rest, strings);
        if more.Fail? then Fail else Got([first.value] + more.value, more.rest)
  }

  predicate ReadEnd(s: Bytes)
    decreases |s|
  {
    StartsWith(s, END) || (StartsWith(s, NOP) && ReadEnd(s[4..]))
  }

  /** Reserved memory: pairs of 64-bit words up to a pair of zeros. */
  function ReadReservations(s: Bytes): (r: Option<seq<(int, int)>>)
    decreases |s|
  {
    if |s| < 16 then None
    else
      var address, size := Word(s) * U32_LIMIT + Word(s[4..]), Word(s[8..]) * U32_LIMIT + Word(s[12..]);
      if address == 0 && size == 0 then Some([])
      else
        var more := ReadReservations(s[16..]);
        if more.None? then None else Some([(address, size)] + more.value)
  }

  /** Field `i` of the header. */
  function Field(blob: Bytes, i: nat): uint32
    requires 4 * i + 4 <= |blob|
  {
    Word(blob[4 * i..])
  }

  datatype Device = Device(tree: Tree, reservations: seq<(int, int)>)

  /** A whole blob: header, blocks inside it at aligned offsets, one root node and the end token. */
  function ReadBlob(blob: Bytes): Option<Device> {
    if |blob| < 40 || Field(blob, 0) != MAGIC || Field(blob, 1) != |blob| then None
    else
      var structAt, stringsAt, reserveAt := Field(blob, 2), Field(blob, 3), Field(blob, 4);
      var stringsSize, structSize := Field(blob, 8), Field(blob, 9);
      if Field(blob, 5) < 17 || Field(blob, 6) > 17 || structAt % 4 != 0 || reserveAt % 8 != 0 then None
      else if structAt + structSize > |blob| || stringsAt + stringsSize > |blob| || reserveAt > |blob| then None
      else
        var strings := blob[stringsAt..stringsAt + stringsSize];
        var reservations := ReadReservations(blob[reserveAt..]);
        var root := ReadNode(blob[structAt..structAt + structSize], strings);
        if reservations.None? || root.Fail? || !ReadEnd(root.rest) then None
        else Some(Device(root.value, reservations.value))
  }

  /** The value of the first property of that name. */
  function Lookup(ps: seq<Prop>, name: Bytes): Option<Bytes> {
    if ps == [] then None
    else if ps[0].name == name then Some(ps[0].value)
    else Lookup(ps[1..], name)
  }

  function Child(ts: seq<Tree>, name: Bytes): Option<Tree> {
    if ts == [] then None
    else if ts[0].name == name then Some(ts[0])
    else Child(ts[1..], name)
  }

  /** The node at a path of names, the first child of each name taken. */
  function Descend(t: Tree, path: seq<Bytes>): Option<Tree>
    decreases |path|
  {
    if path == [] then Some(t)
    else
      match Child(t.children, path[0])
      case None => None
      case Some(child) => Descend(child, path[1..])
  }
}
