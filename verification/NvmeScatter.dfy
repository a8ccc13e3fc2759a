/** What a page-by-page transfer does to memory and buffer, as one scatter or one gather. */
module NvmeScatter {
  import opened Wrappers
  import opened MachineTypes
  import opened GuestMemory

  import opened NvmePrp

  /** Every extent can be addressed: non-null and mapped. */
  predicate Usable(mem: Memory, extents: seq<Extent>) {
    extents == [] ||
    (extents[0].addr != 0 && Mapped(mem, extents[0].addr, extents[0].len) && Usable(mem, extents[1..]))
  }

  /** Memory after `data` has been laid out over the extents, in order. */
  function Scatter(mem: Memory, extents: seq<Extent>, data: seq<byte>): Memory
    requires Size(extents) <= |data|
    decreases |extents|
  {
    if extents == [] then mem
    else Scatter(Write(mem, extents[0].addr, data[..extents[0].len]), extents[1..], data[extents[0].len..])
  }

  /** The bytes of the extents, concatenated. */
  function Gather(mem: Memory, extents: seq<Extent>): (r: seq<byte>)
    requires Usable(mem, extents)
    ensures |r| == Size(extents)
  {
    if extents == [] then [] else Read(mem, extents[0].addr, extents[0].len) + Gather(mem, extents[1..])
  }

  lemma {:induction false} UsableKeys(mem: Memory, mem': Memory, extents: seq<Extent>)
    requires mem.Keys == mem'.Keys
    ensures Usable(mem, extents) <==> Usable(mem', extents)
  {
    if extents != [] {
      UsableKeys(mem, mem', extents[1..]);
      var e := extents[0];
      assert Mapped(mem, e.addr, e.len) <==> Mapped(mem', e.addr, e.len) by {
        assert forall a :: a in mem <==> a in mem';
      }
    }
  }

  lemma ScatterStep(mem: Memory, extents: seq<Extent>, buf: seq<byte>, off: nat)
    requires extents != [] && off + Size(extents) <= |buf|
    ensures var e := extents[0];
            Scatter(mem, extents, buf[off..])
            == Scatter(Write(mem, e.addr, buf[off..off + e.len]), extents[1..], buf[off + e.len..])
  {
    var e := extents[0];
    assert buf[off..][..e.len] == buf[off..off + e.len];
    assert buf[off..][e.len..] == buf[off + e.len..];
  }

  /** Moving pages out succeeds exactly on usable extents and scatters the buffer over them. */
  lemma {:induction false} PagewiseScatters(p: Pair, off: nat, extents: seq<Extent>)
    requires off + Size(extents) <= |p.buf|
    ensures Pagewise(p, off, extents, true)
         == if Usable(p.mem, extents) then Some(p.(mem := Scatter(p.mem, extents, p.buf[off..]))) else None
    decreases |extents|
  {
    if extents != [] {
      var e := extents[0];
      var q := PageOp(p, e.addr, off, off + e.len, true);
      if q.Some? {
        PagewiseScatters(q.value, off + e.len, extents[1..]);
        UsableKeys(p.mem, q.value.mem, extents[1..]);
        ScatterStep(p.mem, extents, p.buf, off);
        assert off + e.len - off == e.len;
        assert q.value.mem == Write(p.mem, e.addr, p.buf[off..off + e.len]);
      } else {
        assert !Mapped(p.mem, e.addr, e.len) || e.addr == 0;
      }
    }
  }

  /** Moving pages in succeeds exactly on usable extents and gathers them into the buffer. */
  lemma {:induction false} PagewiseGathers(p: Pair, off: nat, extents: seq<Extent>)
    requires off + Size(extents) <= |p.buf|
    ensures Pagewise(p, off, extents, false)
         == if Usable(p.mem, extents)
            then Some(p.(buf := p.buf[..off] + Gather(p.mem, extents) + p.buf[off + Size(extents)..]))
            else None
    decreases |extents|
  {
    if extents == [] {
      assert p.buf[..off] + [] + p.buf[off..] == p.buf;
    } else {
      var e := extents[0];
      var mid := off + e.len;
      var q := PageOp(p, e.addr, off, mid, false);
      if q.Some? {
        PagewiseGathers(q.value, mid, extents[1..]);
        if Usable(p.mem, extents) {
          var r, g := Read(p.mem, e.addr, e.len), Gather(p.mem, extents[1..]);
          var end := off + Size(extents);
          assert q.value.buf[..mid] == p.buf[..off] + r;
          assert q.value.buf[end..] == p.buf[end..];
          assert (p.buf[..off] + r) + g == p.buf[..off] + (r + g);
        }
      }
    }
  }

  /* ------------------------------------------------------------------ */
  /* Gathering undoes scattering.                                         */
  /* ------------------------------------------------------------------ */

  /** The extent shares no address with any of `extents`. */
  predicate Clear(e: Extent, extents: seq<Extent>) {
    extents == [] || (Apart(e.addr, e.len, extents[0].addr, extents[0].len) && Clear(e, extents[1..]))
  }

  predicate PairwiseApart(extents: seq<Extent>) {
    extents == [] || (Clear(extents[0], extents[1..]) && PairwiseApart(extents[1..]))
  }

  lemma {:induction false} ScatterKeepsKeys(mem: Memory, extents: seq<Extent>, data: seq<byte>)
    requires Size(extents) <= |data|
    ensures Scatter(mem, extents, data).Keys == mem.Keys
    decreases |extents|
  {
    if extents != [] {
      var e := extents[0];
      ScatterKeepsKeys(Write(mem, e.addr, data[..e.len]), extents[1..], data[e.len..]);
    }
  }

  /** Scattering leaves everything outside the extents as it was. */
  lemma {:induction false} ScatterElsewhere(mem: Memory, extents: seq<Extent>, data: seq<byte>, e: Extent)
    requires Size(extents) <= |data| && Clear(e, extents)
    ensures SameAt(mem, Scatter(mem, extents, data), e.addr, e.len)
    decreases |extents|
  {
    if extents != [] {
      var f := extents[0];
      WriteElsewhere(mem, f.addr, data[..f.len], e.addr, e.len);
      ScatterElsewhere(Write(mem, f.addr, data[..f.len]), extents[1..], data[f.len..], e);
    }
  }

  /** Data laid out over disjoint pages is read back unchanged. */
  lemma {:induction false} GatherUndoesScatter(mem: Memory, extents: seq<Extent>, data: seq<byte>)
    requires Usable(mem, extents) && PairwiseApart(extents) && Size(extents) == |data|
    ensures Usable(Scatter(mem, extents, data), extents)
    ensures Gather(Scatter(mem, extents, data), extents) == data
    decreases |extents|
  {
    hide Read, Write, Mapped, Clear;
    ScatterKeepsKeys(mem, extents, data);
    UsableKeys(mem, Scatter(mem, extents, data), extents);
    if extents != [] {
      var e := extents[0];
      var one := Write(mem, e.addr, data[..e.len]);
      UsableKeys(mem, one, extents[1..]);
      GatherUndoesScatter(one, extents[1..], data[e.len..]);
      FirstBack(mem, extents, data);
      assert data[..e.len] + data[e.len..] == data;
    }
  }

  /** The first extent still holds its part once the others are written. */
  lemma FirstBack(mem: Memory, extents: seq<Extent>, data: seq<byte>)
    requires extents != [] && Size(extents) == |data| && Clear(extents[0], extents[1..])
    requires var e := extents[0]; Mapped(mem, e.addr, e.len) && Mapped(Scatter(mem, extents, data), e.addr, e.len)
    ensures var e := extents[0]; Read(Scatter(mem, extents, data), e.addr, e.len) == data[..e.len]
  {
    var e := extents[0];
    ReadBack(mem, e.addr, data[..e.len]);
    ScatterElsewhere(Write(mem, e.addr, data[..e.len]), extents[1..], data[e.len..], e);
    hide Clear, Size;
  }

  /* ------------------------------------------------------------------ */
  /* The contiguous fast path.                                            */
  /* ------------------------------------------------------------------ */

  /** The walk that compares every page address with the next expected one. */
  predicate FollowsOn(mem: Memory, list: seq<byte>, i: nat, remaining: nat, expected: nat, page: nat)
    requires IsList(list, page) && (remaining > 0 ==> i < page / 8)
    decreases remaining, if IsChain(i, remaining, page) then 1 else 0
  {
    if remaining == 0 then true
    else if IsChain(i, remaining, page) then
      var next := Entry(list, i);
      next != 0 && Mapped(mem, next, page) && FollowsOn(mem, Read(mem, next, page), 0, remaining, expected, page)
    else
      Entry(list, i) == expected &&
      FollowsOn(mem, list, i + 1, remaining - Min(page, remaining), (expected + page) % ADDRESS_LIMIT, page)
  }

  /** Whether the PRP entries name one contiguous range. */
  predicate Contiguous(mem: Memory, prp1: nat, prp2: nat, size: nat, page: nat)
    requires page >= 16 && page % 8 == 0
  {
    var first := page - prp1 % page;
    var expected := (prp1 + first) % ADDRESS_LIMIT;
    if first >= size then true
    else if size - first <= page then prp2 == expected
    else prp2 != 0 && Mapped(mem, prp2, page) && FollowsOn(mem, Read(mem, prp2, page), 0, size - first, expected, page)
  }

  lemma PageOpExtend(p: Pair, addr: nat, lo: nat, off: nat, n: nat, at: nat, write: bool)
    requires lo < off && 0 < n && off + n <= |p.buf| && at == (addr + (off - lo)) % ADDRESS_LIMIT
    ensures ThenPage(PageOp(p, addr, lo, off, write), at, off, n, write) == PageOp(p, addr, lo, off + n, write)
  {
    PageOpJoin(p, addr, lo, off, off + n, write);
  }

  lemma PagewiseAllStep(p: Option<Pair>, off: nat, e: Extent, rest: Listing, write: bool)
    ensures PagewiseAll(p, off, Listing([e] + rest.extents, rest.complete), write)
         == PagewiseAll(ThenPage(p, e.addr, off, e.len, write), off + e.len, rest, write)
  {
    if p.Some? {
      PagewiseStep(p.value, off, e, rest, write);
    }
  }

  lemma NextExpected(addr: nat, done: nat, page: nat)
    ensures ((addr + done) % ADDRESS_LIMIT + page) % ADDRESS_LIMIT == (addr + (done + page)) % ADDRESS_LIMIT
  {
    var k := (addr + done) / ADDRESS_LIMIT;
    assert addr + done == k * ADDRESS_LIMIT + (addr + done) % ADDRESS_LIMIT;
  }

  lemma FollowsOnStep(
    mem: Memory, list: seq<byte>, i: nat, remaining: nat, expected: nat, page: nat,
    p: Pair, addr: nat, lo: nat, off: nat, write: bool)
    requires IsList(list, page) && remaining > 0 && i < page / 8 && !IsChain(i, remaining, page)
    requires Entry(list, i) == expected == (addr + (off - lo)) % ADDRESS_LIMIT
    requires lo < off && off + remaining <= |p.buf|
    ensures var n := Min(page, remaining);
            PagewiseAll(PageOp(p, addr, lo, off, write), off, ListExtents(mem, list, i, remaining, page), write)
            == PagewiseAll(PageOp(p, addr, lo, off + n, write), off + n,
                           ListExtents(mem, list, i + 1, remaining - n, page), write)
  {
    hide PageOp, Pagewise, Entry, Mapped;
    var n := Min(page, remaining);
    PageOpExtend(p, addr, lo, off, n, expected, write);
    PagewiseAllStep(PageOp(p, addr, lo, off, write), off, Extent(expected, n),
                    ListExtents(mem, list, i + 1, remaining - n, page), write);
  }

  /** Pages that follow on extend one operation on a single range. */
  lemma {:induction false} FollowsOnIsOneOp(
    mem: Memory, list: seq<byte>, i: nat, remaining: nat, expected: nat, page: nat,
    p: Pair, addr: nat, lo: nat, off: nat, write: bool)
    requires IsList(list, page) && (remaining > 0 ==> i < page / 8)
    requires FollowsOn(mem, list, i, remaining, expected, page)
    requires lo < off && off + remaining <= |p.buf|
    requires remaining > 0 ==> expected == (addr + (off - lo)) % ADDRESS_LIMIT
    ensures ListExtents(mem, list, i, remaining, page).complete
    ensures PagewiseAll(PageOp(p, addr, lo, off, write), off, ListExtents(mem, list, i, remaining, page), write)
         == PageOp(p, addr, lo, off + remaining, write)
    decreases remaining, if IsChain(i, remaining, page) then 1 else 0
  {
    hide PageOp, Entry, Mapped;
    if remaining == 0 {
    } else if IsChain(i, remaining, page) {
      FollowsOnIsOneOp(mem, Read(mem, Entry(list, i), page), 0, remaining, expected, page, p, addr, lo, off, write);
    } else {
      var n := Min(page, remaining);
      NextExpected(addr, off - lo, page);
      FollowsOnIsOneOp(mem, list, i + 1, remaining - n, (expected + page) % ADDRESS_LIMIT, page, p, addr, lo, off + n, write);
      FollowsOnStep(mem, list, i, remaining, expected, page, p, addr, lo, off, write);
    }
  }

  /** On contiguous PRP entries the page-by-page transfer is one operation on the whole range. */
  lemma ContiguousIsOneOp(p: Pair, prp1: nat, prp2: nat, page: nat, write: bool)
    requires page >= 16 && page % 8 == 0 && p.buf != []
    requires Contiguous(p.mem, prp1, prp2, |p.buf|, page)
    ensures PagewiseAll(Some(p), 0, PrpExtents(p.mem, prp1, prp2, |p.buf|, page), write)
         == PageOp(p, prp1, 0, |p.buf|, write)
  {
    hide PageOp, Entry;
    var size := |p.buf|;
    var first := FirstPart(prp1, size, page);
    var rest := size - first;
    var one := Extent(prp1, first);
    var start := PageOp(p, prp1, 0, first, write);
    if rest == 0 {
      PagewiseOne(p, 0, one, write);
    } else if rest <= page {
      var two := Extent(prp2, rest);
      PagewiseAllStep(Some(p), 0, one, Listing([two], true), write);
      assert [one] + [two] == [one, two];
      PagewiseAllStep(start, first, two, Listing([], true), write);
      assert [two] + [] == [two];
      PageOpExtend(p, prp1, 0, first, rest, prp2, write);
    } else {
      var list := Read(p.mem, prp2, page);
      PagewiseAllStep(Some(p), 0, one, ListExtents(p.mem, list, 0, rest, page), write);
      FollowsOnIsOneOp(p.mem, list, 0, rest, (prp1 + first) % ADDRESS_LIMIT, page, p, prp1, 0, first, write);
    }
  }
}
