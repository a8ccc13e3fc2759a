/**
 PRP scatter/gather of the NVMe controller.

 Physical region page lists follow section 4.3 of the NVM Express Base
 Specification 1.4. `PrpExtents` reads them one entry at a time and `Pagewise`
 moves one page at a time; `TransferPrp` is what the controller computes: it
 merges neighbouring pages into runs while it walks list pages.
 */
module NvmePrp {
  import opened Wrappers
  import opened MachineTypes

  import opened GuestMemory

  /* ------------------------------------------------------------------ */
  /* Reference meaning: one entry, one page at a time.                    */
  /* ------------------------------------------------------------------ */

  datatype Extent = Extent(addr: int, len: nat)

  function Min(a: nat, b: nat): nat { if a < b then a else b }

  function LittleEndian(bytes: seq<byte>): nat {
    if bytes == [] then 0 else bytes[0] + 256 * LittleEndian(bytes[1..])
  }

  /** Entry `i` of a PRP list page. */
  function Entry(list: seq<byte>, i: nat): nat
    requires 8 * i + 8 <= |list|
  {
    LittleEndian(list[8 * i..8 * i + 8])
  }

  /** A list page with room for at least two entries. */
  predicate IsList(list: seq<byte>, page: nat) {
    page >= 16 && page % 8 == 0 && |list| == page
  }

  /** Entry `i` is the pointer to the next list page when more than one page is left. */
  predicate IsChain(i: nat, remaining: nat, page: nat) {
    i == page / 8 - 1 && remaining > page
  }

  /** The data pages a PRP list names; `complete` is false when a list page cannot be read. */
  datatype Listing = Listing(extents: seq<Extent>, complete: bool)

  /** The data pages named by `list` from entry `i` on, following chained lists. */
  function ListExtents(mem: Memory, list: seq<byte>, i: nat, remaining: nat, page: nat): Listing
    requires IsList(list, page) && (remaining > 0 ==> i < page / 8)
    decreases remaining, if IsChain(i, remaining, page) then 1 else 0
  {
    if remaining == 0 then Listing([], true)
    else if IsChain(i, remaining, page) then
      var next := Entry(list, i);
      if next == 0 || !Mapped(mem, next, page) then Listing([], false)
      else ListExtents(mem, Read(mem, next, page), 0, remaining, page)
    else
      var n := Min(page, remaining);
      var rest := ListExtents(mem, list, i + 1, remaining - n, page);
      Listing([Extent(Entry(list, i), n)] + rest.extents, rest.complete)
  }

  /** The chained list pages that a walk from entry `i` of `list` reads. */
  function ChainedLists(mem: Memory, list: seq<byte>, i: nat, remaining: nat, page: nat): seq<int>
    requires IsList(list, page) && (remaining > 0 ==> i < page / 8)
    decreases remaining, if IsChain(i, remaining, page) then 1 else 0
  {
    if remaining == 0 then []
    else if IsChain(i, remaining, page) then
      var next := Entry(list, i);
      if next == 0 || !Mapped(mem, next, page) then [next]
      else [next] + ChainedLists(mem, Read(mem, next, page), 0, remaining, page)
    else ChainedLists(mem, list, i + 1, remaining - Min(page, remaining), page)
  }

  /** Bytes in the first page from `prp1` on. */
  function FirstPart(prp1: nat, size: nat, page: nat): nat
    requires page > 0
  {
    Min(page - prp1 % page, size)
  }

  /** Every extent of a transfer of `size` bytes, in order. */
  function PrpExtents(mem: Memory, prp1: nat, prp2: nat, size: nat, page: nat): Listing
    requires page >= 16 && page % 8 == 0
  {
    if size == 0 then Listing([], true)
    else
      var first := FirstPart(prp1, size, page);
      var rest := size - first;
      if rest == 0 then Listing([Extent(prp1, first)], true)
      else if rest <= page then Listing([Extent(prp1, first), Extent(prp2, rest)], true)
      else if prp2 == 0 || !Mapped(mem, prp2, page) then Listing([Extent(prp1, first)], false)
      else
        var pages := ListExtents(mem, Read(mem, prp2, page), 0, rest, page);
        Listing([Extent(prp1, first)] + pages.extents, pages.complete)
  }

  /** Every list page such a transfer reads. */
  function PrpLists(mem: Memory, prp1: nat, prp2: nat, size: nat, page: nat): seq<int>
    requires page >= 16 && page % 8 == 0
  {
    var rest := size - FirstPart(prp1, size, page);
    if rest <= page then []
    else if prp2 == 0 || !Mapped(mem, prp2, page) then [prp2]
    else [prp2] + ChainedLists(mem, Read(mem, prp2, page), 0, rest, page)
  }

  function Size(extents: seq<Extent>): nat {
    if extents == [] then 0 else extents[0].len + Size(extents[1..])
  }

  /** Guest memory and the controller's data buffer. */
  datatype Pair = Pair(mem: Memory, buf: seq<byte>)

  /** Moves `buf[lo..hi]` to guest address `addr`, or back. */
  function PageOp(p: Pair, addr: int, lo: nat, hi: nat, write: bool): (r: Option<Pair>)
    ensures r.Some? ==> |r.value.buf| == |p.buf| && r.value.mem.Keys == p.mem.Keys
  {
    if addr == 0 || !(lo <= hi <= |p.buf|) || !Mapped(p.mem, addr, hi - lo) then None
    else if write then Some(p.(mem := Write(p.mem, addr, p.buf[lo..hi])))
    else Some(p.(buf := p.buf[..lo] + Read(p.mem, addr, hi - lo) + p.buf[hi..]))
  }

  /** The whole transfer, page after page. */
  function Pagewise(p: Pair, off: nat, extents: seq<Extent>, write: bool): Option<Pair>
    decreases |extents|
  {
    if extents == [] then Some(p)
    else
      match PageOp(p, extents[0].addr, off, off + extents[0].len, write)
      case None => None
      case Some(q) => Pagewise(q, off + extents[0].len, extents[1..], write)
  }

  /** A transfer over a listing fails when the listing is incomplete. */
  function PagewiseAll(p: Option<Pair>, off: nat, listing: Listing, write: bool): Option<Pair> {
    if p.None? || !listing.complete then None else Pagewise(p.value, off, listing.extents, write)
  }

  /* ------------------------------------------------------------------ */
  /* What the controller computes: runs of neighbouring pages.            */
  /* ------------------------------------------------------------------ */

  /** A pending run: `buf[off..off + len]` belongs at guest address `addr`. */
  datatype Run = Run(addr: int, off: nat, len: nat)

  datatype Transfer = Transfer(io: Pair, off: nat, run: Run)

  function FlushRun(x: Transfer, write: bool): Option<Transfer> {
    if x.run.len == 0 then Some(x)
    else
      match PageOp(x.io, x.run.addr, x.run.off, x.run.off + x.run.len, write)
      case None => None
      case Some(q) => Some(x.(io := q, run := x.run.(len := 0)))
  }

  /** One data page of the walk joins the pending run or starts a new one. */
  function VisitPage(x: Transfer, addr: int, n: nat, write: bool): Option<Transfer> {
    if x.run.len == 0 then
      Some(x.(run := Run(addr, x.off, n), off := x.off + n))
    else if addr == (x.run.addr + x.run.len) % ADDRESS_LIMIT then
      Some(x.(run := x.run.(len := x.run.len + n), off := x.off + n))
    else
      match FlushRun(x, write)
      case None => None
      case Some(y) => Some(y.(run := Run(addr, y.off, n), off := y.off + n))
  }

  /** The walk from entry `i` of the list page held in `list`. */
  function WalkRuns(x: Transfer, list: seq<byte>, i: nat, remaining: nat, page: nat, write: bool): Option<Transfer>
    requires IsList(list, page) && (remaining > 0 ==> i < page / 8)
    decreases remaining, if IsChain(i, remaining, page) then 1 else 0
  {
    if remaining == 0 then Some(x)
    else if IsChain(i, remaining, page) then
      var next := Entry(list, i);
      if next == 0 || !Mapped(x.io.mem, next, page) then None
      else WalkRuns(x, Read(x.io.mem, next, page), 0, remaining, page, write)
    else
      var n := Min(page, remaining);
      match VisitPage(x, Entry(list, i), n, write)
      case None => None
      case Some(y) => WalkRuns(y, list, i + 1, remaining - n, page, write)
  }

  /** The walk from the list page at `listAddr`. */
  function WalkFrom(x: Transfer, listAddr: nat, remaining: nat, page: nat, write: bool): Option<Transfer>
    requires page >= 16 && page % 8 == 0
  {
    if remaining == 0 then Some(x)
    else if listAddr == 0 || !Mapped(x.io.mem, listAddr, page) then None
    else WalkRuns(x, Read(x.io.mem, listAddr, page), 0, remaining, page, write)
  }

  /** The list part of a transfer: walk from list page `prp2`, then flush. */
  function TransferList(p: Pair, off: nat, prp2: nat, page: nat, write: bool): Option<Pair>
    requires page >= 16 && page % 8 == 0 && off <= |p.buf|
  {
    match WalkFrom(Transfer(p, off, Run(0, 0, 0)), prp2, |p.buf| - off, page, write)
    case None => None
    case Some(x) =>
      match FlushRun(x, write)
      case None => None
      case Some(y) => Some(y.io)
  }

  function TransferPrp(p: Pair, prp1: nat, prp2: nat, page: nat, write: bool): Option<Pair>
    requires page >= 16 && page % 8 == 0
  {
    if p.buf == [] then Some(p)
    else if prp1 == 0 then None
    else
      var first := FirstPart(prp1, |p.buf|, page);
      match PageOp(p, prp1, 0, first, write)
      case None => None
      case Some(q) =>
        if first == |p.buf| then Some(q)
        else if |p.buf| - first <= page then PageOp(q, prp2, first, |p.buf|, write)
        else TransferList(q, first, prp2, page, write)
  }

  /* ------------------------------------------------------------------ */
  /* Chunks sum to the requested size.                                    */
  /* ------------------------------------------------------------------ */

  lemma {:induction false} ListExtentsSize(mem: Memory, list: seq<byte>, i: nat, remaining: nat, page: nat)
    requires IsList(list, page) && (remaining > 0 ==> i < page / 8)
    ensures var r := ListExtents(mem, list, i, remaining, page);
            Size(r.extents) <= remaining && (r.complete ==> Size(r.extents) == remaining)
    decreases remaining, if IsChain(i, remaining, page) then 1 else 0
  {
    if remaining == 0 {
    } else if IsChain(i, remaining, page) {
      var next := Entry(list, i);
      if next != 0 && Mapped(mem, next, page) {
        ListExtentsSize(mem, Read(mem, next, page), 0, remaining, page);
      }
    } else {
      var n := Min(page, remaining);
      ListExtentsSize(mem, list, i + 1, remaining - n, page);
      var rest := ListExtents(mem, list, i + 1, remaining - n, page);
      assert ([Extent(Entry(list, i), n)] + rest.extents)[1..] == rest.extents;
    }
  }

  /** The extents of a transfer cover exactly the requested number of bytes. */
  lemma PrpExtentsSize(mem: Memory, prp1: nat, prp2: nat, size: nat, page: nat)
    requires page >= 16 && page % 8 == 0
    ensures var r := PrpExtents(mem, prp1, prp2, size, page);
            Size(r.extents) <= size && (r.complete ==> Size(r.extents) == size)
  {
    if size > 0 {
      var first := FirstPart(prp1, size, page);
      var rest := size - first;
      var one := Extent(prp1, first);
      if rest == 0 || (rest > page && (prp2 == 0 || !Mapped(mem, prp2, page))) {
        assert [one][1..] == [];
      } else if rest <= page {
        var two := Extent(prp2, rest);
        assert Size([two]) == rest by { assert [two][1..] == []; }
        assert [one, two][1..] == [two];
      } else {
        var list := Read(mem, prp2, page);
        ListExtentsSize(mem, list, 0, rest, page);
        var pages := ListExtents(mem, list, 0, rest, page);
        assert ([one] + pages.extents)[1..] == pages.extents;
      }
    }
  }

  /* ------------------------------------------------------------------ */
  /* A run moves what its pages move.                                     */
  /* ------------------------------------------------------------------ */

  function ThenPage(p: Option<Pair>, addr: int, off: nat, n: nat, write: bool): Option<Pair> {
    match p
    case None => None
    case Some(q) => PageOp(q, addr, off, off + n, write)
  }

  /** Two neighbouring page operations are one operation on the joined range. */
  lemma PageOpJoin(p: Pair, addr: nat, lo: nat, mid: nat, hi: nat, write: bool)
    requires lo < mid < hi <= |p.buf|
    ensures PageOp(p, addr, lo, hi, write)
         == ThenPage(PageOp(p, addr, lo, mid, write), (addr + (mid - lo)) % ADDRESS_LIMIT, mid, hi - mid, write)
  {
    MappedSplit(p.mem, addr, mid - lo, hi - mid);
    assert mid - lo + (hi - mid) == hi - lo;
    if addr != 0 && Mapped(p.mem, addr, mid - lo) {
      var q := PageOp(p, addr, lo, mid, write).value;
      var addr2 := addr + (mid - lo);
      if addr2 == ADDRESS_LIMIT {
        assert !Mapped(p.mem, addr, hi - lo);
      } else {
        assert addr2 % ADDRESS_LIMIT == addr2;
        if write {
          WriteJoinOp(p, addr, lo, mid, hi);
        } else if Mapped(p.mem, addr2, hi - mid) {
          ReadJoinOp(p, addr, lo, mid, hi);
        }
      }
    }
  }

  lemma WriteJoinOp(p: Pair, addr: nat, lo: nat, mid: nat, hi: nat)
    requires lo < mid < hi <= |p.buf| && addr != 0 && addr + (mid - lo) < ADDRESS_LIMIT
    requires Mapped(p.mem, addr, mid - lo)
    ensures PageOp(p, addr, lo, hi, true) == PageOp(PageOp(p, addr, lo, mid, true).value, addr + (mid - lo), mid, hi, true)
  {
    MappedSplit(p.mem, addr, mid - lo, hi - mid);
    assert mid - lo + (hi - mid) == hi - lo;
    WriteKeepsMapped(p.mem, addr, p.buf[lo..mid], addr + (mid - lo), hi - mid);
    WriteJoin(p.mem, addr, p.buf[lo..mid], p.buf[mid..hi]);
    assert p.buf[lo..mid] + p.buf[mid..hi] == p.buf[lo..hi];
  }

  lemma ReadJoinOp(p: Pair, addr: nat, lo: nat, mid: nat, hi: nat)
    requires lo < mid < hi <= |p.buf| && addr != 0
    requires Mapped(p.mem, addr, mid - lo) && Mapped(p.mem, addr + (mid - lo), hi - mid)
    ensures PageOp(p, addr, lo, hi, false) == PageOp(PageOp(p, addr, lo, mid, false).value, addr + (mid - lo), mid, hi, false)
  {
    ReadJoin(p.mem, addr, mid - lo, hi - mid);
    assert mid - lo + (hi - mid) == hi - lo;
    var r1, r2 := Read(p.mem, addr, mid - lo), Read(p.mem, addr + (mid - lo), hi - mid);
    var b1 := p.buf[..lo] + r1 + p.buf[mid..];
    assert b1[..mid] == p.buf[..lo] + r1;
    assert b1[hi..] == p.buf[hi..];
    assert (p.buf[..lo] + r1) + r2 + p.buf[hi..] == p.buf[..lo] + (r1 + r2) + p.buf[hi..];
  }

  /** A transfer whose pending run ends where the next page's data begins. */
  predicate WellFormed(x: Transfer) {
    x.off <= |x.io.buf| && 0 <= x.run.addr && (x.run.len > 0 ==> x.run.off + x.run.len == x.off)
  }

  /** Memory and buffer once the pending run has been moved. */
  function Settled(x: Transfer, write: bool): Option<Pair> {
    if x.run.len == 0 then Some(x.io)
    else PageOp(x.io, x.run.addr, x.run.off, x.run.off + x.run.len, write)
  }

  function SettledAfter(x: Option<Transfer>, write: bool): Option<Pair> {
    match x
    case None => None
    case Some(y) => Settled(y, write)
  }

  /** A page that continues the pending run. */
  lemma MergeIsPageOp(x: Transfer, addr: nat, n: nat, write: bool)
    requires WellFormed(x) && 0 < n && x.off + n <= |x.io.buf|
    requires x.run.len > 0 && addr == (x.run.addr + x.run.len) % ADDRESS_LIMIT
    ensures SettledAfter(VisitPage(x, addr, n, write), write) == ThenPage(Settled(x, write), addr, x.off, n, write)
  {
    hide PageOp;
    var hi := x.off + n;
    var y := VisitPage(x, addr, n, write).value;
    assert y.run.off + y.run.len == hi;
    PageOpJoin(x.io, x.run.addr, x.run.off, x.off, hi, write);
    assert Settled(y, write) == PageOp(x.io, x.run.addr, x.run.off, hi, write);
  }

  /** A page that starts a new run. */
  lemma RestartIsPageOp(x: Transfer, addr: nat, n: nat, write: bool)
    requires WellFormed(x) && 0 < n && x.off + n <= |x.io.buf|
    requires x.run.len > 0 ==> addr != (x.run.addr + x.run.len) % ADDRESS_LIMIT
    ensures SettledAfter(VisitPage(x, addr, n, write), write) == ThenPage(Settled(x, write), addr, x.off, n, write)
  {
    hide PageOp;
    if x.run.len == 0 {
      assert Settled(x, write) == Some(x.io);
    } else {
      var f := FlushRun(x, write);
      assert f.Some? ==> Some(f.value.io) == Settled(x, write);
    }
  }

  /** Joining a page to a run, or starting a new one, has the effect of moving that page. */
  lemma VisitIsPageOp(x: Transfer, addr: nat, n: nat, write: bool)
    requires WellFormed(x) && 0 < n && x.off + n <= |x.io.buf|
    ensures SettledAfter(VisitPage(x, addr, n, write), write) == ThenPage(Settled(x, write), addr, x.off, n, write)
  {
    if x.run.len > 0 && addr == (x.run.addr + x.run.len) % ADDRESS_LIMIT {
      MergeIsPageOp(x, addr, n, write);
    } else {
      RestartIsPageOp(x, addr, n, write);
    }
  }

  lemma VisitKeepsForm(x: Transfer, addr: nat, n: nat, write: bool)
    requires WellFormed(x) && 0 < n && x.off + n <= |x.io.buf|
    ensures VisitPage(x, addr, n, write).Some? ==>
              var y := VisitPage(x, addr, n, write).value;
              WellFormed(y) && y.off == x.off + n && |y.io.buf| == |x.io.buf|
  {
  }

  /* ------------------------------------------------------------------ */
  /* The walk reads the lists it would read before any data moved.        */
  /* ------------------------------------------------------------------ */

  /** No chained list page shares an address with the range. */
  predicate ListsApart(lists: seq<int>, page: nat, addr: int, n: nat) {
    lists == [] || (Apart(addr, n, lists[0], page) && ListsApart(lists[1..], page, addr, n))
  }

  predicate ListsApartAll(lists: seq<int>, page: nat, extents: seq<Extent>) {
    extents == [] || (ListsApart(lists, page, extents[0].addr, extents[0].len) && ListsApartAll(lists, page, extents[1..]))
  }

  predicate SameLists(m: Memory, m': Memory, lists: seq<int>, page: nat) {
    lists == [] || (SameAt(m, m', lists[0], page) && SameLists(m, m', lists[1..], page))
  }

  lemma {:induction false} ListsApartJoin(lists: seq<int>, page: nat, addr: int, n1: nat, n2: nat)
    requires ListsApart(lists, page, addr, n1) && ListsApart(lists, page, addr + n1, n2) && page > 0 && n1 > 0
    ensures ListsApart(lists, page, addr, n1 + n2)
  {
    if lists != [] {
      ListsApartJoin(lists[1..], page, addr, n1, n2);
    }
  }

  lemma {:induction false} SameListsWrite(m: Memory, m': Memory, lists: seq<int>, page: nat, addr: int, data: seq<byte>)
    requires SameLists(m, m', lists, page) && ListsApart(lists, page, addr, |data|)
    ensures SameLists(m, Write(m', addr, data), lists, page)
  {
    if lists != [] {
      WriteElsewhere(m', addr, data, lists[0], page);
      SameListsWrite(m, m', lists[1..], page, addr, data);
    }
  }

  lemma {:induction false} SameListsRefl(m: Memory, lists: seq<int>, page: nat)
    ensures SameLists(m, m, lists, page)
  {
    if lists != [] {
      SameListsRefl(m, lists[1..], page);
    }
  }

  /** Dropping the head keeps the remaining lists apart from every extent. */
  lemma {:induction false} ListsApartTail(lists: seq<int>, page: nat, extents: seq<Extent>)
    requires lists != [] && ListsApartAll(lists, page, extents)
    ensures ListsApartAll(lists[1..], page, extents)
  {
    if extents != [] {
      ListsApartTail(lists, page, extents[1..]);
    }
  }

  /** Flushing keeps every list page that the pending run stays clear of. */
  lemma FlushKeepsLists(m: Memory, x: Transfer, lists: seq<int>, page: nat, write: bool)
    requires SameLists(m, x.io.mem, lists, page) && FlushRun(x, write).Some?
    requires x.run.len > 0 ==> ListsApart(lists, page, x.run.addr, x.run.len)
    ensures SameLists(m, FlushRun(x, write).value.io.mem, lists, page)
  {
    if x.run.len > 0 && write {
      SameListsWrite(m, x.io.mem, lists, page, x.run.addr, x.io.buf[x.run.off..x.run.off + x.run.len]);
    }
  }

  /** What the walk keeps about memory outside the pending run. */
  predicate KeepsLists(m: Memory, x: Transfer, lists: seq<int>, page: nat) {
    && SameLists(m, x.io.mem, lists, page)
    && (x.run.len > 0 ==> ListsApart(lists, page, x.run.addr, x.run.len))
  }

  lemma VisitCases(x: Transfer, addr: int, n: nat, write: bool)
    ensures var v := VisitPage(x, addr, n, write);
            && (x.run.len == 0 ==> v == Some(x.(run := Run(addr, x.off, n), off := x.off + n)))
            && (x.run.len > 0 && addr == (x.run.addr + x.run.len) % ADDRESS_LIMIT ==>
                  v == Some(x.(run := x.run.(len := x.run.len + n), off := x.off + n)))
            && (x.run.len > 0 && addr != (x.run.addr + x.run.len) % ADDRESS_LIMIT && v.Some? ==>
                  && FlushRun(x, write).Some?
                  && (var y := FlushRun(x, write).value; v.value == y.(run := Run(addr, y.off, n), off := y.off + n)))
  {
    hide FlushRun;
  }

  lemma RunEnd(r: Run)
    requires 0 <= r.addr + r.len <= ADDRESS_LIMIT
    ensures (r.addr + r.len) % ADDRESS_LIMIT == if r.addr + r.len == ADDRESS_LIMIT then 0 else r.addr + r.len
  {
  }

  lemma VisitKeepsLists(m: Memory, x: Transfer, addr: nat, n: nat, lists: seq<int>, page: nat, write: bool)
    requires KeepsLists(m, x, lists, page) && WellFormed(x)
    requires ListsApart(lists, page, addr, n) && page > 0 && n > 0
    requires x.run.addr + x.run.len != ADDRESS_LIMIT || addr != 0 || x.run.len == 0
    requires x.run.len > 0 ==> x.run.addr + x.run.len <= ADDRESS_LIMIT
    ensures VisitPage(x, addr, n, write).Some? ==> KeepsLists(m, VisitPage(x, addr, n, write).value, lists, page)
  {
    VisitCases(x, addr, n, write);
    hide FlushRun, ListsApart, SameLists, VisitPage;
    if x.run.len > 0 {
      RunEnd(x.run);
      if addr == (x.run.addr + x.run.len) % ADDRESS_LIMIT {
        ListsApartJoin(lists, page, x.run.addr, x.run.len, n);
      } else if FlushRun(x, write).Some? {
        FlushKeepsLists(m, x, lists, page, write);
      }
    }
  }

  /** A pending run that cannot be moved makes the whole walk fail. */
  lemma {:induction false} FailureSticks(x: Transfer, list: seq<byte>, i: nat, remaining: nat, page: nat, write: bool)
    requires IsList(list, page) && (remaining > 0 ==> i < page / 8)
    requires WellFormed(x) && x.off + remaining <= |x.io.buf| && Settled(x, write).None?
    ensures SettledAfter(WalkRuns(x, list, i, remaining, page, write), write).None?
    decreases remaining, if IsChain(i, remaining, page) then 1 else 0
  {
    if remaining == 0 {
    } else if IsChain(i, remaining, page) {
      var next := Entry(list, i);
      if next != 0 && Mapped(x.io.mem, next, page) {
        FailureSticks(x, Read(x.io.mem, next, page), 0, remaining, page, write);
      }
    } else {
      var n := Min(page, remaining);
      var addr := Entry(list, i);
      VisitIsPageOp(x, addr, n, write);
      VisitKeepsForm(x, addr, n, write);
      var y := VisitPage(x, addr, n, write);
      if y.Some? {
        FailureSticks(y.value, list, i + 1, remaining - n, page, write);
      }
    }
  }

  /** What `WalkIsPagewise` assumes about list pages and data pages; nothing when pages are only read. */
  predicate WalkClear(m: Memory, x: Transfer, list: seq<byte>, i: nat, remaining: nat, page: nat, write: bool)
    requires IsList(list, page) && (remaining > 0 ==> i < page / 8)
  {
    var lists := ChainedLists(m, list, i, remaining, page);
    if !write then x.io.mem == m
    else KeepsLists(m, x, lists, page) && ListsApartAll(lists, page, ListExtents(m, list, i, remaining, page).extents)
  }

  /** Following a chain pointer reads the list page it would have read at the start. */
  lemma ChainClear(m: Memory, x: Transfer, list: seq<byte>, i: nat, remaining: nat, page: nat, write: bool)
    requires IsList(list, page) && remaining > 0 && i < page / 8 && IsChain(i, remaining, page)
    requires WalkClear(m, x, list, i, remaining, page, write)
    ensures SameAt(m, x.io.mem, Entry(list, i), page)
    ensures var next := Entry(list, i);
            next != 0 && Mapped(m, next, page) ==> WalkClear(m, x, Read(m, next, page), 0, remaining, page, write)
  {
    var next := Entry(list, i);
    if write && next != 0 && Mapped(m, next, page) {
      var lists := ChainedLists(m, list, i, remaining, page);
      assert lists[1..] == ChainedLists(m, Read(m, next, page), 0, remaining, page);
      ListsApartTail(lists, page, ListExtents(m, list, i, remaining, page).extents);
    }
  }

  /** Visiting a data page keeps later list pages readable as they were. */
  lemma VisitClear(m: Memory, x: Transfer, list: seq<byte>, i: nat, remaining: nat, page: nat, write: bool)
    requires IsList(list, page) && remaining > 0 && i < page / 8 && !IsChain(i, remaining, page)
    requires WalkClear(m, x, list, i, remaining, page, write) && WellFormed(x) && x.off + remaining <= |x.io.buf|
    requires Settled(x, write).Some?
    requires var y := VisitPage(x, Entry(list, i), Min(page, remaining), write); y.Some? && Settled(y.value, write).Some?
    ensures WalkClear(m, VisitPage(x, Entry(list, i), Min(page, remaining), write).value,
                      list, i + 1, remaining - Min(page, remaining), page, write)
  {
    if write {
      var n, addr := Min(page, remaining), Entry(list, i);
      var lists := ChainedLists(m, list, i, remaining, page);
      var rest := ListExtents(m, list, i + 1, remaining - n, page);
      assert ([Extent(addr, n)] + rest.extents)[1..] == rest.extents;
      VisitIsPageOp(x, addr, n, write);
      VisitKeepsLists(m, x, addr, n, lists, page, write);
    }
  }

  lemma PagewiseStep(p: Pair, off: nat, e: Extent, rest: Listing, write: bool)
    ensures PagewiseAll(Some(p), off, Listing([e] + rest.extents, rest.complete), write)
         == PagewiseAll(ThenPage(Some(p), e.addr, off, e.len, write), off + e.len, rest, write)
  {
    assert ([e] + rest.extents)[1..] == rest.extents;
  }

  lemma PagewiseOne(p: Pair, off: nat, e: Extent, write: bool)
    ensures Pagewise(p, off, [e], write) == PageOp(p, e.addr, off, off + e.len, write)
  {
    var q := PageOp(p, e.addr, off, off + e.len, write);
    assert [e][1..] == [];
    assert q.Some? ==> Pagewise(q.value, off + e.len, [e][1..], write) == q;
  }

  /** Visiting one page is the reference's next page operation. */
  lemma VisitStep(m: Memory, x: Transfer, list: seq<byte>, i: nat, remaining: nat, page: nat, write: bool)
    requires IsList(list, page) && remaining > 0 && i < page / 8 && !IsChain(i, remaining, page)
    requires WellFormed(x) && x.off + remaining <= |x.io.buf| && Settled(x, write).Some?
    ensures var n := Min(page, remaining); var y := VisitPage(x, Entry(list, i), n, write);
            && PagewiseAll(Settled(x, write), x.off, ListExtents(m, list, i, remaining, page), write)
               == PagewiseAll(SettledAfter(y, write), x.off + n, ListExtents(m, list, i + 1, remaining - n, page), write)
            && (y.Some? ==> WellFormed(y.value) && y.value.off == x.off + n && |y.value.io.buf| == |x.io.buf|)
  {
    var n := Min(page, remaining);
    var addr := Entry(list, i);
    VisitIsPageOp(x, addr, n, write);
    VisitKeepsForm(x, addr, n, write);
    PagewiseStep(Settled(x, write).value, x.off, Extent(addr, n), ListExtents(m, list, i + 1, remaining - n, page), write);
  }

  /** The coalescing walk and the page-by-page transfer end alike. */
  ghost predicate Agrees(m: Memory, x: Transfer, list: seq<byte>, i: nat, remaining: nat, page: nat, write: bool)
    requires IsList(list, page) && (remaining > 0 ==> i < page / 8)
  {
    SettledAfter(WalkRuns(x, list, i, remaining, page, write), write)
    == PagewiseAll(Settled(x, write), x.off, ListExtents(m, list, i, remaining, page), write)
  }

  lemma AgreesVisit(m: Memory, x: Transfer, list: seq<byte>, i: nat, remaining: nat, page: nat, write: bool)
    requires IsList(list, page) && remaining > 0 && i < page / 8 && !IsChain(i, remaining, page)
    requires WellFormed(x) && x.off + remaining <= |x.io.buf| && Settled(x, write).Some?
    requires var n := Min(page, remaining); var y := VisitPage(x, Entry(list, i), n, write);
             y.Some? ==> Agrees(m, y.value, list, i + 1, remaining - n, page, write)
    ensures Agrees(m, x, list, i, remaining, page, write)
  {
    hide VisitPage, Settled, Pagewise, ListExtents, Entry, Mapped;
    VisitStep(m, x, list, i, remaining, page, write);
  }

  lemma AgreesFailed(m: Memory, x: Transfer, list: seq<byte>, i: nat, remaining: nat, page: nat, write: bool)
    requires IsList(list, page) && (remaining > 0 ==> i < page / 8)
    requires WellFormed(x) && x.off + remaining <= |x.io.buf| && Settled(x, write).None?
    ensures Agrees(m, x, list, i, remaining, page, write)
  {
    FailureSticks(x, list, i, remaining, page, write);
  }

  lemma AgreesNothing(m: Memory, x: Transfer, list: seq<byte>, i: nat, page: nat, write: bool)
    requires IsList(list, page) && Settled(x, write).Some?
    ensures Agrees(m, x, list, i, 0, page, write)
  {
    hide Settled;
  }

  /** The coalescing walk has the effect of moving the listed pages one by one. */
  lemma {:induction false} WalkIsPagewise(m: Memory, x: Transfer, list: seq<byte>, i: nat, remaining: nat, page: nat,
                                          write: bool)
    requires IsList(list, page) && (remaining > 0 ==> i < page / 8)
    requires WellFormed(x) && x.off + remaining <= |x.io.buf|
    requires WalkClear(m, x, list, i, remaining, page, write)
    ensures Agrees(m, x, list, i, remaining, page, write)
    decreases remaining, if IsChain(i, remaining, page) then 1 else 0
  {
    hide VisitPage, Settled, Pagewise, Entry, Mapped, WalkClear, WellFormed;
    if Settled(x, write).None? {
      AgreesFailed(m, x, list, i, remaining, page, write);
    } else if remaining == 0 {
      AgreesNothing(m, x, list, i, page, write);
    } else if IsChain(i, remaining, page) {
      ChainClear(m, x, list, i, remaining, page, write);
      var next := Entry(list, i);
      if next != 0 && Mapped(m, next, page) {
        WalkIsPagewise(m, x, Read(m, next, page), 0, remaining, page, write);
      }
    } else {
      var n := Min(page, remaining);
      var y := VisitPage(x, Entry(list, i), n, write);
      if y.Some? {
        VisitKeepsForm(x, Entry(list, i), n, write);
        if Settled(y.value, write).None? {
          AgreesFailed(m, y.value, list, i + 1, remaining - n, page, write);
        } else {
          VisitClear(m, x, list, i, remaining, page, write);
          WalkIsPagewise(m, y.value, list, i + 1, remaining - n, page, write);
        }
      }
      AgreesVisit(m, x, list, i, remaining, page, write);
    }
  }

  /* ------------------------------------------------------------------ */
  /* The whole transfer.                                                  */
  /* ------------------------------------------------------------------ */

  /** No list page of the transfer shares an address with a data page of it. */
  predicate PrpClear(mem: Memory, prp1: nat, prp2: nat, size: nat, page: nat)
    requires page >= 16 && page % 8 == 0
  {
    ListsApartAll(PrpLists(mem, prp1, prp2, size, page), page, PrpExtents(mem, prp1, prp2, size, page).extents)
  }

  /** The list part, from memory in which the first page has already been moved. */
  lemma TransferListIsPagewise(m: Memory, p: Pair, off: nat, prp2: nat, page: nat, write: bool)
    requires page >= 16 && page % 8 == 0 && off < |p.buf| && prp2 != 0 && Mapped(m, prp2, page)
    requires var list := Read(m, prp2, page); var lists := ChainedLists(m, list, 0, |p.buf| - off, page);
             if !write then p.mem == m
             else
               && SameAt(m, p.mem, prp2, page) && SameLists(m, p.mem, lists, page)
               && ListsApartAll(lists, page, ListExtents(m, list, 0, |p.buf| - off, page).extents)
    ensures TransferList(p, off, prp2, page, write)
         == PagewiseAll(Some(p), off, ListExtents(m, Read(m, prp2, page), 0, |p.buf| - off, page), write)
  {
    var x := Transfer(p, off, Run(0, 0, 0));
    WalkIsPagewise(m, x, Read(m, prp2, page), 0, |p.buf| - off, page, write);
  }

  /** The first page's operation leaves every list page as it was. */
  lemma FirstKeepsLists(p: Pair, prp1: nat, n: nat, lists: seq<int>, page: nat, write: bool)
    requires ListsApart(lists, page, prp1, n) && PageOp(p, prp1, 0, n, write).Some?
    ensures SameLists(p.mem, PageOp(p, prp1, 0, n, write).value.mem, lists, page)
  {
    SameListsRefl(p.mem, lists, page);
    if write {
      SameListsWrite(p.mem, p.mem, lists, page, prp1, p.buf[0..n]);
    }
  }

  lemma LongTransferIsPagewise(p: Pair, prp1: nat, prp2: nat, page: nat, write: bool)
    requires page >= 16 && page % 8 == 0 && prp1 != 0
    requires |p.buf| - FirstPart(prp1, |p.buf|, page) > page
    requires write ==> PrpClear(p.mem, prp1, prp2, |p.buf|, page)
    ensures TransferPrp(p, prp1, prp2, page, write)
         == PagewiseAll(Some(p), 0, PrpExtents(p.mem, prp1, prp2, |p.buf|, page), write)
  {
    var first := FirstPart(prp1, |p.buf|, page);
    var lists := PrpLists(p.mem, prp1, prp2, |p.buf|, page);
    var all := PrpExtents(p.mem, prp1, prp2, |p.buf|, page);
    var one := Extent(prp1, first);
    assert all.extents[0] == one;
    var q := PageOp(p, prp1, 0, first, write);
    PagewiseStep(p, 0, one, Listing(all.extents[1..], all.complete), write);
    assert [one] + all.extents[1..] == all.extents;
    if q.Some? {
      if write {
        FirstKeepsLists(p, prp1, first, lists, page, write);
      }
      if prp2 != 0 && Mapped(p.mem, prp2, page) {
        assert lists[1..] == ChainedLists(p.mem, Read(p.mem, prp2, page), 0, |p.buf| - first, page);
        if write {
          ListsApartTail(lists, page, all.extents[1..]);
        }
        TransferListIsPagewise(p.mem, q.value, first, prp2, page, write);
      }
    }
  }

  /**
   For every layout (one page, two pages, a list, chained lists) the controller's
   transfer succeeds exactly when moving the pages one by one succeeds, and then
   leaves the same guest memory and the same buffer. Only when pages are written
   do list pages have to lie apart from data pages.
   */
  lemma TransferIsPagewise(p: Pair, prp1: nat, prp2: nat, page: nat, write: bool)
    requires page >= 16 && page % 8 == 0
    requires write ==> PrpClear(p.mem, prp1, prp2, |p.buf|, page)
    ensures TransferPrp(p, prp1, prp2, page, write)
         == PagewiseAll(Some(p), 0, PrpExtents(p.mem, prp1, prp2, |p.buf|, page), write)
  {
    if p.buf != [] {
      var first := FirstPart(prp1, |p.buf|, page);
      if |p.buf| - first > page && prp1 != 0 {
        LongTransferIsPagewise(p, prp1, prp2, page, write);
      } else if |p.buf| - first == 0 {
        hide PrpClear;
        PagewiseOne(p, 0, Extent(prp1, first), write);
        NullPage(p, 0, first, write);
      } else if |p.buf| - first <= page {
        hide PrpClear;
        TwoPagesIsPagewise(p, prp1, prp2, page, write);
      }
    }
  }

  lemma TwoPagesIsPagewise(p: Pair, prp1: nat, prp2: nat, page: nat, write: bool)
    requires page >= 16 && page % 8 == 0 && p.buf != []
    requires 0 < |p.buf| - FirstPart(prp1, |p.buf|, page) <= page
    ensures TransferPrp(p, prp1, prp2, page, write)
         == PagewiseAll(Some(p), 0, PrpExtents(p.mem, prp1, prp2, |p.buf|, page), write)
  {
    hide PageOp, Pagewise, TransferList;
    var first := FirstPart(prp1, |p.buf|, page);
    var one := Extent(prp1, first);
    var two := Extent(prp2, |p.buf| - first);
    PagewiseStep(p, 0, one, Listing([two], true), write);
    assert [one] + [two] == [one, two];
    NullPage(p, 0, first, write);
    var q := PageOp(p, prp1, 0, first, write);
    if q.Some? {
      PagewiseOne(q.value, first, two, write);
    }
  }

  lemma NullPage(p: Pair, lo: nat, hi: nat, write: bool)
    ensures PageOp(p, 0, lo, hi, write) == None
  {
  }
}
