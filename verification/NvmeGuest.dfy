/**
 A guest's side of NVMe transfers: a buffer in pages, the PRP entries and chained list pages that
 a driver writes for it (section 4.3 of the NVM Express Base Specification 1.4), and where each
 byte of the buffer is.
 */
module NvmeGuest {
  import opened MachineTypes
  import opened GuestMemory
  import opened NvmePrp
  import opened NvmeScatter

  /** The low `n` bytes of `x`, the lowest first. */
  function Bytes(x: nat, n: nat): (r: seq<byte>)
    ensures |r| == n
  {
    if n == 0 then [] else [x % 256] + Bytes(x / 256, n - 1)
  }

  function Power(n: nat): nat {
    if n == 0 then 1 else 256 * Power(n - 1)
  }

  lemma {:induction false} BytesBack(x: nat, n: nat)
    requires x < Power(n)
    ensures LittleEndian(Bytes(x, n)) == x
    decreases n
  {
    if n > 0 {
      assert Power(n) == 256 * Power(n - 1);
      BytesBack(x / 256, n - 1);
      assert Bytes(x, n)[1..] == Bytes(x / 256, n - 1);
    }
  }

  lemma Powers()
    ensures Power(2) == 0x1_0000 && Power(4) == 0x1_0000_0000 && Power(8) == 0x1_0000_0000_0000_0000
  {
    assert Power(2) == 256 * Power(1) == 256 * 256;
    assert Power(4) == 256 * Power(3) == 256 * 256 * Power(2);
    assert Power(6) == 256 * Power(5) == 256 * 256 * Power(4);
    assert Power(8) == 256 * Power(7) == 256 * 256 * Power(6);
  }

  /* ------------------------------------------------------------------ */
  /* Data buffers and the PRP entries that describe them.                 */
  /* ------------------------------------------------------------------ */

  /** The first page may be entered in the middle; `lists` are the pages of the PRP list, if there is one. */
  datatype Buffer = Buffer(pages: seq<nat>, lists: seq<nat>)

  /** As many pages as `n` bytes take. */
  predicate Enough(pages: seq<nat>, n: nat, page: nat)
    decreases |pages|
  {
    if pages == [] then n == 0 else n > 0 && Enough(pages[1..], n - Min(page, n), page)
  }

  /** `n` bytes over whole pages; the last may be used in part. */
  function Whole(pages: seq<nat>, n: nat, page: nat): (r: seq<Extent>)
    requires Enough(pages, n, page)
    ensures |r| == |pages| && Size(r) == n
    decreases |pages|
  {
    if pages == [] then [] else [Extent(pages[0], Min(page, n))] + Whole(pages[1..], n - Min(page, n), page)
  }

  /** The bytes up to the end of the first page, then whole pages. */
  predicate Covers(pages: seq<nat>, n: nat, page: nat)
    requires page > 0
  {
    pages != [] && Enough(pages[1..], n - Min(page - pages[0] % page, n), page)
  }

  function Chunks(pages: seq<nat>, n: nat, page: nat): (r: seq<Extent>)
    requires page > 0 && Covers(pages, n, page)
    ensures Size(r) == n
  {
    var first := Min(page - pages[0] % page, n);
    [Extent(pages[0], first)] + Whole(pages[1..], n - first, page)
  }

  /** Where byte `i` of the buffer is. */
  function At(chunks: seq<Extent>, i: nat): int
    requires i < Size(chunks)
  {
    if i < chunks[0].len then chunks[0].addr + i else At(chunks[1..], i - chunks[0].len)
  }

  /** The eight bytes at `at` are the address `x`. */
  predicate Holds(mem: Memory, at: int, x: nat) {
    Mapped(mem, at, 8) && Read(mem, at, 8) == Bytes(x, 8)
  }

  predicate HoldsAll(mem: Memory, at: int, xs: seq<nat>) {
    forall i {:trigger xs[i]} :: 0 <= i < |xs| ==> Holds(mem, at + 8 * i, xs[i])
  }

  /** List pages with one address after the other; where they do not fit, the last entry points to the next list page. */
  predicate ListAt(mem: Memory, lists: seq<nat>, pages: seq<nat>, page: nat)
    requires page >= 16 && page % 8 == 0
    decreases |lists|
  {
    && lists != [] && lists[0] != 0 && Mapped(mem, lists[0], page)
    && var room := page / 8;
       if |pages| <= room then |lists| == 1 && HoldsAll(mem, lists[0], pages)
       else
         && |lists| >= 2 && HoldsAll(mem, lists[0], pages[..room - 1] + [lists[1]])
         && ListAt(mem, lists[1..], pages[room - 1..], page)
  }

  /** PRP1 is the first page; PRP2 is the second page, or the list of all pages after the first. */
  predicate Describes(mem: Memory, prp1: nat, prp2: nat, b: Buffer, n: nat, page: nat)
    requires page >= 16 && page % 8 == 0
  {
    && Covers(b.pages, n, page) && prp1 == b.pages[0]
    && (forall i :: 0 <= i < |b.pages| ==> b.pages[i] < ADDRESS_LIMIT)
    && (forall i :: 0 <= i < |b.lists| ==> b.lists[i] < ADDRESS_LIMIT)
    && (|b.pages| <= 2 ==> b.lists == [])
    && (|b.pages| == 2 ==> prp2 == b.pages[1])
    && (|b.pages| > 2 ==> ListAt(mem, b.lists, b.pages[1..], page) && prp2 == b.lists[0])
  }

  lemma EntryIs(mem: Memory, at: nat, xs: seq<nat>, i: nat, page: nat)
    requires Mapped(mem, at, page) && HoldsAll(mem, at, xs) && i < |xs| && 8 * i + 8 <= page && xs[i] < ADDRESS_LIMIT
    ensures Entry(Read(mem, at, page), i) == xs[i]
  {
    assert Holds(mem, at + 8 * i, xs[i]);
    assert Read(mem, at, page)[8 * i..8 * i + 8] == Read(mem, at + 8 * i, 8);
    Powers();
    BytesBack(xs[i], 8);
  }

  /** How many pages are left tells how many bytes are left. */
  lemma EnoughLeft(pages: seq<nat>, n: nat, page: nat)
    requires Enough(pages, n, page) && page > 0
    ensures n > page <==> |pages| > 1
    ensures n == 0 <==> pages == []
  {
  }

  predicate Small(xs: seq<nat>) {
    forall i :: 0 <= i < |xs| ==> xs[i] < ADDRESS_LIMIT
  }

  /** The controller's walk of such a list finds the pages, in order, and reads the list pages. */
  lemma {:induction false} ListWalk(mem: Memory, lists: seq<nat>, pages: seq<nat>, i: nat, n: nat, page: nat)
    requires page >= 16 && page % 8 == 0 && ListAt(mem, lists, pages, page) && Small(pages) && Small(lists)
    requires i < |pages| && i < page / 8 && Enough(pages[i..], n, page)
    ensures var list := Read(mem, lists[0], page);
            && ListExtents(mem, list, i, n, page) == Listing(Whole(pages[i..], n, page), true)
            && ChainedLists(mem, list, i, n, page) == lists[1..]
    decreases |lists|, |pages| - i
  {
    hide Read, Bytes, Entry, Mapped, HoldsAll;
    var room := page / 8;
    var list := Read(mem, lists[0], page);
    EnoughLeft(pages[i..], n, page);
    if IsChain(i, n, page) {
      var next := pages[room - 1..];
      EntryIs(mem, lists[0], pages[..room - 1] + [lists[1]], i, page);
      assert next[0..] == next;
      ListWalk(mem, lists[1..], next, 0, n, page);
    } else {
      ThisEntry(mem, lists, pages, i, page);
      assert pages[i..][1..] == pages[i + 1..];
      var left := n - Min(page, n);
      if i + 1 < |pages| {
        ListWalk(mem, lists, pages, i + 1, left, page);
      } else {
        EnoughLeft(pages[i + 1..], left, page);
      }
    }
  }

  lemma ThisEntry(mem: Memory, lists: seq<nat>, pages: seq<nat>, i: nat, page: nat)
    requires page >= 16 && page % 8 == 0 && ListAt(mem, lists, pages, page) && Small(pages) && Small(lists)
    requires i < |pages| && (i < page / 8 - 1 || (i < page / 8 && |pages| <= page / 8))
    ensures Entry(Read(mem, lists[0], page), i) == pages[i]
  {
    var room := page / 8;
    if |pages| <= room {
      EntryIs(mem, lists[0], pages, i, page);
    } else {
      EntryIs(mem, lists[0], pages[..room - 1] + [lists[1]], i, page);
    }
  }

  /** From the PRP entries of a buffer the controller finds its pages, all of them and in order. */
  lemma BufferFound(mem: Memory, prp1: nat, prp2: nat, b: Buffer, n: nat, page: nat)
    requires page >= 16 && page % 8 == 0 && n > 0 && Describes(mem, prp1, prp2, b, n, page)
    ensures PrpExtents(mem, prp1, prp2, n, page) == Listing(Chunks(b.pages, n, page), true)
    ensures PrpLists(mem, prp1, prp2, n, page) == b.lists
  {
    hide Read, Bytes, ListAt, ListExtents, ChainedLists, Whole, Enough, Size;
    var rest := b.pages[1..];
    var left := n - FirstPart(prp1, n, page);
    EnoughLeft(rest, left, page);
    if |b.pages| == 1 {
      NoneWhole(left, page);
    } else if |b.pages| == 2 {
      OneWhole(rest, left, page);
    } else {
      ListFound(mem, b.lists, rest, left, page);
    }
  }

  lemma NoneWhole(n: nat, page: nat)
    requires Enough([], n, page)
    ensures Whole([], n, page) == []
  {
  }

  lemma OneWhole(pages: seq<nat>, n: nat, page: nat)
    requires Enough(pages, n, page) && |pages| == 1 && n <= page
    ensures Whole(pages, n, page) == [Extent(pages[0], n)]
  {
    assert pages[1..] == [];
  }

  lemma ListFound(mem: Memory, lists: seq<nat>, pages: seq<nat>, n: nat, page: nat)
    requires page >= 16 && page % 8 == 0 && ListAt(mem, lists, pages, page) && Small(pages) && Small(lists)
    requires pages != [] && Enough(pages, n, page)
    ensures lists[0] != 0 && Mapped(mem, lists[0], page)
    ensures ListExtents(mem, Read(mem, lists[0], page), 0, n, page) == Listing(Whole(pages, n, page), true)
    ensures [lists[0]] + ChainedLists(mem, Read(mem, lists[0], page), 0, n, page) == lists
  {
    hide Read, Bytes, Mapped, HoldsAll, ListExtents, ChainedLists, Whole, Enough;
    assert pages[0..] == pages;
    ListWalk(mem, lists, pages, 0, n, page);
    assert [lists[0]] + lists[1..] == lists;
  }

  /* ------------------------------------------------------------------ */
  /* Buffers byte by byte.                                                */
  /* ------------------------------------------------------------------ */

  lemma {:induction false} GatherAt(mem: Memory, chunks: seq<Extent>, i: nat)
    requires Usable(mem, chunks) && i < Size(chunks)
    ensures At(chunks, i) in mem && Gather(mem, chunks)[i] == mem[At(chunks, i)]
  {
    if i >= chunks[0].len {
      GatherAt(mem, chunks[1..], i - chunks[0].len);
    }
  }

  /** The address belongs to no part of the buffer. */
  predicate Outside(a: int, chunks: seq<Extent>) {
    chunks == [] || (Apart(a, 1, chunks[0].addr, chunks[0].len) && Outside(a, chunks[1..]))
  }

  /** After data is laid over the buffer, each byte is in its place and everything else is as before. */
  lemma ScatterAt(mem: Memory, chunks: seq<Extent>, data: seq<byte>)
    requires Usable(mem, chunks) && PairwiseApart(chunks) && Size(chunks) == |data|
    ensures var after := Scatter(mem, chunks, data);
            && after.Keys == mem.Keys
            && (forall i :: 0 <= i < |data| ==> At(chunks, i) in after && after[At(chunks, i)] == data[i])
            && (forall a :: a in mem && Outside(a, chunks) ==> after[a] == mem[a])
  {
    var after := Scatter(mem, chunks, data);
    ScatterKeepsKeys(mem, chunks, data);
    GatherUndoesScatter(mem, chunks, data);
    forall i | 0 <= i < |data|
      ensures At(chunks, i) in after && after[At(chunks, i)] == data[i]
    {
      GatherAt(after, chunks, i);
    }
    forall a | a in mem && Outside(a, chunks)
      ensures after[a] == mem[a]
    {
      OutsideStays(mem, chunks, data, a);
    }
  }

  lemma {:induction false} OutsideStays(mem: Memory, chunks: seq<Extent>, data: seq<byte>, a: int)
    requires Size(chunks) <= |data| && a in mem && Outside(a, chunks)
    ensures a in Scatter(mem, chunks, data) && Scatter(mem, chunks, data)[a] == mem[a]
    decreases |chunks|
  {
    if chunks != [] {
      var e := chunks[0];
      OutsideStays(Write(mem, e.addr, data[..e.len]), chunks[1..], data[e.len..], a);
    }
  }
}
