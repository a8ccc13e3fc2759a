/** The order of chunks, and what a ranged read of a CVMFS file gives byte by byte. */
module CvmfsChunks {
  import opened StringOrder
  import opened CvmfsRange

  /* ------------------------------------------------------------------ */
  /* Sorting.                                                             */
  /* ------------------------------------------------------------------ */

  /** No chunk comes before an earlier one. */
  predicate InOrder(chunks: seq<Chunk>) {
    forall i, j :: 0 <= i < j < |chunks| ==> !Before(chunks[j], chunks[i])
  }

  lemma BeforeTrans(a: Chunk, b: Chunk, c: Chunk)
    requires Before(a, b) && Before(b, c)
    ensures Before(a, c)
  {
    if a.offset == c.offset {
      BelowTrans(a.hash, b.hash, c.hash);
    }
  }

  lemma BeforeOnce(a: Chunk, b: Chunk)
    ensures !(Before(a, b) && Before(b, a))
  {
    BelowSides(a.hash, b.hash);
  }

  lemma {:induction false} InsertOrder(chunks: seq<Chunk>, c: Chunk)
    requires InOrder(chunks)
    ensures InOrder(Insert(chunks, c)) && multiset(Insert(chunks, c)) == multiset(chunks) + multiset{c}
  {
    hide Before;
    if chunks == [] {
    } else if Before(c, chunks[0]) {
      var r := [c] + chunks;
      forall j | 0 < j < |r|
        ensures !Before(r[j], c)
      {
        if Before(r[j], c) {
          BeforeTrans(r[j], c, chunks[0]);
          BeforeOnce(r[j], chunks[0]);
        }
      }
    } else {
      InsertOrder(chunks[1..], c);
      var rest := Insert(chunks[1..], c);
      assert chunks == [chunks[0]] + chunks[1..];
      forall y | y in rest
        ensures !Before(y, chunks[0])
      {
        assert y in multiset(rest);
        if y in chunks[1..] {
          var k :| 0 <= k < |chunks[1..]| && chunks[1..][k] == y;
        }
      }
    }
  }

  lemma {:induction false} SortOrder(chunks: seq<Chunk>)
    ensures InOrder(Sort(chunks)) && multiset(Sort(chunks)) == multiset(chunks)
  {
    if chunks != [] {
      SortOrder(chunks[..|chunks| - 1]);
      InsertOrder(Sort(chunks[..|chunks| - 1]), chunks[|chunks| - 1]);
      assert chunks == chunks[..|chunks| - 1] + [chunks[|chunks| - 1]];
    }
  }

  /** The chunks sorted are the chunks, by offset and, at one offset, by the order of their hashes. */
  lemma SortIs(chunks: seq<Chunk>, i: nat, j: nat)
    requires i < j < |Sort(chunks)|
    ensures multiset(Sort(chunks)) == multiset(chunks)
    ensures var a, b := Sort(chunks)[i], Sort(chunks)[j];
            a.offset < b.offset || (a.offset == b.offset && (a.hash == b.hash || Precedes(a.hash, b.hash)))
  {
    SortOrder(chunks);
    var a, b := Sort(chunks)[i], Sort(chunks)[j];
    assert !Before(b, a);
    BelowSides(a.hash, b.hash);
    BelowIs(a.hash, b.hash);
  }

  /** Chunks in the order of their offsets, no two at one offset. */
  predicate Rising(chunks: seq<Chunk>) {
    forall i, j :: 0 <= i < j < |chunks| ==> chunks[i].offset < chunks[j].offset
  }

  lemma {:induction false} TilesRise(store: Store, chunks: seq<Chunk>, at: int, size: int)
    requires Tiles(store, chunks, at, size)
    ensures Rising(chunks) && forall i :: 0 <= i < |chunks| ==> at <= chunks[i].offset
    decreases |chunks|
  {
    if chunks != [] {
      TilesRise(store, chunks[1..], at + chunks[0].size, size);
      assert forall i :: 0 < i < |chunks| ==> chunks[i] == chunks[1..][i - 1];
    }
  }

  /** The first of chunks in order has the smallest offset, so it is the only one there. */
  lemma FirstRising(a: seq<Chunk>, b: seq<Chunk>)
    requires InOrder(a) && Rising(b) && multiset(a) == multiset(b) && a != [] && b != []
    ensures a[0] == b[0]
  {
    assert a[0] in multiset(b) && b[0] in multiset(a);
    var i, j :| 0 <= i < |b| && b[i] == a[0] && 0 <= j < |a| && a[j] == b[0];
    if j > 0 {
      assert !Before(a[j], a[0]);
    }
  }

  lemma RestSame(a: seq<Chunk>, b: seq<Chunk>)
    requires a != [] && b != [] && a[0] == b[0] && multiset(a) == multiset(b)
    ensures multiset(a[1..]) == multiset(b[1..])
  {
    assert a == [a[0]] + a[1..] && b == [b[0]] + b[1..];
    assert multiset(a[1..]) == multiset(a) - multiset{a[0]} && multiset(b[1..]) == multiset(b) - multiset{b[0]};
  }

  lemma {:induction false} OneRising(a: seq<Chunk>, b: seq<Chunk>)
    requires InOrder(a) && Rising(b) && multiset(a) == multiset(b)
    ensures a == b
  {
    hide Before;
    assert |a| == |multiset(a)| == |multiset(b)| == |b|;
    if a != [] {
      FirstRising(a, b);
      RestSame(a, b);
      assert InOrder(a[1..]) && Rising(b[1..]);
      OneRising(a[1..], b[1..]);
    }
  }

  /** However they are listed, chunks that tile a file are sorted into the order in which they tile it. */
  lemma SortRestores(store: Store, listed: seq<Chunk>, chunks: seq<Chunk>, at: int, size: int)
    requires multiset(listed) == multiset(chunks) && Tiles(store, chunks, at, size)
    ensures Sort(listed) == chunks
  {
    SortOrder(listed);
    TilesRise(store, chunks, at, size);
    OneRising(Sort(listed), chunks);
  }

  /** So the order in which the catalog lists them makes no difference to a ranged read. */
  lemma ListingOrderIrrelevant(store: Store, f: File, chunks: seq<Chunk>, offset: int, length: int, room: nat)
    requires f.chunked && multiset(f.chunks) == multiset(chunks) && Tiles(store, chunks, 0, f.size)
    ensures ReadRange(store, f, offset, length, room) == ReadRange(store, f.(chunks := chunks), offset, length, room)
  {
    SortRestores(store, f.chunks, chunks, 0, f.size);
    SortRestores(store, chunks, chunks, 0, f.size);
    assert |f.chunks| == |multiset(f.chunks)| == |multiset(chunks)| == |chunks|;
    hide Sort, ByteRange, Wrap64, Tiles, StreamChunksRange;
  }

  /* ------------------------------------------------------------------ */
  /* Bytes.                                                               */
  /* ------------------------------------------------------------------ */

  lemma {:induction false} ContentAt(store: Store, chunks: seq<Chunk>, at: int, size: int, i: nat, k: nat)
    requires Tiles(store, chunks, at, size) && i < |chunks| && k < chunks[i].size
    ensures (chunks[i].hash, true) in store && |store[(chunks[i].hash, true)]| == chunks[i].size
    ensures 0 <= chunks[i].offset - at + k < |Content(store, chunks)|
    ensures Content(store, chunks)[chunks[i].offset - at + k] == store[(chunks[i].hash, true)][k]
    decreases |chunks|
  {
    if i > 0 {
      ContentAt(store, chunks[1..], at + chunks[0].size, size, i - 1, k);
    }
  }

  /** A chunked file has the bytes of each chunk's object from the chunk's offset on. */
  lemma ChunkBytes(store: Store, f: File, i: nat, k: nat)
    requires Readable(store, f) && f.chunked && i < |f.chunks| && k < f.chunks[i].size
    ensures var c := f.chunks[i];
            && (c.hash, true) in store && |store[(c.hash, true)]| == c.size
            && 0 <= c.offset + k < |FileBytes(store, f)|
            && FileBytes(store, f)[c.offset + k] == store[(c.hash, true)][k]
  {
    ContentAt(store, f.chunks, 0, f.size, i, k);
  }

  /** How many bytes a read of `length` bytes at `offset` gets, zero asking for all. */
  function Available(size: nat, offset: nat, length: nat): nat {
    if offset >= size then 0 else if length == 0 || length > size - offset then size - offset else length
  }

  /**
   Below the 64-bit limit a ranged read gives, byte for byte, the file from the offset on, as much
   as was asked for and is there, and reports the end exactly when it has been reached.
   */
  lemma ReadGives(store: Store, f: File, offset: nat, length: nat, room: nat)
    requires Readable(store, f) && offset <= MAX_INT64 && length <= MAX_INT64
    requires offset >= f.size || offset + length <= MAX_INT64
    requires Available(f.size, offset, length) <= room
    ensures var r := ReadRange(store, f, offset, length, room);
            && |FileBytes(store, f)| == f.size && ReadEntry(store, f) == Ok(FileBytes(store, f))
            && r.Ok? && |r.value.0| == Available(f.size, offset, length)
            && (forall i :: 0 <= i < |r.value.0| ==> r.value.0[i] == FileBytes(store, f)[offset + i])
            && (r.value.1 <==> offset + |r.value.0| >= f.size)
  {
    hide ReadRange, Readable, FileBytes, ReadEntry;
    ReadWhole(store, f);
    ReadRangeIsSlice(store, f, offset, length, room);
  }
}
