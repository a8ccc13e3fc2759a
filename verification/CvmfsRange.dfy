/** Whole and ranged reads of CVMFS files, stored as one object or as chunks. */
module CvmfsRange {
  import opened MachineTypes
  import opened StringOrder

  type Bytes = seq<byte>

  const MAX_INT64 := 0x7fff_ffff_ffff_ffff

  /** The signed 64-bit value of a sum or difference. */
  function Wrap64(x: int): (r: int)
    ensures -MAX_INT64 - 1 <= r <= MAX_INT64
    ensures -MAX_INT64 - 1 <= x <= MAX_INT64 ==> r == x
  {
    (x + 0x8000_0000_0000_0000) % 0x1_0000_0000_0000_0000 - 0x8000_0000_0000_0000
  }

  datatype Chunk = Chunk(offset: int, size: int, hash: string)

  /** A file of the catalog: chunked or external files list chunks, others name one object. */
  datatype File = File(size: int, chunked: bool, hash: string, chunks: seq<Chunk>)

  /** Decompressed objects by hash and kind; fetching what is not there fails. */
  type Store = map<(string, bool), Bytes>

  datatype Result<T> = Ok(value: T) | Err | Panic

  /* ------------------------------------------------------------------ */
  /* The range asked for.                                                 */
  /* ------------------------------------------------------------------ */

  datatype Range = Range(start: int, end: int, eof: bool)

  function ByteRange(size: int, offset: int, length: int): Range {
    if offset >= size then Range(size, size, true)
    else
      var sum := Wrap64(offset + length);
      var end := if length > 0 && sum < size then sum else size;
      Range(offset, end, end == size)
  }

  /** Up to `length` bytes from `offset`, all the rest when `length` is zero. */
  function Wanted(size: nat, offset: nat, length: nat): (r: Range)
    ensures 0 <= r.start <= r.end <= size && (r.eof <==> r.end == size)
  {
    var start := if offset < size then offset else size;
    var end := if length == 0 || offset + length > size then size else offset + length;
    Range(start, end, end == size)
  }

  /** The range is the one wanted unless the sum overflows inside the file. */
  lemma ByteRangeIff(size: nat, offset: nat, length: nat)
    requires size <= MAX_INT64 && offset <= MAX_INT64 && length <= MAX_INT64
    ensures ByteRange(size, offset, length) == Wanted(size, offset, length) <==> (offset >= size || offset + length <= MAX_INT64)
    ensures offset < size && offset + length > MAX_INT64 ==> ByteRange(size, offset, length).end < 0
  {
  }

  /* ------------------------------------------------------------------ */
  /* Whole reads.                                                         */
  /* ------------------------------------------------------------------ */

  function Fetch(store: Store, hash: string, partial: bool): Result<Bytes> {
    if (hash, partial) in store then Ok(store[(hash, partial)]) else Err
  }

  /** Chunk after chunk; a chunk cut short by the file's size makes the copy fail. */
  function StreamChunks(store: Store, chunks: seq<Chunk>, size: int, written: int): Result<Bytes> {
    if chunks == [] || size - written <= 0 then Ok([])
    else
      var data := Fetch(store, chunks[0].hash, true);
      if !data.Ok? || (chunks[0].size > size - written && |data.value| > size - written) then Err
      else
        var rest := StreamChunks(store, chunks[1..], size, written + |data.value|);
        if rest.Ok? then Ok(data.value + rest.value) else rest
  }

  function StreamEntry(store: Store, f: File): Result<Bytes> {
    if !f.chunked then Fetch(store, f.hash, false)
    else if f.chunks == [] then Err
    else StreamChunks(store, f.chunks, f.size, 0)
  }

  function ReadEntry(store: Store, f: File): Result<Bytes> {
    var r := StreamEntry(store, f);
    if r.Ok? && |r.value| > f.size then (if f.size >= 0 then Ok(r.value[..f.size]) else Panic) else r
  }

  /* ------------------------------------------------------------------ */
  /* Ranged reads.                                                        */
  /* ------------------------------------------------------------------ */

  function Min(a: int, b: int): int { if a < b then a else b }

  function Max(a: int, b: int): int { if a > b then a else b }

  /** Skipping `offset` bytes and copying up to `length`. */
  function CopyRange(data: Bytes, offset: int, length: int): (r: Bytes)
  {
    var skip := Max(offset, 0);
    if skip > |data| || length <= 0 then [] else data[skip..Min(skip + length, |data|)]
  }

  function FetchRange(store: Store, hash: string, partial: bool, offset: int, length: int): Result<Bytes> {
    var data := Fetch(store, hash, partial);
    if data.Ok? then Ok(CopyRange(data.value, offset, length)) else data
  }

  predicate Touches(c: Chunk, offset: int, rangeEnd: int) {
    var chunkEnd := Wrap64(c.offset + c.size);
    chunkEnd > offset && c.offset < rangeEnd && Min(rangeEnd, chunkEnd) > Max(offset, c.offset)
  }

  /** The bytes a chunk contributes to a range. */
  function Part(store: Store, c: Chunk, offset: int, rangeEnd: int): Result<Bytes> {
    var lo, hi := Max(offset, c.offset), Min(rangeEnd, Wrap64(c.offset + c.size));
    if Touches(c, offset, rangeEnd) then FetchRange(store, c.hash, true, Wrap64(lo - c.offset), Wrap64(hi - lo)) else Ok([])
  }

  function StreamChunksRange(store: Store, chunks: seq<Chunk>, offset: int, rangeEnd: int): Result<Bytes> {
    if chunks == [] then Ok([])
    else
      var first := Part(store, chunks[0], offset, rangeEnd);
      if !first.Ok? then first
      else
        var rest := StreamChunksRange(store, chunks[1..], offset, rangeEnd);
        if rest.Ok? then Ok(first.value + rest.value) else rest
  }

  predicate Before(a: Chunk, b: Chunk) {
    a.offset < b.offset || (a.offset == b.offset && Below(a.hash, b.hash))
  }

  function Insert(chunks: seq<Chunk>, c: Chunk): seq<Chunk> {
    if chunks == [] || Before(c, chunks[0]) then [c] + chunks else [chunks[0]] + Insert(chunks[1..], c)
  }

  /** By offset, then by hash. */
  function Sort(chunks: seq<Chunk>): seq<Chunk> {
    if chunks == [] then [] else Insert(Sort(chunks[..|chunks| - 1]), chunks[|chunks| - 1])
  }

  function StreamEntryRange(store: Store, f: File, offset: int, length: int): Result<Bytes> {
    if length <= 0 then Ok([])
    else if !f.chunked then FetchRange(store, f.hash, false, offset, length)
    else if f.chunks == [] then Err
    else StreamChunksRange(store, Sort(f.chunks), offset, Wrap64(offset + length))
  }

  /** `room` is the largest buffer that can be had: growing to a negative size or beyond it panics. */
  function ReadRange(store: Store, f: File, offset: int, length: int, room: nat): Result<(Bytes, bool)> {
    var r := ByteRange(f.size, offset, length);
    var count := Wrap64(r.end - r.start);
    if r.start == r.end then Ok(([], r.eof))
    else if count < 0 || count > room then Panic
    else
      var data := StreamEntryRange(store, f, r.start, count);
      if data.Ok? then Ok((data.value, r.eof)) else Err
  }

  /* ------------------------------------------------------------------ */
  /* Files whose chunks tile them.                                        */
  /* ------------------------------------------------------------------ */

  /** The chunks fill `[at, size)` in order, and each object is as long as its chunk says. */
  predicate Tiles(store: Store, chunks: seq<Chunk>, at: int, size: int) {
    if chunks == [] then at == size
    else
      var c := chunks[0];
      && c.offset == at && c.size > 0 && (c.hash, true) in store && |store[(c.hash, true)]| == c.size
      && Tiles(store, chunks[1..], at + c.size, size)
  }

  /** A file that can be read: its object, or chunks that tile it. */
  predicate Readable(store: Store, f: File) {
    0 <= f.size <= MAX_INT64
    && if f.chunked then f.chunks != [] && Tiles(store, f.chunks, 0, f.size)
       else (f.hash, false) in store && |store[(f.hash, false)]| >= f.size
  }

  function Content(store: Store, chunks: seq<Chunk>): Bytes {
    if chunks == [] || (chunks[0].hash, true) !in store then []
    else store[(chunks[0].hash, true)] + Content(store, chunks[1..])
  }

  lemma {:induction false} ContentSize(store: Store, chunks: seq<Chunk>, at: int, size: int)
    requires Tiles(store, chunks, at, size)
    ensures |Content(store, chunks)| == size - at
  {
    if chunks != [] {
      ContentSize(store, chunks[1..], at + chunks[0].size, size);
    }
  }

  lemma {:induction false} WholeIsContent(store: Store, chunks: seq<Chunk>, at: int, size: int)
    requires Tiles(store, chunks, at, size)
    ensures StreamChunks(store, chunks, size, at) == Ok(Content(store, chunks))
  {
    if chunks != [] {
      ContentSize(store, chunks[1..], at + chunks[0].size, size);
      WholeIsContent(store, chunks[1..], at + chunks[0].size, size);
    }
  }

  /** Reading a range chunk by chunk reads the range. */
  lemma {:induction false} RangeIsSlice(store: Store, chunks: seq<Chunk>, at: int, size: int, lo: int, hi: int)
    requires Tiles(store, chunks, at, size) && 0 <= at && 0 <= lo <= hi <= size <= MAX_INT64
    ensures |Content(store, chunks)| == size - at
    ensures var from := Max(lo - at, 0);
            StreamChunksRange(store, chunks, lo, hi) == Ok(Content(store, chunks)[from..Max(hi - at, from)])
  {
    ContentSize(store, chunks, at, size);
    if chunks != [] {
      var c := chunks[0];
      var data, rest, end := store[(c.hash, true)], Content(store, chunks[1..]), at + c.size;
      ContentSize(store, chunks[1..], end, size);
      RangeIsSlice(store, chunks[1..], end, size, lo, hi);
      SliceJoin(data, rest, Max(lo - at, 0), Max(hi - at, Max(lo - at, 0)));
    }
  }

  /** A slice across a join is a slice of each side. */
  lemma SliceJoin(a: Bytes, b: Bytes, i: nat, j: nat)
    requires i <= j <= |a| + |b|
    ensures (a + b)[i..j] == a[Min(i, |a|)..Min(j, |a|)] + b[Max(i - |a|, 0)..Max(j - |a|, 0)]
  {
  }

  lemma {:induction false} SortTiles(store: Store, chunks: seq<Chunk>, at: int, size: int)
    requires Tiles(store, chunks, at, size)
    ensures Sort(chunks) == chunks
    decreases |chunks|
  {
    if chunks != [] {
      var front, last := chunks[..|chunks| - 1], chunks[|chunks| - 1];
      FrontTiles(store, chunks, at, size);
      SortTiles(store, front, at, last.offset);
      InsertLast(store, front, at, last);
      assert front + [last] == chunks;
    }
  }

  lemma {:induction false} FrontTiles(store: Store, chunks: seq<Chunk>, at: int, size: int)
    requires Tiles(store, chunks, at, size) && chunks != []
    ensures Tiles(store, chunks[..|chunks| - 1], at, chunks[|chunks| - 1].offset)
    decreases |chunks|
  {
    if |chunks| > 1 {
      FrontTiles(store, chunks[1..], at + chunks[0].size, size);
      assert chunks[1..][..|chunks| - 2] == chunks[..|chunks| - 1][1..];
    }
  }

  lemma {:induction false} InsertLast(store: Store, chunks: seq<Chunk>, at: int, c: Chunk)
    requires Tiles(store, chunks, at, c.offset)
    ensures Insert(chunks, c) == chunks + [c]
    decreases |chunks|
  {
    if chunks != [] {
      TilesForward(store, chunks, at, c.offset);
      InsertLast(store, chunks[1..], at + chunks[0].size, c);
    }
  }

  lemma {:induction false} TilesForward(store: Store, chunks: seq<Chunk>, at: int, size: int)
    requires Tiles(store, chunks, at, size)
    ensures at + |chunks| <= size
    decreases |chunks|
  {
    if chunks != [] {
      TilesForward(store, chunks[1..], at + chunks[0].size, size);
    }
  }

  /** The bytes of a readable file. */
  function FileBytes(store: Store, f: File): (b: Bytes)
    requires Readable(store, f)
  {
    if f.chunked then Content(store, f.chunks) else store[(f.hash, false)][..f.size]
  }

  lemma ReadWhole(store: Store, f: File)
    requires Readable(store, f)
    ensures |FileBytes(store, f)| == f.size && ReadEntry(store, f) == Ok(FileBytes(store, f))
  {
    if f.chunked {
      ContentSize(store, f.chunks, 0, f.size);
      WholeIsContent(store, f.chunks, 0, f.size);
    } else {
      var data := store[(f.hash, false)];
      assert |data| == f.size ==> data[..f.size] == data;
    }
  }

  lemma StreamsSlice(store: Store, f: File, lo: nat, hi: nat)
    requires Readable(store, f) && lo < hi <= f.size
    ensures |FileBytes(store, f)| == f.size && StreamEntryRange(store, f, lo, hi - lo) == Ok(FileBytes(store, f)[lo..hi])
  {
    if f.chunked {
      SortTiles(store, f.chunks, 0, f.size);
      RangeIsSlice(store, f.chunks, 0, f.size, lo, hi);
    } else {
      var data := store[(f.hash, false)];
      assert data[..f.size][lo..hi] == data[lo..hi];
    }
  }

  /** What was asked for: the wanted slice of the file, with its end flag, if there is a buffer for it. */
  function Asked(store: Store, f: File, offset: nat, length: nat, room: nat): Result<(Bytes, bool)>
    requires Readable(store, f) && |FileBytes(store, f)| == f.size
  {
    var w := Wanted(f.size, offset, length);
    if w.end - w.start > room then Panic else Ok((FileBytes(store, f)[w.start..w.end], w.eof))
  }

  /** Below the 64-bit limit a ranged read is the wanted slice of the whole read, and reports the end exactly. */
  lemma ReadRangeIsSlice(store: Store, f: File, offset: nat, length: nat, room: nat)
    requires Readable(store, f) && offset <= MAX_INT64 && length <= MAX_INT64
    requires offset >= f.size || offset + length <= MAX_INT64
    ensures |FileBytes(store, f)| == f.size
    ensures ReadRange(store, f, offset, length, room) == Asked(store, f, offset, length, room)
  {
    ReadWhole(store, f);
    ByteRangeIff(f.size, offset, length);
    hide Readable, FileBytes, StreamEntryRange, ByteRange;
    var w := Wanted(f.size, offset, length);
    if w.start < w.end {
      StreamsSlice(store, f, w.start, w.end);
    } else {
      assert FileBytes(store, f)[w.start..w.end] == [];
    }
  }

  /** Past a negative end of the range there is no chunk. */
  lemma {:induction false} NothingBefore(store: Store, chunks: seq<Chunk>, at: nat, size: int, offset: int, rangeEnd: int)
    requires Tiles(store, chunks, at, size) && rangeEnd <= 0
    ensures StreamChunksRange(store, chunks, offset, rangeEnd) == Ok([])
    decreases |chunks|
  {
    if chunks != [] {
      var first := Part(store, chunks[0], offset, rangeEnd);
      NothingBefore(store, chunks[1..], at + chunks[0].size, size, offset, rangeEnd);
      assert first.value + [] == first.value;
    }
  }

  /**
   A sum past the 64-bit limit inside the file: the range length comes back as `length`,
   the end of the file is never reported, a chunked file gives nothing, and a single
   object gives all it has from the offset, even beyond the size of the file.
   */
  lemma OverflowReads(store: Store, f: File, offset: nat, length: nat, room: nat)
    requires Readable(store, f) && length <= MAX_INT64 && offset < f.size && offset + length > MAX_INT64
    ensures ReadRange(store, f, offset, length, room)
         == if length > room then Panic
            else if f.chunked then Ok(([], false))
            else Ok((store[(f.hash, false)][offset..Min(offset + length, |store[(f.hash, false)]|)], false))
  {
    ByteRangeIff(f.size, offset, length);
    assert Wrap64(Wrap64(offset + length) - offset) == length;
    if f.chunked {
      SortTiles(store, f.chunks, 0, f.size);
      NothingBefore(store, f.chunks, 0, f.size, offset, Wrap64(offset + length));
    }
  }

  /** A ranged read that a buffer can hold is the one asked for exactly when the sum does not overflow inside the file. */
  lemma ReadRangeIff(store: Store, f: File, offset: nat, length: nat, room: nat)
    requires Readable(store, f) && offset <= MAX_INT64 && length <= MAX_INT64
    requires var w := Wanted(f.size, offset, length); w.end - w.start <= room
    ensures |FileBytes(store, f)| == f.size
    ensures ReadRange(store, f, offset, length, room) == Asked(store, f, offset, length, room)
       <==> (offset >= f.size || offset + length <= MAX_INT64)
  {
    ReadWhole(store, f);
    if offset >= f.size || offset + length <= MAX_INT64 {
      ReadRangeIsSlice(store, f, offset, length, room);
    } else {
      OverflowReads(store, f, offset, length, room);
    }
  }

  lemma AdjacentWanted(whole: Bytes, offset: nat, first: nat, second: nat)
    requires first > 0
    ensures var size := |whole|;
            var a, b := Wanted(size, offset, first), Wanted(size, offset + first, second);
            var c := Wanted(size, offset, if second == 0 then 0 else first + second);
            && whole[a.start..a.end] + whole[b.start..b.end] == whole[c.start..c.end] && b.eof == c.eof
            && a.end - a.start <= c.end - c.start && b.end - b.start <= c.end - c.start
  {
    var a, b := Wanted(|whole|, offset, first), Wanted(|whole|, offset + first, second);
    assert a.end == b.start;
    assert whole[a.start..a.end] + whole[b.start..b.end] == whole[a.start..b.end];
  }

  /** Adjacent ranges read the joined range, and the second one tells its end. */
  lemma AdjacentRanges(store: Store, f: File, offset: nat, first: nat, second: nat, room: nat)
    requires Readable(store, f) && first > 0 && offset + first + second <= MAX_INT64
    requires var w := Wanted(f.size, offset, if second == 0 then 0 else first + second); w.end - w.start <= room
    ensures var a, b := ReadRange(store, f, offset, first, room), ReadRange(store, f, offset + first, second, room);
            var joined := ReadRange(store, f, offset, if second == 0 then 0 else first + second, room);
            a.Ok? && b.Ok? && joined == Ok((a.value.0 + b.value.0, b.value.1))
  {
    hide ReadRange, FileBytes, Readable, Wanted;
    ReadRangeIsSlice(store, f, offset, first, room);
    ReadRangeIsSlice(store, f, offset + first, second, room);
    ReadRangeIsSlice(store, f, offset, if second == 0 then 0 else first + second, room);
    AdjacentWanted(FileBytes(store, f), offset, first, second);
  }

  /* ------------------------------------------------------------------ */
  /* The loops.                                                           */
  /* ------------------------------------------------------------------ */

  method StreamEntryData(store: Store, f: File) returns (r: Result<Bytes>)
    ensures r == StreamEntry(store, f)
  {
    if !f.chunked {
      return Fetch(store, f.hash, false);
    }
    if f.chunks == [] {
      return Err;
    }
    var dst, written, i := [], 0, 0;
    ghost var whole := StreamChunks(store, f.chunks, f.size, 0);
    AfterNothing(whole);
    while i < |f.chunks|
      invariant i <= |f.chunks|
      invariant After(dst, StreamChunks(store, f.chunks[i..], f.size, written)) == whole
    {
      var remaining := f.size - written;
      if remaining <= 0 {
        break;
      }
      var chunk := f.chunks[i];
      assert f.chunks[i..][1..] == f.chunks[i + 1..];
      var data := Fetch(store, chunk.hash, true);
      if !data.Ok? || (chunk.size > remaining && |data.value| > remaining) {
        return Err;
      }
      AfterJoin(dst, data.value, StreamChunks(store, f.chunks[i + 1..], f.size, written + |data.value|));
      dst := dst + data.value;
      written := written + |data.value|;
      i := i + 1;
    }
    AfterAll(dst);
    return Ok(dst);
  }

  /** What has been written, with what is still to come. */
  function After(dst: Bytes, rest: Result<Bytes>): Result<Bytes> {
    if rest.Ok? then Ok(dst + rest.value) else rest
  }

  lemma AfterNothing(rest: Result<Bytes>)
    ensures After([], rest) == rest
  {
    if rest.Ok? {
      assert [] + rest.value == rest.value;
    }
  }

  lemma AfterAll(dst: Bytes)
    ensures After(dst, Ok([])) == Ok(dst)
  {
    assert dst + [] == dst;
  }

  lemma AfterJoin(dst: Bytes, data: Bytes, rest: Result<Bytes>)
    ensures After(dst + data, rest) == After(dst, After(data, rest))
    ensures rest.Ok? ==> After(data, rest) == Ok(data + rest.value)
    ensures !rest.Ok? ==> After(data, rest) == rest
  {
    if rest.Ok? {
      assert dst + data + rest.value == dst + (data + rest.value);
    }
  }

  method SortChunks(chunks: seq<Chunk>) returns (sorted: seq<Chunk>)
    ensures sorted == Sort(chunks)
  {
    sorted := [];
    var i := 0;
    while i < |chunks|
      invariant i <= |chunks| && sorted == Sort(chunks[..i])
    {
      assert chunks[..i + 1][..i] == chunks[..i];
      sorted := Insert(sorted, chunks[i]);
      i := i + 1;
    }
    assert chunks[..i] == chunks;
  }

  method StreamEntryDataRange(store: Store, f: File, offset: int, length: int) returns (r: Result<Bytes>)
    ensures r == StreamEntryRange(store, f, offset, length)
  {
    if length <= 0 {
      return Ok([]);
    }
    if !f.chunked {
      return FetchRange(store, f.hash, false, offset, length);
    }
    if f.chunks == [] {
      return Err;
    }
    var chunks := SortChunks(f.chunks);
    r := StreamSorted(store, chunks, offset, Wrap64(offset + length));
  }

  method StreamPart(store: Store, chunk: Chunk, offset: int, rangeEnd: int) returns (r: Result<Bytes>)
    ensures r == Part(store, chunk, offset, rangeEnd)
  {
    var chunkEnd := Wrap64(chunk.offset + chunk.size);
    if chunkEnd <= offset || chunk.offset >= rangeEnd {
      return Ok([]);
    }
    var overlapStart := Max(offset, chunk.offset);
    var overlapEnd := Min(rangeEnd, chunkEnd);
    if overlapEnd <= overlapStart {
      return Ok([]);
    }
    r := FetchRange(store, chunk.hash, true, Wrap64(overlapStart - chunk.offset), Wrap64(overlapEnd - overlapStart));
  }

  method StreamSorted(store: Store, chunks: seq<Chunk>, offset: int, rangeEnd: int) returns (r: Result<Bytes>)
    ensures r == StreamChunksRange(store, chunks, offset, rangeEnd)
  {
    hide Part;
    var dst, i := [], 0;
    ghost var whole := StreamChunksRange(store, chunks, offset, rangeEnd);
    AfterNothing(whole);
    while i < |chunks|
      invariant i <= |chunks|
      invariant After(dst, StreamChunksRange(store, chunks[i..], offset, rangeEnd)) == whole
    {
      assert chunks[i..][1..] == chunks[i + 1..];
      var part := StreamPart(store, chunks[i], offset, rangeEnd);
      if !part.Ok? {
        return part;
      }
      AfterJoin(dst, part.value, StreamChunksRange(store, chunks[i + 1..], offset, rangeEnd));
      dst := dst + part.value;
      i := i + 1;
    }
    AfterAll(dst);
    return Ok(dst);
  }

  method ReadFileRange(store: Store, f: File, offset: int, length: int, room: nat) returns (r: Result<(Bytes, bool)>)
    ensures r == ReadRange(store, f, offset, length, room)
  {
    var range := ByteRange(f.size, offset, length);
    if range.start == range.end {
      return Ok(([], range.eof));
    }
    var count := Wrap64(range.end - range.start);
    if count < 0 || count > room {
      return Panic;
    }
    var data := StreamEntryDataRange(store, f, range.start, count);
    return if data.Ok? then Ok((data.value, range.eof)) else Err;
  }
}
