/** Commands from the guest's side: which bytes move between its buffers and the disk, and what it reads in the completion. */
module NvmeServed {
  import opened Wrappers
  import opened MachineTypes
  import opened GuestMemory
  import opened NvmePrp
  import opened NvmeScatter
  import opened NvmeRings
  import opened NvmeIo
  import opened NvmeProtocol
  import opened NvmeServing
  import opened NvmeGuest

  /* ------------------------------------------------------------------ */
  /* Submission entries.                                                  */
  /* ------------------------------------------------------------------ */

  /** An I/O command as a driver thinks of it. */
  datatype Request = Request(opcode: byte, cid: uint16, prp1: uint64, prp2: uint64, lba: uint64, blocks: nat)

  /** Bytes of an entry that an I/O command does not use. */
  datatype Unused = Unused(flags: byte, middle: seq<byte>, end: seq<byte>)

  predicate Entered(r: Request, u: Unused) {
    1 <= r.blocks <= 0x1_0000 && |u.middle| == 20 && |u.end| == 14
  }

  /** The 64 bytes of a submission entry: the number of blocks is written less one. */
  function SubmissionEntry(r: Request, u: Unused): (raw: seq<byte>)
    requires Entered(r, u)
    ensures |raw| == 64
  {
    [r.opcode, u.flags] + Bytes(r.cid, 2) + u.middle + Bytes(r.prp1, 8) + Bytes(r.prp2, 8) + Bytes(r.lba, 8)
    + Bytes(r.blocks - 1, 2) + u.end
  }

  lemma {:induction false} LittleEndianJoin(a: seq<byte>, b: seq<byte>)
    ensures LittleEndian(a + b) == LittleEndian(a) + Power(|a|) * LittleEndian(b)
  {
    if a == [] {
      assert a + b == b;
    } else {
      assert (a + b)[1..] == a[1..] + b;
      LittleEndianJoin(a[1..], b);
      Scaled(Power(|a| - 1), LittleEndian(b));
    }
  }

  lemma Scaled(p: nat, y: nat)
    ensures 256 * (p * y) == (256 * p) * y
  {
  }

  /** The fields of an entry, each from its bytes. */
  lemma EntryFields(r: Request, u: Unused)
    requires Entered(r, u)
    ensures var raw := SubmissionEntry(r, u);
            && raw[0] == r.opcode && raw[2..4] == Bytes(r.cid, 2)
            && raw[24..32] == Bytes(r.prp1, 8) && raw[32..40] == Bytes(r.prp2, 8)
            && raw[40..44] + raw[44..48] == Bytes(r.lba, 8)
            && raw[48..52] == Bytes(r.blocks - 1, 2) + u.end[..2]
  {
    hide Bytes;
  }

  /** What the controller reads out of an entry is what the driver meant. */
  lemma EntryParses(r: Request, u: Unused)
    requires Entered(r, u)
    ensures var cmd := ParseCommand(SubmissionEntry(r, u));
            && cmd.opcode == r.opcode && cmd.cid == r.cid && cmd.prp1 == r.prp1 && cmd.prp2 == r.prp2
            && Lba(cmd) == r.lba && Count(cmd) == 512 * r.blocks
  {
    hide Bytes, SubmissionEntry, LittleEndian, Power;
    var raw := SubmissionEntry(r, u);
    EntryFields(r, u);
    Powers();
    BytesBack(r.cid, 2);
    BytesBack(r.prp1, 8);
    BytesBack(r.prp2, 8);
    TwoWords(raw[40..44], raw[44..48], r.lba);
    LowHalf(raw[48..52], r.blocks - 1, u.end[..2]);
  }

  /** A 64-bit number over two dwords, the low one first. */
  lemma TwoWords(low: seq<byte>, high: seq<byte>, x: uint64)
    requires |low| == 4 && low + high == Bytes(x, 8)
    ensures LittleEndian(low) + LittleEndian(high) * 0x1_0000_0000 == x
  {
    hide Bytes, LittleEndian;
    Powers();
    hide Power;
    BytesBack(x, 8);
    LittleEndianJoin(low, high);
  }

  /** A 16-bit number in the low half of a dword. */
  lemma LowHalf(word: seq<byte>, x: uint16, high: seq<byte>)
    requires word == Bytes(x, 2) + high
    ensures LittleEndian(word) % 0x1_0000 == x
  {
    hide Bytes, LittleEndian;
    Powers();
    hide Power;
    BytesBack(x, 2);
    LittleEndianJoin(Bytes(x, 2), high);
  }

  /* ------------------------------------------------------------------ */
  /* Completion entries.                                                  */
  /* ------------------------------------------------------------------ */

  datatype Completion = Completion(head: nat, sqid: nat, cid: nat, status: nat, phase: bool)

  function HalfWord(raw: seq<byte>, i: nat): nat
    requires i + 1 < |raw|
  {
    var low: nat, high: nat := raw[i], raw[i + 1];
    low + 256 * high
  }

  /** A completion entry as a driver reads it. */
  function ReadCompletion(raw: seq<byte>): Completion
    requires |raw| == 16
  {
    Completion(HalfWord(raw, 8), HalfWord(raw, 10), HalfWord(raw, 12), HalfWord(raw, 14) / 2, raw[14] % 2 == 1)
  }

  /** A driver gets back head, queue, command, status and phase. */
  lemma CompletionBack(head: nat, sqid: uint16, cid: uint16, status: uint16, phase: bool)
    requires head < 0x1_0000 && status < 0x8000
    ensures ReadCompletion(CompletionBytes(head, sqid, cid, status, phase)) == Completion(head, sqid, cid, status, phase)
  {
    var raw := CompletionBytes(head, sqid, cid, status, phase);
    var bit := if phase then 1 else 0;
    var field := 2 * status + bit;
    assert raw[8..] == Bytes16(head) + Bytes16(sqid) + Bytes16(cid) + Bytes16(field);
    assert raw[14] == field % 256 && raw[15] == field / 256;
    assert field / 2 == status && field % 256 % 2 == bit;
  }

  /* ------------------------------------------------------------------ */
  /* Commands served.                                                     */
  /* ------------------------------------------------------------------ */

  /** The entry at the head of the submission ring. */
  predicate Submitted(w: Work, qid: uint16, r: Request, u: Unused)
    requires ServingIo(w, qid)
  {
    var q := w.queues[qid];
    var at := q.sqAddr + 64 * q.ring.sqHead;
    Entered(r, u) && Mapped(w.dev.mem, at, 64) && Read(w.dev.mem, at, 64) == SubmissionEntry(r, u)
  }

  /** The buffer of a command: described by its PRP entries, mapped, not at address zero, no byte twice. */
  predicate Given(dev: Device, r: Request, b: Buffer)
    requires ValidPage(dev.page)
  {
    var n := 512 * r.blocks;
    && n > 0 && Describes(dev.mem, r.prp1, r.prp2, b, n, dev.page)
    && Usable(dev.mem, Chunks(b.pages, n, dev.page)) && PairwiseApart(Chunks(b.pages, n, dev.page))
  }

  function BufferOf(dev: Device, r: Request, b: Buffer): seq<Extent>
    requires ValidPage(dev.page) && Given(dev, r, b)
    ensures Size(BufferOf(dev, r, b)) == 512 * r.blocks
  {
    Chunks(b.pages, 512 * r.blocks, dev.page)
  }

  /** The slot for the next completion of the queue. */
  function SlotOf(w: Work, qid: uint16): int
    requires ServingIo(w, qid) && w.queues[qid].cqID in w.queues
  {
    var cq := w.queues[w.queues[qid].cqID];
    cq.cqAddr + 16 * cq.ring.cqTail
  }

  /** The completion can be posted, and not into the buffer. */
  predicate Answerable(w: Work, qid: uint16, chunks: seq<Extent>)
    requires ServingIo(w, qid)
  {
    var q := w.queues[qid];
    && 0 < q.ring.size < INDEX_LIMIT && q.id == qid && q.cqID in w.queues && w.queues[q.cqID].ring.size > 0
    && Mapped(w.dev.mem, SlotOf(w, qid), 16)
    && forall a :: SlotOf(w, qid) <= a < SlotOf(w, qid) + 16 ==> Outside(a, chunks)
  }

  /** What the driver finds in the completion slot. */
  predicate Answered(w: Work, qid: uint16, t: Work, r: Request)
    requires ServingIo(w, qid) && w.queues[qid].cqID in w.queues && w.queues[qid].ring.size > 0
  {
    var q, cq := w.queues[qid], w.queues[w.queues[qid].cqID];
    var head := if q.ring.sqHead + 1 == q.ring.size then 0 else q.ring.sqHead + 1;
    && Mapped(t.dev.mem, SlotOf(w, qid), 16)
    && ReadCompletion(Read(t.dev.mem, SlotOf(w, qid), 16)) == Completion(head, qid, r.cid, 0, cq.ring.cqPhase)
  }

  /** The byte of the disk at `j`, zero past its end. */
  function DiskByte(disk: seq<byte>, j: nat): byte { if j < |disk| then disk[j] else 0 }

  /** Byte `i` of the buffer is byte `i` of the data. */
  predicate Lies(mem: Memory, chunks: seq<Extent>, data: seq<byte>)
    requires Size(chunks) == |data|
  {
    forall i :: 0 <= i < |data| ==> At(chunks, i) in mem && mem[At(chunks, i)] == data[i]
  }

  /** The buffer holds the blocks from `lba` on. */
  predicate HoldsBlocks(mem: Memory, chunks: seq<Extent>, disk: seq<byte>, lba: nat, blocks: nat)
    requires Size(chunks) == 512 * blocks
  {
    forall i :: 0 <= i < 512 * blocks ==> At(chunks, i) in mem && mem[At(chunks, i)] == DiskByte(disk, 512 * lba + i)
  }

  lemma DiskBytesAre(disk: seq<byte>, offset: nat, n: nat)
    ensures forall i :: 0 <= i < n ==> DiskBytes(disk, offset, n)[i] == DiskByte(disk, offset + i)
  {
  }

  /** The controller fetches the request and finds its buffer. */
  lemma Fetched(w: Work, qid: uint16, r: Request, u: Unused, b: Buffer)
    requires ServingIo(w, qid) && Submitted(w, qid, r, u) && Given(w.dev, r, b) && r.lba < 0x40_0000_0000_0000
    ensures var cmd := Fetch(w.dev.mem, w.queues[qid]);
            && cmd.Some? && cmd.value.opcode == r.opcode && cmd.value.cid == r.cid
            && Offset(Lba(cmd.value)) == 512 * r.lba && Count(cmd.value) == 512 * r.blocks
            && Addressable(w.dev.mem, cmd.value, w.dev.page) && Pages(w.dev.mem, cmd.value, w.dev.page) == BufferOf(w.dev, r, b)
            && PrpLists(w.dev.mem, cmd.value.prp1, cmd.value.prp2, Count(cmd.value), w.dev.page) == b.lists
  {
    hide SubmissionEntry, ParseCommand, Offset, Lba, Count, PrpExtents, PrpLists, Usable, Chunks, Describes, PairwiseApart;
    hide Mapped, Read, Covers;
    var q := w.queues[qid];
    EntryFetched(w, qid, r, u);
    EntryParses(r, u);
    OffsetIsBlockStart(r.lba);
    GivenCovers(w.dev, r, b);
    BufferFound(w.dev.mem, r.prp1, r.prp2, b, 512 * r.blocks, w.dev.page);
  }

  lemma EntryFetched(w: Work, qid: uint16, r: Request, u: Unused)
    requires ServingIo(w, qid) && Submitted(w, qid, r, u)
    ensures Fetch(w.dev.mem, w.queues[qid]) == Some(ParseCommand(SubmissionEntry(r, u)))
  {
    hide SubmissionEntry, ParseCommand;
    var q := w.queues[qid];
    AddressFits(q.sqAddr + 64 * q.ring.sqHead);
  }

  lemma GivenCovers(dev: Device, r: Request, b: Buffer)
    requires ValidPage(dev.page) && Given(dev, r, b)
    ensures Covers(b.pages, 512 * r.blocks, dev.page)
  {
  }

  lemma AddressFits(at: nat)
    ensures at < ADDRESS_LIMIT ==> at % ADDRESS_LIMIT == at
  {
  }

  /** The turn once the command has been executed: its completion is posted and can be read. */
  lemma Posts(w: Work, qid: uint16, answer: Fault, r: Request, chunks: seq<Extent>, dev: Device)
    requires ServingIo(w, qid) && Answerable(w, qid, chunks) && dev.mem.Keys == w.dev.mem.Keys
    requires w.queues[qid].ring.sqHead < w.queues[qid].ring.size
    requires var cmd := Fetch(w.dev.mem, w.queues[qid]);
             cmd.Some? && cmd.value.cid == r.cid && ExecuteIo(w.dev, [], cmd.value, answer) == Done(dev, 0)
    ensures var t := Turn(w, qid, answer);
            && t.Some? && Answered(w, qid, t.value, r)
            && t.value.dev == dev.(mem := t.value.dev.mem) && t.value.dev.mem.Keys == w.dev.mem.Keys
            && (forall a :: a in w.dev.mem && !(SlotOf(w, qid) <= a < SlotOf(w, qid) + 16) ==>
                  t.value.dev.mem[a] == dev.mem[a])
  {
    hide Turn, ExecuteIo, Fetch, CompletionBytes, ReadCompletion, Next, Outside, Mapped, CompletionAddr;
    var q := w.queues[qid];
    var cq := Advanced(w.queues, qid)[q.cqID];
    SlotIs(w, qid, chunks);
    MappedAgain(w.dev.mem, dev.mem, SlotOf(w, qid));
    TurnIs(w, qid, answer);
    var p := CompletionOf(w.queues, qid, r.cid, 0);
    NextSlot(q.ring.sqHead, q.ring.size);
    CompletionBack(p.sqHead, qid, r.cid, 0, cq.ring.cqPhase);
    ReadBack(dev.mem, SlotOf(w, qid), p.Bytes());
  }

  lemma SlotIs(w: Work, qid: uint16, chunks: seq<Extent>)
    requires ServingIo(w, qid) && Answerable(w, qid, chunks)
    ensures CompletionAddr(Advanced(w.queues, qid)[w.queues[qid].cqID]) == SlotOf(w, qid)
  {
    hide Outside, Next;
    AddressFits(SlotOf(w, qid));
  }

  lemma MappedAgain(mem: Memory, mem': Memory, at: int)
    requires mem.Keys == mem'.Keys && Mapped(mem, at, 16)
    ensures Mapped(mem', at, 16)
  {
  }

  /** No list page shares an address with the buffer. */
  predicate ListsClear(lists: seq<nat>, page: nat, chunks: seq<Extent>) {
    forall i, j :: 0 <= i < |lists| && 0 <= j < |chunks| ==> Apart(chunks[j].addr, chunks[j].len, lists[i], page)
  }

  lemma {:induction false} ClearOfAll(lists: seq<nat>, page: nat, chunks: seq<Extent>)
    requires ListsClear(lists, page, chunks)
    ensures ListsApartAll(lists, page, chunks)
  {
    if chunks != [] {
      ClearOfOne(lists, page, chunks);
      ClearOfAll(lists, page, chunks[1..]);
    }
  }

  lemma {:induction false} ClearOfOne(lists: seq<nat>, page: nat, chunks: seq<Extent>)
    requires ListsClear(lists, page, chunks) && chunks != []
    ensures ListsApart(lists, page, chunks[0].addr, chunks[0].len)
  {
    if lists != [] {
      assert ListsClear(lists[1..], page, chunks);
      ClearOfOne(lists[1..], page, chunks);
    }
  }

  lemma BufferOk(dev: Device, r: Request, b: Buffer)
    requires ValidPage(dev.page) && Given(dev, r, b)
    ensures var chunks := BufferOf(dev, r, b);
            Usable(dev.mem, chunks) && PairwiseApart(chunks) && Size(chunks) == 512 * r.blocks
  {
  }

  lemma SlotApart(w: Work, qid: uint16, chunks: seq<Extent>)
    requires ServingIo(w, qid) && Answerable(w, qid, chunks)
    ensures forall a :: SlotOf(w, qid) <= a < SlotOf(w, qid) + 16 ==> Outside(a, chunks)
  {
  }

  lemma ReadExecutes(w: Work, qid: uint16, r: Request, u: Unused, b: Buffer, disk: seq<byte>)
    requires ServingIo(w, qid) && Submitted(w, qid, r, u) && r.opcode == 2 && r.lba < 0x40_0000_0000_0000
    requires Given(w.dev, r, b) && ListsClear(b.lists, w.dev.page, BufferOf(w.dev, r, b)) && w.dev.disk == Some(disk)
    ensures var chunks, cmd := BufferOf(w.dev, r, b), Fetch(w.dev.mem, w.queues[qid]);
            && cmd.Some? && cmd.value.cid == r.cid && Size(chunks) == 512 * r.blocks
            && ExecuteIo(w.dev, [], cmd.value, Healthy)
               == Done(w.dev.(mem := Scatter(w.dev.mem, chunks, DiskBytes(disk, 512 * r.lba, 512 * r.blocks))), 0)
  {
    BufferOk(w.dev, r, b);
    hide Scatter, DiskBytes, Fetch, Submitted, Given, ExecuteIo, BufferOf, Usable, PairwiseApart, Addressable, ListsApartAll;
    hide PrpLists, PrpExtents;
    Fetched(w, qid, r, u, b);
    ClearOfAll(b.lists, w.dev.page, BufferOf(w.dev, r, b));
    ReadMovesDisk(w.dev, [], Fetch(w.dev.mem, w.queues[qid]).value, Healthy);
  }

  lemma WriteExecutes(w: Work, qid: uint16, r: Request, u: Unused, b: Buffer, disk: seq<byte>)
    requires ServingIo(w, qid) && Submitted(w, qid, r, u) && r.opcode == 1 && r.lba < 0x40_0000_0000_0000
    requires Given(w.dev, r, b) && w.dev.disk == Some(disk) && 512 * (r.lba + r.blocks) <= |disk|
    ensures var chunks, cmd := BufferOf(w.dev, r, b), Fetch(w.dev.mem, w.queues[qid]);
            && cmd.Some? && cmd.value.cid == r.cid && Usable(w.dev.mem, chunks) && Size(chunks) == 512 * r.blocks
            && ExecuteIo(w.dev, [], cmd.value, Healthy)
               == Done(w.dev.(disk := Some(Splice(disk, 512 * r.lba, Gather(w.dev.mem, chunks)))), 0)
  {
    BufferOk(w.dev, r, b);
    hide Gather, Splice, Fetch, Submitted, Given, ExecuteIo, BufferOf, Usable, PairwiseApart, Addressable, PrpLists, PrpExtents;
    Fetched(w, qid, r, u, b);
    WriteMovesMemory(w.dev, [], Fetch(w.dev.mem, w.queues[qid]).value, Healthy);
  }

  lemma ReadTurn(w: Work, qid: uint16, r: Request, u: Unused, b: Buffer, disk: seq<byte>)
    requires ServingIo(w, qid) && Submitted(w, qid, r, u) && r.opcode == 2 && r.lba < 0x40_0000_0000_0000
    requires Given(w.dev, r, b) && ListsClear(b.lists, w.dev.page, BufferOf(w.dev, r, b))
    requires Answerable(w, qid, BufferOf(w.dev, r, b)) && w.queues[qid].ring.sqHead < w.queues[qid].ring.size
    requires w.dev.disk == Some(disk)
    ensures Size(BufferOf(w.dev, r, b)) == 512 * r.blocks
    ensures var t, moved := Turn(w, qid, Healthy), Scatter(w.dev.mem, BufferOf(w.dev, r, b), DiskBytes(disk, 512 * r.lba, 512 * r.blocks));
            && t.Some? && Answered(w, qid, t.value, r) && t.value.dev.disk == Some(disk)
            && t.value.dev.mem.Keys == w.dev.mem.Keys == moved.Keys
            && (forall a :: a in w.dev.mem && !(SlotOf(w, qid) <= a < SlotOf(w, qid) + 16) ==> t.value.dev.mem[a] == moved[a])
  {
    BufferOk(w.dev, r, b);
    hide Turn, Scatter, DiskBytes, Fetch, Answered, Submitted, Given, ExecuteIo, BufferOf, Usable, PairwiseApart, Outside, Size;
    var chunks := BufferOf(w.dev, r, b);
    ReadExecutes(w, qid, r, u, b, disk);
    var data := DiskBytes(disk, 512 * r.lba, 512 * r.blocks);
    ScatterKeepsKeys(w.dev.mem, chunks, data);
    Posts(w, qid, Healthy, r, chunks, w.dev.(mem := Scatter(w.dev.mem, chunks, data)));
  }

  /**
   A read request: after it is served, byte `i` of the buffer is byte `512 * lba + i` of the disk,
   the completion says so, and nothing else in memory or on the disk has changed.
   */
  lemma ReadServed(w: Work, qid: uint16, r: Request, u: Unused, b: Buffer, disk: seq<byte>)
    requires ServingIo(w, qid) && Submitted(w, qid, r, u) && r.opcode == 2 && r.lba < 0x40_0000_0000_0000
    requires Given(w.dev, r, b) && ListsClear(b.lists, w.dev.page, BufferOf(w.dev, r, b))
    requires Answerable(w, qid, BufferOf(w.dev, r, b)) && w.queues[qid].ring.sqHead < w.queues[qid].ring.size
    requires w.dev.disk == Some(disk)
    ensures var t, chunks := Turn(w, qid, Healthy), BufferOf(w.dev, r, b);
            && t.Some? && Answered(w, qid, t.value, r) && t.value.dev.disk == Some(disk)
            && t.value.dev.mem.Keys == w.dev.mem.Keys
            && HoldsBlocks(t.value.dev.mem, chunks, disk, r.lba, r.blocks)
            && (forall a :: a in w.dev.mem && Outside(a, chunks) && !(SlotOf(w, qid) <= a < SlotOf(w, qid) + 16) ==>
                  t.value.dev.mem[a] == w.dev.mem[a])
  {
    BufferOk(w.dev, r, b);
    hide Turn, Scatter, DiskBytes, Fetch, Answered, Submitted, Given, BufferOf, Usable, PairwiseApart, Answerable, Outside, At, Size;
    hide DiskByte, ListsClear, SlotOf, Mapped, Lies, HoldsBlocks;
    var chunks, n := BufferOf(w.dev, r, b), 512 * r.blocks;
    ReadTurn(w, qid, r, u, b, disk);
    SlotApart(w, qid, chunks);
    var data, final := DiskBytes(disk, 512 * r.lba, n), Turn(w, qid, Healthy).value.dev.mem;
    LaidDown(w.dev.mem, chunks, data, SlotOf(w, qid), final);
    BlocksLie(final, chunks, disk, r.lba, r.blocks);
  }

  lemma BlocksLie(mem: Memory, chunks: seq<Extent>, disk: seq<byte>, lba: nat, blocks: nat)
    requires Size(chunks) == 512 * blocks && Lies(mem, chunks, DiskBytes(disk, 512 * lba, 512 * blocks))
    ensures HoldsBlocks(mem, chunks, disk, lba, blocks)
  {
    hide DiskBytes;
    DiskBytesAre(disk, 512 * lba, 512 * blocks);
  }

  /** Data laid over a buffer stays there when a completion is written elsewhere. */
  lemma LaidDown(mem: Memory, chunks: seq<Extent>, data: seq<byte>, slot: int, final: Memory)
    requires Usable(mem, chunks) && PairwiseApart(chunks) && Size(chunks) == |data| && final.Keys == mem.Keys
    requires forall a :: slot <= a < slot + 16 ==> Outside(a, chunks)
    requires Scatter(mem, chunks, data).Keys == mem.Keys
    requires forall a :: a in mem && !(slot <= a < slot + 16) ==> final[a] == Scatter(mem, chunks, data)[a]
    ensures Lies(final, chunks, data)
    ensures forall a :: a in mem && Outside(a, chunks) && !(slot <= a < slot + 16) ==> final[a] == mem[a]
  {
    hide Scatter, Usable, PairwiseApart, Outside, At;
    ScatterAt(mem, chunks, data);
    forall i | 0 <= i < |data|
      ensures At(chunks, i) in final && final[At(chunks, i)] == data[i]
    {
      NotInSlot(chunks, slot, i);
    }
  }

  lemma NotInSlot(chunks: seq<Extent>, slot: int, i: nat)
    requires i < Size(chunks) && forall a :: slot <= a < slot + 16 ==> Outside(a, chunks)
    ensures !(slot <= At(chunks, i) < slot + 16)
  {
    Inside(chunks, i);
  }

  lemma {:induction false} Inside(chunks: seq<Extent>, i: nat)
    requires i < Size(chunks)
    ensures !Outside(At(chunks, i), chunks)
  {
    if i >= chunks[0].len {
      Inside(chunks[1..], i - chunks[0].len);
    }
  }

  /**
   A write request: after it is served, byte `512 * lba + i` of the disk is byte `i` of the buffer,
   the completion says so, and nothing else on the disk or in memory has changed.
   */
  lemma WriteServed(w: Work, qid: uint16, r: Request, u: Unused, b: Buffer, disk: seq<byte>)
    requires ServingIo(w, qid) && Submitted(w, qid, r, u) && r.opcode == 1 && r.lba < 0x40_0000_0000_0000
    requires Given(w.dev, r, b)
    requires Answerable(w, qid, BufferOf(w.dev, r, b)) && w.queues[qid].ring.sqHead < w.queues[qid].ring.size
    requires w.dev.disk == Some(disk) && 512 * (r.lba + r.blocks) <= |disk|
    ensures var t, chunks := Turn(w, qid, Healthy), BufferOf(w.dev, r, b);
            && t.Some? && Answered(w, qid, t.value, r) && t.value.dev.mem.Keys == w.dev.mem.Keys
            && (forall a :: a in w.dev.mem && !(SlotOf(w, qid) <= a < SlotOf(w, qid) + 16) ==>
                  t.value.dev.mem[a] == w.dev.mem[a])
            && (var d := t.value.dev.disk;
                && d.Some? && |d.value| == |disk|
                && (forall i :: 0 <= i < 512 * r.blocks ==>
                      At(chunks, i) in w.dev.mem && d.value[512 * r.lba + i] == w.dev.mem[At(chunks, i)])
                && (forall j :: 0 <= j < |disk| && !(512 * r.lba <= j < 512 * (r.lba + r.blocks)) ==> d.value[j] == disk[j]))
  {
    hide Turn, Gather, Fetch, Answered, Submitted, Given, ExecuteIo, BufferOf, Usable, PairwiseApart, Outside, Answerable;
    var chunks, n := BufferOf(w.dev, r, b), 512 * r.blocks;
    WriteExecutes(w, qid, r, u, b, disk);
    var data := Gather(w.dev.mem, chunks);
    var dev := w.dev.(disk := Some(Splice(disk, 512 * r.lba, data)));
    Posts(w, qid, Healthy, r, chunks, dev);
    forall i | 0 <= i < n
      ensures At(chunks, i) in w.dev.mem && data[i] == w.dev.mem[At(chunks, i)]
    {
      GatherAt(w.dev.mem, chunks, i);
    }
  }
}
