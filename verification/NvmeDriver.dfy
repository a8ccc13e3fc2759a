/**
 The rest of a guest driver: registers, doorbells and admin commands as sections 3.1, 4.2, 5.3, 5.4 and
 5.15 of the NVM Express Base Specification 1.4 lay them out, and what the controller makes of them.
 */
module NvmeDriver {
  import opened Wrappers
  import opened MachineTypes
  import DivMod
  import opened GuestMemory
  import opened NvmePrp
  import opened NvmeScatter
  import opened NvmeRings
  import opened NvmeIo
  import opened NvmeProtocol
  import opened NvmeGuest
  import opened NvmeServing
  import opened NvmeServed

  /* ------------------------------------------------------------------ */
  /* Registers.                                                           */
  /* ------------------------------------------------------------------ */

  /** The value of a register write, as a number. */
  predicate Is(v: bv32, n: nat) { AsUint32(v) == n }

  /** The two halves of a 64-bit register. */
  predicate Halves(low: bv32, high: bv32, x: uint64) {
    Is(low, x % 0x1_0000_0000) && Is(high, x / 0x1_0000_0000)
  }

  function Poke(offset: nat, v: bv32): Event { Register(offset, v, []) }

  /** An address register written in two halves, in either order, holds the address, whatever it held before. */
  lemma AddressWritten(s: System, at: nat, low: bv32, high: bv32, x: uint64)
    requires ValidPage(s.dev.page) && (at == 0x28 || at == 0x30) && Halves(low, high, x)
    ensures var held := Finished(s.(regs := if at == 0x28 then s.regs.(asq := x) else s.regs.(acq := x)));
            After(s, [Poke(at, low), Poke(at + 4, high)]) == held && After(s, [Poke(at + 4, high), Poke(at, low)]) == held
  {
    hide AsUint32, Enabled, MaskSet, MaskCleared, Wanted, SetLow, SetHigh;
    var e, f := Poke(at, low), Poke(at + 4, high);
    HalvesJoin(if at == 0x28 then s.regs.asq else s.regs.acq, x);
    TwoEvents(s, e, f);
    TwoEvents(s, f, e);
  }

  lemma HalvesJoin(was: uint64, x: uint64)
    ensures SetHigh(SetLow(was, x % 0x1_0000_0000), x / 0x1_0000_0000) == x
    ensures SetLow(SetHigh(was, x / 0x1_0000_0000), x % 0x1_0000_0000) == x
  {
  }

  lemma TwoEvents(s: System, e: Event, f: Event)
    requires ValidPage(s.dev.page) && React(s, e).Finished?
    ensures After(s, [e, f]) == React(React(s, e).value, f)
  {
    hide React;
    assert [e, f][1..] == [f] && [f][1..] == [];
    var t := React(s, e).value;
    var u := React(t, f);
    if u.Finished? {
      assert After(u.value, []) == Finished(u.value);
    }
  }

  /** CC with EN set and a page of `4096 << mps` bytes; other fields can be anything. */
  predicate Enables(cc: bv32, mps: nat) { cc & 1 == 1 && ((cc >> 7) & 15) as int == mps }

  /** Memory page sizes by CC.MPS. */
  const PAGE_SIZES := [4096, 8192, 16384, 32768, 65536, 131072, 262144, 524288, 1048576, 2097152, 4194304, 8388608, 16777216,
                       33554432, 67108864, 134217728]

  lemma {:induction false} PageSizes(mps: nat)
    requires mps < 16
    ensures PageSize(mps) == PAGE_SIZES[mps]
  {
    if mps > 0 {
      PageSizes(mps - 1);
      assert PAGE_SIZES[mps] == 2 * PAGE_SIZES[mps - 1];
    }
  }

  lemma MpsIs(cc: bv32, mps: nat)
    requires mps < 16 && Enables(cc, mps)
    ensures Enabled(cc) && Mps(cc) == mps
  {
    assert cc & 1 != 0;
  }

  /** The admin queue at these addresses, empty, with as many slots as the shorter of its rings. */
  function Described(asq: uint64, acq: uint64, sqs: nat, cqs: nat): QueueState
    requires sqs <= 0x1000 && cqs <= 0x1000
  {
    QueueState(0, asq, acq, 0, true, 0, Ring(if sqs < cqs then sqs else cqs, 0, 0, 0, 0, true))
  }

  /** Enabling the controller gives it the admin queue and the page size that its registers describe. */
  lemma EnablesAdmin(s: System, cc: bv32, mps: nat, sqs: nat, cqs: nat)
    requires ValidPage(s.dev.page) && mps < 16 && Enables(cc, mps)
    requires 1 <= sqs <= 0x1000 && 1 <= cqs <= 0x1000 && s.regs.aqa == (sqs - 1) + (cqs - 1) * 0x1_0000
    ensures var r := React(s, Poke(0x14, cc));
            && r.Finished? && r.value.regs == s.regs.(cc := cc, csts := 1) && r.value.line == s.line
            && r.value.dev == s.dev.(page := PAGE_SIZES[mps])
            && r.value.queues == s.queues[0 := Described(s.regs.asq, s.regs.acq, sqs, cqs)]
  {
    MpsIs(cc, mps);
    PageSizes(mps);
    AdminSizes(s.regs.aqa, sqs, cqs);
    hide Enabled, Mps, PageSize, Enables;
  }

  lemma AdminSizes(aqa: uint32, sqs: nat, cqs: nat)
    requires 1 <= sqs <= 0x1000 && 1 <= cqs <= 0x1000 && aqa == (sqs - 1) + (cqs - 1) * 0x1_0000
    ensures aqa % 0x1000 + 1 == sqs && aqa / 0x1_0000 % 0x1000 + 1 == cqs
  {
    LowPart(sqs - 1, 16 * (cqs - 1), 0x1000);
    LowPart(sqs - 1, cqs - 1, 0x1_0000);
    DivMod.Small(cqs - 1, 0x1000);
  }

  lemma LowPart(a: nat, b: nat, n: nat)
    requires a < n
    ensures (a + b * n) % n == a && (a + b * n) / n == b
  {
    DivMod.Unique(a + b * n, n, b, a);
  }

  /** Disabling it drops all queues and lowers the line. */
  lemma Disables(s: System, cc: bv32)
    requires ValidPage(s.dev.page) && cc & 1 == 0
    ensures var r := React(s, Poke(0x14, cc));
            && r.Finished? && r.value.regs == s.regs.(cc := cc, csts := 0) && r.value.dev == s.dev
            && (if s.regs.cc & 1 == 1 then r.value.queues == map[] && !r.value.line else r.value.queues == s.queues && r.value.line == s.line)
  {
    hide PageSize, Mps;
    LastBit(s.regs.cc);
  }

  lemma LastBit(x: bv32)
    ensures x & 1 == 1 <==> x & 1 != 0
  {
  }

  /** INTMS masks and INTMC unmasks, bit by bit. */
  lemma MaskWritten(s: System, v: bv32)
    requires ValidPage(s.dev.page)
    ensures var r := React(s, Poke(0x0c, v)); r.Finished? && r.value.regs == s.regs.(intMask := s.regs.intMask | v)
    ensures var r := React(s, Poke(0x10, v)); r.Finished? && r.value.regs == s.regs.(intMask := s.regs.intMask & !v)
  {
    MaskBits(s.regs.intMask, v);
    hide Wanted, MaskSet, MaskCleared, RingDoorbell, AsUint32, Enabled;
  }

  lemma MaskBits(a: bv32, b: bv32)
    ensures MaskSet(a, b) == a | b && MaskCleared(a, b) == a & !b
  {
  }

  /* ------------------------------------------------------------------ */
  /* Doorbells.                                                           */
  /* ------------------------------------------------------------------ */

  /** The doorbells of queue `k`: its submission tail, and four bytes on its completion head. */
  function TailDoorbell(k: uint16): nat { 0x1000 + 8 * k }

  function HeadDoorbell(k: uint16): nat { 0x1004 + 8 * k }

  /** A new tail is set and the queue served. */
  lemma TailRung(s: System, k: uint16, v: bv32, tail: nat, answers: seq<Fault>)
    requires ValidPage(s.dev.page) && k in s.queues && Is(v, tail) && tail < 0x1_0000
    ensures var r := React(s, Register(TailDoorbell(k), v, answers));
            var p := Process(Work(s.queues[k := s.queues[k].(sqTail := tail)], None, s.dev), k, answers);
            && (r.Finished? <==> p.Finished?) && (r.Faulted? <==> p.Faulted?)
            && (p.Finished? ==> r.value.queues == p.value.queues && r.value.dev == p.value.dev && r.value.regs == s.regs)
  {
    hide Process, Wanted, AsUint32;
    BellNumbers(k);
  }

  /** A new head acknowledges completions. */
  lemma HeadRung(s: System, k: uint16, v: bv32, head: nat, answers: seq<Fault>)
    requires ValidPage(s.dev.page) && k in s.queues && Is(v, head) && head < 0x1_0000
    ensures var r := React(s, Register(HeadDoorbell(k), v, answers));
            && r.Finished? && r.value.dev == s.dev && r.value.regs == s.regs
            && r.value.queues == s.queues[k := s.queues[k].(ring := Acknowledge(s.queues[k].ring, head))]
  {
    hide Wanted, AsUint32, Acknowledge;
    BellNumbers(k);
  }

  /**
   The completions between the old head and the new are no longer pending, all of them if the ring was full
   and the head came round to itself; a ring without slots has none pending.
   */
  lemma Acknowledged(r: Ring, head: nat, d: nat)
    requires head < r.size && r.cqHead < r.size && d < r.size < INDEX_LIMIT && (r.cqHead + d) % r.size == head
    ensures var after := Acknowledge(r, head);
            && after == r.(cqHead := head, cqPending := after.cqPending)
            && after.cqPending == if d >= r.cqPending || (d == 0 && r.cqPending == r.size) then 0 else r.cqPending - d
  {
    DivMod.Small(head, r.size);
    if r.cqHead + d < r.size {
      DivMod.Small(r.cqHead + d, r.size);
    } else {
      DivMod.Unique(r.cqHead + d, r.size, 1, r.cqHead + d - r.size);
      DivMod.Small(r.size - r.cqHead + head, INDEX_LIMIT);
    }
  }

  lemma NothingToAcknowledge(r: Ring, head: nat)
    requires r.size == 0
    ensures Acknowledge(r, head).cqPending == 0 && Acknowledge(r, head).cqHead == head
  {
  }

  /** Doorbells of queues that are not there are ignored. */
  lemma NobodyRung(s: System, k: uint16, v: bv32, answers: seq<Fault>)
    requires ValidPage(s.dev.page) && k !in s.queues
    ensures React(s, Register(TailDoorbell(k), v, answers)) == Finished(s)
    ensures React(s, Register(HeadDoorbell(k), v, answers)) == Finished(s)
  {
    hide Process, Wanted, AsUint32, Acknowledge;
    BellNumbers(k);
  }

  lemma BellNumbers(k: uint16)
    ensures 8 * k / 4 == 2 * k && 8 * k / 4 / 2 == k && 8 * k / 4 % 2 == 0
    ensures (8 * k + 4) / 4 == 2 * k + 1 && (8 * k + 4) / 4 / 2 == k && (8 * k + 4) / 4 % 2 == 1
    ensures Low16(k) == k
  {
  }

  /* ------------------------------------------------------------------ */
  /* Admin commands.                                                      */
  /* ------------------------------------------------------------------ */

  datatype Order = Order(opcode: byte, cid: uint16, prp1: uint64, prp2: uint64, cdw10: uint32, cdw11: uint32)

  /** Bytes of an entry that an admin command does not use. */
  predicate Written(u: Unused) { |u.middle| == 20 && |u.end| == 16 }

  function AdminEntry(o: Order, u: Unused): (raw: seq<byte>)
    requires Written(u)
    ensures |raw| == 64
  {
    [o.opcode, u.flags] + Bytes(o.cid, 2) + u.middle + Bytes(o.prp1, 8) + Bytes(o.prp2, 8) + Bytes(o.cdw10, 4) + Bytes(o.cdw11, 4) + u.end
  }

  lemma AdminFields(o: Order, u: Unused)
    requires Written(u)
    ensures var raw := AdminEntry(o, u);
            && raw[0] == o.opcode && raw[2..4] == Bytes(o.cid, 2)
            && raw[24..32] == Bytes(o.prp1, 8) && raw[32..40] == Bytes(o.prp2, 8)
            && raw[40..44] == Bytes(o.cdw10, 4) && raw[44..48] == Bytes(o.cdw11, 4)
  {
    hide Bytes;
  }

  lemma AdminParses(o: Order, u: Unused)
    requires Written(u)
    ensures var cmd := ParseCommand(AdminEntry(o, u));
            && cmd.opcode == o.opcode && cmd.cid == o.cid && cmd.prp1 == o.prp1 && cmd.prp2 == o.prp2
            && cmd.cdw10 == o.cdw10 && cmd.cdw11 == o.cdw11
  {
    hide Bytes, AdminEntry, LittleEndian, Power;
    AdminFields(o, u);
    Powers();
    BytesBack(o.cid, 2);
    BytesBack(o.prp1, 8);
    BytesBack(o.prp2, 8);
    BytesBack(o.cdw10, 4);
    BytesBack(o.cdw11, 4);
  }

  /** Create a completion queue of `size` entries at `at`, physically contiguous, with or without interrupts. */
  function CreateCompletionQueue(cid: uint16, qid: uint16, size: uint16, at: uint64, interrupts: bool, vector: uint16): Order
    requires size > 0
  {
    Order(5, cid, at, 0, qid + (size - 1) * 0x1_0000, 1 + (if interrupts then 2 else 0) + vector * 0x1_0000)
  }

  /** Create a submission queue of `size` entries at `at` whose completions go to `cqid`. */
  function CreateSubmissionQueue(cid: uint16, qid: uint16, size: uint16, at: uint64, cqid: uint16): Order
    requires size > 0
  {
    Order(1, cid, at, 0, qid + (size - 1) * 0x1_0000, 1 + cqid * 0x1_0000)
  }

  /** The queue that was there, or a new one. */
  function Found(queues: map<uint16, QueueState>, qid: uint16): QueueState {
    if qid in queues then queues[qid] else QueueState(qid, 0, 0, 0, false, 0, Ring(0, 0, 0, 0, 0, false))
  }

  lemma CreatesCompletionQueue(queues: map<uint16, QueueState>, cid: uint16, qid: uint16, size: uint16, at: uint64,
                               interrupts: bool, vector: uint16, u: Unused)
    requires size > 0 && Written(u)
    ensures var cmd := ParseCommand(AdminEntry(CreateCompletionQueue(cid, qid, size, at, interrupts, vector), u));
            var q := Found(queues, qid);
            AfterAdmin(queues, cmd)
            == queues[qid := q.(cqAddr := at, interrupts := interrupts, ring := q.ring.(size := size, cqPhase := true))]
  {
    hide AdminEntry, ParseCommand;
    var o := CreateCompletionQueue(cid, qid, size, at, interrupts, vector);
    AdminParses(o, u);
    NamedAndAsked(qid, size, o.cdw10);
    hide Named, Asked;
  }

  lemma NamedAndAsked(qid: uint16, size: uint16, cdw10: uint32)
    requires size > 0 && cdw10 == qid + (size - 1) * 0x1_0000
    ensures Low16(cdw10) == qid && Low16(cdw10 / 0x1_0000 + 1) == size
  {
    assert cdw10 / 0x1_0000 == size - 1;
  }

  lemma CreatesSubmissionQueue(queues: map<uint16, QueueState>, cid: uint16, qid: uint16, size: uint16, at: uint64, cqid: uint16,
                               u: Unused)
    requires size > 0 && Written(u)
    ensures var cmd := ParseCommand(AdminEntry(CreateSubmissionQueue(cid, qid, size, at, cqid), u));
            var q := Found(queues, qid);
            AfterAdmin(queues, cmd) == queues[qid := q.(sqAddr := at, cqID := cqid, ring := q.ring.(size := size))]
  {
    hide AdminEntry, ParseCommand;
    var o := CreateSubmissionQueue(cid, qid, size, at, cqid);
    AdminParses(o, u);
    NamedAndAsked(qid, size, o.cdw10);
    assert o.cdw11 / 0x1_0000 == cqid && Low16(cqid) == cqid;
    hide Named, Asked;
  }

  /** Deleting either kind of queue drops the queue. */
  lemma DeletesQueue(queues: map<uint16, QueueState>, cid: uint16, qid: uint16, opcode: byte, u: Unused)
    requires (opcode == 0 || opcode == 4) && Written(u)
    ensures var cmd := ParseCommand(AdminEntry(Order(opcode, cid, 0, 0, qid, 0), u)); AfterAdmin(queues, cmd) == queues - {qid}
  {
    hide AdminEntry, ParseCommand;
    AdminParses(Order(opcode, cid, 0, 0, qid, 0), u);
  }

  /** Other commands leave the queues alone. */
  lemma LeavesQueues(queues: map<uint16, QueueState>, o: Order, u: Unused)
    requires o.opcode !in {0, 1, 4, 5} && Written(u)
    ensures AfterAdmin(queues, ParseCommand(AdminEntry(o, u))) == queues
  {
    hide AdminEntry, ParseCommand;
    AdminParses(o, u);
  }

  /* ------------------------------------------------------------------ */
  /* What the controller says about itself.                               */
  /* ------------------------------------------------------------------ */

  /** A number in some bytes of a structure, the lowest byte first. */
  function Field(data: seq<byte>, at: nat, n: nat): nat
    requires at + n <= |data|
  {
    LittleEndian(data[at..at + n])
  }

  /** Identify, with CNS 0, 1 or 2. */
  function Identify(cid: uint16, prp1: uint64, prp2: uint64, cns: byte): Order { Order(6, cid, prp1, prp2, cns, 0) }

  /** The namespace has as many blocks as the disk, of 2^9 bytes. */
  lemma NamespaceTold(disk: seq<byte>, cid: uint16, prp1: uint64, prp2: uint64, u: Unused)
    requires Written(u) && |disk| < 0x8000_0000_0000_0000
    ensures var data := AdminData(Some(disk), ParseCommand(AdminEntry(Identify(cid, prp1, prp2, 0), u)));
            && |data| == 4096 && Field(data, 0, 8) == |disk| / 512 && Field(data, 8, 8) == |disk| / 512 && Field(data, 16, 8) == |disk| / 512
            && data[25] == 0 && data[26] == 0 && data[130] == 9
  {
    hide AdminEntry, ParseCommand, LittleEndian, LittleEndian64;
    AdminParses(Identify(cid, prp1, prp2, 0), u);
    var b := LittleEndian64(|disk| / 512);
    EightBack(|disk| / 512);
    var data := IdentifyNamespace(Some(disk));
    EightBytes(|disk| / 512);
    assert data[0..8] == b && data[8..16] == b && data[16..24] == b;
  }

  lemma EightBytes(x: nat)
    ensures |LittleEndian64(x)| == 8
  {
  }

  /** The eight bytes of a number are its bytes. */
  lemma EightBack(x: uint64)
    ensures LittleEndian(LittleEndian64(x)) == x
  {
    EightAre(x);
    hide LittleEndian64, Bytes;
    Powers();
    BytesBack(x, 8);
  }

  lemma EightAre(x: uint64)
    ensures LittleEndian64(x) == Bytes(x, 8)
  {
    var a, b, c := x / 256, x / 0x1_0000, x / 0x100_0000;
    var d, e, f, g := x / 0x1_0000_0000, x / 0x100_0000_0000, x / 0x1_0000_0000_0000, x / 0x100_0000_0000_0000;
    assert a / 256 == b && b / 256 == c && c / 256 == d && d / 256 == e && e / 256 == f && f / 256 == g;
    assert Bytes(g, 1) == [g % 256] + Bytes(g / 256, 0) == [g % 256];
    assert Bytes(f, 2) == [f % 256, g % 256];
    assert Bytes(e, 3) == [e % 256, f % 256, g % 256];
    assert Bytes(d, 4) == [d % 256, e % 256, f % 256, g % 256];
    assert Bytes(c, 5) == [c % 256, d % 256, e % 256, f % 256, g % 256];
    assert Bytes(b, 6) == [b % 256, c % 256, d % 256, e % 256, f % 256, g % 256];
    assert Bytes(a, 7) == [a % 256, b % 256, c % 256, d % 256, e % 256, f % 256, g % 256];
  }

  /** The controller: vendor, names, version 1.4, entries of 64 and 16 bytes, and one namespace. */
  lemma ControllerTold(disk: Option<seq<byte>>, cid: uint16, prp1: uint64, prp2: uint64, u: Unused)
    requires Written(u)
    ensures var data := AdminData(disk, ParseCommand(AdminEntry(Identify(cid, prp1, prp2, 1), u)));
            && |data| == 4096 && data[0..4] == [0x36, 0x1b, 0x10, 0x00] && data[4..24] == Ascii("cc-nvme-000000000001")
            && data[24..44] == Ascii("cc NVMe Block Device") && data[64..67] == Ascii("0.1") && data[78..80] == [1, 0]
            && data[80..84] == [0, 4, 1, 0] && data[512] == 0x66 && data[513] == 0x44 && data[516..520] == [1, 0, 0, 0]
  {
    hide AdminEntry, ParseCommand, IdentifyController, Ascii;
    AdminParses(Identify(cid, prp1, prp2, 1), u);
    ControllerData();
  }

  lemma ControllerData()
    ensures var data := IdentifyController();
            && |data| == 4096 && data[0..4] == [0x36, 0x1b, 0x10, 0x00] && data[4..24] == Ascii("cc-nvme-000000000001")
            && data[24..44] == Ascii("cc NVMe Block Device") && data[64..67] == Ascii("0.1") && data[78..80] == [1, 0]
            && data[80..84] == [0, 4, 1, 0] && data[512] == 0x66 && data[513] == 0x44 && data[516..520] == [1, 0, 0, 0]
  {
    hide Ascii, Zeros;
  }

  /** The only namespace is number one. */
  lemma NamespacesTold(disk: Option<seq<byte>>, cid: uint16, prp1: uint64, prp2: uint64, u: Unused)
    requires Written(u)
    ensures var data := AdminData(disk, ParseCommand(AdminEntry(Identify(cid, prp1, prp2, 2), u)));
            |data| == 4096 && data[0..8] == [1, 0, 0, 0, 0, 0, 0, 0]
  {
    hide AdminEntry, ParseCommand;
    AdminParses(Identify(cid, prp1, prp2, 2), u);
  }

  /** A log page of `dwords` dwords is empty; the highest four bits of their number do not count. */
  lemma LogPageEmpty(disk: Option<seq<byte>>, cid: uint16, prp1: uint64, prp2: uint64, dwords: nat, high: nat, lid: byte, u: Unused)
    requires Written(u) && 1 <= dwords <= 0x1000 && high < 16
    ensures var number := (dwords - 1) + high * 0x1000;
            var data := AdminData(disk, ParseCommand(AdminEntry(Order(2, cid, prp1, prp2, lid + number * 0x1_0000, 0), u)));
            |data| == 4 * dwords && forall i :: 0 <= i < |data| ==> data[i] == 0
  {
    hide AdminEntry, ParseCommand;
    var number := (dwords - 1) + high * 0x1000;
    AdminParses(Order(2, cid, prp1, prp2, lid + number * 0x1_0000, 0), u);
    LowPart(lid, number, 0x1_0000);
    LowPart(dwords - 1, high, 0x1000);
  }

  /** Data of an admin command lies in the guest's buffer, byte by byte, and nothing else has changed. */
  lemma DataServed(dev: Device, cmd: Command, b: Buffer)
    requires ValidPage(dev.page)
    requires var data := AdminData(dev.disk, cmd);
             && data != [] && Describes(dev.mem, cmd.prp1, cmd.prp2, b, |data|, dev.page)
             && (var chunks := Chunks(b.pages, |data|, dev.page);
                 Usable(dev.mem, chunks) && PairwiseApart(chunks) && ListsClear(b.lists, dev.page, chunks))
    ensures var data := AdminData(dev.disk, cmd);
            var chunks, after := Chunks(b.pages, |data|, dev.page), AfterData(dev, cmd);
            && after.Some? && after.value == dev.(mem := after.value.mem) && after.value.mem.Keys == dev.mem.Keys
            && Lies(after.value.mem, chunks, data)
            && (forall a :: a in dev.mem && Outside(a, chunks) ==> after.value.mem[a] == dev.mem[a])
  {
    var data := AdminData(dev.disk, cmd);
    var p, chunks := Pair(dev.mem, data), Chunks(b.pages, |data|, dev.page);
    hide AdminData, Chunks, Usable, PairwiseApart, TransferPrp, PrpExtents, PrpLists, Describes, Scatter, Pagewise, Covers;
    DescribesCovers(dev.mem, cmd.prp1, cmd.prp2, b, |data|, dev.page);
    BufferFound(dev.mem, cmd.prp1, cmd.prp2, b, |data|, dev.page);
    ClearOfAll(b.lists, dev.page, chunks);
    TransferIsPagewise(p, cmd.prp1, cmd.prp2, dev.page, true);
    PagewiseScatters(p, 0, chunks);
    assert data[0..] == data && data[0..|data|] == data;
    ScatterAt(dev.mem, chunks, data);
  }

  lemma DescribesCovers(mem: Memory, prp1: nat, prp2: nat, b: Buffer, n: nat, page: nat)
    requires page >= 16 && page % 8 == 0 && Describes(mem, prp1, prp2, b, n, page)
    ensures Covers(b.pages, n, page)
  {
  }

  /* ------------------------------------------------------------------ */
  /* Admin commands answered.                                             */
  /* ------------------------------------------------------------------ */

  /** The order at the head of the admin queue, which can be answered. */
  predicate Ordered(w: Work, o: Order, u: Unused) {
    && Written(u) && ValidPage(w.dev.page) && w.loose.None? && 0 in w.queues
    && (var q := w.queues[0];
        && q.id == 0 && q.ring.sqHead < q.ring.size < INDEX_LIMIT
        && Mapped(w.dev.mem, q.cqAddr + 16 * q.ring.cqTail, 16)
        && Mapped(w.dev.mem, q.sqAddr + 64 * q.ring.sqHead, 64)
        && Read(w.dev.mem, q.sqAddr + 64 * q.ring.sqHead, 64) == AdminEntry(o, u))
  }

  /** A command other than an event request that does not create or delete the admin queue itself. */
  predicate Plain(o: Order) { o.opcode != 12 && (o.opcode in {0, 1, 4, 5} ==> o.cdw10 % 0x1_0000 != 0) }

  /** The slot at the tail of `q` holds the completion of command `cid`, of success, and nothing else has changed. */
  predicate Replied(q: QueueState, cid: uint16, was: Memory, now: Memory) {
    var slot, head := q.cqAddr + 16 * q.ring.cqTail, if q.ring.sqHead + 1 == q.ring.size then 0 else q.ring.sqHead + 1;
    && Mapped(now, slot, 16) && ReadCompletion(Read(now, slot, 16)) == Completion(head, 0, cid, 0, q.ring.cqPhase)
    && now.Keys == was.Keys && forall a :: a in was && !(slot <= a < slot + 16) ==> now[a] == was[a]
  }

  /** All queues but the admin queue. */
  function Others(queues: map<uint16, QueueState>): map<uint16, QueueState> { queues - {0} }

  /**
   An admin command whose data could be sent: the driver finds its completion, of success, in the slot
   at the tail; the queues but for the admin queue are as the command says, and nothing else has changed.
   */
  lemma AdminAnswered(w: Work, o: Order, u: Unused, answer: Fault, dev: Device)
    requires Ordered(w, o, u) && Plain(o)
    requires AfterData(w.dev, ParseCommand(AdminEntry(o, u))) == Some(dev) && dev.mem.Keys == w.dev.mem.Keys
    ensures var t := Turn(w, 0, answer);
            && t.Some? && t.value.loose.None? && t.value.dev == dev.(mem := t.value.dev.mem)
            && Replied(w.queues[0], o.cid, dev.mem, t.value.dev.mem)
            && Others(t.value.queues) == Others(AfterAdmin(w.queues, ParseCommand(AdminEntry(o, u))))
  {
    hide AdminEntry, ParseCommand, AfterData, CompletionBytes, ReadCompletion, Next, Mapped, Read, Write, AfterAdmin;
    var q, cmd := w.queues[0], ParseCommand(AdminEntry(o, u));
    var slot := q.cqAddr + 16 * q.ring.cqTail;
    AdminParses(o, u);
    OrderFetched(w, o, u);
    StaysAdmin(w.queues, cmd);
    SlotMapped(w, o, u, dev);
    NextSlot(q.ring.sqHead, q.ring.size);
    var bytes := CompletionBytes(Next(q.ring.sqHead, q.ring.size), 0, o.cid, 0, q.ring.cqPhase);
    CompletionBack(Next(q.ring.sqHead, q.ring.size), 0, o.cid, 0, q.ring.cqPhase);
    ReadBack(dev.mem, slot, bytes);
    WriteElsewhere(dev.mem, slot, bytes);
    assert Turn(w, 0, answer) == AdminTurn(w, cmd);
  }

  lemma WriteElsewhere(mem: Memory, at: int, data: seq<byte>)
    requires Mapped(mem, at, |data|)
    ensures Write(mem, at, data).Keys == mem.Keys
    ensures forall a :: a in mem && !(at <= a < at + |data|) ==> Write(mem, at, data)[a] == mem[a]
  {
  }

  lemma OrderFetched(w: Work, o: Order, u: Unused)
    requires Ordered(w, o, u)
    ensures Fetch(w.dev.mem, w.queues[0]) == Some(ParseCommand(AdminEntry(o, u)))
  {
    hide AdminEntry, ParseCommand;
    AddressFits(w.queues[0].sqAddr + 64 * w.queues[0].ring.sqHead);
  }

  lemma SlotMapped(w: Work, o: Order, u: Unused, dev: Device)
    requires Ordered(w, o, u) && dev.mem.Keys == w.dev.mem.Keys
    ensures var q := w.queues[0];
            Mapped(dev.mem, q.cqAddr + 16 * q.ring.cqTail, 16) && CompletionAddr(q) == q.cqAddr + 16 * q.ring.cqTail
  {
    hide AdminEntry, ParseCommand;
    AddressFits(w.queues[0].cqAddr + 16 * w.queues[0].ring.cqTail);
  }

  lemma StaysAdmin(queues: map<uint16, QueueState>, cmd: Command)
    requires 0 in queues && (cmd.opcode in {0, 1, 4, 5} ==> cmd.cdw10 % 0x1_0000 != 0)
    ensures 0 in AfterAdmin(queues, cmd) && AfterAdmin(queues, cmd)[0] == queues[0] && !(Deletes(cmd) && Named(cmd) == 0)
  {
  }

  /* ------------------------------------------------------------------ */
  /* Bringing the controller up.                                          */
  /* ------------------------------------------------------------------ */

  /**
   A driver that writes AQA, ASQ, ACQ and then CC to a controller as it was created finds it ready, with
   the one queue described, empty, no interrupt masked and none raised.
   */
  lemma BroughtUp(dev: Device, aqa: bv32, low: bv32, high: bv32, clow: bv32, chigh: bv32, cc: bv32,
                  sqs: nat, cqs: nat, asq: uint64, acq: uint64, mps: nat)
    requires ValidPage(dev.page) && mps < 16 && Enables(cc, mps) && Halves(low, high, asq) && Halves(clow, chigh, acq)
    requires 1 <= sqs <= 0x1000 && 1 <= cqs <= 0x1000 && Is(aqa, (sqs - 1) + (cqs - 1) * 0x1_0000)
    ensures var r := After(Started(dev), [Poke(0x24, aqa), Poke(0x28, low), Poke(0x2c, high), Poke(0x30, clow), Poke(0x34, chigh),
                                          Poke(0x14, cc)]);
            && r.Finished? && r.value.regs == Regs(cc, 1, 0, (sqs - 1) + (cqs - 1) * 0x1_0000, asq, acq) && !r.value.line
            && r.value.dev == dev.(page := PAGE_SIZES[mps])
            && r.value.queues == map[0 := Described(asq, acq, sqs, cqs)]
  {
    hide AsUint32, Enabled, MaskSet, MaskCleared, Wanted, SetLow, SetHigh, Enables, React, After;
    var s := Started(dev);
    var n := (sqs - 1) + (cqs - 1) * 0x1_0000;
    SizesWritten(s, aqa, n);
    var s1 := s.(regs := s.regs.(aqa := n));
    AddressWritten(s1, 0x28, low, high, asq);
    var s2 := s1.(regs := s1.regs.(asq := asq));
    AddressWritten(s2, 0x30, clow, chigh, acq);
    var s3 := s2.(regs := s2.regs.(acq := acq));
    EnablesAdmin(s3, cc, mps, sqs, cqs);
    AfterOne(s3, Poke(0x14, cc));
    AfterJoin(s2, [Poke(0x30, clow), Poke(0x34, chigh)], [Poke(0x14, cc)]);
    AfterJoin(s1, [Poke(0x28, low), Poke(0x2c, high)], [Poke(0x30, clow), Poke(0x34, chigh)] + [Poke(0x14, cc)]);
    AfterOne(s, Poke(0x24, aqa));
    AfterJoin(s, [Poke(0x24, aqa)], [Poke(0x28, low), Poke(0x2c, high)] + ([Poke(0x30, clow), Poke(0x34, chigh)] + [Poke(0x14, cc)]));
    assert [Poke(0x24, aqa)] + ([Poke(0x28, low), Poke(0x2c, high)] + ([Poke(0x30, clow), Poke(0x34, chigh)] + [Poke(0x14, cc)]))
        == [Poke(0x24, aqa), Poke(0x28, low), Poke(0x2c, high), Poke(0x30, clow), Poke(0x34, chigh), Poke(0x14, cc)];
  }

  lemma SizesWritten(s: System, v: bv32, n: nat)
    requires ValidPage(s.dev.page) && Is(v, n)
    ensures React(s, Poke(0x24, v)) == Finished(s.(regs := s.regs.(aqa := n)))
  {
    hide AsUint32, Enabled, MaskSet, MaskCleared, Wanted, SetLow, SetHigh;
  }

  lemma AfterOne(s: System, e: Event)
    requires ValidPage(s.dev.page)
    ensures After(s, [e]) == React(s, e)
  {
    hide React;
    assert [e][1..] == [];
  }

  lemma {:induction false} AfterJoin(s: System, a: seq<Event>, b: seq<Event>)
    requires ValidPage(s.dev.page) && After(s, a).Finished?
    ensures After(s, a + b) == After(After(s, a).value, b)
    decreases |a|
  {
    hide React;
    if a == [] {
      assert a + b == b;
    } else {
      assert (a + b)[1..] == a[1..] + b && (a + b)[0] == a[0];
      AfterJoin(React(s, a[0]).value, a[1..], b);
    }
  }
}
