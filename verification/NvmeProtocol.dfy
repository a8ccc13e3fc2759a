/**
 The NVMe controller on values: what a register write does to queues, guest memory, disk and
 interrupt line, or that it faults, or that it needs more commands served than there are answers
 from the disk.
 */
module NvmeProtocol {
  import opened Wrappers
  import opened MachineTypes
  import opened GuestMemory
  import opened NvmePrp
  import opened NvmeRings
  import opened NvmeIo

  const ADMIN_QUEUE := 0

  const REG_INTMS := 0x0c
  const REG_INTMC := 0x10
  const REG_CC := 0x14
  const REG_AQA := 0x24
  const REG_ASQ := 0x28
  const REG_ACQ := 0x30
  const DOORBELL_BASE := 0x1000

  const ADMIN_DELETE_SQ := 0x00
  const ADMIN_CREATE_SQ := 0x01
  const ADMIN_LOG_PAGE := 0x02
  const ADMIN_DELETE_CQ := 0x04
  const ADMIN_CREATE_CQ := 0x05
  const ADMIN_IDENTIFY := 0x06
  const ADMIN_ASYNC_EVENT := 0x0c

  function Low16(x: int): uint16 { x % 0x1_0000 }

  function AsUint32(v: bv32): uint32 { v as int }

  /** A 64-bit register with its low half replaced. */
  function SetLow(x: uint64, v: uint32): uint64 { x / 0x1_0000_0000 * 0x1_0000_0000 + v }

  /** A 64-bit register with its high half replaced. */
  function SetHigh(x: uint64, v: uint32): uint64 { x % 0x1_0000_0000 + v * 0x1_0000_0000 }

  predicate Enabled(cc: bv32) { cc & 1 != 0 }

  predicate Masked(intMask: bv32) { intMask & 1 != 0 }

  function MaskSet(intMask: bv32, value: bv32): bv32 { intMask | value }

  function MaskCleared(intMask: bv32, value: bv32): bv32 { intMask & !value }

  function Mps(cc: bv32): nat { ((cc >> 7) & 0xf) as int }

  /** The memory page size selected by CC.MPS. */
  function PageSize(mps: nat): (page: nat)
    ensures ValidPage(page)
  {
    if mps == 0 then 4096 else 2 * PageSize(mps - 1)
  }

  /* ------------------------------------------------------------------ */
  /* Queues.                                                              */
  /* ------------------------------------------------------------------ */

  /** Everything a queue holds. */
  datatype QueueState = QueueState(id: uint16, sqAddr: uint64, cqAddr: uint64, cqID: uint16, interrupts: bool,
                                   sqTail: nat, ring: Ring)

  function NewQueue(id: uint16): QueueState { QueueState(id, 0, 0, 0, false, 0, Ring(0, 0, 0, 0, 0, false)) }

  /** The admin queue that the AQA, ASQ and ACQ registers describe: as long as the shorter of its rings. */
  function AdminQueue(aqa: uint32, asq: uint64, acq: uint64): QueueState {
    var sqSize, cqSize := aqa % 0x1000 + 1, (aqa / 0x1_0000) % 0x1000 + 1;
    var size := if cqSize < sqSize then cqSize else sqSize;
    QueueState(ADMIN_QUEUE, asq, acq, 0, true, 0, Ring(size, 0, 0, 0, 0, true))
  }

  /** The head of the submission ring moves past one command. */
  function PastHead(q: QueueState): QueueState
    requires q.ring.size > 0
  {
    q.(ring := q.ring.(sqHead := Next(q.ring.sqHead, q.ring.size)))
  }

  function SubmissionAddr(q: QueueState): nat { (q.sqAddr + q.ring.sqHead * 64) % ADDRESS_LIMIT }

  function CompletionAddr(q: QueueState): nat { (q.cqAddr + q.ring.cqTail * 16) % ADDRESS_LIMIT }

  /** The command at the submission head, as the guest left it in memory. */
  function Fetch(mem: Memory, q: QueueState): Option<Command> {
    if Mapped(mem, SubmissionAddr(q), 64) then Some(ParseCommand(Read(mem, SubmissionAddr(q), 64))) else None
  }

  function Bytes16(x: uint16): seq<byte> { [x % 256, x / 256] }

  /** A completion entry: result, reserved, submission head and id, command id, status and phase. */
  function CompletionBytes(sqHead: nat, sqid: uint16, cid: uint16, status: uint16, phase: bool): (r: seq<byte>)
    ensures |r| == 16
  {
    var field := Low16(2 * status) + (if phase then 1 else 0);
    [0, 0, 0, 0, 0, 0, 0, 0] + Bytes16(Low16(sqHead)) + Bytes16(sqid) + Bytes16(cid) + Bytes16(field)
  }

  /** A completion: its queue and slot, and what it says. */
  datatype Posting = Posting(cq: uint16, slot: nat, phase: bool, sqHead: nat, sqid: uint16, cid: uint16, status: uint16) {
    function Bytes(): (r: seq<byte>)
      ensures |r| == 16
    {
      CompletionBytes(sqHead, sqid, cid, status, phase)
    }
  }

  /** The completion ring after one entry. */
  function AfterPost(q: QueueState): QueueState
    requires q.ring.size > 0
  {
    q.(ring := Post(q.ring))
  }

  /** A ring of length zero, or a tail slot that is not mapped, cannot take a completion. */
  predicate CanPost(mem: Memory, cq: QueueState) { cq.ring.size > 0 && Mapped(mem, CompletionAddr(cq), 16) }

  /* ------------------------------------------------------------------ */
  /* Admin commands.                                                      */
  /* ------------------------------------------------------------------ */

  /** With a queue under `qid`. */
  function Opened(queues: map<uint16, QueueState>, qid: uint16): map<uint16, QueueState> {
    if qid in queues then queues else queues[qid := NewQueue(qid)]
  }

  /** The queue that a queue management command names, and the size it asks for. */
  function Named(cmd: Command): uint16 { Low16(cmd.cdw10) }

  function Asked(cmd: Command): uint16 { Low16(cmd.cdw10 / 0x1_0000 + 1) }

  function WithCompletions(q: QueueState, cmd: Command): QueueState {
    q.(cqAddr := cmd.prp1, interrupts := (cmd.cdw11 / 2) % 2 == 1, ring := q.ring.(size := Asked(cmd), cqPhase := true))
  }

  function WithSubmissions(q: QueueState, cmd: Command): QueueState {
    q.(sqAddr := cmd.prp1, cqID := Low16(cmd.cdw11 / 0x1_0000), ring := q.ring.(size := Asked(cmd)))
  }

  predicate Deletes(cmd: Command) { cmd.opcode == ADMIN_DELETE_SQ || cmd.opcode == ADMIN_DELETE_CQ }

  predicate Manages(cmd: Command) { cmd.opcode == ADMIN_CREATE_CQ || cmd.opcode == ADMIN_CREATE_SQ || Deletes(cmd) }

  /** The queues after a queue management command. */
  function AfterAdmin(queues: map<uint16, QueueState>, cmd: Command): map<uint16, QueueState> {
    var qid := Named(cmd);
    var open := Opened(queues, qid);
    if cmd.opcode == ADMIN_CREATE_CQ then open[qid := WithCompletions(open[qid], cmd)]
    else if cmd.opcode == ADMIN_CREATE_SQ then open[qid := WithSubmissions(open[qid], cmd)]
    else if Deletes(cmd) then queues - {qid}
    else queues
  }

  function Ascii(s: string): (r: seq<byte>)
    ensures |r| == |s| && forall i :: 0 <= i < |s| ==> r[i] == (s[i] as int) % 256
  {
    seq(|s|, i requires 0 <= i < |s| => (s[i] as int) % 256)
  }

  function LittleEndian64(x: nat): seq<byte> {
    [x % 256, x / 256 % 256, x / 0x1_0000 % 256, x / 0x100_0000 % 256, x / 0x1_0000_0000 % 256,
     x / 0x100_0000_0000 % 256, x / 0x1_0000_0000_0000 % 256, x / 0x100_0000_0000_0000 % 256]
  }

  /** The 4096 bytes that describe the controller. */
  function IdentifyController(): seq<byte> {
    [0x36, 0x1b, 0x10, 0] + Ascii("cc-nvme-000000000001") + Ascii("cc NVMe Block Device") + Zeros(20) + Ascii("0.1")
    + Zeros(11) + [1, 0, 0, 4, 1, 0] + Zeros(428) + [0x66, 0x44, 0, 0, 1, 0, 0, 0] + Zeros(3576)
  }

  /** The 4096 bytes that describe the disk. */
  function IdentifyNamespace(disk: Option<seq<byte>>): seq<byte> {
    var blocks := LittleEndian64(if disk.Some? then |disk.value| / BLOCK_SIZE else 0);
    blocks + blocks + blocks + Zeros(106) + [9] + Zeros(3965)
  }

  /** The data an admin command sends to the guest. */
  function AdminData(disk: Option<seq<byte>>, cmd: Command): seq<byte> {
    if cmd.opcode == ADMIN_IDENTIFY then
      var what := cmd.cdw10 % 256;
      if what == 0 then IdentifyNamespace(disk)
      else if what == 1 then IdentifyController()
      else if what == 2 then [1] + Zeros(4095)
      else []
    else if cmd.opcode == ADMIN_LOG_PAGE then Zeros((cmd.cdw10 / 0x1_0000 % 0x1000 + 1) * 4)
    else []
  }

  /** The device after the data of an admin command has been sent. */
  function AfterData(dev: Device, cmd: Command): (r: Option<Device>)
    requires ValidPage(dev.page)
    ensures r.Some? ==> r.value.page == dev.page && r.value.disk == dev.disk
  {
    match TransferPrp(Pair(dev.mem, AdminData(dev.disk, cmd)), cmd.prp1, cmd.prp2, dev.page, true)
    case None => None
    case Some(p) => Some(dev.(mem := p.mem))
  }

  /* ------------------------------------------------------------------ */
  /* Serving one queue.                                                   */
  /* ------------------------------------------------------------------ */

  /**
   The queues and the device while one queue is being served. An admin queue that is deleted
   by its own commands is served on, although it is no longer in the table: it is `loose`.
   */
  datatype Work = Work(queues: map<uint16, QueueState>, loose: Option<QueueState>, dev: Device)

  predicate Serving(w: Work, qid: uint16) { ValidPage(w.dev.page) && (w.loose.Some? || qid in w.queues) }

  function Current(w: Work, qid: uint16): QueueState
    requires Serving(w, qid)
  {
    if w.loose.Some? then w.loose.value else w.queues[qid]
  }

  function Put(w: Work, qid: uint16, q: QueueState): (r: Work)
    requires Serving(w, qid)
    ensures Serving(r, qid) && Current(r, qid) == q
  {
    if w.loose.Some? then w.(loose := Some(q)) else w.(queues := w.queues[qid := q])
  }

  /** The queues and device with one completion on the given queue. */
  function PostHere(w: Work, qid: uint16, p: Posting): (r: Option<Work>)
    requires Serving(w, qid)
    ensures r.Some? ==> Serving(r.value, qid)
  {
    var cq := Current(w, qid);
    if !CanPost(w.dev.mem, cq) then None
    else Some(Put(w, qid, AfterPost(cq)).(dev := w.dev.(mem := Write(w.dev.mem, CompletionAddr(cq), p.Bytes()))))
  }

  /** What the completion of the command at the head will say, once the head has moved past it. */
  function Announced(cq: QueueState, q: QueueState, cid: uint16, status: uint16): Posting {
    Posting(cq.id, cq.ring.cqTail, cq.ring.cqPhase, q.ring.sqHead, q.id, cid, status)
  }

  /** The head moves past the command and its completion goes to the queue's completion ring. */
  function Complete(w: Work, qid: uint16, cid: uint16, status: uint16): (r: Option<Work>)
    requires Serving(w, qid)
    ensures r.Some? ==> Serving(r.value, qid)
  {
    var q := Current(w, qid);
    if q.ring.size == 0 then None
    else
      var past := PastHead(q);
      var w' := Put(w, qid, past);
      if qid == ADMIN_QUEUE then PostHere(w', qid, Announced(past, past, cid, status))
      else if past.cqID !in w'.queues then None
      else PostHere(w', past.cqID, Announced(Current(w', past.cqID), past, cid, status))
  }

  /** The queues after an admin command served on the admin queue. */
  function Managed(w: Work, cmd: Command): (r: Work)
    requires Serving(w, ADMIN_QUEUE)
    ensures Serving(r, ADMIN_QUEUE)
  {
    var after := w.(queues := AfterAdmin(w.queues, cmd));
    if w.loose.None? && Deletes(cmd) && Named(cmd) == ADMIN_QUEUE then after.(loose := Some(w.queues[ADMIN_QUEUE]))
    else after
  }

  function AdminTurn(w: Work, cmd: Command): (r: Option<Work>)
    requires Serving(w, ADMIN_QUEUE)
    ensures r.Some? ==> Serving(r.value, ADMIN_QUEUE)
  {
    hide Complete, Managed, AfterData;
    if cmd.opcode == ADMIN_ASYNC_EVENT then
      var q := Current(w, ADMIN_QUEUE);
      if q.ring.size == 0 then None else Some(Put(w, ADMIN_QUEUE, PastHead(q)))
    else
      match AfterData(w.dev, cmd)
      case None => None
      case Some(dev) => Complete(Managed(w.(dev := dev), cmd), ADMIN_QUEUE, cmd.cid, 0)
  }

  function IoTurn(w: Work, qid: uint16, cmd: Command, answer: Fault): (r: Option<Work>)
    requires Serving(w, qid)
    ensures r.Some? ==> Serving(r.value, qid)
  {
    hide ExecuteIo, Complete;
    match ExecuteIo(w.dev, [], cmd, answer)
    case Error => None
    case Done(dev, status) => Complete(w.(dev := dev), qid, cmd.cid, status)
  }

  /** One command: fetched, executed and completed, or a fault that ends the register write. */
  function Turn(w: Work, qid: uint16, answer: Fault): (r: Option<Work>)
    requires Serving(w, qid)
    ensures r.Some? ==> Serving(r.value, qid)
  {
    hide IoTurn, AdminTurn, Fetch;
    match Fetch(w.dev.mem, Current(w, qid))
    case None => None
    case Some(cmd) => if qid == ADMIN_QUEUE then AdminTurn(w, cmd) else IoTurn(w, qid, cmd, answer)
  }

  /** How a register write ends; it starves when it would go on after the last answer. */
  datatype Ended<T> = Finished(value: T) | Faulted | Starved

  /** Commands are served until the head meets the tail, each with its answer from the disk. */
  function Process(w: Work, qid: uint16, answers: seq<Fault>): (r: Ended<Work>)
    requires Serving(w, qid)
    ensures r.Finished? ==> Serving(r.value, qid)
    decreases |answers|
  {
    hide Turn;
    var q := Current(w, qid);
    if q.ring.sqHead == q.sqTail then Finished(w)
    else if answers == [] then Starved
    else
      match Turn(w, qid, answers[0])
      case None => Faulted
      case Some(w') => Process(w', qid, answers[1..])
  }

  /* ------------------------------------------------------------------ */
  /* Register writes.                                                     */
  /* ------------------------------------------------------------------ */

  datatype Regs = Regs(cc: bv32, csts: bv32, intMask: bv32, aqa: uint32, asq: uint64, acq: uint64)

  datatype System = System(regs: Regs, queues: map<uint16, QueueState>, dev: Device, line: bool)

  predicate Raises(q: QueueState) { q.interrupts && q.ring.cqPending != 0 }

  /** Mask bit 0 is clear and some queue with interrupts enabled has completions the guest has not consumed. */
  predicate Wanted(s: System) {
    !Masked(s.regs.intMask) && exists k :: k in s.queues && Raises(s.queues[k])
  }

  function UpdateIrq(s: System): System { s.(line := Wanted(s)) }

  function WriteCC(s: System, value: bv32): System {
    var regs := s.regs.(cc := value, csts := if Enabled(value) then 1 else 0);
    if !Enabled(value) then
      if Enabled(s.regs.cc) then s.(regs := regs, queues := map[], line := false) else s.(regs := regs)
    else s.(regs := regs, dev := s.dev.(page := PageSize(Mps(value))),
            queues := s.queues[ADMIN_QUEUE := AdminQueue(s.regs.aqa, s.regs.asq, s.regs.acq)])
  }

  function Acked(q: QueueState, head: nat): QueueState { q.(ring := Acknowledge(q.ring, head)) }

  function RingDoorbell(s: System, offset: nat, value: bv32, answers: seq<Fault>): (r: Ended<System>)
    requires ValidPage(s.dev.page)
    ensures r.Finished? ==> ValidPage(r.value.dev.page)
  {
    hide Process, Wanted, AsUint32, Acknowledge;
    var qid, v := Low16(offset / 4 / 2), Low16(AsUint32(value));
    if qid !in s.queues then Finished(s)
    else if offset / 4 % 2 == 0 then
      match Process(Work(s.queues[qid := s.queues[qid].(sqTail := v)], None, s.dev), qid, answers)
      case Finished(w) => Finished(UpdateIrq(s.(queues := w.queues, dev := w.dev)))
      case Faulted => Faulted
      case Starved => Starved
    else Finished(UpdateIrq(s.(queues := s.queues[qid := Acked(s.queues[qid], v)])))
  }

  /** The registers that describe the admin queue; others can not be written. */
  function SetQueueRegister(r: Regs, offset: nat, v: uint32): Regs {
    if offset == REG_AQA then r.(aqa := v)
    else if offset == REG_ASQ then r.(asq := SetLow(r.asq, v))
    else if offset == REG_ASQ + 4 then r.(asq := SetHigh(r.asq, v))
    else if offset == REG_ACQ then r.(acq := SetLow(r.acq, v))
    else if offset == REG_ACQ + 4 then r.(acq := SetHigh(r.acq, v))
    else r
  }

  function Mmio(s: System, offset: nat, value: bv32, answers: seq<Fault>): (r: Ended<System>)
    requires ValidPage(s.dev.page)
    ensures r.Finished? ==> ValidPage(r.value.dev.page)
  {
    hide RingDoorbell, Wanted, AsUint32, Enabled, MaskSet, MaskCleared, Mps, PageSize;
    var r := s.regs;
    if offset == REG_INTMS then Finished(UpdateIrq(s.(regs := r.(intMask := MaskSet(r.intMask, value)))))
    else if offset == REG_INTMC then Finished(UpdateIrq(s.(regs := r.(intMask := MaskCleared(r.intMask, value)))))
    else if offset == REG_CC then Finished(WriteCC(s, value))
    else if offset >= DOORBELL_BASE then RingDoorbell(s, offset - DOORBELL_BASE, value, answers)
    else Finished(s.(regs := SetQueueRegister(r, offset, AsUint32(value))))
  }

  /* ------------------------------------------------------------------ */
  /* Runs: the guest stores to memory and writes registers.               */
  /* ------------------------------------------------------------------ */

  datatype Event = Store(addr: int, data: seq<byte>) | Register(offset: nat, value: bv32, answers: seq<Fault>)

  function Started(dev: Device): System { System(Regs(0, 0, 0, 0, 0, 0), map[], dev, false) }

  function React(s: System, e: Event): (r: Ended<System>)
    requires ValidPage(s.dev.page)
    ensures r.Finished? ==> ValidPage(r.value.dev.page)
  {
    match e
    case Store(addr, data) => Finished(s.(dev := s.dev.(mem := Write(s.dev.mem, addr, data))))
    case Register(offset, value, answers) => Mmio(s, offset, value, answers)
  }

  /** The system after a run in which every write returned. */
  function After(s: System, events: seq<Event>): (r: Ended<System>)
    requires ValidPage(s.dev.page)
    ensures r.Finished? ==> ValidPage(r.value.dev.page)
    decreases |events|
  {
    if events == [] then Finished(s)
    else
      var t := React(s, events[0]);
      if t.Finished? then After(t.value, events[1..]) else t
  }
}
