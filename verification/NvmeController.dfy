/** The NVMe controller as it runs: queue objects, registers and the loop that serves a submission ring. */
module NvmeController {
  import opened Wrappers
  import opened MachineTypes
  import opened GuestMemory
  import opened NvmePrp
  import opened NvmeRings
  import opened NvmeIo
  import opened NvmeEngine
  import P = NvmeProtocol
  import opened NvmeProtocol

  class Queue {
    const id: uint16
    var size: uint16
    var sqAddr: uint64
    var cqAddr: uint64
    var cqID: uint16
    var sqHead: uint16
    var sqTail: uint16
    var cqHead: uint16
    var cqTail: uint16
    var cqPending: uint16
    var cqPhase: bool
    var interrupts: bool

    constructor (id: uint16)
      ensures State() == NewQueue(id)
    {
      this.id := id;
      size, sqAddr, cqAddr, cqID := 0, 0, 0, 0;
      sqHead, sqTail, cqHead, cqTail, cqPending := 0, 0, 0, 0, 0;
      cqPhase, interrupts := false, false;
    }

    constructor Admin(size: uint16, sqAddr: uint64, cqAddr: uint64)
      ensures State() == QueueState(ADMIN_QUEUE, sqAddr, cqAddr, 0, true, 0, Ring(size, 0, 0, 0, 0, true))
    {
      id, cqID := ADMIN_QUEUE, 0;
      this.size, this.sqAddr, this.cqAddr := size, sqAddr, cqAddr;
      sqHead, sqTail, cqHead, cqTail, cqPending := 0, 0, 0, 0, 0;
      cqPhase, interrupts := true, true;
    }

    ghost function State(): QueueState
      reads this
    {
      QueueState(id, sqAddr, cqAddr, cqID, interrupts, sqTail, Ring(size, sqHead, cqHead, cqTail, cqPending, cqPhase))
    }

    method PlaceCompletions(size: uint16, addr: uint64, interrupts: bool)
      modifies this
      ensures State() == old(State()).(cqAddr := addr, interrupts := interrupts,
                                       ring := old(State()).ring.(size := size, cqPhase := true))
    {
      this.size, cqAddr, cqPhase := size, addr, true;
      this.interrupts := interrupts;
    }

    method PlaceSubmissions(size: uint16, addr: uint64, cqID: uint16)
      modifies this
      ensures State() == old(State()).(sqAddr := addr, cqID := cqID, ring := old(State()).ring.(size := size))
    {
      this.size, sqAddr, this.cqID := size, addr, cqID;
    }

    /** The guest has consumed completions up to `head`. */
    method AdvanceCompletionHead(head: uint16)
      modifies `cqHead, `cqPending
      ensures State() == Acked(old(State()), head)
    {
      if size == 0 {
        cqHead, cqPending := head, 0;
        return;
      }
      var oldHead := cqHead;
      cqHead := head % size;
      var consumed := if cqHead < oldHead then Low16(size - oldHead + cqHead) else cqHead - oldHead;
      if consumed == 0 && cqPending == size {
        cqPending := 0;
        return;
      }
      if consumed >= cqPending {
        cqPending := 0;
        return;
      }
      cqPending := cqPending - consumed;
    }

    /** The submission head moves past one command. */
    method MoveHead()
      requires size > 0
      modifies `sqHead
      ensures State() == PastHead(old(State()))
    {
      sqHead := Low16(sqHead + 1) % size;
    }

    method MoveTail()
      requires size > 0
      modifies `cqTail, `cqPending, `cqPhase
      ensures State() == AfterPost(old(State()))
    {
      cqTail := Low16(cqTail + 1) % size;
      if cqPending < size {
        cqPending := cqPending + 1;
      }
      if cqTail == 0 {
        cqPhase := !cqPhase;
      }
    }
  }

  class Controller {
    const dma: Engine
    var cc: bv32
    var csts: bv32
    var intMask: bv32
    var aqa: uint32
    var asq: uint64
    var acq: uint64
    var irqHigh: bool
    /** Level last driven on the interrupt line. */
    var line: bool
    var queues: map<uint16, Queue>

    /** Each queue is filed under its own id. */
    ghost predicate Filed()
      reads `queues, queues.Values
    {
      forall k :: k in queues ==> queues[k].id == k
    }

    ghost predicate Valid()
      reads this, dma, queues.Values
    {
      dma.Valid() && Filed() && line == irqHigh
    }

    ghost function States(): map<uint16, QueueState>
      reads `queues, queues.Values
    {
      map k | k in queues :: queues[k].State()
    }

    ghost function Sys(): System
      reads this, dma, queues.Values
    {
      System(Regs(cc, csts, intMask, aqa, asq, acq), States(), dma.State(), line)
    }

    ghost predicate InTable(q: Queue)
      reads `queues
    {
      q.id in queues && queues[q.id] == q
    }

    /** The queues and the device while `q` is served. */
    ghost function Now(q: Queue): Work
      reads `queues, queues.Values, q, dma
    {
      Work(States(), if InTable(q) then None else Some(q.State()), dma.State())
    }

    constructor (dma: Engine)
      requires dma.Valid()
      ensures this.dma == dma && Valid() && queues == map[]
      ensures Sys() == System(Regs(0, 0, 0, 0, 0, 0), map[], dma.State(), false)
    {
      this.dma := dma;
      cc, csts, intMask := 0, 0, 0;
      aqa, asq, acq := 0, 0, 0;
      irqHigh, line := false, false;
      queues := map[];
    }

    /** The line follows the pending completions. */
    method UpdateIrq()
      requires Valid()
      modifies `irqHigh, `line
      ensures Sys() == P.UpdateIrq(old(Sys())) && Valid()
    {
      hide Masked;
      var high := false;
      if !Masked(intMask) {
        var left := queues.Keys;
        while left != {}
          invariant left <= queues.Keys && !high
          invariant forall k :: k in queues && k !in left ==> !Raises(States()[k])
          decreases left
        {
          var k :| k in left;
          if queues[k].interrupts && queues[k].cqPending != 0 {
            high := true;
            assert Raises(States()[k]);
            break;
          }
          left := left - {k};
        }
      }
      assert high == Wanted(old(Sys()));
      if high != irqHigh {
        irqHigh := high;
        line := high;
      }
    }

    /** The queue under `qid`, created on first use. */
    method QueueFor(qid: uint16) returns (q: Queue)
      requires Filed()
      modifies `queues
      ensures qid in queues && queues[qid] == q && q.id == qid
      ensures qid in old(queues) ==> queues == old(queues)
      ensures qid !in old(queues) ==> fresh(q) && queues == old(queues)[qid := q]
      ensures States() == Opened(old(States()), qid) && Filed()
    {
      if qid in queues {
        q := queues[qid];
      } else {
        q := new Queue(qid);
        queues := queues[qid := q];
        assert forall k :: k in queues && k != qid ==> queues[k] == old(queues)[k];
      }
    }

    method CreateCompletionQueue(cmd: Command)
      requires Filed() && cmd.opcode == ADMIN_CREATE_CQ
      modifies `queues, queues.Values
      ensures States() == AfterAdmin(old(States()), cmd) && Filed()
      ensures forall k :: k in queues ==> queues[k] in old(queues.Values) || fresh(queues[k])
      ensures forall q: Queue :: q in old(queues.Values) ==> old(InTable(q)) ==> InTable(q)
    {
      hide Low16, Queue.State, Opened, Asked;
      var qid := Named(cmd);
      var q := QueueFor(qid);
      ghost var open := States();
      q.PlaceCompletions(Asked(cmd), cmd.prp1, (cmd.cdw11 / 2) % 2 == 1);
      assert States() == open[qid := q.State()];
    }

    method CreateSubmissionQueue(cmd: Command)
      requires Filed() && cmd.opcode == ADMIN_CREATE_SQ
      modifies `queues, queues.Values
      ensures States() == AfterAdmin(old(States()), cmd) && Filed()
      ensures forall k :: k in queues ==> queues[k] in old(queues.Values) || fresh(queues[k])
      ensures forall q: Queue :: q in old(queues.Values) ==> old(InTable(q)) ==> InTable(q)
    {
      hide Low16, Queue.State, Opened, Asked;
      var qid := Named(cmd);
      var q := QueueFor(qid);
      ghost var open := States();
      q.PlaceSubmissions(Asked(cmd), cmd.prp1, Low16(cmd.cdw11 / 0x1_0000));
      assert States() == open[qid := q.State()];
    }

    method DeleteQueue(cmd: Command)
      requires Filed() && Deletes(cmd)
      modifies `queues
      ensures States() == AfterAdmin(old(States()), cmd) && Filed() && queues == old(queues) - {Named(cmd)}
    {
      queues := queues - {Named(cmd)};
    }

    /** Queue management commands; every other admin command leaves the queues alone. */
    method ExecuteAdmin(q: Queue, cmd: Command)
      requires Filed() && q.id == ADMIN_QUEUE && ValidPage(dma.page)
      modifies `queues, queues.Values
      ensures Now(q) == Managed(old(Now(q)), cmd) && Filed()
      ensures forall k :: k in queues ==> queues[k] in old(queues.Values) || fresh(queues[k])
    {
      hide Queue.State, Low16, AfterAdmin, Engine.State;
      if cmd.opcode == ADMIN_CREATE_CQ {
        CreateCompletionQueue(cmd);
      } else if cmd.opcode == ADMIN_CREATE_SQ {
        CreateSubmissionQueue(cmd);
      } else if cmd.opcode == ADMIN_DELETE_SQ || cmd.opcode == ADMIN_DELETE_CQ {
        DeleteQueue(cmd);
      } else {
        NotManaged(States(), cmd);
      }
    }

    /** The queue being served, or the completion queue of one, is the one named. */
    ghost predicate Served(q: Queue)
      reads `queues
    {
      InTable(q) || q.id == ADMIN_QUEUE
    }

    /** Posts a completion on `cq`, written to guest memory at its tail slot; fails exactly when that cannot be. */
    method WriteCompletion(cq: Queue, sqid: uint16, head: uint16, cid: uint16, status: uint16) returns (fault: bool)
      requires Filed() && Served(cq) && dma.Valid()
      modifies cq`cqTail, cq`cqPending, cq`cqPhase, dma`mem
      ensures var p := Posting(cq.id, old(cq.cqTail), old(cq.cqPhase), head, sqid, cid, status);
              var r := PostHere(old(Now(cq)), cq.id, p);
              (fault <==> r.None?) && (!fault ==> Now(cq) == r.value)
      ensures Filed() && dma.Valid()
    {
      hide Mapped, Write, CompletionBytes, Post;
      var addr := (cq.cqAddr + cq.cqTail * 16) % ADDRESS_LIMIT;
      if cq.size == 0 || !Mapped(dma.mem, addr, 16) {
        return true;
      }
      dma.mem := Write(dma.mem, addr, CompletionBytes(head, sqid, cid, status, cq.cqPhase));
      cq.MoveTail();
      assert InTable(cq) ==> States() == old(States())[cq.id := cq.State()];
      assert !InTable(cq) ==> States() == old(States());
      fault := false;
    }

    /** The head moves past the command and the completion is posted. */
    method Complete(q: Queue, cid: uint16, status: uint16) returns (fault: bool)
      requires Filed() && Served(q) && dma.Valid()
      modifies queues.Values, q, dma`mem
      ensures var r := P.Complete(old(Now(q)), q.id, cid, status); (fault <==> r.None?) && (!fault ==> Now(q) == r.value)
      ensures Filed() && dma.Valid()
    {
      hide PostHere, PastHead;
      if q.size == 0 {
        return true;
      }
      q.MoveHead();
      assert InTable(q) ==> States() == old(States())[q.id := q.State()];
      assert !InTable(q) ==> States() == old(States());
      if q.id == ADMIN_QUEUE {
        fault := WriteCompletion(q, q.id, q.sqHead, cid, status);
      } else if q.cqID in queues {
        fault := WriteCompletion(queues[q.cqID], q.id, q.sqHead, cid, status);
      } else {
        fault := true;
      }
    }

    /** An I/O command is run by the device and completed. */
    method ServeIo(q: Queue, cmd: Command, answer: Fault) returns (fault: bool)
      requires Filed() && InTable(q) && q.id != ADMIN_QUEUE && dma.Valid()
      modifies queues.Values, q, dma
      ensures var r := IoTurn(old(Now(q)), q.id, cmd, answer); (fault <==> r.None?) && (!fault ==> Now(q) == r.value)
      ensures Filed() && dma.Valid()
    {
      hide ExecuteIo, P.Complete, Queue.State;
      ScratchNeverShows(dma.State(), dma.scratch, [], cmd, answer);
      var status;
      status, fault := dma.Execute(cmd, answer);
      if fault {
        return;
      }
      fault := Complete(q, cmd.cid, status);
    }

    /** An admin command sends its data, manages queues and is completed; an event request is only taken. */
    method ServeAdmin(q: Queue, cmd: Command) returns (fault: bool)
      requires Filed() && q.id == ADMIN_QUEUE && dma.Valid()
      modifies `queues, queues.Values, q, dma
      ensures var r := AdminTurn(old(Now(q)), cmd); (fault <==> r.None?) && (!fault ==> Now(q) == r.value)
      ensures Filed() && dma.Valid()
      ensures forall k :: k in queues ==> queues[k] in old(queues.Values) || fresh(queues[k])
    {
      hide P.Complete, Managed, AfterAdmin, AdminData, PastHead, TransferPrp;
      if cmd.opcode == ADMIN_ASYNC_EVENT {
        if q.size == 0 {
          return true;
        }
        q.MoveHead();
        assert InTable(q) ==> States() == old(States())[q.id := q.State()];
        assert !InTable(q) ==> States() == old(States());
        return false;
      }
      var sent := dma.Send(AdminData(dma.disk, cmd), cmd.prp1, cmd.prp2);
      if !sent {
        return true;
      }
      ExecuteAdmin(q, cmd);
      fault := Complete(q, cmd.cid, 0);
    }

    /** One turn of the loop: the command at the head in memory is run and completed. */
    method ServeNext(q: Queue, answer: Fault) returns (fault: bool)
      requires Filed() && Served(q) && dma.Valid()
      modifies `queues, queues.Values, q, dma
      ensures var r := Turn(old(Now(q)), q.id, answer); (fault <==> r.None?) && (!fault ==> Now(q) == r.value)
      ensures Filed() && dma.Valid() && Served(q)
      ensures forall k :: k in queues ==> queues[k] in old(queues.Values) || fresh(queues[k])
    {
      hide IoTurn, AdminTurn, Mapped, ParseCommand;
      var addr := (q.sqAddr + q.sqHead * 64) % ADDRESS_LIMIT;
      if !Mapped(dma.mem, addr, 64) {
        return true;
      }
      var cmd := ParseCommand(Read(dma.mem, addr, 64));
      if q.id == ADMIN_QUEUE {
        fault := ServeAdmin(q, cmd);
      } else {
        fault := ServeIo(q, cmd, answer);
      }
    }

    /**
     Serves the submission ring until its head meets the tail, with one answer from the disk for
     each command. It ends as `Process` says: finished, at a fault, or with the answers used up.
     */
    method ProcessSubmissionQueue(q: Queue, answers: seq<Fault>) returns (fault: bool, starved: bool)
      requires Filed() && Served(q) && dma.Valid()
      modifies `queues, queues.Values, q, dma
      ensures var r := Process(old(Now(q)), q.id, answers);
              (fault <==> r.Faulted?) && (starved <==> r.Starved?) && (!fault && !starved ==> Now(q) == r.value)
      ensures Filed() && dma.Valid()
      ensures forall k :: k in queues ==> queues[k] in old(queues.Values) || fresh(queues[k])
    {
      hide Turn;
      var i := 0;
      assert answers[0..] == answers;
      while q.sqHead != q.sqTail
        invariant i <= |answers| && Filed() && Served(q) && dma.Valid()
        invariant forall k :: k in queues ==> queues[k] in old(queues.Values) || fresh(queues[k])
        invariant Process(Now(q), q.id, answers[i..]) == Process(old(Now(q)), q.id, answers)
        decreases |answers| - i
      {
        if i == |answers| {
          return false, true;
        }
        assert answers[i..][0] == answers[i] && answers[i..][1..] == answers[i + 1..];
        fault := ServeNext(q, answers[i]);
        if fault {
          return true, false;
        }
        i := i + 1;
      }
      return false, false;
    }

    /** The admin queue, as the AQA, ASQ and ACQ registers describe it. */
    method ConfigureAdminQueue()
      requires Filed()
      modifies `queues
      ensures States() == old(States())[ADMIN_QUEUE := AdminQueue(aqa, asq, acq)] && Filed()
      ensures forall k :: k in queues ==> queues[k] in old(queues.Values) || fresh(queues[k])
    {
      var sqSize, cqSize := aqa % 0x1000 + 1, (aqa / 0x1_0000) % 0x1000 + 1;
      var q := new Queue.Admin(if cqSize < sqSize then cqSize else sqSize, asq, acq);
      assert q.State() == AdminQueue(aqa, asq, acq) && q.id == ADMIN_QUEUE;
      hide Queue.State, AdminQueue;
      queues := queues[ADMIN_QUEUE := q];
      assert forall k :: k in queues && k != ADMIN_QUEUE ==> queues[k] == old(queues)[k];
    }

    method WriteCC(value: bv32)
      requires Valid()
      modifies this, dma
      ensures Sys() == P.WriteCC(old(Sys()), value) && Valid()
      ensures forall k :: k in queues ==> queues[k] in old(queues.Values) || fresh(queues[k])
    {
      hide Queue.State, AdminQueue, PageSize, Enabled, Mps;
      var wasEnabled := Enabled(cc);
      cc := value;
      if !Enabled(cc) {
        csts := 0;
        if wasEnabled {
          TurnOff();
        }
      } else {
        TurnOn(PageSize(Mps(cc)));
        csts := 1;
      }
    }

    method TurnOn(page: nat)
      requires Filed() && dma.Valid() && ValidPage(page)
      modifies `queues, dma
      ensures States() == old(States())[ADMIN_QUEUE := AdminQueue(aqa, asq, acq)] && Filed()
      ensures dma.Valid() && dma.State() == old(dma.State()).(page := page)
      ensures forall k :: k in queues ==> queues[k] in old(queues.Values) || fresh(queues[k])
    {
      hide Queue.State, AdminQueue;
      dma.page := page;
      ConfigureAdminQueue();
    }

    method TurnOff()
      modifies `queues, `irqHigh, `line
      ensures queues == map[] && States() == map[] && !irqHigh && !line
    {
      queues := map[];
      irqHigh := false;
      line := false;
    }

    /** A doorbell write: new submission tail, or new completion head. */
    method WriteDoorbell(offset: nat, value: bv32, answers: seq<Fault>) returns (fault: bool, starved: bool)
      requires Valid()
      modifies `queues, `irqHigh, `line, queues.Values, dma
      ensures var r := RingDoorbell(old(Sys()), offset, value, answers);
              (fault <==> r.Faulted?) && (starved <==> r.Starved?) && (!fault && !starved ==> Sys() == r.value)
      ensures Valid()
      ensures forall k :: k in queues ==> queues[k] in old(queues.Values) || fresh(queues[k])
    {
      hide Process, Wanted, Acknowledge, AsUint32;
      fault, starved := false, false;
      var index := offset / 4;
      var qid := Low16(index / 2);
      if qid !in queues {
        return;
      }
      var q := queues[qid];
      if index % 2 == 0 {
        q.sqTail := Low16(AsUint32(value));
        assert States() == old(States())[qid := q.State()];
        fault, starved := ProcessSubmissionQueue(q, answers);
        if fault || starved {
          return;
        }
      } else {
        q.AdvanceCompletionHead(Low16(AsUint32(value)));
        assert States() == old(States())[qid := q.State()];
      }
      UpdateIrq();
    }

    method WriteQueueRegister(offset: nat, v: uint32)
      modifies `aqa, `asq, `acq
      ensures Regs(cc, csts, intMask, aqa, asq, acq)
           == SetQueueRegister(old(Regs(cc, csts, intMask, aqa, asq, acq)), offset, v)
    {
      hide SetLow, SetHigh;
      if offset == REG_AQA {
        aqa := v;
      } else if offset == REG_ASQ {
        asq := SetLow(asq, v);
      } else if offset == REG_ASQ + 4 {
        asq := SetHigh(asq, v);
      } else if offset == REG_ACQ {
        acq := SetLow(acq, v);
      } else if offset == REG_ACQ + 4 {
        acq := SetHigh(acq, v);
      }
    }

    /** A register write does what `Mmio` says. */
    method WriteMmio(offset: nat, value: bv32, answers: seq<Fault>) returns (fault: bool, starved: bool)
      requires Valid()
      modifies this, dma, queues.Values
      ensures var r := Mmio(old(Sys()), offset, value, answers);
              (fault <==> r.Faulted?) && (starved <==> r.Starved?) && (!fault && !starved ==> Sys() == r.value)
      ensures Valid()
      ensures forall k :: k in queues ==> queues[k] in old(queues.Values) || fresh(queues[k])
    {
      hide AsUint32, SetQueueRegister, RingDoorbell, Wanted, P.WriteCC, Queue.State, MaskSet, MaskCleared;
      fault, starved := false, false;
      if offset == REG_INTMS {
        intMask := MaskSet(intMask, value);
        UpdateIrq();
      } else if offset == REG_INTMC {
        intMask := MaskCleared(intMask, value);
        UpdateIrq();
      } else if offset == REG_CC {
        WriteCC(value);
      } else if offset >= DOORBELL_BASE {
        fault, starved := WriteDoorbell(offset - DOORBELL_BASE, value, answers);
      } else {
        WriteQueueRegister(offset, AsUint32(value));
      }
    }

    /** A whole run: the guest stores to memory and writes registers, as long as the writes return. */
    method Run(events: seq<Event>) returns (fault: bool, starved: bool)
      requires Valid()
      modifies this, dma, queues.Values
      ensures var r := After(old(Sys()), events);
              (fault <==> r.Faulted?) && (starved <==> r.Starved?) && (!fault && !starved ==> Sys() == r.value)
      ensures Valid()
      ensures forall k :: k in queues ==> queues[k] in old(queues.Values) || fresh(queues[k])
    {
      hide Mmio, Queue.State;
      fault, starved := false, false;
      var i := 0;
      assert events[0..] == events;
      while i < |events|
        invariant i <= |events| && Valid() && !fault && !starved
        invariant forall k :: k in queues ==> queues[k] in old(queues.Values) || fresh(queues[k])
        invariant After(Sys(), events[i..]) == After(old(Sys()), events)
      {
        assert events[i..][0] == events[i] && events[i..][1..] == events[i + 1..];
        match events[i] {
          case Store(addr, data) => dma.mem := Write(dma.mem, addr, data);
          case Register(offset, value, answers) => fault, starved := WriteMmio(offset, value, answers);
        }
        if fault || starved {
          return;
        }
        i := i + 1;
      }
      assert events[i..] == [];
    }
  }

  lemma NotManaged(queues: map<uint16, QueueState>, cmd: Command)
    requires !Manages(cmd)
    ensures AfterAdmin(queues, cmd) == queues
  {
  }
}
