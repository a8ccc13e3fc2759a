/** The controller's data path as it runs: list pages walked in place, runs flushed as they end. */
module NvmeEngine {
  import opened Wrappers
  import opened MachineTypes
  import DivMod
  import opened GuestMemory
  import opened NvmePrp
  import opened NvmeScatter

  import opened NvmeIo

  /** Number of pages that `remaining` bytes take. */
  function PagesFor(remaining: nat, page: nat): nat
    requires page > 0
  {
    if remaining == 0 then 0 else if remaining <= page then 1 else 1 + PagesFor(remaining - page, page)
  }

  lemma PagesForIsCeiling(remaining: nat, page: nat)
    requires page > 0
    ensures (remaining + page - 1) / page == PagesFor(remaining, page)
  {
    if remaining == 0 {
      DivMod.Small(page - 1, page);
    } else if remaining <= page {
      DivMod.Step(remaining - 1, page);
      DivMod.Small(remaining - 1, page);
    } else {
      PagesForIsCeiling(remaining - page, page);
      DivMod.Step(remaining - 1, page);
    }
  }

  lemma {:induction false} PagesLeft(remaining: nat, page: nat)
    requires page > 0 && remaining > 0
    ensures PagesFor(remaining - Min(page, remaining), page) == PagesFor(remaining, page) - 1
    ensures PagesFor(remaining, page) == 1 <==> remaining <= page
  {
  }

  class Engine {
    var mem: Memory
    var disk: Option<seq<byte>>
    var page: nat
    const slicer: bool
    /** Data buffer reused between commands, and the slice of it in use. */
    var scratch: seq<byte>
    var buf: seq<byte>
    /** Position in `buf` and the pending run of the transfer under way. */
    var off: nat
    var run: Run

    ghost predicate Valid()
      reads this
    {
      ValidPage(page)
    }

    ghost function View(): Transfer
      reads this
    {
      Transfer(Pair(mem, buf), off, run)
    }

    ghost function State(): Device
      reads this
    {
      Device(mem, disk, page, slicer)
    }

    constructor (mem: Memory, disk: Option<seq<byte>>, slicer: bool)
      ensures Valid() && State() == Device(mem, disk, 4096, slicer) && scratch == []
    {
      this.mem, this.disk, this.slicer := mem, disk, slicer;
      page := 4096;
      scratch, buf, off, run := [], [], 0, Run(0, 0, 0);
    }

    /** Moves `buf[lo..hi]` to or from guest address `addr`. */
    method TransferPage(addr: int, lo: nat, hi: nat, write: bool) returns (ok: bool)
      modifies `mem, `buf
      ensures var r := PageOp(Pair(old(mem), old(buf)), addr, lo, hi, write);
              (ok <==> r.Some?) && (ok ==> Pair(mem, buf) == r.value)
    {
      if addr == 0 || !(lo <= hi <= |buf|) || !Mapped(mem, addr, hi - lo) {
        return false;
      }
      if write {
        mem := Write(mem, addr, buf[lo..hi]);
      } else {
        buf := buf[..lo] + Read(mem, addr, hi - lo) + buf[hi..];
      }
      ok := true;
    }

    method Flush(write: bool) returns (ok: bool)
      modifies `mem, `buf, `run
      ensures var r := FlushRun(old(View()), write); (ok <==> r.Some?) && (ok ==> View() == r.value)
    {
      if run.len == 0 {
        return true;
      }
      ok := TransferPage(run.addr, run.off, run.off + run.len, write);
      if ok {
        run := run.(len := 0);
      }
    }

    method Visit(addr: int, chunk: nat, write: bool) returns (ok: bool)
      modifies `mem, `buf, `run, `off
      ensures var r := VisitPage(old(View()), addr, chunk, write); (ok <==> r.Some?) && (ok ==> View() == r.value)
    {
      if run.len == 0 {
        run := Run(addr, off, chunk);
      } else if addr == (run.addr + run.len) % ADDRESS_LIMIT {
        run := run.(len := run.len + chunk);
      } else {
        ok := Flush(write);
        if !ok {
          return;
        }
        run := Run(addr, off, chunk);
      }
      off := off + chunk;
      ok := true;
    }

    /** Visits the first `usable` entries of one list page. */
    method VisitEntries(list: seq<byte>, usable: nat, remaining: nat, write: bool) returns (ok: bool, left: nat)
      requires Valid() && IsList(list, page) && remaining > 0
      requires usable <= PagesFor(remaining, page) && usable <= page / 8
      requires usable == page / 8 ==> PagesFor(remaining, page) == usable
      modifies `mem, `buf, `run, `off
      ensures ok ==> PagesFor(left, page) == PagesFor(remaining, page) - usable
      ensures ok ==> left == 0 || usable < page / 8
      ensures WalkRuns(old(View()), list, 0, remaining, page, write)
           == if ok then WalkRuns(View(), list, usable, left, page, write) else None
    {
      hide VisitPage, LittleEndian, Mapped, FlushRun;
      left, ok := remaining, true;
      for i := 0 to usable
        invariant ok && PagesFor(left, page) == PagesFor(remaining, page) - i
        invariant left > 0 ==> i < page / 8
        invariant WalkRuns(old(View()), list, 0, remaining, page, write)
               == WalkRuns(View(), list, i, left, page, write)
      {
        PagesLeft(left, page);
        var chunk := if page > left then left else page;
        ok := Visit(Entry(list, i), chunk, write);
        if !ok {
          return;
        }
        left := left - chunk;
      }
    }

    /** Walks the PRP list at `listAddr`, collecting its pages into runs. */
    method WalkPrpList(listAddr: nat, remaining: nat, write: bool) returns (ok: bool)
      requires Valid()
      modifies `mem, `buf, `run, `off
      ensures var r := WalkFrom(old(View()), listAddr, remaining, page, write);
              (ok <==> r.Some?) && (ok ==> View() == r.value)
    {
      if remaining == 0 {
        return true;
      }
      if listAddr == 0 {
        return false;
      }
      var entriesPerList := page / 8;
      PagesForIsCeiling(remaining, page);
      var entriesRemaining := (remaining + page - 1) / page;
      var addr, left := listAddr, remaining;
      while entriesRemaining > 0
        invariant entriesRemaining == PagesFor(left, page) > 0
        invariant addr != 0
        invariant WalkFrom(old(View()), listAddr, remaining, page, write) == WalkFrom(View(), addr, left, page, write)
        decreases entriesRemaining
      {
        if !Mapped(mem, addr, page) {
          return false;
        }
        var list := Read(mem, addr, page);
        var usable, hasNextList := entriesRemaining, false;
        if usable > entriesPerList {
          usable, hasNextList := entriesPerList - 1, true;
        }
        ok, left := VisitEntries(list, usable, left, write);
        if !ok {
          return false;
        }
        entriesRemaining := entriesRemaining - usable;
        if !hasNextList {
          return true;
        }
        PagesLeft(left, page);
        addr := Entry(list, entriesPerList - 1);
        if addr == 0 {
          return false;
        }
      }
    }

    /** Moves the whole of `buf` through PRP1 and PRP2. */
    method TransferPRP(prp1: nat, prp2: nat, write: bool) returns (ok: bool)
      requires Valid()
      modifies `mem, `buf, `run, `off
      ensures var r := TransferPrp(Pair(old(mem), old(buf)), prp1, prp2, page, write);
              (ok <==> r.Some?) && (ok ==> Pair(mem, buf) == r.value)
    {
      hide PageOp, WalkFrom, FlushRun;
      if |buf| == 0 {
        return true;
      }
      if prp1 == 0 {
        return false;
      }
      var n := page - prp1 % page;
      if n > |buf| {
        n := |buf|;
      }
      ok := TransferPage(prp1, 0, n, write);
      if !ok || n >= |buf| {
        return;
      }
      if |buf| - n <= page {
        ok := TransferPage(prp2, n, |buf|, write);
        return;
      }
      off, run := n, Run(0, 0, 0);
      ok := WalkPrpList(prp2, |buf| - n, write);
      if ok {
        ok := Flush(write);
      }
    }

    /** Moves `data` to the guest through PRP1 and PRP2. */
    method Send(data: seq<byte>, prp1: nat, prp2: nat) returns (ok: bool)
      requires Valid()
      modifies `mem, `buf, `run, `off
      ensures var r := TransferPrp(Pair(old(mem), data), prp1, prp2, page, true);
              (ok <==> r.Some?) && (ok ==> mem == r.value.mem)
    {
      hide TransferPrp;
      buf := data;
      ok := TransferPRP(prp1, prp2, true);
    }

    /** Whether the first `usable` entries of one list page follow on from `expected`. */
    method CheckEntries(list: seq<byte>, usable: nat, remaining: nat, expected: nat) returns (ok: bool, left: nat,
                        next: nat)
      requires Valid() && IsList(list, page) && remaining > 0
      requires usable <= PagesFor(remaining, page) && usable <= page / 8
      requires usable == page / 8 ==> PagesFor(remaining, page) == usable
      ensures ok ==> PagesFor(left, page) == PagesFor(remaining, page) - usable
      ensures ok ==> left == 0 || usable < page / 8
      ensures FollowsOn(mem, list, 0, remaining, expected, page)
         <==> ok && FollowsOn(mem, list, usable, left, next, page)
    {
      left, ok, next := remaining, true, expected;
      for i := 0 to usable
        invariant ok && PagesFor(left, page) == PagesFor(remaining, page) - i
        invariant left > 0 ==> i < page / 8
        invariant FollowsOn(mem, list, 0, remaining, expected, page) <==> FollowsOn(mem, list, i, left, next, page)
      {
        PagesLeft(left, page);
        var chunk := if page > left then left else page;
        if Entry(list, i) != next {
          return false, left, next;
        }
        next := (next + page) % ADDRESS_LIMIT;
        left := left - chunk;
      }
    }

    /** Walks the PRP list at `listAddr`, comparing every page with the one expected. */
    method WalkContiguous(listAddr: nat, remaining: nat, start: nat) returns (yes: bool)
      requires Valid() && remaining > 0
      ensures yes <==> listAddr != 0 && Mapped(mem, listAddr, page)
                       && FollowsOn(mem, Read(mem, listAddr, page), 0, remaining, start, page)
    {
      if listAddr == 0 {
        return false;
      }
      var entriesPerList := page / 8;
      PagesForIsCeiling(remaining, page);
      var entriesRemaining := (remaining + page - 1) / page;
      var addr, left, expected := listAddr, remaining, start;
      ghost var goal := Mapped(mem, listAddr, page) && FollowsOn(mem, Read(mem, listAddr, page), 0, remaining, start, page);
      while entriesRemaining > 0
        invariant entriesRemaining == PagesFor(left, page) > 0
        invariant addr != 0
        invariant goal <==> Mapped(mem, addr, page) && FollowsOn(mem, Read(mem, addr, page), 0, left, expected, page)
        decreases entriesRemaining
      {
        if !Mapped(mem, addr, page) {
          return false;
        }
        var list := Read(mem, addr, page);
        var usable, hasNextList := entriesRemaining, false;
        if usable > entriesPerList {
          usable, hasNextList := entriesPerList - 1, true;
        }
        yes, left, expected := CheckEntries(list, usable, left, expected);
        if !yes {
          return false;
        }
        entriesRemaining := entriesRemaining - usable;
        if !hasNextList {
          return true;
        }
        PagesLeft(left, page);
        addr := Entry(list, entriesPerList - 1);
        if addr == 0 {
          return false;
        }
      }
    }

    /** Whether PRP1 and PRP2 name one contiguous range of `size` bytes. */
    method PrpIsContiguous(prp1: nat, prp2: nat, size: nat) returns (yes: bool)
      requires Valid()
      ensures yes <==> Contiguous(mem, prp1, prp2, size, page)
    {
      var first := page - prp1 % page;
      if first >= size {
        return true;
      }
      var expected := (prp1 + first) % ADDRESS_LIMIT;
      if size - first <= page {
        return prp2 == expected;
      }
      yes := WalkContiguous(prp2, size - first, expected);
    }

    /** Runs one I/O command; an error ends the doorbell write that caused it. */
    method Execute(cmd: Command, fault: Fault) returns (status: uint16, error: bool)
      requires Valid()
      modifies `mem, `disk, `scratch, `buf, `run, `off
      ensures var out := ExecuteIo(old(State()), old(scratch), cmd, fault);
              (error <==> out.Error?) && (!error ==> State() == out.dev && status == out.status)
    {
      status, error := 1, false;
      if disk.None? {
        return;
      }
      if cmd.opcode == IO_FLUSH {
        return 0, false;
      }
      var n := Count(cmd);
      var offset := Offset(Lba(cmd));
      ghost var held := scratch;
      scratch := Grown(scratch, n);
      if cmd.opcode == IO_READ {
        status, error := ReadToPages(cmd, n, offset, fault);
      } else if cmd.opcode == IO_WRITE {
        status, error := WriteFromPages(cmd, n, offset, held, fault);
      }
    }

    method ReadToPages(cmd: Command, n: nat, offset: int, fault: Fault) returns (status: uint16, error: bool)
      requires Valid() && disk.Some? && n == Count(cmd) && offset == Offset(Lba(cmd))
      modifies `mem, `buf, `run, `off
      ensures var out := ReadCommand(old(State()), disk.value, cmd, fault);
              (error <==> out.Error?) && (!error ==> State() == out.dev && status == out.status)
    {
      hide Contiguous, TransferPrp, Mapped, DiskRead, Offset;
      var (got, failed) := DiskRead(disk.value, offset, n, fault);
      if slicer {
        if cmd.prp1 == 0 {
          return 1, true;
        }
        var contiguous := PrpIsContiguous(cmd.prp1, cmd.prp2, n);
        if contiguous && Mapped(mem, cmd.prp1, n) {
          if failed {
            mem := Write(mem, cmd.prp1, got);
            return 1, true;
          }
          mem := Write(mem, cmd.prp1, got + Zeros(n - |got|));
          return 0, false;
        }
      }
      if failed {
        return 1, false;
      }
      buf := got + Zeros(n - |got|);
      var ok := TransferPRP(cmd.prp1, cmd.prp2, true);
      return 0, !ok;
    }

    method WriteFromPages(cmd: Command, n: nat, offset: int, ghost held: seq<byte>,
                          fault: Fault) returns (status: uint16, error: bool)
      requires Valid() && disk.Some? && n == Count(cmd) && offset == Offset(Lba(cmd)) && scratch == Grown(held, n)
      modifies `mem, `disk, `scratch, `buf, `run, `off
      ensures var out := WriteCommand(old(State()), old(disk).value, held, cmd, fault);
              (error <==> out.Error?) && (!error ==> State() == out.dev && status == out.status)
    {
      if slicer {
        if cmd.prp1 == 0 {
          return 1, true;
        }
        var contiguous := PrpIsContiguous(cmd.prp1, cmd.prp2, n);
        if contiguous && Mapped(mem, cmd.prp1, n) {
          var (stored, failed) := DiskWrite(disk.value, offset, Read(mem, cmd.prp1, n), fault);
          disk := Some(stored);
          return if failed then 1 else 0, failed;
        }
      }
      buf := scratch[..n];
      var ok := TransferPRP(cmd.prp1, cmd.prp2, false);
      if !ok {
        return 1, true;
      }
      var (stored, failed) := DiskWrite(disk.value, offset, buf, fault);
      disk := Some(stored);
      return if failed then 1 else 0, false;
    }
  }
}
