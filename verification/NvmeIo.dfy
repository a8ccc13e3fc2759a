/** I/O commands of the NVMe controller: block reads and writes through PRP lists. */
module NvmeIo {
  import opened Wrappers
  import opened MachineTypes
  import opened GuestMemory
  import opened NvmePrp

  import opened NvmeScatter

  const BLOCK_SIZE := 512

  const IO_FLUSH := 0
  const IO_WRITE := 1
  const IO_READ := 2

  datatype Command = Command(opcode: uint16, cid: uint16, prp1: uint64, prp2: uint64,
                             cdw10: uint32, cdw11: uint32, cdw12: uint32)

  lemma LittleEndianBound(b: seq<byte>)
    ensures |b| == 2 ==> LittleEndian(b) < 0x1_0000
    ensures |b| == 4 ==> LittleEndian(b) < 0x1_0000_0000
    ensures |b| == 8 ==> LittleEndian(b) < 0x1_0000_0000_0000_0000
  {
    if |b| >= 2 {
      LittleEndianSkip(b);
      if |b| >= 4 {
        LittleEndianSkip(b[2..]);
        assert b[2..][2..] == b[4..];
        LittleEndianBound(b[4..]);
      }
    }
  }

  lemma LittleEndianSkip(b: seq<byte>)
    requires |b| >= 2
    ensures LittleEndian(b) == b[0] + 256 * b[1] + 0x1_0000 * LittleEndian(b[2..])
  {
    assert b[1..][1..] == b[2..];
  }

  /** The fields of a 64-byte submission entry that the controller uses. */
  function ParseCommand(raw: seq<byte>): Command
    requires |raw| == 64
  {
    LittleEndianBound(raw[2..4]);
    LittleEndianBound(raw[24..32]);
    LittleEndianBound(raw[32..40]);
    LittleEndianBound(raw[40..44]);
    LittleEndianBound(raw[44..48]);
    LittleEndianBound(raw[48..52]);
    Command(raw[0], LittleEndian(raw[2..4]), LittleEndian(raw[24..32]), LittleEndian(raw[32..40]),
            LittleEndian(raw[40..44]), LittleEndian(raw[44..48]), LittleEndian(raw[48..52]))
  }

  function Lba(cmd: Command): nat { cmd.cdw10 + cmd.cdw11 * 0x1_0000_0000 }

  function Count(cmd: Command): nat { (cmd.cdw12 % 0x1_0000 + 1) * BLOCK_SIZE }

  /** `int64(lba * blockSize)`: the product wraps at 64 bits and is read as signed. */
  function Offset(lba: nat): int {
    var wrapped := (lba * BLOCK_SIZE) % 0x1_0000_0000_0000_0000;
    if wrapped < 0x8000_0000_0000_0000 then wrapped else wrapped - 0x1_0000_0000_0000_0000
  }

  /* ------------------------------------------------------------------ */
  /* The disk behind the controller.                                      */
  /* ------------------------------------------------------------------ */

  /** Whether the backend serves the request, or fails after some bytes. */
  datatype Fault = Healthy | Fails(done: nat)

  function Zeros(n: nat): (r: seq<byte>)
    ensures |r| == n
  {
    seq(n, _ => 0)
  }

  /** The bytes a read can get before the end of the disk. */
  function Available(disk: seq<byte>, offset: nat, n: nat): (r: seq<byte>)
    ensures |r| <= n
  {
    if offset >= |disk| then [] else disk[offset..Min(offset + n, |disk|)]
  }

  /** `n` bytes of the disk from `offset`, with zeros past its end. */
  function DiskBytes(disk: seq<byte>, offset: nat, n: nat): (r: seq<byte>)
    ensures |r| == n
  {
    var got := Available(disk, offset, n);
    got + Zeros(n - |got|)
  }

  /** What `ReadAt` delivers, and whether it failed with anything but end of file. */
  function DiskRead(disk: seq<byte>, offset: int, n: nat, fault: Fault): (r: (seq<byte>, bool))
    ensures |r.0| <= n
  {
    if offset < 0 then ([], true)
    else
      var got := Available(disk, offset, n);
      match fault
      case Healthy => (got, false)
      case Fails(done) => (got[..Min(done, |got|)], true)
  }

  function Splice(disk: seq<byte>, offset: nat, data: seq<byte>): (r: seq<byte>)
    requires offset + |data| <= |disk|
    ensures |r| == |disk|
  {
    disk[..offset] + data + disk[offset + |data|..]
  }

  function DiskWrite(disk: seq<byte>, offset: int, data: seq<byte>, fault: Fault): (seq<byte>, bool) {
    if offset < 0 || offset + |data| > |disk| then (disk, true)
    else
      match fault
      case Healthy => (Splice(disk, offset, data), false)
      case Fails(done) => (Splice(disk, offset, data[..Min(done, |data|)]), true)
  }

  /* ------------------------------------------------------------------ */
  /* One I/O command.                                                     */
  /* ------------------------------------------------------------------ */

  /** `slicer` tells whether guest memory can be handed out as slices. */
  datatype Device = Device(mem: Memory, disk: Option<seq<byte>>, page: nat, slicer: bool)

  predicate ValidPage(page: nat) { page >= 16 && page % 8 == 0 }

  /** A command completes with a status, or its error ends the doorbell write. */
  datatype Outcome = Done(dev: Device, status: uint16) | Error

  /** The scratch buffer, kept between commands, grown to `n` bytes: old contents, or zeros. */
  function Grown(scratch: seq<byte>, n: nat): (r: seq<byte>)
    ensures |r| >= n
  {
    if |scratch| < n then Zeros(n) else scratch
  }

  function ReadCommand(dev: Device, disk: seq<byte>, cmd: Command, fault: Fault): (r: Outcome)
    requires ValidPage(dev.page)
    ensures r.Done? ==> r.dev.page == dev.page && r.dev.slicer == dev.slicer
  {
    var n := Count(cmd);
    var (got, failed) := DiskRead(disk, Offset(Lba(cmd)), n, fault);
    var data := got + Zeros(n - |got|);
    if dev.slicer && cmd.prp1 == 0 then Error
    else if dev.slicer && Contiguous(dev.mem, cmd.prp1, cmd.prp2, n, dev.page) && Mapped(dev.mem, cmd.prp1, n) then
      if failed then Error else Done(dev.(mem := Write(dev.mem, cmd.prp1, data)), 0)
    else if failed then Done(dev, 1)
    else
      match TransferPrp(Pair(dev.mem, data), cmd.prp1, cmd.prp2, dev.page, true)
      case None => Error
      case Some(p) => Done(dev.(mem := p.mem), 0)
  }

  function WriteCommand(dev: Device, disk: seq<byte>, scratch: seq<byte>, cmd: Command, fault: Fault): (r: Outcome)
    requires ValidPage(dev.page)
    ensures r.Done? ==> r.dev.page == dev.page && r.dev.slicer == dev.slicer
  {
    var n := Count(cmd);
    var offset := Offset(Lba(cmd));
    if dev.slicer && cmd.prp1 == 0 then Error
    else if dev.slicer && Contiguous(dev.mem, cmd.prp1, cmd.prp2, n, dev.page) && Mapped(dev.mem, cmd.prp1, n) then
      var (disk', failed) := DiskWrite(disk, offset, Read(dev.mem, cmd.prp1, n), fault);
      if failed then Error else Done(dev.(disk := Some(disk')), 0)
    else
      match TransferPrp(Pair(dev.mem, Grown(scratch, n)[..n]), cmd.prp1, cmd.prp2, dev.page, false)
      case None => Error
      case Some(p) =>
        var (disk', failed) := DiskWrite(disk, offset, p.buf, fault);
        Done(dev.(mem := p.mem, disk := Some(disk')), if failed then 1 else 0)
  }

  function ExecuteIo(dev: Device, scratch: seq<byte>, cmd: Command, fault: Fault): (r: Outcome)
    requires ValidPage(dev.page)
    ensures r.Done? ==> r.dev.page == dev.page && r.dev.slicer == dev.slicer
  {
    match dev.disk
    case None => Done(dev, 1)
    case Some(disk) =>
      if cmd.opcode == IO_FLUSH then Done(dev, 0)
      else if cmd.opcode == IO_READ then ReadCommand(dev, disk, cmd, fault)
      else if cmd.opcode == IO_WRITE then WriteCommand(dev, disk, scratch, cmd, fault)
      else Done(dev, 1)
  }

  /* ------------------------------------------------------------------ */
  /* What commands move.                                                  */
  /* ------------------------------------------------------------------ */

  /** The byte offset is the block's own exactly below block 2^54; beyond, it is negative or aliases. */
  lemma OffsetIsBlockStart(lba: nat)
    ensures Offset(lba) == lba * BLOCK_SIZE <==> lba < 0x40_0000_0000_0000
  {
  }

  /** Block 2^55 is block 0 again. */
  lemma OffsetAliases()
    ensures Offset(0x80_0000_0000_0000) == 0
  {
  }

  /** The transfer's pages are all listed and can all be addressed. */
  predicate Addressable(mem: Memory, cmd: Command, page: nat)
    requires ValidPage(page)
  {
    var l := PrpExtents(mem, cmd.prp1, cmd.prp2, Count(cmd), page);
    l.complete && Usable(mem, l.extents)
  }

  function Pages(mem: Memory, cmd: Command, page: nat): seq<Extent>
    requires ValidPage(page)
  {
    PrpExtents(mem, cmd.prp1, cmd.prp2, Count(cmd), page).extents
  }

  /** Both paths of a transfer out of the buffer: same condition, same memory. */
  lemma TransferOut(mem: Memory, cmd: Command, page: nat, data: seq<byte>)
    requires ValidPage(page) && |data| == Count(cmd)
    requires PrpClear(mem, cmd.prp1, cmd.prp2, Count(cmd), page)
    ensures Size(Pages(mem, cmd, page)) <= |data|
    ensures TransferPrp(Pair(mem, data), cmd.prp1, cmd.prp2, page, true)
         == if Addressable(mem, cmd, page) then Some(Pair(Scatter(mem, Pages(mem, cmd, page), data), data)) else None
    ensures Contiguous(mem, cmd.prp1, cmd.prp2, |data|, page) && cmd.prp1 != 0 && Mapped(mem, cmd.prp1, |data|) ==>
              Addressable(mem, cmd, page) && Write(mem, cmd.prp1, data) == Scatter(mem, Pages(mem, cmd, page), data)
  {
    var p := Pair(mem, data);
    PrpExtentsSize(mem, cmd.prp1, cmd.prp2, |data|, page);
    TransferIsPagewise(p, cmd.prp1, cmd.prp2, page, true);
    PagewiseScatters(p, 0, Pages(mem, cmd, page));
    assert data[0..] == data && data[0..|data|] == data;
    if Contiguous(mem, cmd.prp1, cmd.prp2, |data|, page) && cmd.prp1 != 0 && Mapped(mem, cmd.prp1, |data|) {
      ContiguousIsOneOp(p, cmd.prp1, cmd.prp2, page, true);
    }
  }

  /** Both paths of a transfer into the buffer: same condition, same bytes, whatever the buffer held. */
  lemma TransferIn(mem: Memory, cmd: Command, page: nat, stale: seq<byte>)
    requires ValidPage(page) && |stale| == Count(cmd)
    ensures TransferPrp(Pair(mem, stale), cmd.prp1, cmd.prp2, page, false)
         == if Addressable(mem, cmd, page) then Some(Pair(mem, Gather(mem, Pages(mem, cmd, page)))) else None
    ensures Contiguous(mem, cmd.prp1, cmd.prp2, |stale|, page) && cmd.prp1 != 0 && Mapped(mem, cmd.prp1, |stale|) ==>
              Addressable(mem, cmd, page) && Read(mem, cmd.prp1, |stale|) == Gather(mem, Pages(mem, cmd, page))
  {
    hide TransferPrp, Contiguous, PrpExtents, Gather, Mapped, Usable, PageOp;
    var p := Pair(mem, stale);
    var n := |stale|;
    PrpExtentsSize(mem, cmd.prp1, cmd.prp2, n, page);
    TransferIsPagewise(p, cmd.prp1, cmd.prp2, page, false);
    PagewiseGathers(p, 0, Pages(mem, cmd, page));
    if Addressable(mem, cmd, page) {
      Whole(stale, Gather(mem, Pages(mem, cmd, page)));
    }
    if Contiguous(mem, cmd.prp1, cmd.prp2, n, page) && cmd.prp1 != 0 && Mapped(mem, cmd.prp1, n) {
      ContiguousIsOneOp(p, cmd.prp1, cmd.prp2, page, false);
      ReadWhole(p, cmd.prp1);
    }
  }

  /** A buffer replaced from end to end. */
  lemma Whole(stale: seq<byte>, data: seq<byte>)
    requires |data| == |stale|
    ensures stale[..0] + data + stale[|stale|..] == data
  {
  }

  lemma ReadWhole(p: Pair, addr: int)
    requires addr != 0 && Mapped(p.mem, addr, |p.buf|)
    ensures PageOp(p, addr, 0, |p.buf|, false) == Some(Pair(p.mem, Read(p.mem, addr, |p.buf|)))
  {
    hide Mapped;
    Whole(p.buf, Read(p.mem, addr, |p.buf|));
  }

  /** The command's outcome once its data has been read from the disk. */
  lemma ReadOutcome(dev: Device, disk: seq<byte>, cmd: Command, fault: Fault, data: seq<byte>)
    requires ValidPage(dev.page) && PrpClear(dev.mem, cmd.prp1, cmd.prp2, Count(cmd), dev.page)
    requires |data| == Count(cmd)
    requires var r := DiskRead(disk, Offset(Lba(cmd)), Count(cmd), fault); data == r.0 + Zeros(Count(cmd) - |r.0|)
    ensures Size(Pages(dev.mem, cmd, dev.page)) <= |data|
    ensures var out := ReadCommand(dev, disk, cmd, fault);
            var failed := DiskRead(disk, Offset(Lba(cmd)), Count(cmd), fault).1;
            if !failed && Addressable(dev.mem, cmd, dev.page)
            then out == Done(dev.(mem := Scatter(dev.mem, Pages(dev.mem, cmd, dev.page), data)), 0)
            else out.Error? || out == Done(dev, 1)
  {
    hide TransferPrp, Contiguous, Addressable, Pages, Mapped, Offset, DiskRead;
    TransferOut(dev.mem, cmd, dev.page, data);
    NullFirstPage(dev.mem, cmd, dev.page);
  }

  /**
   A read command succeeds exactly when the disk serves it and every page can be
   addressed; it then puts the disk's bytes on the pages, by whichever path, and
   changes nothing else.
   */
  lemma ReadMovesDisk(dev: Device, scratch: seq<byte>, cmd: Command, fault: Fault)
    requires ValidPage(dev.page) && dev.disk.Some? && cmd.opcode == IO_READ
    requires PrpClear(dev.mem, cmd.prp1, cmd.prp2, Count(cmd), dev.page)
    ensures var out := ExecuteIo(dev, scratch, cmd, fault); var offset := Offset(Lba(cmd));
            && ((out.Done? && out.status == 0) <==> fault.Healthy? && offset >= 0 && Addressable(dev.mem, cmd, dev.page))
            && (out.Done? && out.status != 0 ==> out.dev == dev)
            && (out.Done? && out.status == 0 ==>
                  && Size(Pages(dev.mem, cmd, dev.page)) <= Count(cmd)
                  && out.dev == dev.(mem := Scatter(dev.mem, Pages(dev.mem, cmd, dev.page),
                                                    DiskBytes(dev.disk.value, offset, Count(cmd)))))
  {
    hide Offset, Count, Addressable, Pages, Scatter, DiskRead, DiskBytes, ReadCommand, PrpClear, Lba, Size, Zeros, WriteCommand;
    var (got, failed) := DiskRead(dev.disk.value, Offset(Lba(cmd)), Count(cmd), fault);
    DiskReadIs(dev.disk.value, Offset(Lba(cmd)), Count(cmd), fault);
    ReadOutcome(dev, dev.disk.value, cmd, fault, got + Zeros(Count(cmd) - |got|));
  }

  lemma DiskReadIs(disk: seq<byte>, offset: int, n: nat, fault: Fault)
    ensures var (got, failed) := DiskRead(disk, offset, n, fault);
            && (failed <==> !fault.Healthy? || offset < 0)
            && (!failed ==> got + Zeros(n - |got|) == DiskBytes(disk, offset, n))
  {
  }

  /** A null first page makes the transfer unaddressable. */
  lemma NullFirstPage(mem: Memory, cmd: Command, page: nat)
    requires ValidPage(page)
    ensures cmd.prp1 == 0 ==> !Addressable(mem, cmd, page)
  {
  }

  /**
   A write command succeeds exactly when every page can be addressed and the
   disk takes the block range; it then puts the bytes of the pages on the disk,
   by whichever path, and leaves guest memory alone.
   */
  lemma WriteMovesMemory(dev: Device, scratch: seq<byte>, cmd: Command, fault: Fault)
    requires ValidPage(dev.page) && dev.disk.Some? && cmd.opcode == IO_WRITE
    ensures var out := ExecuteIo(dev, scratch, cmd, fault); var offset := Offset(Lba(cmd)); var disk := dev.disk.value;
            && ((out.Done? && out.status == 0) <==>
                fault.Healthy? && 0 <= offset && offset + Count(cmd) <= |disk| && Addressable(dev.mem, cmd, dev.page))
            && (out.Done? ==> out.dev == dev.(disk := out.dev.disk))
            && (out.Done? && out.status == 0 ==>
                  var data := Gather(dev.mem, Pages(dev.mem, cmd, dev.page));
                  offset + |data| <= |disk| && out.dev.disk == Some(Splice(disk, offset, data)))
  {
    var n := Count(cmd);
    TransferIn(dev.mem, cmd, dev.page, Grown(scratch, n)[..n]);
    PrpExtentsSize(dev.mem, cmd.prp1, cmd.prp2, n, dev.page);
    NullFirstPage(dev.mem, cmd, dev.page);
  }

  /** What the scratch buffer holds between commands never shows. */
  lemma ScratchNeverShows(dev: Device, scratch: seq<byte>, other: seq<byte>, cmd: Command, fault: Fault)
    requires ValidPage(dev.page)
    ensures ExecuteIo(dev, scratch, cmd, fault) == ExecuteIo(dev, other, cmd, fault)
  {
    hide TransferPrp, Contiguous, Addressable, Pages, Mapped, DiskWrite, Offset, ReadCommand, Gather;
    var n := Count(cmd);
    TransferIn(dev.mem, cmd, dev.page, Grown(scratch, n)[..n]);
    TransferIn(dev.mem, cmd, dev.page, Grown(other, n)[..n]);
  }
}
