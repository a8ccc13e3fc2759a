# Verified models of crumblecracker

This project models the parts of crumblecracker that are hardest to get right, and proves
what they are for. Run `dafny verify dfyconfig.toml` (Dafny 4.11) to check it.

- **NVMe controller** (`Nvme*.dfy`, `GuestMemory.dfy`, `DivMod.dfy`): PRP scatter/gather
  with coalesced runs and a contiguous fast path, submission and completion rings, phase
  tags, doorbells and the interrupt line. PRP lists follow section 4.3, completion entries
  and the phase tag section 4.6 of the NVM Express Base Specification 1.4. `NvmeProtocol`
  says on values what a register write does; `NvmeController` is proved to do it in place,
  and the results about whole runs are proved of the former. `NvmeGuest`, `NvmeServed` and
  `NvmeDriver` take the other side: requests, PRP lists, commands and register values are
  encoded as a driver writes them, and what comes of them is said in the driver's terms.
- **Headless control server** (`Headless*.dfy`): HTTP mutations, start, stop, glass and pull
  goroutines, the monitor, shutdown and idempotent replay, as one interleaving protocol; the
  server object with its critical sections, and its goroutines from beginning to end with
  any steps of others between their own. `HeadlessHistory` says what every VM and operation
  is by looking at past events alone, and `HeadlessOutcomes` what a start or stop has come to.
- **Terminal emulator** (`Terminal*.dfy`): a byte-driven parser over two grids of cells whose
  rows are moved by reference. `TerminalInput` encodes what an application writes, and
  `TerminalSequences`, `TerminalScrolling`, `TerminalModes` and `TerminalCharacters` say for
  each sequence, from its bytes, where the cursor goes and which cells change.
- **TCP buffers** (`Tcp*.dfy`): retransmission queue and out-of-order reassembly over 32-bit
  wrap-around sequence numbers (section 3.4 of RFC 9293), for safety (`TcpStream`,
  `TcpOrder`) and for completeness (`TcpComplete`).
- **Flattened devicetree writer** (`Fdt*.dfy`), against a reader written from sections 5.2 to
  5.6 of the Devicetree Specification, down to the values of properties (`FdtFound`).
- **CVMFS** (`Cvmfs*.dfy`): the memoised path index, whole and ranged reads, and the keyed
  publication lock.
- **Image namespace** (`Image*.dfy`, `StringOrder.dfy`): the dense node table against path
  lookup, and how its nodes are linked (`ImageLinks`).
- **Windows command lines** (`CommandLine*.dfy`): the quoting against the argument rules of
  the Microsoft C runtime.

Objects that the original updates in place are classes (`NvmeEngine.Engine`,
`NvmeController.Controller`, `TerminalBuffer.ScreenBuffer`, `TerminalEmulator.Emulator`,
`TcpSend.SendBuffer`, `TcpReceive.RecvBuffer`, `FdtBuilder.Builder`,
`CvmfsRepository.Repository`, `CvmfsPublication.LockTable`, `HeadlessControl.Control`, ...).
Each method is proved equal to a function on values, and the laws are proved about those
functions and about whole runs of them.

Where the code does not do what one would expect of it, the model follows the code and a
lemma says exactly when the expectation holds:

- `lba * 512` wraps: an offset is the block's own exactly below block 2^54
  (`NvmeIo.OffsetIsBlockStart`, `NvmeIo.OffsetAliases`).
- A tail doorbell returns exactly when the head is at the tail or the tail is a slot of the
  ring, and none of the commands due faults; with any other tail it never returns. That holds
  for I/O queues, and for the admin queue as long as no command served from it creates it
  again (`NvmeServing.ReturnsIff`, `NvmeServing.NeverReturns`).
- Setting EN in CC while it is set leaves the interrupt line right exactly when the line did
  not depend on the old admin queue (`NvmeLine.StepFollowsIff`); the next mask write or
  doorbell puts it right again (`NvmeLine.LineComesBack`).
- Two terminal writes are as good as one wherever the split cuts neither a multi-byte
  character nor the two-byte string terminator (`TerminalSplit.SplitAnywhere`). Such a cut
  shows as soon as the character or terminator is complete, although later input can make
  up for it (`TerminalSplit.TerminatorSplitShows`, `TerminalSplit.CharacterSplitShows`,
  `TerminalSplit.LaterInputHides`).
- A colour given by its parts and the code that follows it in the same sequence are taken in
  turn exactly when the red part is not zero; with zero the code becomes the blue part
  (`TerminalSequences.PartsThenCodeIff`, `TerminalSequences.RedZero`).
- An expected TCP segment that reaches past the start of a buffered one leaves that one in
  the buffer until the sequence numbers have come round to it (`TcpOrder.OvertakenStays`).
  Then its bytes are handed over in place of those due, however the stream is cut
  (`TcpOrder.StaleBytesReturn`), also by segments of two bytes (`TcpOrder.EverySegmentSize`).
  In every run of arrivals near the expected number, the stream is handed over as it was sent
  exactly when each piece mistaken in this way had the bytes that were due
  (`TcpStream.PrefixIff`); if no arrival has the bytes of a place a multiple of 2^32 after it,
  exactly when no piece was mistaken (`TcpStream.CleanIff`). None is mistaken below 4 GiB
  (`TcpStream.ShortStream`) or when no expected segment reaches into a buffered one
  (`TcpOrder.ClearRunsStayAhead`).
- A devicetree comes back from its blob exactly when no name holds a NUL
  (`FdtFormat.RoundTripIff`, `FdtFound.BuiltReadsBack`).
- A ranged read is the one asked for exactly when offset plus length does not pass the 64-bit
  limit inside the file; past it the end of the file is never reported
  (`CvmfsRange.ReadRangeIff`, `CvmfsRange.OverflowReads`).
- The order of a catalog's entries does not matter exactly when no entry under a hash that is
  known and listed again gets another path by that (`CvmfsOrder.OrderIff`,
  `CvmfsOrder.MovedDirectory`).
- A failed indexing call leaves its tables as they were exactly when its first entry fails;
  a retry lists everything recorded before the failure again (`CvmfsOrder.FailureLeaves`,
  `CvmfsOrder.RetryRepeats`).
- Every node of the image table is its parent's child exactly when no directory lists a name
  twice (`ImageLinks.NamespaceLinks`, `ImageLinks.ListedTwice`).
- The arguments after a program name survive quoting exactly when no blank of the name falls
  outside quotes as the name is read, and its quotes are balanced if anything follows
  (`CommandLineProgram.ArgumentsIff`).

## Model

| member | source | states |
|---|---|---|
| NvmePrp.PrpExtentsSize | internal/core/nvme/controller.go:570-626 | the pages named by PRP1, PRP2, a list or chained lists add up to the requested size, never more when the walk fails |
| NvmePrp.PageOpJoin | internal/core/nvme/controller.go:775-804 | two neighbouring page transfers have the effect and the failures of one transfer over the joined range |
| NvmePrp.VisitIsPageOp | internal/core/nvme/controller.go:788-804 | adding a page to the pending run, or flushing it and starting a new one, is worth moving that page now |
| NvmePrp.WalkIsPagewise | internal/core/nvme/controller.go:570-626 | walking chained lists with coalescing succeeds exactly when the page-by-page transfer does and leaves the same memory and buffer |
| NvmePrp.TransferIsPagewise | internal/core/nvme/controller.go:748-809 | for every layout the whole transfer equals moving the pages one by one; only for transfers to the guest do list pages have to lie apart from data pages |
| NvmeScatter.PagewiseScatters | internal/core/nvme/controller.go:744-809 | a transfer out succeeds exactly on usable pages and lays the buffer over them in order |
| NvmeScatter.PagewiseGathers | internal/core/nvme/controller.go:740-809 | a transfer in succeeds exactly on usable pages and concatenates them |
| NvmeScatter.GatherUndoesScatter | internal/core/nvme/controller.go:740-809 | data laid over disjoint pages reads back unchanged |
| NvmeScatter.ScatterElsewhere | internal/core/nvme/controller.go:744-809 | memory outside the pages is not touched |
| NvmeScatter.ContiguousIsOneOp | internal/core/nvme/controller.go:544-568 | on PRP entries that pass the contiguity check, the page-by-page transfer is one operation on the whole range |
| NvmeEngine.PagesForIsCeiling | internal/core/nvme/controller.go:585-585 | the number of list entries left is the number of pages the remaining bytes take |
| NvmeEngine.Engine.TransferPage | internal/core/nvme/controller.go:818-834 | one page moves between buffer and memory, or the address is refused and nothing moves |
| NvmeEngine.Engine.Flush | internal/core/nvme/controller.go:778-787 | the pending run is moved and emptied |
| NvmeEngine.Engine.Visit | internal/core/nvme/controller.go:788-805 | a page joins the pending run or starts a new one |
| NvmeEngine.Engine.VisitEntries | internal/core/nvme/controller.go:599-616 | the entries of one list page are visited in order; what is left of the walk is what the reference has left |
| NvmeEngine.Engine.WalkPrpList | internal/core/nvme/controller.go:570-626 | the loop over chained lists ends and computes the recursive walk |
| NvmeEngine.Engine.TransferPRP | internal/core/nvme/controller.go:748-809 | the method computes the transfer the theorems are about |
| NvmeEngine.Engine.Send | internal/core/nvme/controller.go:744-746 | given data moves to the guest through its PRP entries, or not at all as the specification says |
| NvmeEngine.Engine.WalkContiguous | internal/core/nvme/controller.go:558-567 | the list names pages that follow on from the expected address, checked to its end |
| NvmeEngine.Engine.PrpIsContiguous | internal/core/nvme/controller.go:544-568 | true exactly when PRP1 and PRP2 name one contiguous range |
| NvmeEngine.Engine.ReadToPages | internal/core/nvme/controller.go:438-452 | a read command takes the fast path or the buffered path and ends as the specification says |
| NvmeEngine.Engine.WriteFromPages | internal/core/nvme/controller.go:453-468 | a write command takes the fast path or the buffered path and ends as the specification says |
| NvmeEngine.Engine.Execute | internal/core/nvme/controller.go:426-472 | one I/O command: device state, status, or an error that ends the doorbell write |
| NvmeGuest.ListWalk | internal/core/nvme/controller.go:570-626 | on a chain of PRP list pages written by a driver, the controller's walk finds the pages in order and reads just those list pages |
| NvmeGuest.BufferFound | internal/core/nvme/controller.go:748-809 | from the PRP entries a driver writes for a buffer of any number of pages, the controller finds its pages, all of them and in order |
| NvmeGuest.GatherAt | internal/core/nvme/controller.go:740-742 | byte i of what is gathered is the byte at the place of byte i of the buffer |
| NvmeGuest.ScatterAt | internal/core/nvme/controller.go:744-746 | after data is laid over a buffer, byte i is at the place of byte i, and memory outside the buffer is as before |
| NvmeServed.EntryParses | internal/core/nvme/controller.go:321-333 | what the controller reads out of a submission entry written by a driver is the opcode, command, buffer, 64-bit block address and block count meant |
| NvmeServed.CompletionBack | internal/core/nvme/controller.go:660-685 | a driver reads head, queue, command, status and phase back from a completion entry |
| NvmeServed.Posts | internal/core/nvme/controller.go:306-316 | once a command is executed, its completion lies in the slot at the tail of its completion queue and can be read back |
| NvmeServed.ReadServed | internal/core/nvme/controller.go:287-452 | from the bytes of a read request: after it is served, byte i of its buffer is byte 512 * lba + i of the disk, the completion tells of success, and no other byte of memory and no byte of the disk has changed |
| NvmeServed.WriteServed | internal/core/nvme/controller.go:287-468 | from the bytes of a write request: after it is served, byte 512 * lba + i of the disk is byte i of its buffer, the completion tells of success, and no other byte of disk or memory has changed |
| NvmeIo.OffsetIsBlockStart | internal/core/nvme/controller.go:433-435 | the byte offset is 512 times the block number exactly below block 2^54 |
| NvmeIo.OffsetAliases | internal/core/nvme/controller.go:435-435 | block 2^55 is block 0 again |
| NvmeIo.TransferOut | internal/core/nvme/controller.go:496-517 | the slicing fast path and the PRP transfer out have the same condition and leave the same memory |
| NvmeIo.TransferIn | internal/core/nvme/controller.go:519-542 | the slicing fast path and the PRP transfer in have the same condition and give the same bytes, whatever the scratch buffer held and wherever the list pages lie |
| NvmeIo.ReadMovesDisk | internal/core/nvme/controller.go:426-452 | a read succeeds exactly on a healthy disk, a valid offset and usable pages, and then lays exactly the disk's bytes over the pages; `NvmeServed.ReadServed` says from which block on, in the driver's terms |
| NvmeIo.WriteMovesMemory | internal/core/nvme/controller.go:453-468 | a write succeeds exactly when the range is on a healthy disk and the pages are usable, and then replaces exactly those disk bytes by the pages; `NvmeServed.WriteServed` says from which block on, in the driver's terms |
| NvmeIo.ScratchNeverShows | internal/core/nvme/controller.go:628-633 | what the scratch buffer holds from earlier commands never shows in the outcome of a command |
| NvmeRings.DistanceArrives | internal/core/nvme/controller.go:287-306 | serving the ring distance brings the head to the tail |
| NvmeRings.NextCount | internal/core/nvme/controller.go:677-683 | the k-th completion lies in slot k mod n of lap k div n |
| NvmeRings.TailTracks | internal/core/nvme/controller.go:279-319 | a tail doorbell executes exactly (tail - head) mod n commands and keeps slots, phases and pending count in step |
| NvmeRings.HeadTracks | internal/core/nvme/controller.go:717-738 | a completion head doorbell takes off exactly the acknowledged entries |
| NvmeRings.RunTracks | internal/core/nvme/controller.go:272-319 | in every run of a polite guest the k-th completion is in slot k mod n with phase 1 iff k div n is even, and pending is posted minus acknowledged |
| NvmeController.Queue.AdvanceCompletionHead | internal/core/nvme/controller.go:717-738 | the completion head moves and the pending count drops by what was consumed, for any head and any state of the ring, 16-bit wrap-around included |
| NvmeController.Controller.UpdateIrq | internal/core/nvme/controller.go:687-715 | the loop over the queues leaves the line high exactly when mask bit 0 is clear and an interrupt-enabled queue has pending completions |
| NvmeController.Controller.WriteCompletion | internal/core/nvme/controller.go:660-685 | the entry with head, queue, command, status and phase is written at the tail slot and tail, phase and pending count move on; it fails exactly when the ring has no slots or the slot is not mapped |
| NvmeController.Controller.CreateCompletionQueue | internal/core/nvme/controller.go:357-369 | size, address, phase and interrupt enable of the one queue named, nothing else |
| NvmeController.Controller.CreateSubmissionQueue | internal/core/nvme/controller.go:370-382 | size, address and completion queue of the one queue named, nothing else |
| NvmeController.Controller.ExecuteAdmin | internal/core/nvme/controller.go:357-384 | creating and deleting queues, the admin queue itself included: it is served on although it is no longer in the table |
| NvmeController.Controller.Complete | internal/core/nvme/controller.go:306-316 | the head moves past the command and the completion goes to the completion queue named, whichever that is; fails exactly as specified |
| NvmeController.Controller.ServeIo | internal/core/nvme/controller.go:302-316 | one I/O command: device, every queue and memory afterwards, or a fault, exactly as specified |
| NvmeController.Controller.ServeAdmin | internal/core/nvme/controller.go:297-316 | one admin command: its data sent, queues managed and the completion posted, or a fault, exactly as specified |
| NvmeController.Controller.ServeNext | internal/core/nvme/controller.go:287-316 | the command at the head in memory is the one served; a fetch that fails is a fault |
| NvmeController.Controller.ProcessSubmissionQueue | internal/core/nvme/controller.go:287-319 | the loop ends as the specification does: finished with these queues and this device, at a fault, or with the answers of the disk used up |
| NvmeController.Controller.ConfigureAdminQueue | internal/core/nvme/controller.go:250-270 | the admin queue is the one the AQA, ASQ and ACQ registers describe, other queues stay |
| NvmeController.Controller.WriteCC | internal/core/nvme/controller.go:195-212 | registers, queues, page size and line after a write to CC |
| NvmeController.Controller.WriteDoorbell | internal/core/nvme/controller.go:272-285 | even doorbells serve, odd ones acknowledge, unknown queues are ignored; the whole system afterwards |
| NvmeController.Controller.WriteMmio | internal/core/nvme/controller.go:184-229 | every register write: the whole system afterwards, or that it faulted |
| NvmeController.Controller.Run | internal/core/nvme/controller.go:184-229 | any sequence of register writes with stores of the guest between them, on the object, is the run of the specification |
| NvmeDriver.AddressWritten | internal/core/nvme/controller.go:213-225 | an address register written in two halves, in either order, holds the address, whatever it held before |
| NvmeDriver.PageSizes | internal/core/nvme/controller.go:195-212 | the sixteen page sizes that CC can name, 4 KiB doubled as often as the field says |
| NvmeDriver.EnablesAdmin | internal/core/nvme/controller.go:195-270 | enabling gives the controller the admin queue its registers describe, with empty rings of the smaller of the two sizes, and the page size; other queues stay |
| NvmeDriver.Disables | internal/core/nvme/controller.go:195-212 | disabling a controller that was enabled drops all queues and lowers the line |
| NvmeDriver.MaskWritten | internal/core/nvme/controller.go:188-194 | INTMS masks and INTMC unmasks, bit by bit |
| NvmeDriver.TailRung | internal/core/nvme/controller.go:272-285 | the doorbell at 0x1000 + 8 * id is the tail of queue id: it is set and the queue served |
| NvmeDriver.HeadRung | internal/core/nvme/controller.go:272-285 | the doorbell at 0x1004 + 8 * id is the completion head of queue id: completions are acknowledged up to it |
| NvmeDriver.Acknowledged | internal/core/nvme/controller.go:717-738 | the d completions from the old head to the new are no longer pending, all of them when a full ring is acknowledged round to the same head |
| NvmeDriver.NothingToAcknowledge | internal/core/nvme/controller.go:718-722 | a ring without slots has none pending |
| NvmeDriver.NobodyRung | internal/core/nvme/controller.go:272-285 | doorbells of queues that are not there change nothing |
| NvmeDriver.CreatesCompletionQueue | internal/core/nvme/controller.go:357-369 | the bytes of a create command give the queue its number of entries, address and interrupt enable, and leave the rest |
| NvmeDriver.CreatesSubmissionQueue | internal/core/nvme/controller.go:370-382 | the bytes of a create command give the queue its number of entries, address and completion queue, and leave the rest |
| NvmeDriver.DeletesQueue | internal/core/nvme/controller.go:383-384 | the bytes of either delete command drop the queue named, and no other |
| NvmeDriver.LeavesQueues | internal/core/nvme/controller.go:342-399 | all other admin commands leave the queues alone |
| NvmeDriver.NamespaceTold | internal/core/nvme/controller.go:648-658 | a driver reads from the namespace data that there are as many blocks as the disk has, of 2^9 bytes |
| NvmeDriver.ControllerTold | internal/core/nvme/controller.go:635-646 | a driver reads from the controller data vendor, names, version, entry sizes and one namespace |
| NvmeDriver.NamespacesTold | internal/core/nvme/controller.go:351-352 | a driver reads from the list of namespaces that there is number one alone |
| NvmeDriver.LogPageEmpty | internal/core/nvme/controller.go:393-394 | a log page has the length asked for and is empty |
| NvmeDriver.DataServed | internal/core/nvme/controller.go:344-356 | the data of an admin command lies in the driver's buffer byte by byte, and nothing else in memory has changed |
| NvmeDriver.AdminAnswered | internal/core/nvme/controller.go:287-399 | from the bytes of an admin command: once served, the driver reads its completion, of success, from the slot at the tail, the other queues are as the command says, and nothing else has changed |
| NvmeDriver.BroughtUp | internal/core/nvme/controller.go:128-270 | a driver that writes AQA, ASQ, ACQ and CC to a new controller finds it ready, with the one queue described, no interrupt masked and none raised |
| NvmeServing.TurnIs | internal/core/nvme/controller.go:287-318 | what serving one I/O command leaves, and exactly when it faults: fetch not mapped, device error, ring of length zero, completion queue gone, or its slot not mapped |
| NvmeServing.TurnMoves | internal/core/nvme/controller.go:287-318 | only the head of the queue and the ring of its completion queue change; wiring and all other queues stay |
| NvmeServing.DueNext | internal/core/nvme/controller.go:287-306 | each command served is one of those due, and whether the tail can be reached does not change |
| NvmeServing.TurnAdvances | internal/core/nvme/controller.go:287-384 | one command of any queue moves its head by one and leaves its tail and size, an admin queue that is deleted by it included, unless it creates the admin queue again |
| NvmeServing.ServesWhatIsDue | internal/core/nvme/controller.go:287-319 | with a tail that can be reached and enough answers exactly the commands due are served, or one of them faults |
| NvmeServing.NeverReturns | internal/core/nvme/controller.go:287-306 | with a tail at or above the ring size that is not the head, no number of commands makes the write return |
| NvmeServing.ReturnsIff | internal/core/nvme/controller.go:287-319 | a tail doorbell of an I/O queue, or of an admin queue that is not created again meanwhile, returns exactly when the tail can be reached and none of the commands due faults |
| NvmeServing.EnoughAnswers | internal/core/nvme/controller.go:287-319 | answers beyond those used make no difference |
| NvmeLine.NewAdminQueue | internal/core/nvme/controller.go:195-212 | after EN is set an interrupt is wanted exactly when a queue other than the admin queue asked for one |
| NvmeLine.StepFollowsIff | internal/core/nvme/controller.go:184-229 | a store or register write that returns keeps the line right exactly when it is not a write of EN that replaces an admin queue the line depended on |
| NvmeLine.RunFollows | internal/core/nvme/controller.go:184-229 | in every run without such a write the line is high exactly when mask bit 0 is clear and an interrupt-enabled queue has pending completions |
| NvmeLine.FirstEnable | internal/core/nvme/controller.go:195-212 | only setting EN while it is already set can disturb the line |
| NvmeLine.LineComesBack | internal/core/nvme/controller.go:272-285 | whatever disturbed it, a mask write or a doorbell of an existing queue puts the line right |
| NvmePairs.CreatedPair | internal/core/nvme/controller.go:357-382 | creating a completion and a submission queue under a new id, in either order, gives a pair with empty rings and leaves all other queues |
| NvmePairs.AdminTurnQueues | internal/core/nvme/controller.go:357-384 | serving an admin command changes the other queues exactly as the command says |
| NvmePairs.PairTurn | internal/core/nvme/controller.go:287-318 | one command of a pair moves both of its rings one step and posts the entry due |
| NvmePairs.PairProcess | internal/core/nvme/controller.go:287-319 | a tail doorbell of a pair serves exactly (tail - head) mod n commands, posts one entry each, and touches no other queue |
| NvmePairs.OtherProcess | internal/core/nvme/controller.go:287-319 | serving another queue that completes elsewhere leaves the pair alone |
| NvmePairs.AdminProcess | internal/core/nvme/controller.go:287-384 | serving admin commands that do not name the pair leaves it alone |
| NvmePairs.OthersLeaveIt | internal/core/nvme/controller.go:184-285 | every other store and register write leaves the pair alone |
| NvmePairs.OwnBell | internal/core/nvme/controller.go:272-285 | the doorbells of a pair do to its rings, and post, what a step of the ring model does |
| NvmePairs.TailReturnsIff | internal/core/nvme/controller.go:272-319 | a register write that rings a tail doorbell returns exactly when the tail can be reached and nothing due faults |
| NvmePairs.PairRuns | internal/core/nvme/controller.go:184-319 | in every run of the controller with a guest that behaves, the rings of a pair are those of the run of its doorbells, and the completions posted are the ones of that run |
| NvmePairs.PairFromCreation | internal/core/nvme/controller.go:272-319 | from creation the k-th completion of a pair is in slot k mod n with phase 1 iff k div n is even, and pending is posted minus acknowledged |
| NvmeCompletions.PostedJoins | internal/core/nvme/controller.go:660-685 | a completion written to its slot joins the ones before it in memory |
| NvmeCompletions.CommandKeepsOff | internal/core/nvme/controller.go:426-472 | a command whose pages lie apart from the completion ring moves no data into it |
| NvmeCompletions.ProcessKeeps | internal/core/nvme/controller.go:287-319 | serving a pair keeps its last n completions in guest memory |
| NvmeCompletions.CompletionsStay | internal/core/nvme/controller.go:184-319 | in every such run in which nothing else writes into the completion ring, the last n completions are in guest memory, each in its slot with its phase |
| HeadlessControl.Control.SomeoneOwns | internal/desktopapp/headless_http.go:506-511 | the loop over the VMs finds an owner exactly when there is one |
| HeadlessControl.Control.StartVm | internal/desktopapp/headless_http.go:506-516 | a start is accepted exactly when the server is open and no VM owns resources; it creates the one queued operation and the owning VM |
| HeadlessControl.Control.StopVm | internal/desktopapp/headless_http.go:556-600 | a stop is accepted for a known VM that is not stopping, which then is |
| HeadlessControl.Control.SpawnGlass | internal/desktopapp/headless_http.go:571-576 | a window is accepted only for an idle running VM without one |
| HeadlessControl.Control.PullImage | internal/desktopapp/headless_http.go:418-447 | a pull is accepted while the server is open |
| HeadlessControl.Control.EndStart | internal/desktopapp/headless_http.go:533-552 | the boot goroutine's last critical section, which leaves a VM alone that is no longer starting; `HeadlessOutcomes.StartOutcome` says what has become of the VM in every run |
| HeadlessControl.Control.EndStop | internal/desktopapp/headless_http.go:620-633 | the stop goroutine's last critical section: stopped and released, or failed and still owning; `HeadlessOutcomes.StopOutcome` says what has become of the VM in every run |
| HeadlessControl.Control.FramePresented | internal/desktopapp/headless_http.go:657-672 | the first complete frame opens the window and ends the operation, later ones do nothing |
| HeadlessControl.Control.EndGlass | internal/desktopapp/headless_http.go:673-697 | the window goroutine's last critical section |
| HeadlessControl.Control.GuestExited | internal/desktopapp/headless_run.go:189-198 | a running VM whose guest is gone becomes failed, any other is left alone |
| HeadlessControl.Control.Close | internal/desktopapp/headless_http.go:707-715 | shutdown closes the server to mutations |
| HeadlessControl.Control.RecordStopped | internal/desktopapp/headless_http.go:726-735 | after a drained driver every VM is recorded stopped, without owner, active operation or window |
| HeadlessControl.Control.Boots | internal/desktopapp/headless_runtime.go:353-359 | the start call of the driver adds its machine at some point and returns; a failed boot is stopped again and the machine removed if that succeeds |
| HeadlessControl.Control.Halts | internal/desktopapp/headless_runtime.go:431-479 | a stop goes on once the channel it waits for is closed, or gives up; the machine goes when the driver stopped it |
| HeadlessControl.Control.JobsOver | internal/desktopapp/headless_http.go:718-724 | the loop finds a goroutine that is not over exactly when there is one |
| HeadlessControl.Control.Closes | internal/desktopapp/headless_http.go:700-737 | every step of a shutdown, with the stop calls of the driver |
| HeadlessControl.Control.Perform | internal/desktopapp/headless_http.go:388-737 | any step of any request, goroutine, driver call, monitor or shutdown on the object is the step of the protocol and keeps its invariant |
| HeadlessControl.Control.Interfere | internal/desktopapp/headless_http.go:388-737 | any sequence of such steps, in any order, is what the protocol makes of it |
| HeadlessPlay.PlayIsRun | internal/desktopapp/headless_http.go:388-737 | so the object is always in a state of a run, to which the safety results apply |
| HeadlessPlay.ForeignLeaves | internal/desktopapp/headless_http.go:388-737 | whatever others do, a goroutine stays where it is |
| HeadlessGoroutines.OwnStep | internal/desktopapp/headless_http.go:520-697 | nobody can keep a goroutine from its next step, except a stop that waits |
| HeadlessGoroutines.BootVm | internal/desktopapp/headless_http.go:520-552 | the boot goroutine from beginning to end, with anything between its steps: the operation is finished once, with the outcome of the driver; if others leave the VM alone, it then runs and has its machine, or has failed and owns its resources exactly when they could not be released |
| HeadlessGoroutines.WaitAndHalt | internal/desktopapp/headless_http.go:609-619 | a stop reaches the driver exactly when the goroutine it waits for has ended in time |
| HeadlessGoroutines.StopMachine | internal/desktopapp/headless_http.go:600-634 | the stop goroutine from beginning to end, with anything between its steps; if others leave the VM alone, it then is stopped, owns nothing and has no machine, or has failed and still owns |
| HeadlessGoroutines.ShowGlass | internal/desktopapp/headless_http.go:645-697 | the window goroutine from beginning to end: it succeeds exactly with a complete frame, and is finished once; if others leave the VM alone, only its window and its active operation have changed, as told |
| HeadlessGoroutines.PullImage | internal/desktopapp/headless_http.go:444-463 | the pull goroutine from beginning to end |
| HeadlessGoroutines.Drain | internal/desktopapp/headless_runtime.go:480-493 | the loop of the driver stops every machine listed, or ends at the first that does not stop |
| HeadlessGoroutines.ShutDownServer | internal/desktopapp/headless_http.go:700-737 | a whole shutdown with anything between its steps: on success nothing runs or is owned and every operation is terminal |
| HeadlessSafety.StepKeeps | internal/desktopapp/headless_http.go:388-737 | every step of every request, goroutine, monitor and shutdown keeps the invariant, whatever the driver answers |
| HeadlessSafety.RunKeeps | internal/desktopapp/headless_http.go:388-737 | every interleaving keeps the invariant |
| HeadlessSafety.LiveClaims | internal/desktopapp/headless_runtime.go:353-354 | a VM with a start in progress or a machine in the table owns its resources |
| HeadlessSafety.AtMostOneLive | internal/desktopapp/headless_http.go:506-553 | in every interleaving at most one VM has a start in progress or a machine in the driver's table, and it has the owner flag |
| HeadlessSafety.StepMoves | internal/desktopapp/headless_http.go:366-387 | operations move queued, running, terminal, or stay |
| HeadlessSafety.FinishedOnce | internal/desktopapp/headless_http.go:373-387 | an operation is finished exactly once when terminal, never before |
| HeadlessSafety.TerminalForever | internal/desktopapp/headless_http.go:373-387 | a terminal operation never changes again |
| HeadlessSafety.ShutdownIsFinal | internal/desktopapp/headless_http.go:700-737 | after a successful shutdown every operation is terminal, every VM stopped without owner or active operation, no machine is left, and nothing later undoes it |
| HeadlessHistory.HistoryTells | internal/desktopapp/headless_http.go:388-737 | in every interleaving every operation, VM and machine, the owner flags and whether the server is closing are what the events before tell, by a definition that looks only at the events |
| HeadlessOutcomes.AcceptedIff | internal/desktopapp/headless_http.go:388-600 | start, stop, window and pull are accepted exactly when the events before leave room: not closing, and no owner, a VM that is not stopping, an idle running VM without window |
| HeadlessOutcomes.RunStops | internal/desktopapp/headless_http.go:556-634 | in every interleaving a stopping VM has one stop at work that has not ended, and a VM whose boot has not ended keeps its machine |
| HeadlessOutcomes.StartEnds | internal/desktopapp/headless_http.go:533-552 | the end of a start of a VM that was not stopped meanwhile leaves it running or failed as the driver answered |
| HeadlessOutcomes.StartOutcome | internal/desktopapp/headless_http.go:520-552 | in every interleaving, after a start that was not stopped meanwhile: the VM runs, owns its resources and has its machine if the driver booted it, else it has failed and owns exactly what could not be released; and it stays so until it is stopped, exits or the server shuts down |
| HeadlessOutcomes.StopOutcome | internal/desktopapp/headless_http.go:600-634 | in every interleaving, after a stop: the VM is stopped, owns nothing and has no machine if the driver stopped it, else it has failed and still owns; and it stays so until it is stopped again or the server shuts down |
| HeadlessReplay.StepKeeps | internal/desktopapp/headless_http.go:146-189 | every step of the replay protocol keeps its invariant |
| HeadlessReplay.RunKeeps | internal/desktopapp/headless_http.go:146-189 | every interleaving of requests keeps it |
| HeadlessReplay.MutatesAtMostOnce | internal/desktopapp/headless_http.go:147-174 | each idempotency key runs its mutation at most once |
| HeadlessReplay.RepeatsGetFirstAnswer | internal/desktopapp/headless_http.go:148-183 | answered requests under one key got the same status, headers and body |
| HeadlessReplay.OtherRequestRefused | internal/desktopapp/headless_http.go:148-153 | a request is refused as a conflict exactly when it differs from the key's first |
| HeadlessReplay.RecordIsKept | internal/desktopapp/headless_http.go:170-178 | what a key was used for, and its answer, never change |
| HeadlessReplay.HistoryTells | internal/desktopapp/headless_http.go:146-189 | in every interleaving the first use of each key and its answer are those of the events before |
| HeadlessReplay.RefusedIff | internal/desktopapp/headless_http.go:147-172 | in every interleaving a request is refused for shutdown exactly when its key was new, the server was closing and it is no shutdown itself, and as a conflict exactly when its key was used for another request; all others are let through |
| HeadlessReplay.AnswersAreReturned | internal/desktopapp/headless_http.go:154-183 | whoever is answered gets what the mutation under its key returned |
| TerminalText.DecodePrefix | internal/ptyterm/model.go:169-176 | a character that ends inside a prefix decodes the same without what follows |
| TerminalScreen.ShiftsKeepShape | internal/ptyterm/model.go:836-912 | moving rows keeps the grid rectangular |
| TerminalScreen.DownThenUp | internal/ptyterm/model.go:836-874 | moving a region down and up again restores every row not pushed out |
| TerminalLaws.EraseInReadingOrder | internal/ptyterm/model.go:483-510 | an erase blanks exactly the cells from the cursor on, up to it, or all, in reading order |
| TerminalLaws.PrintShows | internal/ptyterm/model.go:296-340 | the character appears at the cursor after any wrap, and other rows stay |
| TerminalLaws.ScrollConserves | internal/ptyterm/model.go:836-857 | a full-screen scroll loses no row: history and screen together gain one blank row |
| TerminalLaws.InsertThenDelete | internal/ptyterm/model.go:700-721 | deleting inserted blanks gives back what was not pushed off the row |
| TerminalLaws.RestoreUndoesSave | internal/ptyterm/model.go:639-645 | a saved cursor comes back, but for a pending wrap |
| TerminalLaws.AlternateComesBack | internal/ptyterm/model.go:594-603 | leaving the alternate screen shows the main one unchanged, with its cursor |
| TerminalInput.ParametersBack | internal/ptyterm/model.go:1040-1062 | decimal parameters written by an application are the numbers the terminal reads |
| TerminalInput.FeedSequence | internal/ptyterm/model.go:178-193 | the bytes of a control sequence are handled with the parameters and the final byte written |
| TerminalInput.SequenceIs | internal/ptyterm/model.go:390-474 | what a control sequence leaves: the effect of its final byte, the cursor kept on the screen and the parser at rest |
| TerminalInput.PrefixIgnored | internal/ptyterm/model.go:396-400 | a question mark before the parameters makes a difference to h and l only |
| TerminalSequences.CursorUp | internal/ptyterm/model.go:405-406 | CSI n A: n rows up, stopping at the top margin from below it, in the same column |
| TerminalSequences.CursorDown | internal/ptyterm/model.go:407-408 | CSI n B: n rows down, stopping at the bottom margin from above it, in the same column |
| TerminalSequences.CursorForward | internal/ptyterm/model.go:409-410 | CSI n C: n columns right, up to the last |
| TerminalSequences.CursorBackward | internal/ptyterm/model.go:411-412 | CSI n D: n columns left, down to the first |
| TerminalSequences.NextLine | internal/ptyterm/model.go:413-415 | CSI n E: first column, n rows down within the margins |
| TerminalSequences.PreviousLine | internal/ptyterm/model.go:416-418 | CSI n F: first column, n rows up within the margins |
| TerminalSequences.ToColumn | internal/ptyterm/model.go:419-420 | CSI n G: column n, counted from one |
| TerminalSequences.ToPosition | internal/ptyterm/model.go:421-427 | CSI row ; column H or f: that row and column counted from one, rows from the top margin in origin mode |
| TerminalSequences.ToRow | internal/ptyterm/model.go:446-451 | CSI row d: that row, from the top margin in origin mode, in the same column |
| TerminalSequences.SetMargins | internal/ptyterm/model.go:454-455 | CSI top ; bottom r: margins at least two rows apart take effect and home the cursor, others do nothing |
| TerminalSequences.SavePosition | internal/ptyterm/model.go:456-457 | CSI s: the cursor is saved |
| TerminalSequences.RestorePosition | internal/ptyterm/model.go:458-459 | CSI u: the cursor is where it was saved, as far as that is on the screen |
| TerminalSequences.InsertMode | internal/ptyterm/model.go:460-471 | CSI 4 h and CSI 4 l: insert mode on and off |
| TerminalSequences.UnknownSequence | internal/ptyterm/model.go:402-473 | every other final byte does nothing but end a pending wrap |
| TerminalSequences.Rendition | internal/ptyterm/model.go:524-567 | CSI k m: what each code sets, and that it leaves the rest of the pen |
| TerminalSequences.RenditionReset | internal/ptyterm/model.go:524-530 | CSI m: everything reset |
| TerminalSequences.PaletteColor | internal/ptyterm/model.go:1064-1082 | CSI 38 ; 5 ; k m and 48: a colour of the palette |
| TerminalSequences.TrueColor | internal/ptyterm/model.go:1083-1096 | CSI 38 ; 2 ; r ; g ; b m and 48: a colour by its parts, each at most 255 |
| TerminalSequences.TrueColorInSpace | internal/ptyterm/model.go:1083-1096 | the same with an empty colour space before the parts |
| TerminalSequences.RenditionJoins | internal/ptyterm/model.go:524-567 | codes in one sequence take effect one after the other |
| TerminalSequences.ColorThen | internal/ptyterm/model.go:1064-1096 | codes after a palette colour, a colour by parts with a red part, or one after an empty colour space take effect after it |
| TerminalSequences.RedZero | internal/ptyterm/model.go:1087-1090 | a colour by parts with a red part of zero takes the code after it for its last part |
| TerminalSequences.PartsThenCodeIff | internal/ptyterm/model.go:1087-1090 | a colour by its parts and the code after it are taken in turn exactly when the red part is not zero |
| TerminalSequences.NoColor | internal/ptyterm/model.go:1064-1099 | 38 or 48 that begins no complete colour does not count, and what follows it does |
| TerminalSequences.InsertsCharacters | internal/ptyterm/model.go:403-404 | CSI n @, cell by cell: n blanks at the cursor push the rest of the row to the right |
| TerminalSequences.DeletesCharacters | internal/ptyterm/model.go:436-437 | CSI n P, cell by cell: n cells go, the rest of the row comes up, blanks follow |
| TerminalSequences.ErasesCharacters | internal/ptyterm/model.go:442-443 | CSI n X, cell by cell: n cells from the cursor on become blank |
| TerminalSequences.ErasesLine | internal/ptyterm/model.go:430-431 | CSI n K, cell by cell: the row from the cursor on, up to it, or all |
| TerminalSequences.ErasesDisplay | internal/ptyterm/model.go:428-429 | CSI n J, cell by cell: the screen from the cursor on, up to it, or all; with 3 the history as well |
| TerminalScrolling.InsertsLines | internal/ptyterm/model.go:432-433 | CSI n L, row by row: n blank rows at the cursor push the rows below down to the bottom margin |
| TerminalScrolling.DeletesLines | internal/ptyterm/model.go:434-435 | CSI n M, row by row: n rows at the cursor go, the rows below come up to the bottom margin |
| TerminalScrolling.ScrollsUp | internal/ptyterm/model.go:438-439 | CSI n S, row by row: the rows between the margins move up; a full screen pushes its first rows into the history, in order |
| TerminalScrolling.ScrollsDown | internal/ptyterm/model.go:440-441 | CSI n T, row by row: the rows between the margins move down |
| TerminalScrolling.LineFeedIs | internal/ptyterm/model.go:342-350 | a line feed goes one row down; at the bottom margin the rows move up instead |
| TerminalScrolling.ReverseIndexIs | internal/ptyterm/model.go:647-655 | a reverse line feed goes one row up; at the top margin the rows move down instead |
| TerminalScrolling.CharacterLands | internal/ptyterm/model.go:296-340 | a character appears in the column and row that the wrapping rule gives, in the pen's colours, a wide one over two cells; the rest of the row stays or moves right in insert mode, and other rows are those after the line feed |
| TerminalScrolling.Repeats | internal/ptyterm/model.go:444-445 | CSI n b, cell by cell: the last character n times in its own colours, the pen unchanged |
| TerminalScrolling.NothingToRepeat | internal/ptyterm/model.go:731-734 | CSI n b before anything was printed does nothing but end a pending wrap |
| TerminalScrolling.RepeatsSplit | internal/ptyterm/model.go:731-744 | repeating in several goes is repeating in one |
| TerminalModes.OriginMode | internal/ptyterm/model.go:572-577 | CSI ? 6 h and l: origin mode, with the cursor at the origin it has then |
| TerminalModes.WrapMode | internal/ptyterm/model.go:578-579 | CSI ? 7 h and l: whether lines wrap |
| TerminalModes.VisibleMode | internal/ptyterm/model.go:580-581 | CSI ? 25 h and l: whether the cursor shows |
| TerminalModes.AlternateMode | internal/ptyterm/model.go:582-587 | CSI ? 47 and ? 1047: an empty alternate screen with the cursor at home, or the main screen again |
| TerminalModes.CursorMode | internal/ptyterm/model.go:588-593 | CSI ? 1048: the cursor is saved, or comes back |
| TerminalModes.FullScreenMode | internal/ptyterm/model.go:594-603 | CSI ? 1049: an empty alternate screen; switched off, the main screen and its cursor come back |
| TerminalModes.UnknownMode | internal/ptyterm/model.go:570-605 | other private modes change nothing |
| TerminalModes.ModesInTurn | internal/ptyterm/model.go:570-605 | several modes in one sequence are set one after the other |
| TerminalModes.IndexSequence | internal/ptyterm/model.go:363-365 | ESC D: a line feed |
| TerminalModes.NextLineSequence | internal/ptyterm/model.go:366-369 | ESC E: first column, then a line feed |
| TerminalModes.ReverseIndexSequence | internal/ptyterm/model.go:372-374 | ESC M: a reverse line feed |
| TerminalModes.SaveSequence | internal/ptyterm/model.go:375-377 | ESC 7 saves the cursor |
| TerminalModes.RestoreSequence | internal/ptyterm/model.go:378-380 | ESC 8 brings it back |
| TerminalModes.ResetSequence | internal/ptyterm/model.go:360-362 | ESC c: everything as in a new terminal of this size |
| TerminalModes.UnknownEscape | internal/ptyterm/model.go:370-387 | other bytes after ESC do nothing |
| TerminalModes.CharsetSequences | internal/ptyterm/model.go:381-384 | ESC ( and ESC ) with a byte: line drawing in G0 or G1 for 0, plain otherwise |
| TerminalModes.TitleSequence | internal/ptyterm/model.go:476-481 | ESC ] command ; text with either terminator: commands 0 and 2 set the title, others nothing |
| TerminalModes.ControlBytes | internal/ptyterm/model.go:272-294 | backspace, tab, return, the three line feeds, shift out and in; the rest do nothing |
| TerminalCharacters.DecodesBack | internal/ptyterm/model.go:169-176 | a character written in UTF-8 is decoded, whatever follows |
| TerminalCharacters.DecodedIs | internal/ptyterm/model.go:169-176 | a character decoded from several bytes or from ASCII was encoded in just those bytes |
| TerminalCharacters.Malformed | internal/ptyterm/model.go:169-176 | anything else counts as one bad byte, and no character begins there |
| TerminalCharacters.CharacterWritten | internal/ptyterm/model.go:169-176 | a character that is written is printed |
| TerminalCharacters.BadByteWritten | internal/ptyterm/model.go:169-176 | a bad byte is printed as the replacement character |
| TerminalCharacters.WidthIs | internal/ptyterm/model.go:1118-1136 | marks take no column, wide characters two, all others one |
| TerminalCharacters.LineDrawingIs | internal/ptyterm/model.go:778-819 | the box characters that stand for letters in the line-drawing set |
| TerminalCharacters.TextComesBack | internal/ptyterm/model.go:1012-1038 | a row of plain text is the same after it was turned into text and back |
| TerminalCharacters.RowText | internal/ptyterm/model.go:1012-1025 | the text of a row is its characters without second halves of wide ones, up to the last that is no blank |
| TerminalCharacters.ResizeKeeps | internal/ptyterm/model.go:914-930 | cell by cell: what still fits after the rows cut off at the top stays in its place, the rest is blank |
| TerminalCharacters.ResizeRemembers | internal/ptyterm/model.go:914-930 | the rows cut off go to the history, which keeps its newest rows |
| TerminalCharacters.ResizedTerminal | internal/ptyterm/model.go:215-227 | both screens take the new size, the cursors stay on the screen, the margins are those of the screen |
| TerminalCharacters.CallResizes | internal/ptyterm/model.go:215-227 | a resize gives that many columns and rows and leaves tail and count of what was written |
| TerminalCharacters.NewTerminal | internal/ptyterm/model.go:101-117 | a new emulator: 80 by 24 unless told otherwise, blank, the cursor at home and visible, wrapping lines, nothing read |
| TerminalBuffer.ClearRange | internal/ptyterm/model.go:986-996 | in place, exactly the columns of the range that exist become blank |
| TerminalBuffer.InsertCells | internal/ptyterm/model.go:998-1010 | in place, cells shift right past the blanks inserted |
| TerminalBuffer.DeleteCells | internal/ptyterm/model.go:708-721 | in place, cells shift left and blanks come in |
| TerminalBuffer.PutCell | internal/ptyterm/model.go:325-331 | in place, a character and the second half of a wide one |
| TerminalBuffer.MovesDistinct | internal/ptyterm/model.go:855-908 | after rows are copied by reference, only the entries about to be replaced can name a row twice |
| TerminalBuffer.UpShown | internal/ptyterm/model.go:855-912 | rows moved up by reference with blanks below show as a pure shift of the grid |
| TerminalBuffer.DownShown | internal/ptyterm/model.go:872-893 | rows moved down by reference with blanks above show as a pure shift of the grid |
| TerminalBuffer.ScreenBuffer.constructor | internal/ptyterm/model.go:821-827 | a blank grid of rows that share no storage |
| TerminalBuffer.ScreenBuffer.TrimHistory | internal/ptyterm/model.go:932-940 | the newest rows up to the limit stay |
| TerminalBuffer.ScreenBuffer.ScrollRegion | internal/ptyterm/model.go:836-857 | a shift up of the region, history fed by a full-screen region only, and no shared storage |
| TerminalBuffer.ScreenBuffer.ScrollRegionDown | internal/ptyterm/model.go:859-874 | a shift down of the region, and no shared storage |
| TerminalBuffer.ScreenBuffer.InsertLines | internal/ptyterm/model.go:876-893 | a shift down by the clamped count, and no shared storage |
| TerminalBuffer.ScreenBuffer.DeleteLines | internal/ptyterm/model.go:895-912 | a shift up by the clamped count, and no shared storage |
| TerminalBuffer.ScreenBuffer.BlankEntries | internal/ptyterm/model.go:890-911 | the loop that replaces entries by fresh rows leaves all rows distinct and the others in place |
| TerminalBuffer.ScreenBuffer.Resize | internal/ptyterm/model.go:914-930 | rows cut or padded to the new size in fresh storage, cut-off rows in the history |
| TerminalModel.PrintRune | internal/ptyterm/model.go:296-340 | printing keeps the state well formed and changes no register but the cursor and the last character |
| TerminalModel.LineFeed | internal/ptyterm/model.go:342-350 | a line feed keeps the state well formed, the column and every other register |
| TerminalModel.HandleCsi | internal/ptyterm/model.go:390-474 | every control sequence with any parameters keeps the state well formed and the size; what each does is said by `TerminalSequences`, `TerminalScrolling` and `TerminalModes` |
| TerminalModel.Feed | internal/ptyterm/model.go:148-213 | any input keeps the state well formed and the size |
| TerminalRuns.Resize | internal/ptyterm/model.go:215-227 | any new size gives a well-formed state of that size |
| TerminalRuns.Restore | internal/ptyterm/model.go:119-146 | any snapshot at all restores to a well-formed state |
| TerminalRuns.Run | internal/ptyterm/model.go:101-227 | every state reached by New or Restore and any writes and resizes has full grids, cursor, region and history in bounds |
| TerminalRuns.RestoreShowsSnapshot | internal/ptyterm/model.go:119-146 | restoring a snapshot shows the same cells, size, title, modes and raw tail; the cursor is the same exactly when no wrap was pending |
| TerminalRuns.TailOfTail | internal/ptyterm/model.go:264-270 | keeping the tail at each write keeps the tail of everything |
| TerminalRuns.RawTailIsTail | internal/ptyterm/model.go:264-270 | after any run, from any restored tail, the raw tail is the last 64 KiB of that tail and everything written, or the tail as it was if nothing was written; the count is the sum |
| TerminalRuns.NewRawTail | internal/ptyterm/model.go:264-270 | from a new emulator the raw tail is the last 64 KiB of everything written |
| TerminalSplit.SplitFeed | internal/ptyterm/model.go:148-213 | at a split where a turn of the loop ends, two writes leave the state of one |
| TerminalSplit.SplitWrite | internal/ptyterm/model.go:148-213 | the same for the complete emulator, raw tail and count included |
| TerminalSplit.UncleanSplits | internal/ptyterm/model.go:169-198 | every other split lies inside a valid multi-byte character or between ESC and backslash in an operating-system command |
| TerminalSplit.SplitAnywhere | internal/ptyterm/model.go:148-213 | a split that cuts neither a character nor a terminator leaves the complete emulator as one write does |
| TerminalSplit.TerminatorSplitShows | internal/ptyterm/model.go:194-201 | after any input that leaves a command open, a split between ESC and backslash shows as soon as the backslash is written |
| TerminalSplit.CharacterSplitShows | internal/ptyterm/model.go:169-176 | after any input, a split inside a printable multi-byte character shows as soon as the character is complete |
| TerminalSplit.LaterInputHides | internal/ptyterm/model.go:194-201 | input after a cut terminator can make up for it |
| TerminalEmulator.EraseRows | internal/ptyterm/model.go:483-510 | the loops of an erase compute the erased rows, in place or in fresh rows |
| TerminalEmulator.Emulator.constructor | internal/ptyterm/model.go:101-117 | a new emulator, its two buffers sharing no row |
| TerminalEmulator.Emulator.PrintRune | internal/ptyterm/model.go:296-340 | in place, the print of the model; rows stay distinct within and across the buffers |
| TerminalEmulator.Emulator.LineFeed | internal/ptyterm/model.go:342-350 | in place, the line feed of the model |
| TerminalEmulator.Emulator.ReverseIndex | internal/ptyterm/model.go:647-655 | in place, the reverse line feed of the model |
| TerminalEmulator.Emulator.Control | internal/ptyterm/model.go:272-294 | in place, the control bytes of the model |
| TerminalEmulator.Emulator.Reset | internal/ptyterm/model.go:616-637 | fresh buffers and initial registers, the parser left alone |
| TerminalEmulator.Emulator.EraseDisplay | internal/ptyterm/model.go:483-510 | in place, the erase of the model |
| TerminalEmulator.Emulator.EraseLine | internal/ptyterm/model.go:512-522 | in place, part of the cursor's row |
| TerminalEmulator.Emulator.InsertCharacter | internal/ptyterm/model.go:700-706 | in place, on the cursor's row |
| TerminalEmulator.Emulator.DeleteCharacter | internal/ptyterm/model.go:708-721 | in place, on the cursor's row |
| TerminalEmulator.Emulator.InsertLine | internal/ptyterm/model.go:746-751 | in place, at the cursor's row |
| TerminalEmulator.Emulator.DeleteLine | internal/ptyterm/model.go:753-758 | in place, at the cursor's row |
| TerminalEmulator.Emulator.ScrollUp | internal/ptyterm/model.go:760-767 | that many single scrolls |
| TerminalEmulator.Emulator.ScrollDown | internal/ptyterm/model.go:769-776 | that many single scrolls |
| TerminalEmulator.Emulator.RepeatLast | internal/ptyterm/model.go:731-744 | the last character again with its own attributes, then the old attributes |
| TerminalEmulator.Emulator.SetSgr | internal/ptyterm/model.go:524-567 | the loop over rendition codes, extended colours included |
| TerminalEmulator.Emulator.SetMode | internal/ptyterm/model.go:608-614 | insert mode follows the last mention of mode 4 |
| TerminalEmulator.Emulator.SetScrollRegion | internal/ptyterm/model.go:685-698 | a region of at least two rows is taken, clamped, and homes the cursor |
| TerminalEmulator.Emulator.CursorUp | internal/ptyterm/model.go:657-669 | up, but not out of the region from inside it |
| TerminalEmulator.Emulator.CursorDown | internal/ptyterm/model.go:671-683 | down, but not out of the region from inside it |
| TerminalEmulator.Emulator.MoveCursor | internal/ptyterm/model.go:405-451 | in place, where each cursor sequence points, which `TerminalSequences.CursorUp` to `TerminalSequences.ToRow` give in rows and columns |
| TerminalEmulator.Emulator.SetPrivateMode | internal/ptyterm/model.go:569-606 | the loop over private modes |
| TerminalEmulator.Emulator.HandleCsi | internal/ptyterm/model.go:390-474 | in place, the control sequence of the model, cursor clamped; what each sequence does to cursor and cells is said by `TerminalSequences`, `TerminalScrolling` and `TerminalModes` |
| TerminalEmulator.Emulator.HandleOsc | internal/ptyterm/model.go:476-481 | the title, for commands 0 and 2 |
| TerminalEmulator.Emulator.HandleEscapeByte | internal/ptyterm/model.go:352-388 | in place, the escape sequences of the model |
| TerminalEmulator.Emulator.AppendRawTail | internal/ptyterm/model.go:264-270 | the tail of the old tail and the new bytes |
| TerminalEmulator.Emulator.Turn | internal/ptyterm/model.go:154-210 | one turn of the loop: its effect and the bytes it takes |
| TerminalEmulator.Emulator.Write | internal/ptyterm/model.go:148-213 | the loop ends and leaves the model's state; rows stay distinct within and across the buffers |
| TerminalEmulator.Emulator.Resize | internal/ptyterm/model.go:215-227 | both grids, cursors and region resized, in fresh rows |
| TerminalEmulator.Emulator.TakeSnapshot | internal/ptyterm/model.go:229-255 | the snapshot of the model |
| TerminalEmulator.Restore | internal/ptyterm/model.go:119-146 | the restored emulator of the model, its buffers and rows new and distinct |
| TerminalEmulator.Emulator.Call | internal/ptyterm/model.go:148-227 | a write or a resize, in place |
| TerminalEmulator.Drive | internal/ptyterm/model.go:101-227 | any run of writes and resizes from a new or restored emulator ends in the state of the model, with no two rows sharing storage |
| TerminalEmulator.LineFromString | internal/ptyterm/model.go:1027-1038 | text on a blank row, wide characters taking two columns, cut at the edge |
| TerminalEmulator.RowString | internal/ptyterm/model.go:1012-1025 | the characters of a row without second halves and trailing blanks |
| TerminalEmulator.ParseCsiParams | internal/ptyterm/model.go:1040-1062 | fields between ';' or ':', each its leading digits |
| TcpSequence.WireOrder | internal/core/netstack/tcp.go:535-548 | comparing wire numbers compares the positions behind them within 2^31 |
| TcpSequence.WireCompares | internal/core/netstack/tcp.go:535-548 | before, not after and after on the wire are those of the positions within 2^31 |
| TcpSequence.HalfRangeIsSharp | internal/core/netstack/tcp.go:535-538 | at distance 2^31 both numbers precede each other |
| TcpOrder.OverlapIsIntersection | internal/core/netstack/tcp.go:550-553 | wire ranges overlap exactly when the stream ranges behind them do |
| TcpReceive.RecvBuffer.Add | internal/core/netstack/tcp.go:266-296 | overlap and overflow are refused, anything else goes to its place |
| TcpReceive.InsertTells | internal/core/netstack/tcp.go:266-296 | a segment said to be accepted is one more in the buffer; any other changes nothing |
| TcpReceive.RecvBuffer.Pass | internal/core/netstack/tcp.go:304-318 | one pass removes, in order, what continues the stream as it moves on |
| TcpReceive.RecvBuffer.CollectContiguous | internal/core/netstack/tcp.go:299-322 | passes are repeated until one finds nothing, and that ends |
| TcpReceive.CollectLeavesNone | internal/core/netstack/tcp.go:299-322 | collection ends only when no segment left has the number expected next, whatever the order of the buffer |
| TcpReceive.Receiver.HandleData | internal/core/netstack/netstack.go:2110-2137 | an arriving segment is delivered with what it connects to, buffered, or dropped |
| TcpStream.GatherCollects | internal/core/netstack/tcp.go:299-322 | every piece collected is handed over at its own position or a multiple of 2^32 after it, one after the other; what stays is what was there |
| TcpStream.CollectMirrors | internal/core/netstack/tcp.go:299-322 | collecting segments by their 32-bit numbers is collecting the pieces of the stream behind them |
| TcpStream.OutOfOrder | internal/core/netstack/netstack.go:2110-2124 | an arrival out of order is kept or dropped, and nothing is handed over |
| TcpStream.InOrder | internal/core/netstack/netstack.go:2126-2137 | an arrival in order hands over its own bytes and those of the pieces collected |
| TcpStream.RunMirrors | internal/core/netstack/tcp.go:266-322 | in every run of arrivals near the expected number, whatever their order, overlap and repetition, the receiver is the one on pieces, with the gaps within the limit |
| TcpStream.PrefixIff | internal/core/netstack/tcp.go:266-322 | in every such run, what has been handed over is the beginning of the stream exactly when each piece handed over out of place had the bytes of that place |
| TcpStream.DeliveredIsPrefix | internal/core/netstack/tcp.go:266-322 | as long as nothing was handed over out of place, it is the stream up to the expected position |
| TcpStream.MistakeShows | internal/core/netstack/tcp.go:305-311 | otherwise the stream goes on, from some place, with the bytes of an arrival that lies a multiple of 2^32 behind it |
| TcpStream.CleanIff | internal/core/netstack/tcp.go:266-322 | when no arrival has the bytes of a place a multiple of 2^32 after it, the stream is handed over as it was sent exactly when nothing was handed over out of place |
| TcpStream.ShortStream | internal/core/netstack/tcp.go:266-322 | in a stream shorter than 4 GiB nothing is ever handed over out of place |
| TcpOrder.AcceptIsIdeal | internal/core/netstack/tcp.go:266-322 | on live numbers the wrap-around receiver is the one over unbounded positions, its buffer sorted and disjoint |
| TcpOrder.LiveRunsStaySorted | internal/core/netstack/tcp.go:266-296 | in every run in which all positions alive stay within 2^31, what waits stays sorted, disjoint and within the limit |
| TcpOrder.OrderLost | internal/core/netstack/tcp.go:277-280 | a piece 2^31 or more behind makes the buffer lose its order |
| TcpOrder.Overtakes | internal/core/netstack/tcp.go:304-318 | an expected segment that reaches past the start of a waiting one leaves it behind in the buffer |
| TcpOrder.OvertakenStays | internal/core/netstack/tcp.go:304-318 | an overtaken piece stays in the buffer, whatever comes, until the numbers have come round to it |
| TcpOrder.StaleBytesReturn | internal/core/netstack/tcp.go:305-311 | after any run that leaves one overtaken piece waiting, and any further cut of the stream sent in order until the numbers have come round to it, its bytes follow on the stream |
| TcpOrder.EverySegmentSize | internal/core/netstack/tcp.go:305-311 | for every limit on segments from two bytes on there is a run within it after which a stale byte follows on the stream |
| TcpOrder.ClearRunsStayAhead | internal/core/netstack/tcp.go:266-322 | for streams of any length: when no expected segment reaches into a waiting one, nothing is mistaken and all that waits is sorted, disjoint, ahead and within the limit |
| TcpOrder.SameCutsAreClear | internal/core/netstack/tcp.go:266-322 | a peer that cuts the stream in the same places when it sends again never overtakes anything |
| TcpComplete.NothingLost | internal/core/netstack/tcp.go:266-322 | in every run of slices cut alike that does not meet the gap limit, every piece that has arrived was handed over or waits |
| TcpComplete.HandsOverAllItCan | internal/core/netstack/tcp.go:266-322 | whatever the order, repetition and delay, such a run has handed over the stream exactly up to the furthest position to which the arrivals cover it from the beginning |
| TcpComplete.AllArrived | internal/core/netstack/tcp.go:266-322 | once every piece has arrived, the whole stream has been handed over |
| TcpSend.SendBuffer.Append | internal/core/netstack/tcp.go:136-148 | a segment is queued exactly when it fits, and used is the sum of the payloads |
| TcpSend.SendBuffer.Ack | internal/core/netstack/tcp.go:152-175 | what ends at or before the number goes, in place; the bytes returned are those removed; the first fresh sample is taken |
| TcpSend.SendBuffer.Clear | internal/core/netstack/tcp.go:228-236 | nothing queued, nothing used |
| TcpSend.SendBuffer.Oldest | internal/core/netstack/tcp.go:178-186 | the first segment queued, if any |
| TcpSend.SendBuffer.MarkRetransmittedN | internal/core/netstack/tcp.go:189-198 | the oldest n segments count one more retransmission, now |
| TcpSend.ResentAt | internal/core/netstack/tcp.go:189-198 | only count and time of the oldest n segments change |
| TcpSend.AckConserves | internal/core/netstack/tcp.go:152-175 | bytes removed and bytes kept add up |
| TcpSend.AckRemovesPrefix | internal/core/netstack/tcp.go:152-175 | on a contiguous queue an in-window number removes exactly a prefix and leaves a contiguous rest |
| TcpSend.StepConsistent | internal/core/netstack/tcp.go:136-198 | every append, retransmission and in-window ack keeps the queue the contiguous unacknowledged part of the stream |
| TcpSend.QueueHoldsUnacked | internal/core/netstack/tcp.go:136-198 | in every run the queue holds exactly the accepted bytes not yet acknowledged, within capacity |
| TcpSend.SampleIff | internal/core/netstack/tcp.go:160-170 | the sample is the send time of the first acknowledged segment that was sent once |
| TcpSend.NoSample | internal/core/netstack/tcp.go:160-170 | there is none when every acknowledged segment was sent again |
| TcpSend.QueueStamped | internal/core/netstack/tcp.go:136-198 | in every run a segment counted as sent once carries the time of its push, any other the time of a retransmission |
| TcpSend.SamplesMeasurePushes | internal/core/netstack/tcp.go:160-170 | in every run a sample measures from the push of an acknowledged segment, never from a retransmission |
| TcpSend.SamplesWhileFresh | internal/core/netstack/tcp.go:160-170 | a sender that never sends again gets a sample from every acknowledgment that covers a segment |
| FdtTree.WordBack | internal/core/fdt/build.go:118-122 | a written word reads back as its low 32 bits |
| FdtTree.WordsBack | internal/core/fdt/build.go:79-85 | 32-bit cells read back |
| FdtTree.DoubleWordsBack | internal/core/fdt/build.go:86-92 | 64-bit cells read back |
| FdtTree.IncreasingUnique | internal/core/fdt/build.go:40-44 | a set of names has one sorted listing |
| FdtFormat.InternKeeps | internal/core/fdt/build.go:159-168 | every interned offset points at its name followed by NUL |
| FdtFormat.EmitTree | internal/core/fdt/build.go:36-60 | every node takes a multiple of four bytes, so every token is aligned, and the strings block only grows |
| FdtFormat.PropsBack | internal/core/fdt/build.go:105-125 | a reader gets the properties back with names and bytes |
| FdtFormat.TreeBack | internal/core/fdt/build.go:36-60 | a reader gets a node back with all below it and stops where it ends |
| FdtFormat.FieldBack | internal/core/fdt/build.go:127-151 | every header field reads back |
| FdtFormat.BlobBack | internal/core/fdt/build.go:22-180 | a reader of the whole blob gets the tree back, with no reservations |
| FdtFormat.RoundTripIff | internal/core/fdt/build.go:22-180 | below 4 GiB the tree comes back exactly when no name holds a NUL |
| FdtBuilder.SortedKeys | internal/core/fdt/build.go:39-44 | the keys of a map in any order are listed in byte order |
| FdtBuilder.PropertyData | internal/core/fdt/build.go:70-99 | the bytes of each kind of value, which decode to what was set |
| FdtBuilder.Builder.PadStruct | internal/core/fdt/build.go:176-180 | zero bytes up to the next multiple of four |
| FdtBuilder.Builder.StringOffset | internal/core/fdt/build.go:159-168 | a name is interned once and its offset returned |
| FdtBuilder.Builder.BeginNode | internal/core/fdt/build.go:105-110 | token, name, NUL and padding are appended at an aligned place |
| FdtBuilder.Builder.WriteProperty | internal/core/fdt/build.go:116-125 | token, length, name offset and padded value are appended |
| FdtBuilder.Builder.EmitProperty | internal/core/fdt/build.go:62-103 | fails exactly when the property has not exactly one kind of value |
| FdtBuilder.Builder.EmitProperties | internal/core/fdt/build.go:39-50 | all properties by name, or a failure exactly when one is unusable |
| FdtBuilder.Builder.EmitNode | internal/core/fdt/build.go:36-60 | the node and all below it appended, or a failure exactly when something in it is unusable |
| FdtBuilder.Builder.EmitChildren | internal/core/fdt/build.go:52-56 | the children in order |
| FdtBuilder.Builder.Finish | internal/core/fdt/build.go:127-157 | header, empty reservation block, structure and strings, each where the header says |
| FdtFound.BuiltReadsBack | internal/core/fdt/build.go:22-28 | below 4 GiB what is built from a node reads back as that node exactly when no name in it holds a NUL |
| FdtFound.FoundByName | internal/core/fdt/build.go:22-60 | in the blob of a node a reader finds, at every path of names, the node that is there, each of its properties under its name with a value that it decodes to what was set, and no others |
| FdtFound.StringsBack | internal/core/fdt/build.go:72-78 | a list of strings without NUL, each ended by a NUL, reads back as that list |
| FdtFound.SingleIff | internal/core/fdt/build.go:62-68 | exactly the properties with one kind of value can be written |
| FdtFound.ValueDecodes | internal/core/fdt/build.go:70-99 | the bytes of a property decode to the strings, 32-bit or 64-bit numbers or bytes set, and a flag has none |
| FdtFound.PropsByName | internal/core/fdt/build.go:39-50 | properties come in the byte order of their names |
| FdtFound.HeaderIs | internal/core/fdt/build.go:127-151 | magic, sizes and offsets of the blocks, version 17, compatible with 16, boot processor 0 |
| FdtFound.InternOnce | internal/core/fdt/build.go:159-168 | a name interned again adds nothing |
| FdtBuilder.Build | internal/core/fdt/build.go:22-28 | fails exactly on an unusable property; otherwise its blob reads back as the node, properties sorted and byte for byte, exactly when no name holds a NUL, and then every node and value is found by path and name |
| CvmfsIndex.ResolveIff | internal/core/cvmfs/cvmfs.go:1483-1511 | resolving ends on every parent graph and fails exactly when no parent up the chain is known |
| CvmfsIndex.CycleNeverClimbs | internal/core/cvmfs/cvmfs.go:1488-1490 | a cycle of unknown local parents has nothing to climb to |
| CvmfsIndex.IndexCatalogIff | internal/core/cvmfs/cvmfs.go:1458-1525 | indexing a catalog succeeds exactly when every entry has a chain of parents to a known path |
| CvmfsIndexRuns.RunTraced | internal/core/cvmfs/cvmfs.go:1512-1522 | every path found is the path of a chain of indexed entries up to the root |
| CvmfsIndexRuns.RunHolds | internal/core/cvmfs/cvmfs.go:1512-1522 | both tables hold exactly the entries recorded, in order |
| CvmfsIndexRuns.ByPathIsExact | internal/core/cvmfs/cvmfs.go:1519-1519 | the table by path has exactly the recorded paths, each with an entry that has it |
| CvmfsIndexRuns.InDirIsExact | internal/core/cvmfs/cvmfs.go:1520-1521 | a directory lists exactly its entries, as often as they were recorded |
| CvmfsIndexRuns.IndexIsExact | internal/core/cvmfs/cvmfs.go:1458-1525 | after any run without a failure the tables hold exactly the entries of the catalogs under parent-chain paths |
| CvmfsIndexRuns.ThePath | internal/core/cvmfs/cvmfs.go:1458-1525 | when entries of one hash agree on name and parent and none has the hash of the root, an entry has the path of its chain |
| CvmfsIndexRuns.OnePath | internal/core/cvmfs/cvmfs.go:1493-1509 | under that condition all chains to a hash have one path |
| CvmfsIndexRuns.RunsAgree | internal/core/cvmfs/cvmfs.go:1458-1525 | so two runs give an entry the same path, whatever the order of catalogs and entries |
| CvmfsOrder.SettledPaths | internal/core/cvmfs/cvmfs.go:1483-1522 | when no entry gets another path by its parent being listed again, every entry recorded has the path that what was known before gives it |
| CvmfsOrder.UnsettledShows | internal/core/cvmfs/cvmfs.go:1493-1509 | otherwise two orders of the catalog give an entry two paths |
| CvmfsOrder.OrderIff | internal/core/cvmfs/cvmfs.go:1483-1522 | for any joining of paths, the order of the entries of a catalog does not matter exactly when no entry under a hash that is known and listed again gets another path by that |
| CvmfsOrder.MovedDirectory | internal/core/cvmfs/cvmfs.go:1493-1509 | a directory known as /a and listed again as /b: its entry is /a/x or /b/x by the order |
| CvmfsOrder.FailureLeaves | internal/core/cvmfs/cvmfs.go:1512-1523 | a call records exactly the entries before the first without a chain of parents to a known path; a failed call leaves the tables as they were exactly when that is the first entry |
| CvmfsOrder.RetryRepeats | internal/core/cvmfs/cvmfs.go:1512-1523 | a retry records every one of these entries a second time, and fails at the same place if nothing else has become known |
| CvmfsRepository.LocalTable | internal/core/cvmfs/cvmfs.go:1476-1479 | entries by hash, the last one kept |
| CvmfsRepository.Repository.ResolvePath | internal/core/cvmfs/cvmfs.go:1483-1511 | the recursion computes the path, the known paths and the memo, or leaves them alone |
| CvmfsRepository.Repository.IndexListed | internal/core/cvmfs/cvmfs.go:1512-1522 | the loop records every entry up to the first failure |
| CvmfsRepository.Repository.IndexCatalog | internal/core/cvmfs/cvmfs.go:1458-1525 | a catalog is indexed once; again it changes nothing |
| CvmfsRange.ByteRangeIff | internal/core/cvmfs/cvmfs.go:611-620 | the range is the one wanted exactly when the sum does not pass the 64-bit limit inside the file |
| CvmfsRange.WholeIsContent | internal/core/cvmfs/cvmfs.go:1178-1202 | a whole read of tiling chunks is their concatenation |
| CvmfsRange.RangeIsSlice | internal/core/cvmfs/cvmfs.go:1204-1245 | reading a range chunk by chunk is a slice of that concatenation |
| CvmfsRange.ReadWhole | internal/core/cvmfs/cvmfs.go:1163-1176 | a whole read gives the file's bytes, as many as its size |
| CvmfsRange.ReadRangeIsSlice | internal/core/cvmfs/cvmfs.go:869-885 | below the 64-bit limit a ranged read is the wanted slice of the whole read, with end of file reported exactly |
| CvmfsRange.OverflowReads | internal/core/cvmfs/cvmfs.go:616-617 | past the limit inside the file: end of file is never reported, a chunked file gives no bytes, a single object all it has from the offset |
| CvmfsRange.ReadRangeIff | internal/core/cvmfs/cvmfs.go:869-885 | a ranged read is the one asked for exactly when the sum does not pass the 64-bit limit inside the file |
| CvmfsRange.AdjacentRanges | internal/core/cvmfs/cvmfs.go:869-885 | adjacent ranges concatenate to the joined range |
| CvmfsRange.StreamEntryData | internal/core/cvmfs/cvmfs.go:1178-1202 | the loop over chunks, with the failure of a chunk cut short |
| CvmfsRange.SortChunks | internal/core/cvmfs/cvmfs.go:1214-1220 | chunks by offset, then by hash |
| CvmfsRange.StreamPart | internal/core/cvmfs/cvmfs.go:1223-1242 | the part of a chunk inside the range |
| CvmfsRange.StreamEntryDataRange | internal/core/cvmfs/cvmfs.go:1204-1245 | the loop over sorted chunks |
| CvmfsRange.ReadFileRange | internal/core/cvmfs/cvmfs.go:869-885 | empty, failed and complete reads, with the 64-bit wrap-around of the range |
| CvmfsChunks.SortIs | internal/core/cvmfs/cvmfs.go:1214-1220 | the chunks sorted are the chunks, by offset and, at one offset, by the order of their hashes |
| CvmfsChunks.SortRestores | internal/core/cvmfs/cvmfs.go:1214-1220 | however they are listed, chunks that tile a file are sorted into the order in which they tile it |
| CvmfsChunks.ListingOrderIrrelevant | internal/core/cvmfs/cvmfs.go:1204-1245 | so the order of the listing makes no difference to a ranged read |
| CvmfsChunks.ChunkBytes | internal/core/cvmfs/cvmfs.go:1178-1202 | a chunked file has the bytes of each chunk's object from the chunk's offset on |
| CvmfsChunks.ReadGives | internal/core/cvmfs/cvmfs.go:869-885 | below the 64-bit limit a ranged read gives, byte for byte, the file from the offset on, as much as was asked for and is there, and reports the end exactly when it has been reached |
| CvmfsLock.StepKeeps | internal/core/cvmfs/cvmfs.go:2266-2299 | every step, the file-lock failure included, keeps users, counts and owners in step |
| CvmfsLock.MutualExclusion | internal/core/cvmfs/cvmfs.go:2277-2291 | in every interleaving one goroutine at a time holds the lock of a path |
| CvmfsLock.ReferencesAreUsers | internal/core/cvmfs/cvmfs.go:2268-2298 | all users of a path share the one lock in the table, the count is their number, and the entry exists exactly while there are some |
| CvmfsLock.NobodyIsStuck | internal/core/cvmfs/cvmfs.go:2277-2298 | a waiting goroutine can take the lock unless another has it, and whoever has it can go on to leave |
| CvmfsPublication.LockTable.TakeReference | internal/core/cvmfs/cvmfs.go:2268-2275 | on the objects, the step of the protocol that enters: every user of the path shares the one lock and is counted |
| CvmfsPublication.LockTable.LockMutex | internal/core/cvmfs/cvmfs.go:2277-2277 | on the objects, the step that takes the mutex |
| CvmfsPublication.LockTable.UnlockMutex | internal/core/cvmfs/cvmfs.go:2280-2291 | on the objects, the step that gives it back |
| CvmfsPublication.LockTable.DropReference | internal/core/cvmfs/cvmfs.go:2292-2297 | on the objects, the step that leaves: the last user takes the lock out of the table |
| CvmfsPublication.LockTable.LockCachePublication | internal/core/cvmfs/cvmfs.go:2266-2288 | the whole call is the run of its steps; when the file lock fails, locks in use and goroutines are as before |
| CvmfsPublication.LockTable.Unlock | internal/core/cvmfs/cvmfs.go:2289-2298 | the whole release is the run of its steps |
| CvmfsPublication.UnlockUndoesLock | internal/core/cvmfs/cvmfs.go:2266-2298 | locking and unlocking leave the locks in use and every goroutine as they were |
| CvmfsPublication.AtomicFile.Close | internal/core/cvmfs/cvmfs.go:2218-2246 | a reader of the target finds all that was written or what was there before, no other file changes, and the lock is given back exactly once |
| CvmfsPublication.AtomicFile.Commit | internal/core/cvmfs/cvmfs.go:2224-2246 | call after call: the temporary file takes the target's place exactly when all succeed, and else goes if it can be removed |
| CvmfsPublication.AtomicFile.Abort | internal/core/cvmfs/cvmfs.go:2248-2264 | no file but the temporary one changes, and the lock is given back exactly once |
| CvmfsPublication.WriteAtomicFile | internal/core/cvmfs/cvmfs.go:2166-2180 | publishing from beginning to end, whatever fails: all of the data or what was there before, and no lock left |
| ImageNamespace.Clean | internal/core/imagefs/imagefs.go:227-232 | a cleaned path has no empty, "." or ".." piece |
| ImageNamespace.LookupPath | internal/core/imagefs/imagefs.go:223-247 | the loop looks up each piece of the cleaned path, and fails where a piece is missing or not a directory |
| ImageNamespace.Namespace.AddDirectoryNodes | internal/core/imagefs/imagefs.go:156-189 | the recursion appends the nodes of a directory in name order, or fails |
| ImageNamespace.BuildNamespace | internal/core/imagefs/imagefs.go:142-194 | the table of an image, or nothing; `ImageLinks.NamespaceLinks` says how its nodes hang together |
| ImageLookup.AddDirectoryDense | internal/core/imagefs/imagefs.go:156-189 | every node is numbered by its place and comes after its parent, whose child it is by `ImageLinks.NamespaceLinks` |
| ImageLookup.AddDirectoryIff | internal/core/imagefs/imagefs.go:156-189 | the table can be built exactly when every directory lists and every listed name looks up |
| ImageLookup.AddDirectoryMirrors | internal/core/imagefs/imagefs.go:156-189 | the children of every node are exactly the names of its directory, with the entries lookup gives |
| ImageLookup.WalkFinds | internal/core/imagefs/imagefs.go:223-247 | following children along a clean path finds what path lookup finds |
| ImageLookup.NamespaceFinds | internal/core/imagefs/imagefs.go:142-247 | for every image whose listings and lookups agree and every guest path, the table is built, dense, and finds exactly what path lookup finds |
| ImageLinks.NamespaceLinks | internal/core/imagefs/imagefs.go:142-189 | in every table each child names its parent and its own name and siblings are numbered in name order; every node is its parent's child under its name exactly when no directory lists a name twice |
| ImageLinks.ListedTwice | internal/core/imagefs/imagefs.go:156-189 | a directory that lists a name twice makes a node that is nobody's child |
| StringOrder.BelowIs | internal/core/imagefs/imagefs.go:161-161 | names are in order when the first difference is: the smaller character, or the end |
| ImageLinks.SplitJoins | internal/core/imagefs/imagefs.go:227-232 | a path is its pieces with slashes between them |
| ImageLinks.CleanPlain | internal/core/imagefs/imagefs.go:227-232 | a path of plain pieces is clean as it is |
| ImageLinks.CleanDot | internal/core/imagefs/imagefs.go:227-232 | empty pieces and dots do not count, wherever they are |
| ImageLinks.CleanUp | internal/core/imagefs/imagefs.go:227-232 | two dots take the piece before them away, wherever they are |
| ImageLinks.CleanRoot | internal/core/imagefs/imagefs.go:227-232 | there is nothing above the root |
| CommandLine.EscapeArg | internal/ptyterm/pty_windows.go:402-433 | the loop with its backslash counter computes the quoting |
| CommandLine.MakeCommandLine | internal/ptyterm/pty_windows.go:391-400 | the quoted arguments, separated by spaces |
| CommandLine.PlainIff | internal/ptyterm/pty_windows.go:402-409 | an argument is passed as it is exactly when it is not empty and holds no blank, tab, newline, vertical tab or quote |
| CommandLine.BodyQuoted | internal/ptyterm/pty_windows.go:411-430 | inside quotes the escaped text reads back and the closing quote closes |
| CommandLine.EscapeReads | internal/ptyterm/pty_windows.go:402-433 | one quoted argument reads back unchanged, and ends where it ends |
| CommandLine.LineReads | internal/ptyterm/pty_windows.go:391-433 | every argument list reads back unchanged under the argument rules, empty arguments, quotes and runs of backslashes included |
| CommandLineProgram.ProgramEscaped | internal/ptyterm/pty_windows.go:402-433 | where the program-name rules stop in a quoted argument |
| CommandLineProgram.Flipped | internal/ptyterm/pty_windows.go:391-433 | what becomes of quoted arguments read from inside quotes |
| CommandLineProgram.ArgumentsIff | internal/ptyterm/pty_windows.go:391-433 | the arguments after the program name come back unchanged exactly when the name is safe |
| CommandLineProgram.NoQuotesSafe | internal/ptyterm/pty_windows.go:391-433 | a program name without quotes is safe |
| CommandLineProgram.QuoteInName | internal/ptyterm/pty_windows.go:391-433 | a program name that is one quote loses the argument after it |

## Left out

- NvmeController.Controller.ProcessSubmissionQueue: the disk's answers are given in advance, one for each command, so the loop of a write that never returns ends when they are used up; `NvmeServing.ReturnsIff` says when that is.
- NvmeController.Controller.WriteMmio: after a fault the state is only well formed, since a transfer that fails half way leaves memory in between; runs end there. A division by a ring size of zero counts as a fault.
- NvmeController.Controller.UpdateIrq: message-signalled interrupts and a failing interrupt controller are not modelled, and there always is an interrupt controller.
- NvmeController.Controller.ServeNext: reads guest memory each time; the cached slices of queue memory are not modelled. They name the same bytes unless a queue is created again at an address that cannot be sliced.
- NvmeController.Controller.ServeAdmin: the result field of completions is always zero, as in the original; feature commands have no effect.
- NvmeIo.DiskWrite: that a write past the end of the disk fails and writes nothing is taken of the block device behind the controller, which is not part of this model; so is that a failing write leaves a beginning of its data.
- NvmeServed.ReadServed: a request whose pages overlap, or lie over its own list pages or the completion slot, is not covered; which bytes win then is said by `NvmeScatter.PagewiseScatters` alone.
- NvmeServed.WriteServed: is about requests that end on the disk; `NvmeIo.WriteMovesMemory` has the others.
- NvmeDriver.EnablesAdmin: reading registers is not modelled.
- NvmeServing.ReturnsIff: an admin command that creates the admin queue again gives its ring another size while it is served; what is due then starts afresh, and is not counted.
- NvmeCompletions.CompletionsStay: that nothing else writes into the completion ring is a condition on what the run does to memory; `NvmeCompletions.CommandKeepsOff` gives it from the addresses of a command's pages.
- HeadlessControl.Control.Perform: goroutines are values with a position and local variables, and a step that is refused changes nothing.
- HeadlessControl.Control.StartVm: operation and machine ids are fresh; request decoding and validation, image lookup, progress tracking and the text of results are left out; they can only refuse more.
- HeadlessSafety.AtMostOneLive: a driver call that adds to or deletes from the machine table is one step, its guest and network work any outcome; deadlines are outcomes a run chooses.
- TerminalEmulator.ParseCsiParams: parameters are unbounded integers, without the wrap-around of 64-bit arithmetic on more than eighteen digits.
- TerminalEmulator.Emulator.TakeSnapshot: text is a sequence of characters, so the UTF-8 bytes of lines and history are not modelled.
- TerminalRuns.RestoreShowsSnapshot: does not claim that history text survives, because wide characters do not.
- TerminalModel.PrintRune: the set of non-spacing marks is a parameter of the model.
- TerminalScrolling.Repeats: says cell by cell where the characters go as long as they are narrow and fit the row; beyond, each is a print, for which `TerminalScrolling.CharacterLands` holds.
- TerminalRuns.RawTailIsTail: the byte count does not wrap at 2^63.
- TcpStream.RunMirrors: an arrival is compared with the expected number only, which it has to be within 2^31 of; beyond, comparison has no meaning (`TcpSequence.HalfRangeIsSharp`). A segment that carries FIN is not modelled.
- TcpComplete.HandsOverAllItCan: is about peers that cut the stream in the same places each time and runs that do not meet the gap limit, beyond which segments are dropped and have to come again.
- TcpSend.SamplesMeasurePushes: when to send again is decided by timers, which are not modelled.
- FdtBuilder.Builder.EmitNode: node names and property names are byte strings.
- CvmfsIndex.ResolveIff: joining and cleaning paths are parameters; the branch for a root hash without a known path cannot be reached, since the root's path is known from the start.
- CvmfsIndexRuns.ThePath: without the condition that hashes stand for paths, the weaker `CvmfsIndexRuns.IndexIsExact` holds across catalogs, and `CvmfsOrder.OrderIff` within one.
- CvmfsRange.ReadRangeIsSlice: fetching, decompression and caching of an object are one lookup that can fail; the largest buffer that can be had is a parameter, and whole reads are taken to get theirs.
- CvmfsLock.MutualExclusion: the lock file shared with other processes only succeeds or fails here.
- CvmfsPublication.WriteAtomicFile: which system calls succeed is a parameter; the call is taken from a state in which the lock is free and runs without interference, which `CvmfsLock` is about.
- ImageNamespace.BuildNamespace: nodes are values in the table, so the identity of node objects is not modelled.
- CommandLine.EscapeArg: strings are sequences of characters; bytes that are not UTF-8 are not modelled.
- TCP options, round-trip estimation, congestion control and the rest of the network stack are not modelled.
- Registry pulls, mirrors, HTTP transport, SQLite catalogs, tar and disk image writers are not modelled.
- The desktop user interface and the hypervisor are not modelled.
