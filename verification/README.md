# Verification of the open-usb-can adapter

A model in Dafny of the adapter's stateful code, and proofs about it. The
adapter consists of a Linux driver, a firmware for an AVR with a USB device
controller and an MCP2515 CAN controller, and a DFU boot loader.

`dafny verify dfyconfig.toml` checks everything.

## How the model is built

Most C files appear twice. A *specification* gives the effect of each
function as a function on values, free of slots, indices and pointers. A
*class* holds the C file's static variables and memory; its methods follow
the C code statement by statement, and each one is proved to take the
abstract value of the memory to what the specification says. Whole runs are
sequences of events over the specification: interrupts, callbacks and steps
of the main loop, in any order the hardware allows.

| area | modules |
|---|---|
| packed structures on the wire | `Wire` |
| endpoint engine (`usb_io`, `ep_rx`, `ep_tx`, `handle_ep`) | `Endpoint` |
| standard requests of `usb.c` | `UsbRequests` |
| transmit ring and receive double buffer | `BufferSpec`, `BufferMemory`, `CanBuffer`, `RingRuns` |
| driver | `HostSpec`, `CanDriver`, `DriverCalls` |
| driver, bulk pipes and firmware together | `Pipeline`, `PipelineInvariant`, `PipelineTheorems`, `PipelineProgress`, `PipelineOverflow`, `PipelineContexts`, `PipelineStranded`, `ReportRuns`, `LoadRuns` |
| flash writer | `FlashSpec`, `FlashImage`, `FlashWriter` |
| boot loader | `DfuSpec`, `DfuInvariant`, `DfuSessions`, `DfuRequests`, `DfuLoader` |
| CAN controller | `Mcp2515Codec`, `Mcp2515Flags`, `Mcp2515Status`, `Mcp2515Driver` |
| firmware control requests | `FirmwareEp0`, `FirmwareRequests`, `BuildString`, `FirmwareControl` |

### The pipeline

`start_xmit`, the read callback and the write callback run concurrently, so
they are cut where they touch shared variables: `start_xmit` into the decision
to stop the queue, the stop, the charge to `buffer_level` and the submit; the
read callback into storing `buffer_level` and the wake test; the write callback
into uncounting the job and releasing the context. The read callback may also
drop its report, and not submit its URB again; a URB may fail on the bus. The
firmware contributes both endpoint interrupts and each critical section of its
main loop. A stopped queue is called orphaned if one of the three things listed
under "What was found" has happened to it and no wake test has undone that.

The credit scheme is safe only if reports are fresh enough. `Hypothesis(bound,
atWake)` says: when a report is processed, at most `bound` frames have been
charged that were not in the ring when the report was written. The bound that
the ring tolerates depends on where this is asked. Asked up to the wake test,
nine frames are safe and ten are not. Asked only where `buffer_level` is
stored, eight are safe and nine are not: `start_xmit` may stop the queue on
another processor between the store and the wake test, and the wake test then
restarts the queue on an outdated report. Both bounds are proved exact, with
overflowing runs beyond them.

### The flash chip

The chip is abstract: a page buffer that accepts one write per word until a
page write or a read-while-write enable clears it, an erase to ones, and a
page write that can only clear bits; the read-while-write section reads as ones
from the first erase until it is enabled again. The page size is any even divisor of
`BOOT_ADDR` (0x7000), which includes every power of two from 2 that divides it.

## What was found

- The comment "This may never happen." (kernel-module/open-usb-can.c:485) is
  wrong: a report can overtake the write callbacks of the frames it reports
  and wake the queue with all contexts taken. When it happens is exactly when
  open, half released and leaked jobs make eight.
- Three things can leave the queue stopped with nothing under way: a submit
  that fails after its frame has stopped the queue, a report that the read
  callback drops (no socket buffer, an error status), and frames lost on the
  bus. As long as EP1 has not stalled, nothing else can. A frame received from
  the CAN then brings the queue back; if no read URB is left, nothing does.
- A `buffer_reset` served between the computation of `offset` and its use in
  `buffer_rx_process`, with rx_slot 1, makes the next frame lost and a frame
  of zeros appear later.
- A block refused for its size or address does not end in dfuERROR, because
  `my_setup` overwrites the state.
- The block counter advances before the data stage. If that stage is
  abandoned, repeating the block is taken for a retransmission and the block
  is lost. The data of the repetition stalls, but state and status show no
  error, and a genuine retransmission stalls in the same way.
- An error that the CAN controller raises between the read of EFLG and the clear
  of CANINTF, in a pass that had seen an earlier one, stays in EFLG with its
  flag down; nobody hears of it until the next error.
- A DFU_UPLOAD of more than 64 bytes is neither refused nor answered. After the
  short block at the end of flash the state is dfuUPLOAD_IDLE, not dfuIDLE.
- After an aborted download an upload reads ones below the boot loader, whatever
  flash holds, because only a completed download enables the section.
- Aborting a download leaves words in the page buffer, and spoils the next
  download, if and only if its last page holds at least one whole word.
- SET_INTERFACE compares the third and fourth bytes of every descriptor in the
  chain, so two endpoint descriptors pass for interfaces.
- An interrupted ATUSB_CAN_PUT_CONFIG leaves a mixture of old and new settings.
- A controller started twice without a stop keeps its one-shot bit.
- `mcp2515_start` notes the transmit buffer as empty but leaves TXREQ alone. If
  a frame is not done with by then (no stop before the start, a frame loaded
  between them, or one that was on the air at the stop) it can be overwritten;
  so it can in one-shot mode, which a new configuration may select in
  mid-session, and if a stale transmit flag is met right before a load. Under
  no other condition.

## Model

| member | source | states |
|---|---|---|
| Wire.FrameRoundTrip | kernel-module/open-usb-can.c:470-475 | the packet start_xmit builds decodes to the identifier, DLC and data of the socket buffer, whatever the allocator left behind the data |
| Wire.LittleEndian | kernel-module/open-usb-can.c:201 | identifiers cross the pipe with the least significant byte first, in both directions |
| Wire.FrameLayout | firmware/can.h:42-46 | identifier in bytes 0 to 3, DLC in byte 4, data from byte 5 on |
| Wire.ReportRoundTrip | kernel-module/open-usb-can.c:184-206 | a report written by the firmware fits one EP2 packet and is parsed by the read callback into the same free_slots and frames |
| Wire.ReportLayout | firmware/buffer.h:1-13 | frame count in byte 0, two zero bytes, free slots in byte 3, frame k at 4 + 13k |
| Endpoint.Packetisation | firmware/usb/atu2.c:116-128 | section 5.5.3 of USB 2.0: L bytes without EPF_TRUNCATE leave as L/size full packets and one of L mod size bytes, in order, and the callback runs once |
| Endpoint.TruncatedTransfer | firmware/usb/atu2.c:119-127 | with EPF_TRUNCATE a transfer is exactly one packet; nothing is lost if it fits |
| Endpoint.Reassembly | firmware/usb/atu2.c:96-113 | any packets that sum to the length asked for fill the buffer with their concatenation and run the callback once; nothing stalls |
| Endpoint.OversizedPacket | firmware/usb/atu2.c:145-175 | a packet that does not fit ends the transfer without its callback and disarms the endpoint: every later packet stalls, even one that would have fitted |
| Endpoint.BusyIsBug | firmware/usb/usb.c:47 | a transfer started on a busy endpoint, and nothing else, latches the bug; the transfer in progress is not touched |
| Endpoint.DrainThenReassemble | firmware/usb/atu2.c:131-175 | what one endpoint sends another one receives unchanged, at every length; it stalls afterwards if and only if the transfer ended with an empty packet after full ones |
| Endpoint.EndpointDescr.Io | firmware/usb/usb.c:44-54 | usb_io starts the transfer it is asked for, its length taken as a uint8_t; its BUG_ON is the precondition, which every caller in this project is proved to meet |
| Endpoint.EndpointDescr.Out | firmware/usb/atu2.c:96-113 | the OUT interrupt over memory: only the bytes of the packet are written, an oversized packet or an unarmed endpoint writes nothing and stalls |
| Endpoint.EndpointDescr.In | firmware/usb/atu2.c:116-128 | the IN interrupt over memory: the next packet, and whether the callback is due |
| UsbRequests.WalkFindsFirst | firmware/usb/usb.c:135-155 | SET_INTERFACE selects the first descriptor of the chain whose third and fourth bytes match, counted from zero, or is refused if there is none |
| UsbRequests.SetInterface | firmware/usb/usb.c:135-155 | the pointer walk computes that selection and stays inside the descriptor |
| UsbRequests.FirmwareInterfaces | firmware/descr.c:50-93 | the four requests the firmware's own descriptors accept; only one selects the vendor handler |
| UsbRequests.DescriptorAnswer | firmware/usb/usb.c:57-83 | GET_DESCRIPTOR for wValue 0x100 * type + index is answered by the first wLength bytes of that descriptor, refused if and only if there is none; a configuration has index 0 only |
| UsbRequests.ApplicationIff | firmware/usb/usb.c:86-178 | which requests of chapter 9 of USB 2.0 are always refused; the application gets exactly those that are neither refused nor served |
| UsbRequests.DescriptorReachesHost | firmware/usb/usb.c:57-83 | the host receives the first wLength bytes of the descriptor, in packets of the endpoint size |
| BufferMemory.QueueTail | firmware/buffer.c:66-71 | popping in memory is taking the head off the queue, across the wrap of the ring |
| BufferMemory.QueueFrame | firmware/buffer.c:51-57 | a receive into slot w cannot touch a frame that is still queued |
| BufferMemory.ReportInMemory | firmware/buffer.c:112-120 | the memory handed to EP2 is the report of the frames taken and the free slots |
| CanBuffer.CanBuffer.TxPrepare | firmware/buffer.c:51-58 | EP1 is armed exactly if the ring is not full and EP1 is idle, always on slot w outside the live window |
| CanBuffer.CanBuffer.TxDone | firmware/buffer.c:40-49 | the slot just filled becomes the last frame of the queue, a report is due, and EP1 is armed again if there is room |
| CanBuffer.CanBuffer.Ep1Interrupt | firmware/usb/atu2.c:96-151 | a packet on EP1 with its callback: a whole frame is appended to the queue, an unarmed endpoint stalls; older frames are intact |
| CanBuffer.CanBuffer.TxSend | firmware/buffer.c:66-77 | the oldest frame goes to mcp2515_tx exactly if there is one and the transmit buffer is empty; a report becomes due |
| CanBuffer.CanBuffer.RxTake | firmware/buffer.c:89-109 | a received frame is appended to the report being filled if it has room, and the buffer owned by EP2 is not disturbed, if and only if no buffer_reset has moved rx_slot since offset was computed; otherwise the frame is lost and a frame of zeros takes its place later |
| CanBuffer.CanBuffer.RxReport | firmware/buffer.c:111-128 | a due report goes to EP2 with all frames taken and the current free slots, and filling goes on in a zeroed buffer |
| CanBuffer.CanBuffer.RxDone | firmware/buffer.c:80-87 | the buffer EP2 has sent is all zero again, the one being filled is unchanged |
| CanBuffer.CanBuffer.Ep2Interrupt | firmware/usb/atu2.c:116-168 | EP2 sends one packet and releases its buffer through the callback |
| CanBuffer.CanBuffer.Reset | firmware/buffer.c:131-140 | empties queue and report; an armed EP1 receive stays valid because r moves to w |
| BufferSpec.AfterReset | firmware/buffer.c:131-140 | nothing is sent or reported after a reset until a frame arrives; the first report holds that frame alone and 32 free slots; transfers in progress go on |
| RingRuns.RingIsFifo | firmware/buffer.c:40-78 | in every life of the ring with any number of resets: between resets a bounded FIFO; over resets the frames loaded are frames that arrived, in order and none twice; an armed receive targets slot w, where no waiting frame lies |
| HostSpec.FirstFreeIsFirst | kernel-module/open-usb-can.c:477-482 | the search finds the lowest free context, or none if all are taken |
| HostSpec.StartXmitEffect | kernel-module/open-usb-can.c:477-533 | start_xmit in numbers: first free context or nothing at all; credit down by one; queue stopped if it was, if eight jobs are active or credit was below eleven; a failed submit keeps context and charge and takes back the job |
| HostSpec.ReadCallbackEffect | kernel-module/open-usb-can.c:184-218 | the read callback in the bytes of the packet: if it is long enough and all socket buffers are there, byte 3 is the credit and the queue starts if that is more than eleven; otherwise nothing changes; frame i is bytes 4 + 13i to 17 + 13i |
| DriverCalls.StartXmitIsRun | kernel-module/open-usb-can.c:438-556 | from every state of the pipeline a call of start_xmit is the run of its four events, or of one if no context is free: driver and wire end alike |
| DriverCalls.ReadCallbackIsRun | kernel-module/open-usb-can.c:143-232 | so is a read callback with the oldest report: stored and tested, or dropped; the frames it passes on join those kept |
| DriverCalls.WriteCallbackIsRun | kernel-module/open-usb-can.c:237-273 | so is a write callback: one job less, its context released if the device is present |
| CanDriver.OpenUsbCan.StartXmit | kernel-module/open-usb-can.c:438-556 | start_xmit over the driver's fields: without memory or a context the frame is dropped and nothing changes; otherwise context, job count, queue stop, charge and submit amount to the four steps of the pipeline, with or without a submit failure |
| CanDriver.OpenUsbCan.ReadBulkCallback | kernel-module/open-usb-can.c:143-232 | all ways through the callback: device gone, URB error with or without resubmission, malformed packet, no socket buffer for some frame, success. The frames before the failure are passed on decoded and in order; credit and queue are touched only if all of them were |
| CanDriver.OpenUsbCan.WriteBulkCallback | kernel-module/open-usb-can.c:237-273 | the job is uncounted and its context released unless the device has gone |
| CanDriver.OpenUsbCan.UnlinkAllUrbs | kernel-module/open-usb-can.c:395-406 | every context is free afterwards, leaked ones included |
| PipelineInvariant.BaseStep | firmware/buffer.c:40-129 | every step of driver, bus and firmware keeps order and conservation of frames both ways, and the chain of report snapshots |
| PipelineInvariant.SafeStep | kernel-module/open-usb-can.c:510-515 | every step keeps the credit inequalities and: EP1 is idle only if nothing is or can be under way to it |
| PipelineTheorems.CreditSafety | kernel-module/open-usb-can.c:510-515 | in every run with fresh reports ring, FIFO, wire and charged frames fit into 32 slots, a packet always finds EP1 armed, and EP1 never stalls |
| PipelineOverflow.StaleByTen | kernel-module/open-usb-can.c:214-218 | a run with reports stale by ten frames that stalls EP1 |
| PipelineOverflow.LateWake | kernel-module/open-usb-can.c:214-218 | a run with reports stale by nine frames when stored that stalls EP1 through a late wake test |
| PipelineOverflow.CreditSafetyIsExact | kernel-module/open-usb-can.c:214-218 | all runs are safe if and only if the staleness is at most 9 (asked up to the wake test) or 8 (asked at the store only) |
| PipelineTheorems.TransmitOrder | firmware/buffer.c:40-78 | in every run frames submitted are those that have left the wire, then those on it; as long as EP1 has not stalled, those that have left it and were not lost on the bus are the frames loaded, then queued, then in the FIFO, in order |
| PipelineTheorems.TransmitMeaning | kernel-module/open-usb-can.c:470-475 | and decoded the packets that have left the wire are a prefix of the socket buffers submitted |
| PipelineTheorems.ReceiveOrder | firmware/buffer.c:80-129 | in every run frames read from the controller are those the read callback has dealt with, then in transit, then held by EP2, then being filled: none lost, repeated or swapped on the way |
| PipelineTheorems.PassedOn | kernel-module/open-usb-can.c:191-212 | of the frames dealt with the network stack is given all of a report, or those before the one the callback stopped at |
| PipelineTheorems.NothingLost | kernel-module/open-usb-can.c:159-200 | without a failing URB no frame is lost on the bus, without a dropped report none in the read callback |
| PipelineTheorems.BulkEndpointsNeverBug | firmware/usb/usb.c:47 | usb_io never meets a busy EP1 or EP2 in any run |
| PipelineTheorems.LastReportIsCurrent | firmware/buffer.c:112-125 | when no report is due, staged or under way, the last report dealt with, processed or dropped, told the free space the ring has |
| ReportRuns.RoomIsMemory | firmware/buffer.c:89-109 | a frame is left in the controller exactly if the memory of the report has no room for another |
| ReportRuns.GatherRun | firmware/buffer.c:89-129 | whatever happens while EP2 is busy, the frames offered are read and gathered in order until the report holds four, not one less |
| ReportRuns.FourFramesOneReport | firmware/buffer.c:89-129 | in every life of the adapter any four frames read while EP2 is busy, from an empty report, are all in the next report |
| LoadRuns.LoadsTogether | firmware/buffer.c:66-77 | a frame leaves the ring exactly when the handshake with the controller loads one, and in a safe state only into a transmit buffer that is done with its last frame |
| LoadRuns.LoadedWhenEmpty | firmware/buffer.c:66-77 | in every run no more frames are loaded than times the transmit buffer was found empty |
| PipelineTheorems.QueueStopsIff | kernel-module/open-usb-can.c:510-533 | in every run that has not stalled EP1: with nothing under way, the queue is stopped if and only if, with no wake test undoing it since, the submit of the frame that stopped it failed, or while it was stopped a report that would have started it was dropped or a frame was lost on the bus |
| PipelineTheorems.FreshRunsKeepTheQueueAlive | kernel-module/open-usb-can.c:510-533 | the same for all fresh runs, where the stall need not be excluded |
| PipelineStranded.FailedSubmitLosesWakeup | kernel-module/open-usb-can.c:510-533 | the first of these is real: from probe's initial state, under every hypothesis on the reports, a run in which seven write callbacks are late and the eighth submit fails |
| PipelineStranded.DroppedReportsLoseWakeup | kernel-module/open-usb-can.c:168-199 | so is the second: eight frames stop the queue and are transmitted, the reports on them are dropped, no submit fails |
| PipelineStranded.LostFramesLoseWakeup | kernel-module/open-usb-can.c:257-259 | and the third: eight URBs that all fail on the bus |
| PipelineStranded.QueueIsDeadIff | kernel-module/open-usb-can.c:159-230 | after any fresh run a stopped queue stays stopped whatever happens next if and only if no read URB is left and no wake test is due that would start it; otherwise a frame from the CAN is enough |
| PipelineProgress.WorkIsBounded | firmware/buffer.c:40-129 | in every run without new work, whatever its order, at most Work(s) steps move a frame or a report; if nothing gets lost on the way, all packets stay alive and emptying the pipeline restarts the queue |
| PipelineProgress.Advance | firmware/buffer.c:60-129 | as long as the pipeline is not empty a step that moves something is at most four idle steps of the main loop away |
| PipelineProgress.Drain | firmware/buffer.c:60-129 | once start_xmit is done, interrupts and main loop alone empty the pipeline: a schedule that ends, found from the state alone |
| PipelineProgress.QueueComesBack | kernel-module/open-usb-can.c:214-218 | from every state of a fresh run with a read URB left there is a way on, without new work and without loss, that sends all packets alive and deals with all frames received; it ends with the queue running, unless the run had already left an empty pipeline with an orphaned queue |
| PipelineContexts.ContextPool | kernel-module/open-usb-can.c:237-273 | in every run: an echo_index names its own slot or none, each taken context has exactly one owner, and active_tx_jobs plus contexts being released plus leaked ones are the busy contexts |
| PipelineContexts.ContextsRunOut | kernel-module/open-usb-can.c:477-491 | the branch without a free context is taken, in every run, exactly if open jobs, contexts being released and leaked ones make eight |
| PipelineContexts.NothingIsHeldUp | kernel-module/open-usb-can.c:237-273 | the guards of the transition system exclude nothing: in every run a started callback can finish and the main loop can go on |
| PipelineContexts.NoFreeContextIsReachable | kernel-module/open-usb-can.c:484-491 | a run without failures and with fresh reports in which the queue runs and no context is free |
| FlashImage.FlashContents | bootloader/flash.c:38-70 | every byte of flash after any stream: stale words, stream, erased rest of the last page, untouched pages |
| FlashImage.CleanImage | bootloader/flash.c:38-70 | with an empty page buffer flash begins with the stream, but for a final odd byte |
| FlashImage.StaleWordsSpoil | bootloader/flash.c:26-29 | flash_start keeps the page buffer, so the image is right for every stream of a length if and only if no word left there lies in the part of the first page it covers |
| FlashImage.CanWriteIsExact | bootloader/flash.c:32-35 | flash_can_write asks the right question: writing that many bytes leaves the boot region alone if and only if it says yes |
| FlashWriter.FlashWriter.FlashWrite | bootloader/flash.c:38-60 | the loop writes the bytes one after the other, each with its erase, fill and page write |
| FlashWriter.FlashWriter.FlashEndWrite | bootloader/flash.c:63-70 | an unfinished page is written and flash can be read again |
| FlashWriter.FlashWriter.FlashRead | bootloader/flash.c:73-84 | the next bytes of flash, at most as many as asked for and never beyond the end; the loop stops |
| DfuInvariant.StepKeeps | bootloader/usb/dfu.c:88-214 | every event keeps: a pending data stage belongs to a download, fits EP0's buffer and ends at or below BOOT_ADDR, although the check was made at its SETUP |
| DfuInvariant.BootRegionPreserved | bootloader/usb/dfu.c:96-113 | in every interleaving of SETUP, OUT, STALLED, IN and bus reset no page operation addresses BOOT_ADDR or above, the boot region keeps its contents and usb_io never meets a busy EP0 |
| DfuInvariant.StatesInUse | bootloader/usb/dfu.c:135-214 | only dfuIDLE, dfuDNLOAD_IDLE, dfuUPLOAD_IDLE and dfuERROR occur; dfuERROR has a status; downloads stay at or below BOOT_ADDR |
| DfuInvariant.ErrorIsEnteredByWrongBlock | bootloader/usb/dfu.c:162-168 | dfuERROR is entered exactly by a block number out of sequence, with no effect on flash |
| DfuInvariant.ErrorIsLeftByClearing | bootloader/usb/dfu_common.c:70-91 | dfuERROR is left exactly by ABORT and CLRSTATUS, to dfuIDLE and OK |
| DfuInvariant.RefusedBlockIsNotAnError | bootloader/usb/dfu.c:176-179 | a block too long or beyond BOOT_ADDR, first or later, is refused but leaves dfuDNLOAD_IDLE and an advanced block counter like an accepted one; only status and EP0 tell them apart |
| DfuInvariant.RestartsAfterDownload | bootloader/usb/dfu.c:217-230 | after any run a bus reset restarts the boot loader if and only if some request of the run completed a download |
| DfuInvariant.HandleEpIsRun | bootloader/usb/atu2.c:134-180 | a call of handle_ep with several causes pending is a run of all of them, or of those up to and including the first that stalls |
| DfuSessions.DownloadImage | bootloader/usb/dfu.c:148-179 | section 6.1.1 of USB DFU 1.1: any split into blocks of 1 to 64 bytes and packets, any first block number, with repetitions, abandoned blocks and questions in between, leaves the completed blocks in flash, erases the rest of their last page and touches no other |
| DfuSessions.RetransmissionStutters | bootloader/usb/dfu.c:158-161 | leaving the repetitions out gives the same flash, page buffer, position, block counter and state |
| DfuSessions.AbandonedBlocksAreLost | bootloader/usb/dfu.c:158-178 | every session ends in dfuIDLE with its status untouched, and where the host means it to if and only if no data stage was abandoned after the SETUP; repeating the block does not help |
| DfuSessions.RepetitionStalls | bootloader/usb/dfu.c:158-161 | the host can tell by the stall only: a repeated block number is accepted, but a data stage behind it stalls, whether the block had been complete or not |
| DfuSessions.AbandonedBlocksLeaveNoTrace | bootloader/usb/dfu.c:158-178 | flash, page buffer and position are as if the abandoned blocks had never been begun |
| DfuSessions.AbortSpoilsNextDownload | bootloader/usb/dfu.c:206-210 | after any session an abort spoils the next download, of any length from two bytes, if and only if the last page holds at least one whole word |
| DfuSessions.AbortHidesFlash | bootloader/flash.c:38-70 | after any aborted download that received data an upload of any length returns ones below BOOT_ADDR, whatever flash holds |
| DfuSessions.UploadContents | bootloader/usb/dfu.c:180-205 | consecutive upload requests of any lengths return flash from its beginning, up to its end |
| DfuSessions.RoundTrip | bootloader/usb/dfu.c:116-132 | section 6.2.1 of USB DFU 1.1: uploading after a download of even length returns the image |
| DfuRequests.GetDescriptorRequest | bootloader/usb/usb.c:57-111 | enumeration through EP0: the packets the host gets concatenate to the first wLength bytes of the descriptor asked for; a stall without effect if and only if there is none |
| DfuRequests.DeviceRequests | bootloader/usb/usb.c:96-121 | SET_ADDRESS: an empty packet, then the callback; GET_STATUS: two zero bytes, refused for any other wLength; GET_CONFIGURATION: a zero byte; SET_CONFIGURATION: the sixth byte of the configuration descriptor and no other value; CLEAR_FEATURE is acknowledged |
| DfuRequests.InterfaceRequest | bootloader/usb/usb.c:135-155 | SET_INTERFACE is acknowledged if some descriptor matches, refused otherwise, and changes nothing |
| DfuRequests.OtherRequests | bootloader/usb/usb.c:172-175 | no other request than those and the seven of DFU is answered; a stall has no effect |
| DfuRequests.StatusRequests | bootloader/usb/dfu_common.c:62-85 | section 6.1.2 of USB DFU 1.1: which byte of the reply to DFU_GETSTATUS is status, poll timeout (100 ms) and state, with the numbers of that section; DFU_GETSTATE sends the state |
| DfuRequests.ClearingRequests | bootloader/usb/dfu_common.c:77-81 | DFU_CLRSTATUS and DFU_ABORT lead from any state to dfuIDLE and OK with everything else kept; DFU_DETACH is acknowledged and ignored |
| DfuRequests.OutOfState | bootloader/usb/dfu.c:148-185 | transfers are refused without effect outside their states |
| DfuRequests.UploadTooLong | bootloader/usb/dfu.c:116-132 | an upload request of more than 64 bytes is accepted and never answered; state and block counter go on, only the status tells |
| DfuRequests.ShortBlockStaysInUpload | bootloader/usb/dfu.c:116-205 | the return to dfuIDLE at the end of flash is overwritten |
| DfuRequests.DataStageEnds | bootloader/usb/atu2.c:99-116 | the packet that completes a data stage is acknowledged by an empty one; one that does not fit or is not expected stalls and leaves EP0 idle |
| DfuRequests.InsDrain | bootloader/usb/atu2.c:119-172 | a reply is out after as many IN interrupts as it has packets; EP0 is idle then and nothing else has changed |
| DfuRequests.TransferEnds | bootloader/usb/atu2.c:134-163 | a stall, a bus reset and a new SETUP each end the transfer in progress |
| DfuLoader.DfuLoader.BlockReceive | bootloader/usb/dfu.c:96-113 | address check, then size check, then EP0 is armed into the static buffer |
| DfuLoader.DfuLoader.BlockTransmit | bootloader/usb/dfu.c:116-132 | reads flash into the static buffer and sends what it got |
| DfuLoader.DfuLoader.Download | bootloader/usb/dfu.c:148-179 | DFU_DNLOAD over the static variables |
| DfuLoader.DfuLoader.Upload | bootloader/usb/dfu.c:180-205 | DFU_UPLOAD over the static variables |
| DfuLoader.DfuLoader.MySetup | bootloader/usb/dfu.c:135-214 | the request switch, falling through to the common part |
| DfuLoader.DfuLoader.HandleSetup | bootloader/usb/usb.c:86-178 | standard requests are answered, all others reach my_setup; which request gets which answer is `DfuRequests` |
| DfuLoader.DfuLoader.SetupInterrupt | bootloader/usb/atu2.c:79-96 | a SETUP cancels the transfer in progress before it is served; a refused one stalls, one without data stage is acknowledged |
| DfuLoader.DfuLoader.OutInterrupt | bootloader/usb/atu2.c:99-116 | the last packet of a data stage runs block_write on the received bytes, then EP0 sends the status stage |
| DfuLoader.DfuLoader.HandleEp | bootloader/usb/atu2.c:134-180 | all causes pending are served in order until one stalls |
| Mcp2515Codec.IdRoundTrip | firmware/mcp2515.c:96-167 | for every identifier word, what mcp2515_rx reads from the registers the controller shows for mcp2515_tx's registers is the word without the bits the frame format does not carry |
| Mcp2515Codec.RegisterLayout | firmware/mcp2515.c:96-119 | which bits of the identifier, flags and length stand in which register |
| Mcp2515Codec.DlcRoundTrip | firmware/mcp2515.c:117 | the data length survives both register layouts |
| Mcp2515Codec.NormalIds | firmware/can.h:16-34 | a word comes back unchanged if and only if it is an 11-bit or 29-bit identifier without the error flag |
| Mcp2515Codec.FrameThroughTheBus | firmware/mcp2515.c:96-167 | the frame received is the frame sent: identifier, flags, length and, unless remote, data |
| Mcp2515Codec.EndToEnd | firmware/mcp2515.c:96-167 | a data frame crosses driver, firmware, CAN bus, firmware and driver unchanged |
| Mcp2515Codec.Tx | firmware/mcp2515.c:96-130 | the SPI bytes of mcp2515_tx |
| Mcp2515Codec.Rx | firmware/mcp2515.c:132-167 | mcp2515_rx decodes the SPI bytes it reads |
| Mcp2515Flags.AtMostOneOutstanding | firmware/mcp2515.c:70-85 | in a session at most one frame is outstanding and every completion is noticed or still flagged, wherever between SPI transfers it is raised, if and only if the session is not one-shot and starts with neither a frame that is not done with nor a flag up |
| Mcp2515Flags.ClobberIff | firmware/mcp2515.c:197-203 | from every state in which requests are served: a frame can be overwritten exactly in one-shot mode, if the buffer is or will be taken for empty while a frame is not done with, if two are not, or if a stale flag is met right before a load |
| Mcp2515Flags.CarefulIff | firmware/ep0.c:145-167 | a start, stop or reconfiguration in a safe state keeps it safe if and only if a start finds every frame done with (and no stale flag right before a load) and one-shot mode is not selected |
| Mcp2515Flags.CarefulLife | firmware/ep0.c:145-167 | any number of sessions, started, stopped and reconfigured with that care, never overwrites a frame |
| Mcp2515Flags.StartNeedsStop | firmware/mcp2515.c:215-269 | mcp2515_start alone exposes a pending frame, since it leaves TXREQ set and notes the buffer as empty; after mcp2515_stop it does so only if the frame was on the air and is still being finished |
| Mcp2515Flags.ReceiveFlagsKept | firmware/mcp2515.c:70-85 | mcp2515_update_status never clears a receive flag |
| Mcp2515Status.FlagsUpIff | firmware/mcp2515.c:70-85 | in every run, at every point, with events between any two transfers: the error flag of CANINTF is up if and only if an error has been raised since the clear of a pass that had seen it; the receive flag if and only if a frame has come since one was last read |
| Mcp2515Status.ErrorFlaggedIff | firmware/mcp2515.c:70-85 | after every pass the flag is up if and only if an error was raised since CANINTF was read, except, exactly, when the last error fell between read and clear of a pass that had seen the flag |
| Mcp2515Status.UnluckyError | firmware/mcp2515.c:72-84 | the exception is real: an error that stays in EFLG, with its flag down, until another one is raised |
| Mcp2515Status.ErrorsReportedOnce | firmware/mcp2515.c:70-85 | in every run no more passes report errors than errors were raised |
| Mcp2515Status.EflgAccounted | firmware/mcp2515.c:76-79 | in every run a bit of EFLG was up or raised if and only if it has been read into error or is still up; after a pass that reports errors only bits are up that were raised since EFLG was read, and the others raised since are in error |
| Mcp2515Status.UpdateEffect | firmware/mcp2515.c:70-85 | a pass with nothing in between: 0x3c of CANINTF down, the rest kept; if the error flag was up, error is EFLG and EFLG is zero, otherwise both are kept |
| Mcp2515Status.FetchEffect | firmware/mcp2515.c:132-167 | reading a frame takes down bit 0 of CANINTF and nothing else, if there was room and the status had a receive flag |
| Mcp2515Driver.TimingRoundTrip | firmware/mcp2515.c:215-255 | the controller reads the configured bit timing out of CNF1 to CNF3 |
| Mcp2515Driver.CtrlAfterStart | firmware/mcp2515.c:215-269 | the controller's reading of CANCTRL: a start asks for loopback, listen-only or normal mode as configured, a stop for configuration mode; a start after a stop has the configured one-shot bit, one after a start keeps an old one; the other bits are kept |
| Mcp2515Driver.Mcp2515.UpdateStatus | firmware/mcp2515.c:70-85 | the function is the sequence of transfers the handshake consists of; what these make of CANINTF and EFLG is `Mcp2515Status` |
| Mcp2515Driver.Mcp2515.SendFrame | firmware/mcp2515.c:96-130 | the function is the load step of the handshake |
| Mcp2515Driver.Mcp2515.TryLoad | firmware/buffer.c:66-68 | with mcp2515_txbuf_empty in front of it: the whole load step, taken or not |
| Mcp2515Driver.Mcp2515.StartController | firmware/mcp2515.c:215-255 | for every configuration: timing and mode registers in 8-bit arithmetic, and the start event of the handshake, which does not touch TXREQ |
| Mcp2515Driver.Mcp2515.StopController | firmware/mcp2515.c:257-269 | configuration mode, and the stop event of the handshake, which withdraws a pending frame that is not on the air |
| Mcp2515Driver.Mcp2515.Restart | firmware/mcp2515.c:215-269 | stop and start ask for exactly the configured mode; no frame will be overwritten if and only if that is not one-shot, none is still on the air, and no stale flag is met right before a load |
| FirmwareEp0.SaneIff | firmware/ep0.c:108-143 | the requests whose data leaves buf are the SPI reads of more than 64 bytes and the SPI writes for which the 8-bit size wraps around |
| FirmwareEp0.RespondAnswers | firmware/ep0.c:50-198 | serving any other request starts at most one transfer on the idle EP0, into can_cfg or behind the request's bytes in buf, and changes neither can_cfg nor the descriptors |
| FirmwareEp0.Ep0NeverBug | firmware/ep0.c:50-186 | usb_io never meets a busy EP0 and a data stage never outgrows its memory, for all requests but those, in any order |
| FirmwareEp0.SpiWriteThrough | firmware/ep0.c:108-131 | ATUSB_SPI_WRITE1 and ATUSB_SPI_WRITE2 reach the SPI bus as one transfer of the request's bytes and the data, in however many packets these come |
| FirmwareEp0.ConfigRoundTrip | firmware/ep0.c:145-157 | ATUSB_CAN_GET_CONFIG answers what ATUSB_CAN_PUT_CONFIG sent, in however many packets |
| FirmwareEp0.PartialConfig | firmware/ep0.c:145-151 | an ATUSB_CAN_PUT_CONFIG cut short, after any packets and by any event, an oversized packet included, leaves the new bytes in front of old ones |
| FirmwareEp0.BuffersTouched | firmware/ep0.c:159-167 | no control traffic touches the CAN buffers except a start or stop, which empties them and keeps EP1 armed, and a bus reset |
| FirmwareRequests.GetDescriptorRequest | firmware/usb/usb.c:57-111 | enumeration through EP0: the packets the host gets concatenate to the first wLength bytes of the descriptor asked for; a stall without effect if and only if there is none; strings or the DFU table as the handler selected has it |
| FirmwareRequests.DeviceRequests | firmware/usb/usb.c:96-107 | SET_ADDRESS: an empty packet, then the callback; GET_STATUS: two zero bytes, refused for any other wLength; CLEAR_FEATURE is acknowledged |
| FirmwareRequests.ConfigurationRequests | firmware/usb/usb.c:115-121 | GET_CONFIGURATION sends a zero byte; SET_CONFIGURATION accepts the sixth byte of the configuration descriptor and no other value |
| FirmwareRequests.InterfaceRequest | firmware/ep0.c:188-198 | SET_INTERFACE through EP0: (0, 0) selects the vendor requests, the three other matches the DFU requests in appIDLE, anything else is refused |
| FirmwareRequests.OtherRequests | firmware/ep0.c:169-186 | each handler answers its own requests only; any other stalls without effect |
| FirmwareRequests.RunRequests | firmware/ep0.c:159-167 | ATUSB_CAN_START and ATUSB_CAN_STOP set and clear running, empty the buffers and are acknowledged |
| FirmwareRequests.ConfigRequests | firmware/ep0.c:145-157 | ATUSB_CAN_PUT_CONFIG waits for, ATUSB_CAN_GET_CONFIG sends exactly six bytes; any other wLength is refused |
| FirmwareRequests.IdentityRequests | firmware/ep0.c:58-80 | ATUSB_ID sends up to two bytes of version 0.1; ATUSB_BUILD sends the whole build string or refuses |
| FirmwareRequests.RegisterRequests | firmware/ep0.c:97-106 | register from wIndex, value from wValue; one access on the bus, the value read is the reply |
| FirmwareRequests.SpiReadRequests | firmware/ep0.c:133-143 | the bytes of the request, then ones while as many bytes as asked for are read and sent |
| FirmwareRequests.SpiWriteRequests | firmware/ep0.c:108-131 | sent at once without data, otherwise the data is waited for; refused if the 8-bit count is beyond 64 |
| FirmwareRequests.PortRequests | firmware/ep0.c:82-95 | ATUSB_GPIO needs three bytes and port 1 to 3; ATUSB_RESET does not come back |
| FirmwareRequests.DetachRequest | firmware/ep0.c:176-206 | DFU_DETACH is acknowledged, and the next bus reset restarts the device |
| FirmwareRequests.StatusRequests | firmware/usb/dfu_common.c:61-84 | DFU_GETSTATUS, DFU_GETSTATE and DFU_CLRSTATUS of the running firmware, byte by byte |
| FirmwareRequests.DataStageEnds | firmware/usb/atu2.c:96-113 | the packet that completes a data stage is acknowledged by an empty one; one that does not fit or is not expected stalls and leaves EP0 idle |
| FirmwareRequests.InsDrain | firmware/usb/atu2.c:116-168 | a reply is out after as many IN interrupts as it has packets; EP0 is idle then and nothing else has changed |
| FirmwareRequests.TransferEnds | firmware/usb/atu2.c:131-160 | a stall, a bus reset and a new SETUP each end the transfer in progress |
| FirmwareControl.FirmwareControl.AppSetupRequest | firmware/ep0.c:50-174 | the vendor requests over the firmware's memory; at most one transfer is started |
| FirmwareControl.FirmwareControl.SpiWriteRequest | firmware/ep0.c:108-131 | the bytes of the request go to the front of buf, the data is received behind them or, if there is none, they are sent at once |
| FirmwareControl.FirmwareControl.DoBufWrite | firmware/ep0.c:38-46 | the loop sends exactly the bytes of buf up to size |
| FirmwareControl.FirmwareControl.DfuSetupRequest | firmware/ep0.c:176-186 | the DFU requests of the running firmware |
| FirmwareControl.FirmwareControl.HandleSetupRequest | firmware/usb/usb.c:86-178 | dispatch to the handler that SET_INTERFACE has selected; which request gets which answer is `FirmwareRequests` |
| FirmwareControl.FirmwareControl.SetupInterrupt | firmware/usb/atu2.c:76-93 | a SETUP cancels, is served, and ends in a stall, a data stage or a status stage |
| FirmwareControl.FirmwareControl.OutInterrupt | firmware/usb/atu2.c:96-113 | data goes straight into can_cfg or behind the head in buf; on the last packet of an SPI request both reach the SPI bus |
| FirmwareControl.FirmwareControl.BusResetInterrupt | firmware/usb/atu2.c:178-239 | a bus reset restarts a device to be detached, otherwise makes all three endpoints idle |
| BuildString.PrintDigits | firmware/ep0.c:65-74 | the backwards loop writes exactly the decimal digits and stays in front of them by one place for '#' |
| BuildString.Format | firmware/ep0.c:65-80 | the bytes sent are '#', the digits, a blank and the date, all inside the buffer |
| BuildString.ReplyInvertible | firmware/ep0.c:65-79 | the build number and the date can be read back out of the reply, for every 16-bit number |
| BuildString.ReplyInjective | firmware/ep0.c:65-79 | different build numbers give different replies |

## Left out

- What register and SPI passthrough do to the CAN controller: they can put it into any state, so the handshake theorems suppose they are not used; the requests themselves, their transfers and what reaches the SPI bus are modelled.
- FirmwareEp0.Ep0NeverBug: SPI requests whose data leaves the 64-byte buffer are excluded by `Sane`; which ones these are is `FirmwareEp0.SaneIff`, what they overwrite is not modelled.
- FirmwareRequests.SpiReadRequests: at most 64 bytes, for the same reason.
- SPI shifting, clocks, watchdog, delays, LEDs, board and serial-number setup: hardware plumbing; the values of port pins, registers and the SPI line are parameters.
- The contents of error frames (`mcp2515_err`): the frame is a parameter of the step that stores it; its bytes do not matter to the buffers.
- CanDriver.OpenUsbCan.ReadBulkCallback: frames with a DLC above 8 are excluded by `HasDlc`. Other nodes may send them; the copy loops of `mcp2515_rx` (firmware/mcp2515.c:163-164) and of the read callback then run past the 8 data bytes, and what lies there is not modelled. On the way out the kernel drops such frames, which `ValidFrame` says.
- CanBuffer.CanBuffer.Reset: `buffer_reset` while EP2 is sending clears the memory under the transfer and may give both sides the same buffer, so ownership no longer holds; excluded by hypothesis, in the requests for start and stop too.
- FirmwareControl.FirmwareControl.BusResetInterrupt: a bus reset while EP2 is sending skips the callback that clears the buffer; excluded likewise, as are USB bus reset and host STALL of EP1 or EP2 in the pipeline's runs.
- Kernel services: `netif_device_detach`, statistics, echo buffers, `set_mode` waking the queue without a credit check, sysfs, probe and disconnect.
- Contents of the static descriptor and string tables, apart from the firmware's configuration descriptor; any well-formed table will do.
- `firmware/usb/dfu.c`: not linked into the firmware.
- The address register behind SET_ADDRESS: the request is answered and its callback named, the register is not modelled.
- DfuLoader.DfuLoader.SendBytes: replies sent from `dfu` and from descriptor memory are copies, so a change of the original while it is being sent is not modelled; uploads, `buf` and `can_cfg` are sent from their own memory.
- CanBuffer.CanBuffer.TxSend: `buffer_tx_process` and `buffer_rx_process` appear as one method for each critical section, because interrupts run between them; what they keep from one to the next is `offset`, see `RxTake`. The runs of `Pipeline` contain no `buffer_reset`.
- FlashSpec.PageOf: page arithmetic uses `%` where the code masks with `SPM_PAGESIZE-1`; the two agree for powers of two.
- Transmit buffers 1 and 2 and receive buffer 1 of the CAN controller: the firmware never uses them.
