# Verified models of the DVR firmware's stateful cores

The firmware of this small video recorder and USB webcam is mostly register set-up. This project models the
parts that carry state over unbounded runs and proves what they promise. Every model comes in two layers: a
specification on values (functions and the lemmas about whole runs), and, where the C code changes fields,
arrays or registers step by step, a class or method in the same form that is proved to make exactly the
specified state change. `dafny verify dfyconfig.toml` checks everything.

| files | subject |
|---|---|
| `CacheHardware`, `CacheCalls`, `CacheRanges`, `CacheLockdown`, `CacheRuns`, `CacheKeeps`, `CacheDriver` | the cache driver over a 4-bank, 256-set, 16-byte-line cache with write buffer |
| `CacheMachine`, `CacheTransfers`, `CacheCopies` | the CPU's view over whole runs with DMA channels beside it: it agrees with plain memory |
| `Crc32`, `CrcReference`, `CrcDetection`, `OptionStore`, `OptionDriver` | the user options under a CRC-32 and a dirty flag |
| `UsbTransfer`, `UsbRead`, `UsbWrite` | READ(10) and WRITE(10) of USB mass storage with two transfers in flight |
| `WavRing`, `WavRecorder` | the audio file behind a 64 KB ring |
| `CsiBuffers`, `CsiDriver` | the camera's line-band buffers between interrupt and encoder |
| `FrameSlots`, `FrameRuns`, `FrameDriver` | the eight picture buffers between encoder and file writer |
| `JpegStitch` | a large photo stitched from strips with restart markers |
| `MsgQueue`, `MsgRuns`, `MsgCollisions`, `MsgFailures`, `MsgManager` | the message queue: a block pool and a queue of pointers, used by tasks and by the timer interrupt |
| `UartFifo` | the UART receive ring shared with an unmasked interrupt |
| `DmaChannels`, `DmaDriver` | the DMA channel and queue allocator and its interrupt |
| `DmaWait`, `DmaFill`, `DmaFillReads`, `DmaMemory` | the memory fill, on the allocator's tables and on the cache |
| `Timers`, `WordCopy` | timer arithmetic and counted timers; the unrolled word copy |
| `Bytes`, `Counting` | a byte; sizes of finite sets |

## Main results

* The cache is invisible: `CacheMachine.CacheIsMemory`, for every run of CPU, driver calls and DMA channels;
  `CacheTransfers.InputExact`, `CacheTransfers.OutputExact` and `CacheCopies.CopyExact` say when a transfer is
  right, `CacheRanges.InvalidRangeExact` when the range call is.
* The check bytes are polynomial division, `CrcReference.CrcIsReference`; `CrcDetection.ChangeIsDetected`, and
  `OptionStore.FlagExact` over runs with power cuts.
* Both sector commands, with two transfers in flight: `UsbRead.ReadPipeline.Read10`,
  `UsbWrite.WritePipeline.Write10`.
* The audio file: `WavRing.RunExact` and `WavRing.ClosedFile`, for every run of blocks.
* No camera buffer in two places over runs of stops and starts, `CsiBuffers.CyclesExact`, and the order of the
  bands, `CsiBuffers.OrderExact`, `CsiBuffers.DeliveredInOrder`.
* No picture lost or reordered, and every buffer with one owner: `FrameRuns.PicturesKept`, `FrameRuns.RunExact`;
  a drop leaves the shortest hole in the film, `FrameSlots.DropExact`.
* The photo file read back: `JpegStitch.PhotoReadsBack`.
* The message queue is a double-ended queue exactly as long as no interrupt send collides:
  `MsgCollisions.CreatedExact`, `MsgRuns.QueueIsDeque`, `MsgRuns.ReceivedAsSent`, `MsgRuns.UrgentIsNext`.
* No received byte lost: `UartFifo.NoByteLost`.
* Channels and driver queues belong to their transfers exactly as long as every step is careful:
  `DmaChannels.RunExact`; the fill on top of it: `DmaWait.FillReleasesQueue`, `DmaFill.FilledExact`,
  `DmaFillReads.FillExact`.

## How time and hardware are modelled

* What one cache command register does (drain, invalidate, lock in, empty the write buffer) is assumed in
  `CacheHardware`; fills, evictions and write-buffer traffic happen at any moment of a run. A line fill and a
  lock command are assumed to see what is still in the write buffer, and an invalidate command to leave it there.
  The comment at `driver_l1/common/src/drv_l1_cache.c:24` asks for an empty buffer before invalidating and locking;
  `cache_lockdown` empties it after its invalidate command and before its lock command (lines 96 to 101).
* A DMA channel moves its bytes one at a time, in any order, at arbitrary moments between the driver's call and
  the completion, while the CPU runs on.
* A storage or USB transfer moves its words at arbitrary moments between its start and its wait call. A device
  call's result is a free parameter.
* The UART, camera and DMA interrupts come at every point where the source does not mask them. A message
  receive takes its pointer and copies its block in two steps with other tasks between.
* The message queue's lock, `OSSchedLock`, keeps tasks out and interrupts not, and the system timer's interrupt
  calls `msgQSend` (`driver_l2/system/src/system_timer.c:229-260`, set up for example in
  `application/task_state_handling/state_video_record/src/ap_video_record.c:119`). A task's send is therefore one
  step per block it looks at, then its tag, its copy and its post, and a flush one step per block; any number of
  interrupt sends come between.
* A fill that waits for its channel lets all other tasks and the interrupt go on, and so does one that gives up
  after its timeout, between freeing its driver queue and freeing its channel.
* Non-volatile writes, file writes and DMA completions may fail; the parameters say how, and the contracts say
  what follows.
* Tick counts are unbounded; the signed 32-bit difference of stored ticks is written out.

## Where the code does not do what it looks like

Each of these is a proved statement, with the exact condition under which the code does meet its purpose.

* `cache_invalid_range` computes range ends in 32 bits. It serves its callers exactly for ranges that end at or
  below 2^32-16 (`CacheRanges.InvalidRangeExact`).
* `cache_drain_range` returns before it empties the write buffer when write-back is off, although its callers
  want the source in memory (`CacheRanges.DrainRangePublishes`). In a memory-to-memory transfer and a fill the
  source is in memory all the same, because the invalidate call that follows empties it (`CacheCopies.CopySeen`;
  what can still go wrong is the target, see the next point). A transfer from
  memory to a device (`driver_l1/common/src/drv_l1_dma.c:772-788`) and the next half of a double buffer
  (`driver_l1/common/src/drv_l1_dma.c:922-924`) only drain: in write-through mode, which `cache_init` leaves, the device may read old bytes. They
  are right in every state exactly when write-back is on (`CacheTransfers.OutputExact`).
* A DMA target that shares a cache line with other variables is not safe: one read of a neighbour while the
  channel runs brings the line back, and the CPU then reads old bytes of the buffer. A target is safe exactly
  when it starts and ends on a line boundary: `CacheTransfers.AlignedExact` for a device, `CacheCopies.CopyExact`
  for a copy, with the failing runs `CacheTransfers.NeighbourReadHides` and `CacheCopies.CopyHidden`.
  `dma_memory_fill` aligns its channel's target to words only, so that a fill can report success and leave bytes
  that read as before (`DmaFillReads.FillExact`, `DmaFillReads.FillHidden`).
  The call itself loses what an interrupt stores to such a line between its edge drains and its invalidate
  command (`CacheTransfers.StoreInsideCall`).
* `cache_lockdown` invalidates the chosen bank without draining it: it changes no byte exactly while write-back
  is off (`CacheLockdown.LockdownKeepsEveryByte`).
* `ap_state_config_store` compares the options but not the check bytes it reads back: one corrupted write of
  these alone leaves a clear flag over a sector the next power-up refuses, and so does a retry that fails, which
  is not read back at all (`OptionStore.StoreIsGood`, `OptionStore.FlagExact`).
* The dirty flag is one of the bytes under the CRC, so the sector always holds it set and RAM clear.
* READ(10) overwrites the result of waiting for the medium with that of the USB wait, WRITE(10) that of most
  receive starts; the exact sets of calls that decide are in `UsbTransfer`. WRITE(10)'s residue on failure
  counts one sector more than was written. A failed command may leave a transfer in flight, and so does a write
  of length 0; `Read10` and `Write10` say exactly when.
* The sector range test adds in 32 bits (`UsbTransfer.RangeTestExact`).
* A ring that is exactly full when a block of half its size arrives loses data; the PCM path never gets there
  (`WavRing.FullRingLosesHalf`, `WavRing.PcmBlocksFit`).
* Camera buffers come out of order for the first two bands when a run starts with `csi_fifo_flag` at 1, as
  `application/task_state_handling/state_startup/src/ap_startup.c:36` sets it, or as an odd number of
  interrupts leaves it (`CsiBuffers.OrderExact`). `MSG_AVI_START_SENSOR` doubles every buffer the encoder
  still has (`CsiBuffers.StartExact`, `CsiBuffers.CyclesExact`).
* A picture that ends after encoding was stopped keeps its slot used although nobody has it, until the next start
  clears all slots (`FrameSlots.AbandonKeeps`, `FrameRuns.PicturesCounted`). That start takes the slots also from
  a writer that is still writing, whose report then frees a slot that may be another picture's
  (`FrameSlots.LateWriteExact`, `FrameRuns.RunExact`, `FrameRuns.AskExact`).
* The scaler and encoder report failure as 0, which the caller's test for negative results lets pass: the photo
  is then short of a strip (`JpegStitch.PhotoCompleteExact`). Strips are padded with 0x55 in front of the
  marker, where B.1.1.2 of ITU-T T.81 allows 0xFF only; the model keeps the code's bytes.
* An interrupt send that comes after a task has found a free block and before it has written the tag takes the
  same block: one message is lost and the block is queued twice (`MsgFailures.CollisionLoses`,
  `MsgCollisions.CollisionEffect`). One that comes ahead of a flush's wiping is answered with success and wiped
  (`MsgFailures.FlushLoses`). These are the only moments that do harm (`MsgCollisions.CreatedExact`).
* A failed post leaves its message block tagged for ever, and so does a receive that asks for too many bytes;
  the exact conditions are in `MsgRuns.OverflowExact` and `MsgRuns.NothingLost`. Id 0 is no id
  (`MsgQueue.SendKeepsSound`).
* `dma_get_channel` returns channel 0 without looking at it when it searches downwards
  (`DmaChannels.GetChannelExact`), a waiting transfer of length 0 is never woken
  (`DmaChannels.EmptyWaitStrands`), and giving up on a fill frees queue and channel by number
  (`DmaChannels.GiveUpExact`, `DmaChannels.LateReportMisleads`). `DmaChannels.RunExact` has the exact condition
  for whole runs. A fill that finds no queue or channel has already written its unaligned ends
  (`DmaFill.RefusedFillPaintsEnds`, `DmaFill.RefusedFillExact`).
* `gp_memcpy_align` copies sixteen words too many when the length is no whole number of words
  (`WordCopy.AlignedCopyExact`).

## Model

Rows that cite `avi_encoder_app.c:12-15` (the stamp table and its companions) model code in
`avi_encoder_scaler_jpeg.c` of the same directory, whose text is not UTF-8; their lines are named in the row.

| member | source | states |
|---|---|---|
| `CacheHardware.DrainViews` | driver_l1/common/src/drv_l1_cache.c:115-133 | Draining a line, bank or range never changes what the CPU reads; the drained dirty bytes, and only those, are on their way to memory afterwards. |
| `CacheHardware.InvalidateViews` | driver_l1/common/src/drv_l1_cache.c:135-153 | Invalidating uncovers memory exactly under the picked lines; every other byte, copy and dirty state stays. |
| `CacheHardware.EmptyBufferViews` | driver_l1/common/src/drv_l1_cache.c:25-32 | Emptying the write buffer changes no view; memory itself then holds what was on its way. |
| `CacheCalls.DrainLineEffect` | driver_l1/common/src/drv_l1_cache.c:115-133 | One line drained: the invariant and the modes stay, no byte reads differently, and the line is clean, if bank and address pick it. |
| `CacheCalls.InvalidLineEffect` | driver_l1/common/src/drv_l1_cache.c:135-153 | One line invalidated: it is gone with whatever was dirty in it, memory shows there, the write buffer is empty, and no other byte changes. |
| `CacheCalls.DrainBanksEffect` | driver_l1/common/src/drv_l1_cache.c:155-167 | Draining banks 0 to n-1 leaves exactly the lines of the other banks dirty and every byte as it reads. |
| `CacheCalls.InvalidBanksEffect` | driver_l1/common/src/drv_l1_cache.c:169-181 | Invalidating banks 0 to n-1 drops exactly their lines; what then reads differently is what memory had differently. |
| `CacheRanges.InvalidRangeEffect` | driver_l1/common/src/drv_l1_cache.c:222-272 | For every byte of the area: outside the range widened to lines the copy stays; inside it is gone and memory has the CPU's byte if the line was drained at a partial edge, the old memory byte otherwise. |
| `CacheRanges.InvalidRangeLegal` | driver_l1/common/src/drv_l1_cache.c:222-272 | The controller's invariant and modes survive the call for every address and size, also when its sums wrap; the write buffer is empty. |
| `CacheRanges.InvalidRangeKeepsOutside` | driver_l1/common/src/drv_l1_cache.c:222-272 | A byte outside the requested range reads the same before and after if and only if it was no stale copy in a line the range touches. |
| `CacheRanges.InvalidRangeExact` | driver_l1/common/src/drv_l1_cache.c:222-272 | The call keeps all bytes outside and drops all lines inside, in every state without stale copies, if and only if the range ends at or below 2^32-16 (or is the one degenerate range in the last line). |
| `CacheRanges.WrapLosesLowLine` | driver_l1/common/src/drv_l1_cache.c:246-263 | For a wrapping size on the whole-bank path a concrete dirty byte below the range is lost. |
| `CacheRanges.WrapKeepsLine` | driver_l1/common/src/drv_l1_cache.c:246-268 | For a wrapping size on the range path a concrete line of the range stays in the cache. |
| `CacheRanges.DrainRangeEffect` | driver_l1/common/src/drv_l1_cache.c:183-220 | In write-back mode exactly the dirty lines of the widened range reach memory and nothing reads differently; in write-through mode the call does nothing. |
| `CacheRanges.DrainRangePublishes` | driver_l1/common/src/drv_l1_cache.c:183-220 | After draining, memory holds the CPU's bytes of the range in every state if and only if write-back is on: the early return skips the write buffer too. |
| `CacheLockdown.ScanFindsHolder` | driver_l1/common/src/drv_l1_cache.c:63-89 | A bank that holds the line is chosen if it is unlocked, and nothing is chosen if it is locked already, whatever the other banks hold. |
| `CacheLockdown.ScanWithoutHolder` | driver_l1/common/src/drv_l1_cache.c:63-89 | Without a holder the choice is the last free bank, else the first unlocked one, else none. |
| `CacheLockdown.LockLineLocks` | driver_l1/common/src/drv_l1_cache.c:95-102 | After one step the line is locked, unless all banks of its set hold other locked lines. |
| `CacheLockdown.LockLineTidy` | driver_l1/common/src/drv_l1_cache.c:95-102 | One step keeps at most one bank per set for a tag and the modes. |
| `CacheLockdown.LockedStays` | driver_l1/common/src/drv_l1_cache.c:59-110 | A locked line of any address stays in its bank, locked, with the same bytes, through any number of steps. |
| `CacheLockdown.LockdownResult` | driver_l1/common/src/drv_l1_cache.c:34-113 | The whole call: the invariant holds, each line of the request up to the end of the area is locked or its set is full of locked lines, and every line locked before is untouched. |
| `CacheLockdown.LockdownOnly` | driver_l1/common/src/drv_l1_cache.c:34-113 | A call locks no line that has no byte of the request: what is locked outside was locked before. |
| `CacheLockdown.LockdownKeepsEveryByte` | driver_l1/common/src/drv_l1_cache.c:34-113 | The call changes no byte the CPU reads, in every state, if and only if write-back is off. |
| `CacheLockdown.LockdownLosesDirtyByte` | driver_l1/common/src/drv_l1_cache.c:95-100 | In write-back mode a concrete dirty byte is lost, because the chosen bank is invalidated without being drained. |
| `CacheRuns.StoreViews` | driver_l1/common/src/drv_l1_cache.c:368-381 | A CPU store changes one byte of the CPU's view in both modes and makes no stale copy. |
| `CacheRuns.WriteBackDisableEffect` | driver_l1/common/src/drv_l1_cache.c:383-406 | Leaving write-back mode loses no dirty byte. |
| `CacheRuns.DisableEffect` | driver_l1/common/src/drv_l1_cache.c:347-366 | Disabling the cache loses no byte: memory then holds the CPU's view. |
| `CacheRuns.EnableEffect` | driver_l1/common/src/drv_l1_cache.c:330-345 | Enabling starts from empty lines, so memory stays the CPU's view. |
| `CacheRuns.BurstEffect` | driver_l1/common/src/drv_l1_cache.c:274-308 | Burst mode is entered only with write buffer on and write-back off, and changes no byte. |
| `CacheRuns.WriteBackEnableEffect` | driver_l1/common/src/drv_l1_cache.c:368-381 | Entering write-back mode leaves burst mode first and changes no byte. |
| `CacheRuns.DrainRangeKeeps` | driver_l1/common/src/drv_l1_cache.c:183-220 | Whatever its sums wrap to, draining a range changes no byte the CPU reads and keeps the invariant. |
| `CacheRuns.InitStartsARun` | driver_l1/common/src/drv_l1_cache.c:310-328 | From any power-up contents of the lines cache_init leaves an enabled cache with its write buffer, without write-back and burst mode, no stale copy, and memory as the CPU's view. |
| `CacheKeeps.StepKeeps` | driver_l1/common/src/drv_l1_cache.c:25-406 | No step of the CPU, the hardware or the driver, whatever its arguments, brings a line into the cache unless it reads it, stores to it or locks it in; a byte that only memory has stays so. |
| `CacheMachine.CacheIsMemory` | driver_l1/common/src/drv_l1_cache.c:25-406 | Over every run of stores, fills, evictions, buffer traffic, mode switches, all driver calls (cache_init and cache_invalid_range included) and channels that move bytes at any moment, the CPU reads what plain memory with the same stores and moves would hold, as long as the CPU leaves the bytes of an open transfer alone and brings no line of its target into the cache. |
| `CacheMachine.RunStarts` | driver_l1/common/src/drv_l1_cache.c:310-328 | Any legal state without stale copies starts such a run, with the CPU's view as plain memory. |
| `CacheTransfers.InputExact` | driver_l1/common/src/drv_l1_dma.c:754-771 | From the invalidate call to the completion, with the CPU running on: every byte a device writes into the range, whatever it is and whenever it comes, is what the CPU then reads, and no other byte changes, if and only if no line of the widened range is brought into the cache meanwhile. |
| `CacheTransfers.NeighbourReadHides` | driver_l1/common/src/drv_l1_dma.c:754-771 | For every target that does not start and end on a line boundary there is a run that fails: the CPU reads a variable next to it during the transfer. |
| `CacheTransfers.AlignedExact` | driver_l1/common/src/drv_l1_dma.c:754-771 | A target is safe from CPU accesses outside it, in every state and run, if and only if it starts and ends on a line boundary. |
| `CacheTransfers.OutputExact` | driver_l1/common/src/drv_l1_dma.c:772-788 | A source that was only drained reaches the device as the CPU had it, in every state and run, if and only if write-back is on. |
| `CacheTransfers.WriteBackSends` | driver_l1/common/src/drv_l1_dma.c:772-788 | In write-back mode, and over everything the CPU does meanwhile except storing to it, the source stays readable for the channel as the CPU had it. |
| `CacheCopies.CopySeen` | driver_l1/common/src/drv_l1_dma.c:790-798 | A memory-to-memory transfer copies the source as the CPU saw it, in both cache modes, in any order of moves and whatever the CPU stores outside both ranges, as long as no line of the target is brought into the cache meanwhile; all other bytes are as the CPU last stored them. |
| `CacheCopies.CopyExact` | driver_l1/common/src/drv_l1_dma.c:790-798 | In every state and run whose CPU reads stay outside the target and in which nothing is locked down, every byte is right at every moment if and only if the target starts and ends on a line boundary. |
| `CacheCopies.CopyHidden` | driver_l1/common/src/drv_l1_dma.c:790-798 | For every other target a run fails: the CPU reads a byte beside it, the channel moves a byte onto the same line, and the CPU reads the old byte. |
| `CacheTransfers.StoreInsideCall` | driver_l1/common/src/drv_l1_cache.c:230-270 | An interrupt store between the edge drains and the invalidate command is lost if and only if write-back is on, its line is cached and touched by the range, and it changes the byte. |
| `CacheDriver.Controller.CallDrainLine` | driver_l1/common/src/drv_l1_cache.c:115-133 | The register command for the line; refused for a bank or an address out of range, with everything as it was. |
| `CacheDriver.Controller.CallInvalidLine` | driver_l1/common/src/drv_l1_cache.c:135-153 | The invalidate command InvalidLineEffect is about, with the same refusals. |
| `CacheDriver.Controller.CallDrainBank` | driver_l1/common/src/drv_l1_cache.c:155-167 | The bank command, refused from bank 4 on. |
| `CacheDriver.Controller.CallInvalidBank` | driver_l1/common/src/drv_l1_cache.c:169-181 | The same for invalidating. |
| `CacheDriver.Controller.CallDrainRange` | driver_l1/common/src/drv_l1_cache.c:183-220 | The loop-free and the bank-loop path give the state DrainRangeEffect is about, with the source's 32-bit sums and return codes; a refused call returns -1 and leaves everything as it was. |
| `CacheDriver.Controller.CallInvalidRange` | driver_l1/common/src/drv_l1_cache.c:222-272 | Edge drains, clipping and both invalidate paths, in this order and in 32-bit arithmetic, give the state InvalidRangeExact is about; an address outside the area or size 0 returns -1 and leaves everything as it was. |
| `CacheDriver.Controller.FindBank` | driver_l1/common/src/drv_l1_cache.c:63-89 | The search loop finds the bank ScanFindsHolder and ScanWithoutHolder are about. |
| `CacheDriver.Controller.CallLockdown` | driver_l1/common/src/drv_l1_cache.c:34-113 | The loop over lines terminates and gives the state LockdownResult and LockdownOnly are about; a refused call leaves everything as it was. |
| `Crc32.UpdateIsShifts` | application/task_state_handling/src/ap_state_config.c:181-181 | The table update of one byte is eight shifts of the state with the byte added in. |
| `Crc32.ByteByBits` | application/task_state_handling/src/ap_state_config.c:171-183 | One byte by table is its eight bits by the reference register, least significant first. |
| `Crc32.TableIsBitwise` | application/task_state_handling/src/ap_state_config.c:171-188 | For every buffer the table-driven update is the register that takes the bits one by one, least significant first. |
| `CrcReference.StepReversed` | application/task_state_handling/src/ap_state_config.c:157-169 | One bit of that register is, with the bits in the opposite order, one step of dividing by the generator polynomial 0x04C11DB7, highest coefficient first. |
| `CrcReference.CrcIsReference` | application/task_state_handling/src/ap_state_config.c:171-188 | For every buffer the check bytes are those of the CRC-32 of section 8 of RFC 1952: the remainder of the buffer's bits divided by 0x04C11DB7, with start and final complement all ones, reversed and low byte first; table, shifts and constants of the source do not appear in this reference. |
| `CrcReference.KnownAnswer` | application/task_state_handling/src/ap_state_config.c:171-188 | The digits 1 to 9 give CB F4 39 26, low byte first. |
| `CrcDetection.UpdateInjective` | application/task_state_handling/src/ap_state_config.c:181-181 | For every byte the update is injective on the 2^32 states. |
| `CrcDetection.StateInjective` | application/task_state_handling/src/ap_state_config.c:180-182 | Processing any buffer keeps different states different. |
| `CrcDetection.FourBytesDistinct` | application/task_state_handling/src/ap_state_config.c:180-182 | From one state different four-byte strings lead to different states. |
| `CrcDetection.MatchIsResidue` | application/task_state_handling/src/ap_state_config.c:53-59 | A record matches its four check bytes if and only if the CRC over record and check bytes ends in the residue. |
| `CrcDetection.ChangeIsDetected` | application/task_state_handling/src/ap_state_config.c:46-61 | A record that matches its check bytes no longer does after any change within four consecutive bytes, check bytes included. |
| `OptionStore.SetExact` | application/task_state_handling/src/ap_state_config.c:63-149 | After a setter the options hold the new bytes and otherwise the old ones, and the flag has become set exactly on a change. |
| `OptionStore.StoreKeepsOptions` | application/task_state_handling/src/ap_state_config.c:27-44 | Whatever either write leaves in the sector, no option in RAM is lost and the flag is clear afterwards. |
| `OptionStore.StoreIsGood` | application/task_state_handling/src/ap_state_config.c:27-44 | Whatever the two writes leave, the sector holds the options under matching check bytes after a store if and only if the first write did not spoil the check bytes alone, and did not spoil an option byte with the retry failing too. |
| `OptionStore.StoreThenBoot` | application/task_state_handling/src/ap_state_config.c:27-61 | What a good store saved is what the next power-up loads; check bytes that do not match give the defaults. |
| `OptionStore.BootRefusesChange` | application/task_state_handling/src/ap_state_config.c:10-61 | A stored record changed within four consecutive bytes is refused at power-up and replaced by the defaults, marked dirty. |
| `OptionStore.FlagTellsTheTruth` | application/task_state_handling/src/ap_state_config.c:10-154 | From power-up, whatever the sector holds, and through every run of setters, default and store without a spoiled store, a clear flag means the sector holds the options of RAM with matching check bytes. |
| `OptionStore.FlagExact` | application/task_state_handling/src/ap_state_config.c:10-154 | Over every run and whatever every write leaves: the flag tells the truth at every moment, and a power cut while it is clear never loses an option, if and only if no store of the run was spoiled in the sense of StoreIsGood. |
| `OptionStore.SpoiledStoreBreaks` | application/task_state_handling/src/ap_state_config.c:33-42 | One spoiled store leaves a clear flag over a sector that is refused or holds other options. |
| `OptionDriver.BuiltShows` | application/task_state_handling/src/ap_state_config.c:176-178 | A built table is recognised by its entry 1, so it is built once. |
| `OptionDriver.Config.TableEntry` | application/task_state_handling/src/ap_state_config.c:163-167 | The inner loop makes eight shifts of the index. |
| `OptionDriver.Config.TableInit` | application/task_state_handling/src/ap_state_config.c:157-169 | All 256 entries are built. |
| `OptionDriver.Config.LookUp` | application/task_state_handling/src/ap_state_config.c:181-181 | One look-up in a built table is the update. |
| `OptionDriver.Config.CrcCal` | application/task_state_handling/src/ap_state_config.c:171-188 | Builds the table when it is missing and returns the four check bytes of the CRC-32 of CrcIsReference. |
| `OptionDriver.Config.CallDefaultSet` | application/task_state_handling/src/ap_state_config.c:19-25 | Defaults in RAM, marked dirty; the sector untouched. |
| `OptionDriver.Config.CallInitial` | application/task_state_handling/src/ap_state_config.c:10-17 | Flag cleared, defaults only after a failed load. |
| `OptionDriver.Config.CallLoad` | application/task_state_handling/src/ap_state_config.c:46-61 | RAM is the sector; success exactly when the check bytes match. |
| `OptionDriver.Config.CallSet` | application/task_state_handling/src/ap_state_config.c:63-149 | The bytes are written and the flag set exactly on a change. |
| `OptionDriver.Config.CallStore` | application/task_state_handling/src/ap_state_config.c:27-44 | Store, read back, compare and store again, as StoreIsGood is about. |
| `WavRing.OnceExact` | application/mini_dvr_api/src/audio_record.c:751-794 | One call keeps 'file and pending part of the ring = stream' if and only if the block does not run into bytes not yet written. |
| `WavRing.FittingSizes` | application/mini_dvr_api/src/audio_record.c:757-791 | Blocks shorter than half the ring fit at every moment, and blocks of exactly half unless the ring is exactly full. |
| `WavRing.LibOnceIsOnce` | application/mini_dvr_api/src/audio_record.c:891-938 | Copying packet by packet and writing once is the same as one block. |
| `WavRing.CountedStep` | application/mini_dvr_api/src/audio_record.c:778-778 | The running 32-bit sum of block lengths is the length of the stream, header included. |
| `WavRing.RunIsFaithful` | application/mini_dvr_api/src/audio_record.c:751-794 | Over every run of fitting blocks, written file plus pending ring part is the header and all bytes in order. |
| `WavRing.RunExact` | application/mini_dvr_api/src/audio_record.c:751-794 | Over every run with room on the disk, written file plus pending ring part is the header and all bytes at every moment if and only if every block fits at its turn. |
| `WavRing.ClosedFile` | application/mini_dvr_api/src/audio_record.c:686-794 | The closed file of every fitting run is 44 bytes of header and all bytes in order; read by offset the header has its four tags, a 16-byte format part, PCM, one channel, the rate, a byte rate of rate times block alignment, alignment 2, 16 bits, the number of bytes, and the file size less 8. |
| `WavRing.HeaderReads` | application/mini_dvr_api/src/audio_record.c:392-431 | Every header the recorder makes reads so, field by field, for every rate whose double fits a word. |
| `WavRing.PcmBlocksFit` | application/mini_dvr_api/src/audio_record.c:686-794 | Blocks of exactly half a ring, as the PCM path makes them, always fit. |
| `WavRing.ShortBlocksFit` | application/mini_dvr_api/src/audio_record.c:751-794 | Blocks shorter than half a ring fit after every fitting run. |
| `WavRing.FullRingLosesHalf` | application/mini_dvr_api/src/audio_record.c:463-488 | The ring exactly full and then a block of half a ring: bytes are lost. |
| `WavRecorder.Recorder.CopyIn` | application/mini_dvr_api/src/audio_record.c:763-775 | The copy changes exactly the bytes of the block. |
| `WavRecorder.Recorder.WriteFile` | application/mini_dvr_api/src/audio_record.c:439-451 | The file takes what fits, the count says how much, and the room shrinks by it. |
| `WavRecorder.Recorder.CallSaveBuffer` | application/mini_dvr_api/src/audio_record.c:458-491 | A due half goes to the file and the half flag turns. |
| `WavRecorder.Recorder.CallSaveFinal` | application/mini_dvr_api/src/audio_record.c:498-523 | The tail goes to the file. |
| `WavRecorder.Recorder.EncodeStart` | application/mini_dvr_api/src/audio_record.c:686-710 | The header with both lengths 0 is the first 44 bytes of the stream, and reads as HeaderReads says. |
| `WavRecorder.Recorder.EncodeOnce` | application/mini_dvr_api/src/audio_record.c:751-794 | The call OnceExact is about; it reports success if and only if no half was due or all 0x8000 bytes of it went to the file. |
| `WavRecorder.Recorder.EncodeLibOnce` | application/mini_dvr_api/src/audio_record.c:891-938 | The call LibOnceIsOnce is about, with the same report. |
| `WavRecorder.Recorder.EncodeStop` | application/mini_dvr_api/src/audio_record.c:717-742 | Tail, then the final header over the first 44 bytes, as ClosedFile is about, read by offset as HeaderReads says; when the disk is full the tail is cut and the header stays. |
| `UsbTransfer.ReadReportsSuccess` | application/task_usb/src/ap_usb.c:535-623 | Read_10 reports success if and only if the starts and the USB waits succeed; results of waiting for the medium are overwritten and do not count. |
| `UsbTransfer.WriteReportsSuccess` | application/task_usb/src/ap_usb.c:686-755 | Write_10's loop finishes if and only if the first receive start and all waits and write starts succeed; later receive starts are overwritten. |
| `UsbTransfer.RangeTestExact` | application/task_usb/src/ap_usb.c:503-507 | The range test accepts exactly the transfers inside the medium and those whose sum wraps in 32 bits to a value inside it. |
| `UsbRead.ReadPipeline.Read10` | application/task_usb/src/ap_usb.c:462-626 | Whatever moment each transfer moves its words, a command whose device calls all succeed sends exactly sectors LBA to LBA+len-1 in order, with residue 0. Left at sector i the residue is (len-i)*512 with sense 0x12. Afterwards nothing is in flight, except the last send if and only if a read start failed after the first sector. |
| `UsbRead.ReadPipeline.MoveSectors` | application/task_usb/src/ap_usb.c:535-573 | The sector loop: i sectors sent in order, the two transfers always in different halves of BUF. |
| `UsbRead.ReadPipeline.StartRead` | application/task_usb/src/ap_usb.c:537-540 | A fill starts only in a half that no transfer in flight uses. |
| `UsbRead.ReadPipeline.WaitRead` | application/task_usb/src/ap_usb.c:545-545 | A successful wait leaves the whole sector in its half. |
| `UsbRead.ReadPipeline.StartSend` | application/task_usb/src/ap_usb.c:558-558 | A send starts only when no other send is in flight. |
| `UsbRead.ReadPipeline.WaitSend` | application/task_usb/src/ap_usb.c:548-548 | A successful wait has sent exactly the half as it was at the start. |
| `UsbRead.ReadPipeline.Interleave` | application/task_usb/src/ap_usb.c:535-573 | Any number of words of either transfer in any order keeps the two halves apart. |
| `UsbRead.ReadPipeline.FillHalf` | application/task_usb/src/ap_usb.c:537-554 | First half of the loop body keeps the pipeline invariant on every exit and leaves the send before in flight if and only if the read start failed. |
| `UsbRead.ReadPipeline.SendHalf` | application/task_usb/src/ap_usb.c:558-571 | Second half keeps it and exchanges the halves. |
| `UsbWrite.WritePipeline.Write10` | application/task_usb/src/ap_usb.c:628-757 | Whatever moment each transfer moves its words, a command that succeeds stores exactly the received sectors in order and changes no other sector, with residue 0. Left at sector i the residue is (len-i-1)*512 with sense 0x10; when only the command end fails it is 0, for length 0 then 0xFFFFFE00. Afterwards nothing is in flight, except a receive if and only if the length was 0 or a wait for the medium failed after the next receive was started. |
| `UsbWrite.WritePipeline.MoveSectors` | application/task_usb/src/ap_usb.c:686-713 | The sector loop: the sectors received so far are stored or on their way, in order. |
| `UsbWrite.WritePipeline.TakeOver` | application/task_usb/src/ap_usb.c:690-695 | First half of the loop body keeps the pipeline invariant on every exit and leaves the receive in flight if and only if the wait for the medium failed. |
| `UsbWrite.WritePipeline.PassOn` | application/task_usb/src/ap_usb.c:697-707 | Second half: the received sector starts for the medium; the last one is waited for. |
| `UsbWrite.WritePipeline.StartNext` | application/task_usb/src/ap_usb.c:708-711 | The next receive starts in the half the medium is not using. |
| `UsbWrite.WritePipeline.FirstReceive` | application/task_usb/src/ap_usb.c:686-686 | Before the loop one receive is in flight, also for a command of length 0. |
| `UsbWrite.ResidueWraps` | application/task_usb/src/ap_usb.c:749-750 | The residue of a failed write counts the failing sector as written; for length 0 it wraps. |
| `CsiBuffers.GetsAll` | application/task_avi_encoder/src/avi_encoder_app.c:462-471 | From every index five gets hand out every buffer once and leave the index where it was. |
| `CsiBuffers.FreeHasRoom` | application/task_avi_encoder/src/avi_encoder_app.c:1050-1052 | While no buffer is in two places the free queue has room, so the posts whose result is ignored cannot fail. |
| `CsiBuffers.ExchangeTakes` | application/task_avi_encoder/src/avi_encoder_app.c:1031-1040 | The register exchange takes out of the circulation exactly the buffer the sensor filled. |
| `CsiBuffers.DeliverAdds` | application/task_avi_encoder/src/avi_encoder_app.c:1042-1053 | Delivery puts it back in exactly one place: the encoder queue, or the free queue when the former is full; the dummy goes nowhere. |
| `CsiBuffers.BuffersConserved` | application/task_avi_encoder/src/avi_encoder_app.c:1026-1054 | While the sensor runs, in every interleaving of interrupts, commands and encoder steps, each buffer is in exactly one place, also with the encoder queue full. |
| `CsiBuffers.NeverTwice` | application/task_avi_encoder/src/avi_encoder_state.c:377-379 | Stopping and flushing, step by step with interrupts between, never puts a buffer in two places. |
| `CsiBuffers.StartExact` | application/task_avi_encoder/src/avi_encoder_state.c:364-371 | Starting the sensor puts every buffer in exactly one place if and only if the encoder has none left in its queue or its hand. |
| `CsiBuffers.StartLoads` | application/task_avi_encoder/src/avi_encoder_state.c:364-370 | A start loads register A, register B and the free queue in this order, each buffer once, from the cyclic index on. |
| `CsiBuffers.CyclesExact` | application/task_avi_encoder/src/avi_encoder_state.c:356-379 | Over every run of stops, flushes and starts, with interrupts and encoder steps anywhere between, no buffer is in two places at any moment if and only if every start finds the encoder's queue and hand without buffers. |
| `CsiBuffers.CycleComplete` | application/task_avi_encoder/src/avi_encoder_state.c:356-379 | After any number of such cycles, from the next such start on each buffer is in exactly one place. |
| `CsiBuffers.RestartCompletes` | application/task_avi_encoder/src/avi_encoder_state.c:356-379 | A stop that nothing interrupts leaves both registers at the dummy and both queues empty, and the start behind it has every buffer in exactly one place, wherever the buffers were, if the encoder holds none. |
| `CsiBuffers.FreeInOrder` | application/task_avi_encoder/src/avi_encoder_app.c:1031-1053 | The free queue hands buffers out in the order they came back: those it held, then those the encoder returned or its full queue refused. |
| `CsiBuffers.FilledInTurn` | application/mini_dvr_api/src/video_codec_callback.c:274-287 | Buffers are filled in the order: the register served next, the other one, then as taken from the free queue. |
| `CsiBuffers.OrderExact` | application/mini_dvr_api/src/video_codec_callback.c:274-287 | In every run buffers are filled in the order they were taken, register A's first, if and only if the run starts with the flag at 0. |
| `CsiBuffers.IrqTags` | application/task_avi_encoder/src/avi_encoder_app.c:1042-1048 | A served interrupt flips the flag and posts the address in the register served, plus 0x80000000 exactly on frame end; it posts nothing for the dummy or with 32 words waiting. |
| `CsiBuffers.DeliveredInOrder` | application/task_avi_encoder/src/avi_encoder_app.c:1042-1053 | The encoder takes exactly the posted buffers, untagged and in the order they were filled. |
| `CsiDriver.Sensor.FifoEndCall` | application/task_avi_encoder/src/avi_encoder_app.c:1026-1054 | The exchange and delivery of one interrupt. |
| `CsiDriver.Sensor.Interrupt` | application/mini_dvr_api/src/video_codec_callback.c:258-291 | Flag toggle and dispatch; frame end and band end at once are served as one frame end. No buffer changes its number of places. |
| `CsiDriver.Sensor.GetFrame` | application/task_avi_encoder/src/avi_encoder_app.c:462-471 | The cyclic get. |
| `CsiDriver.Sensor.LoadFree` | application/task_avi_encoder/src/avi_encoder_state.c:356-367 | The flushed free queue is filled with each buffer once. |
| `CsiDriver.Sensor.StartSensor` | application/task_avi_encoder/src/avi_encoder_state.c:356-371 | The whole start, as StartExact is about. |
| `CsiDriver.Sensor.StopSensor` | application/task_avi_encoder/src/avi_encoder_state.c:377-379 | The whole stop with any number of interrupts between its writes: the free queue is empty, the interrupt off, no buffer doubled, and each register holds the dummy address unless an interrupt came behind its write. |
| `CsiDriver.Sensor.TakeBand` | application/task_avi_encoder/src/avi_encoder_app.c:1042-1053 | The encoder's receive: one word from its queue, without its frame-end tag (avi_encoder_scaler_jpeg.c of the same directory, lines 676-853). |
| `CsiDriver.Sensor.GiveBack` | application/task_avi_encoder/src/avi_encoder_app.c:1050-1052 | Every path of the encoder ends by posting the buffer back (avi_encoder_scaler_jpeg.c of the same directory, lines 1201-1203). |
| `FrameSlots.ChoiceIsFirstLeast` | application/task_avi_encoder/src/avi_encoder_app.c:523-541 | The search finds the first even position with the least gap below 0x10000, or none. |
| `FrameSlots.SignedOfStored` | application/task_avi_encoder/src/avi_encoder_app.c:523-541 | Tick counts may be stored in 32 bits: the signed difference is the same. |
| `FrameSlots.GapIsTrue` | application/task_avi_encoder/src/avi_encoder_app.c:523-541 | The signed 32-bit difference is the true, non-negative gap while all stamps lie within half the tick range. |
| `FrameSlots.UsedCounted` | application/task_avi_encoder/src/avi_encoder_app.c:506-573 | Of the used slots one may be with the encoder, one with the writer, some wait, and all others are lost. |
| `FrameSlots.FullMeansSeven` | application/task_avi_encoder/src/avi_encoder_app.c:511-521 | With all slots used, none being encoded and none lost, one is with the writer and seven wait; so the position behind the last stamp is never a candidate. |
| `FrameSlots.StampsFit` | application/task_avi_encoder/src/avi_encoder_app.c:12-15 | The stamp table of eight never overflows (avi_encoder_scaler_jpeg.c of the same directory, lines 1134-1135). |
| `FrameSlots.GetExact` | application/task_avi_encoder/src/avi_encoder_app.c:506-573 | The result is the last free slot, or with all slots used the slot of the dropped picture (first even position, least gap; DropExact says which in times); it is 0 if and only if all slots are used and nothing waits, no gap is below 0x10000 or the least gap is the one behind the last picture. All other slots and stamps stay. |
| `FrameSlots.DropExact` | application/task_avi_encoder/src/avi_encoder_app.c:521-558 | Write the times of the picture the writer has, of those that wait, and tick + 3 in a row: a drop takes the time behind an even position out, and the hole that leaves is the first shortest of all holes at even positions, and below 0x10000; in plain differences while the row spans less than half the tick range, in signed 32-bit ones always. |
| `FrameSlots.NoDropExact` | application/task_avi_encoder/src/avi_encoder_app.c:521-573 | With all slots used and none lost nothing is dropped if and only if every hole at an even position is 0x10000 or longer. |
| `FrameSlots.KnownDrop` | application/task_avi_encoder/src/avi_encoder_app.c:521-547 | Times 50, 60, 61, 200, 260, 320 and 380 at tick 437, nothing sent before: the first slot is taken. |
| `FrameSlots.GetNoneExact` | application/task_avi_encoder/src/avi_encoder_app.c:506-573 | While no slot is lost the result is 0 if and only if all slots are used and no gap is below 0x10000. |
| `FrameSlots.GetKeeps` | application/task_avi_encoder/src/avi_encoder_app.c:506-573 | Every slot somebody has is used and has one owner (waiting, with the writer, being encoded), stamps stay distinct and in time order, and no slot is lost. |
| `FrameSlots.FinishKeeps` | application/task_avi_encoder/src/avi_encoder_app.c:12-15 | The same for the end of an encoded picture, sent at once when the writer is idle (avi_encoder_scaler_jpeg.c of the same directory, lines 1132-1156). |
| `FrameSlots.FinishExact` | application/task_avi_encoder/src/avi_encoder_app.c:12-15 | While C_AVI_ENCODE_START is set, a finished picture carries its time and goes to the writer at once exactly when the writer is idle, else it waits behind the others (avi_encoder_scaler_jpeg.c of the same directory, lines 1124-1154). |
| `FrameSlots.AbandonKeeps` | application/task_avi_encoder/src/avi_encoder_app.c:12-15 | A picture that ends when C_AVI_ENCODE_START is no longer set loses its slot: it stays used and nobody has it (avi_encoder_scaler_jpeg.c of the same directory, lines 1124 and 1158). |
| `FrameSlots.RestartExact` | application/task_avi_encoder/src/avi_encoder_state.c:438-444 | A start finds all lost slots again, and keeps the owners right if and only if no picture is being encoded. |
| `FrameSlots.LateWriteExact` | application/task_avi_encoder/src/avi_encoder_app.c:12-15 | A write reported after a start cleared the table frees the slot it names: the owners stay right if and only if nobody has that slot, or the writer again (avi_encoder_scaler_jpeg.c of the same directory, lines 728-750). |
| `FrameSlots.WrittenExact` | application/task_avi_encoder/src/avi_encoder_app.c:12-15 | A finished write frees its slot alone and passes on the picture that waited longest (avi_encoder_scaler_jpeg.c of the same directory, lines 728-750). |
| `FrameSlots.FailKeeps` | application/task_avi_encoder/src/avi_encoder_app.c:12-15 | The same for a failed picture: its slot is free again (avi_encoder_scaler_jpeg.c of the same directory, lines 1205-1215). |
| `FrameSlots.WrittenKeeps` | application/task_avi_encoder/src/avi_encoder_app.c:12-15 | The same for a finished write: its slot is free and the next waiting picture goes to the writer (avi_encoder_scaler_jpeg.c of the same directory, lines 728-750). |
| `FrameRuns.StepExact` | application/task_avi_encoder/src/avi_encoder_app.c:506-573 | Every step of encoder and writer, stops, starts and late reports included, keeps every slot with one owner if and only if it is no start while a picture is being encoded and no late report for a slot that waits or is being encoded. |
| `FrameRuns.RunExact` | application/task_avi_encoder/src/avi_encoder_app.c:506-573 | Over every run, with starts also while the writer is still writing, the owners are right at every moment if and only if every step is so. |
| `FrameRuns.PicturesKept` | application/task_avi_encoder/src/avi_encoder_app.c:506-573 | In every such run no slot has two owners, every finished picture is passed on, waiting or dropped, once, those passed on and waiting are in the order they were finished, and the used slots nobody has are those of pictures that ended while encoding was stopped and some the writer still has. |
| `FrameRuns.PicturesCounted` | application/task_avi_encoder/src/avi_encoder_app.c:506-573 | From power-up, finished pictures = passed on + waiting + dropped, used slots are counted by owner, and the slots nobody has and no late report will free are exactly those of pictures that ended while encoding was stopped, since the last start, and that the writer does not have. |
| `FrameRuns.AskExact` | application/task_avi_encoder/src/avi_encoder_app.c:511-519 | While the writer still has slots that a start has taken from it, nobody else has one of them after a get if and only if the get did not hand one out: the flags do not show them. |
| `FrameRuns.StepEffects` | application/task_avi_encoder/src/avi_encoder_app.c:506-573 | Every step moves the clock; only stop and start move the recording flag; a failure and every report free the slot they are about; the reports still to come for slots that are not on the books are exactly those of slots a start or an older report took from the writer. |
| `FrameDriver.Encoder.FindFree` | application/task_avi_encoder/src/avi_encoder_app.c:511-519 | The flag loop returns the last free slot or none. |
| `FrameDriver.Encoder.FindDrop` | application/task_avi_encoder/src/avi_encoder_app.c:521-541 | The gap loop, with the times read from the slots before and behind each even position, returns the choice ChoiceIsFirstLeast and DropExact are about. |
| `FrameDriver.Encoder.RemoveStamp` | application/task_avi_encoder/src/avi_encoder_app.c:548-556 | The shift loop removes one stamp and keeps the others in order. |
| `FrameDriver.Encoder.GetVideoFrame` | application/task_avi_encoder/src/avi_encoder_app.c:506-573 | The whole call, as GetExact and DropExact are about. |
| `FrameDriver.Encoder.SendFirst` | application/task_avi_encoder/src/avi_encoder_app.c:12-15 | The head stamp is sent and the others move up (avi_encoder_scaler_jpeg.c of the same directory, lines 735-748). |
| `FrameDriver.Encoder.FinishPicture` | application/task_avi_encoder/src/avi_encoder_app.c:12-15 | The end of a picture in both cases of C_AVI_ENCODE_START keeps the invariant; its write to the stamp table is in bounds (avi_encoder_scaler_jpeg.c of the same directory, lines 1124-1158). |
| `FrameDriver.Encoder.StartEncode` | application/task_avi_encoder/src/avi_encoder_state.c:438-444 | The clearing of flags and stamp table, as RestartExact is about. |
| `FrameDriver.Encoder.FailPicture` | application/task_avi_encoder/src/avi_encoder_app.c:12-15 | The slot is given up (avi_encoder_scaler_jpeg.c of the same directory, lines 1205-1215). |
| `FrameDriver.Encoder.WriteDone` | application/task_avi_encoder/src/avi_encoder_app.c:12-15 | The writer's slot is free, the next picture sent (avi_encoder_scaler_jpeg.c of the same directory, lines 728-750). |
| `JpegStitch.PatchedSize` | application/task_avi_encoder/src/avi_encoder_app.c:1468-1491 | A patched strip is its size rounded up to 16. |
| `JpegStitch.ReadBack` | application/task_avi_encoder/src/avi_encoder_app.c:1618-1659 | A reader that only looks for markers finds in the file each encoded strip's bytes, padded, and its marker; failed strips are missing. |
| `JpegStitch.PhotoReadsBack` | application/task_avi_encoder/src/avi_encoder_app.c:1618-1659 | With all strips encoded the file reads as the strips in order, entropy bytes kept and padded with 0x55 to a whole number of 16 with the marker, by no more than needed; markers FF D0 to FF D7 in turn and FF D9 at the end. |
| `JpegStitch.PhotoCompleteExact` | application/task_avi_encoder/src/avi_encoder_app.c:1498-1502 | All strips are in the file if and only if none failed: the failure result 0 is not caught by the test for negative results. |
| `JpegStitch.FileAligned` | application/task_avi_encoder/src/avi_encoder_app.c:1645-1652 | Every strip starts on a multiple of 16 in the scan data. |
| `JpegStitch.Photo.Patch` | application/task_avi_encoder/src/avi_encoder_app.c:1468-1491 | The patch loop in place: entropy bytes kept, padding 0x55, marker FF D0+k, size rounded up to 16, nothing behind it touched. |
| `JpegStitch.Photo.EncodeStrip` | application/task_avi_encoder/src/avi_encoder_app.c:1412-1546 | 0 for a failed strip, else the patched strip. |
| `JpegStitch.Photo.EncodeMarked` | application/task_avi_encoder/src/avi_encoder_app.c:1630-1652 | The last strip gets the end marker; when it failed, the byte in front of the buffer is overwritten instead. |
| `JpegStitch.Photo.Capture` | application/task_avi_encoder/src/avi_encoder_app.c:1618-1662 | The loop with its restart counter modulo 8 appends exactly the file PhotoReadsBack is about, and reports success in every case. |
| `MsgQueue.SearchFails` | application/msg_manager/src/msg_manager.c:129-143 | The search finds no block exactly when as many blocks are tagged as there are. |
| `MsgQueue.StepRefines` | application/msg_manager/src/msg_manager.c:112-272 | Every step on pool and pointer queue (a task's send look by look, its tag, its copy, its post; an interrupt's whole send; both halves of a receive; a flush block by block) is the step of the bounded double-ended queue, with the same answer, unless it sends id 0, starts a flush while a receiver holds a block, or is an interrupt send that collides. |
| `MsgQueue.SendKeepsSound` | application/msg_manager/src/msg_manager.c:112-167 | A send at once keeps the blocks in use tagged and apart if and only if its id is not 0, its text is too long, no block is free, or the pointer queue is full. |
| `MsgQueue.TagKeepsSound` | application/msg_manager/src/msg_manager.c:147-147 | A task's writing of the tag keeps them so if and only if its id is not 0 and no other sender has taken the block since it was found free. |
| `MsgQueue.WipeKeepsSound` | application/msg_manager/src/msg_manager.c:270-270 | A flush that wipes a block keeps them so if and only if the block is neither queued nor in a receiver's hand. |
| `MsgRuns.CreatedRefines` | application/msg_manager/src/msg_manager.c:36-77 | A created queue is empty; its message size is the asked length rounded up to words unless that wraps. |
| `MsgRuns.QueueIsDeque` | application/msg_manager/src/msg_manager.c:36-292 | In every run from creation, interrupt sends at any other moment included, the answers are those of the double-ended queue, and the tagged blocks are exactly those queued, being received, being filled, or counted lost, each once. |
| `MsgRuns.SendAlone` | application/msg_manager/src/msg_manager.c:112-167 | Step by step, a task's send that nothing interrupts leaves what the same send leaves at once. |
| `MsgRuns.NothingLost` | application/msg_manager/src/msg_manager.c:112-209 | With a queue as large as the pool no post fails, and no block is lost unless a receiver asks for more bytes than a message has. |
| `MsgRuns.OverflowExact` | application/msg_manager/src/msg_manager.c:155-158 | In runs without collision a block found free can always be posted if and only if maxMsgs <= maxQSize. |
| `MsgRuns.ReceivedAsSent` | application/msg_manager/src/msg_manager.c:112-213 | One receiver gets the accepted messages of tasks and interrupts in the order of the posts, each once, each starting with its own bytes. |
| `MsgRuns.UrgentIsNext` | application/msg_manager/src/msg_manager.c:112-213 | An urgent message that is accepted is what the next receive gets, whatever waited before: its id, its bytes and behind them what the block held before; queue and block are then as before. |
| `MsgRuns.OrdinaryIsLast` | application/msg_manager/src/msg_manager.c:112-167 | A message that is not urgent waits behind all others. |
| `MsgCollisions.StepExact` | application/msg_manager/src/msg_manager.c:128-147 | For callers who keep to the rules (ids not 0, no flush while a block is being received) a step is the step of the double-ended queue, answer and state, if and only if it is no interrupt send between a task's look at a free block and its tag, or ahead of a flush's wiping. |
| `MsgCollisions.CreatedExact` | application/msg_manager/src/msg_manager.c:36-292 | From creation on, the message queue is the double-ended queue at every step of a run if and only if no interrupt send of the run collides. |
| `MsgCollisions.CollisionEffect` | application/msg_manager/src/msg_manager.c:128-158 | After a collision both senders have used one block: it is queued twice while there is room, and the interrupt's message in it is written over by the task's. |
| `MsgCollisions.FlushExact` | application/msg_manager/src/msg_manager.c:266-272 | A flush that no interrupt disturbs leaves no message, and leaves the blocks in use tagged and apart if and only if no receiver holds one. |
| `MsgFailures.CollisionLoses` | application/msg_manager/src/msg_manager.c:128-158 | The run that fails: 7 and 5 are sent with success, 5 and 0 are received. |
| `MsgFailures.FlushLoses` | application/msg_manager/src/msg_manager.c:266-272 | The run that fails in a flush: 7 is sent with success, 0 is received. |
| `MsgFailures.ZeroIdReorders` | application/msg_manager/src/msg_manager.c:132-149 | With id 0 the receiver of messages 0 and 7 gets 7 and then 0. |
| `MsgManager.Manager.SendAtOnce` | application/msg_manager/src/msg_manager.c:112-167 | The call as an interrupt runs it is one step of StepRefines; it returns -1 for a message too long or with all blocks tagged, 30 with the pointer queue full, 0 otherwise. |
| `MsgManager.Manager.SendMsg` | application/msg_manager/src/msg_manager.c:112-167 | The call as a task runs it, with any number of interrupt sends between its steps: the new pool and queue are those of its own steps and the interrupts', in some order, and the return code is the reply to its last step. |
| `MsgManager.Manager.Search` | application/msg_manager/src/msg_manager.c:130-137 | The search loop, with interrupts before each look. |
| `MsgManager.Manager.WriteBlock` | application/msg_manager/src/msg_manager.c:147-151 | Tag and message, with interrupts between. |
| `MsgManager.Manager.PendMsg` | application/msg_manager/src/msg_manager.c:181-192 | The pointer is taken outside the lock. |
| `MsgManager.Manager.PollMsg` | application/msg_manager/src/msg_manager.c:227-235 | The same without waiting; -1 on an empty queue. |
| `MsgManager.Manager.CollectMsg` | application/msg_manager/src/msg_manager.c:194-213 | Under the lock: refused (and the block lost) for too many bytes, else copied and freed. |
| `MsgManager.Manager.FlushMsgs` | application/msg_manager/src/msg_manager.c:266-272 | Queue emptied and blocks wiped one by one, with interrupt sends between. |
| `MsgManager.Manager.SizeGet` | application/msg_manager/src/msg_manager.c:284-292 | The number of queued pointers. |
| `UartFifo.PutAppends` | driver_l1/common/src/drv_l1_uart.c:92-111 | A put is refused if and only if 31 bytes are unread; otherwise it goes behind them and touches none. |
| `UartFifo.AdvanceTakes` | driver_l1/common/src/drv_l1_uart.c:79-84 | Moving the read pointer takes exactly the oldest byte. |
| `UartFifo.StepIsFifo` | driver_l1/common/src/drv_l1_uart.c:61-111 | Each step of the interrupt and each micro-step of a get is that step of a queue of capacity 31. |
| `UartFifo.RunIsFifo` | driver_l1/common/src/drv_l1_uart.c:61-160 | In every interleaving the ring answers as that queue. |
| `UartFifo.NoByteLost` | driver_l1/common/src/drv_l1_uart.c:61-160 | In every interleaving accepted bytes = delivered bytes followed by those unread: in order, each once. |
| `UartFifo.Uart.Init` | driver_l1/common/src/drv_l1_uart.c:45-59 | The ring is empty and zeroed. |
| `UartFifo.Uart.PutByte` | driver_l1/common/src/drv_l1_uart.c:92-111 | The put, as PutAppends is about, on the pointers: 0 with fewer than 31 bytes unread, -2 otherwise. |
| `UartFifo.Uart.Isr` | driver_l1/common/src/drv_l1_uart.c:143-160 | The drain loops take the first bytes that fit and drop the rest. |
| `UartFifo.Uart.GetByte` | driver_l1/common/src/drv_l1_uart.c:61-90 | With any number of puts between its steps a get returns the oldest byte not delivered yet; -2 only when nothing was unread at its look, -1 if and only if the pointer is null. |
| `UartFifo.Uart.MoveRead` | driver_l1/common/src/drv_l1_uart.c:79-84 | The single write of the read pointer delivers one byte. |
| `DmaChannels.GetChannelExact` | driver_l1/common/src/drv_l1_dma.c:65-112 | The allocator hands out a free channel, or refuses because all are used, if and only if the target is not above 0xF8000000 or one of channels 1 to 3 is free. |
| `DmaChannels.CheckExact` | driver_l1/common/src/drv_l1_dma.c:645-720 | A request passes exactly when it is aligned to its width, has memory on one side and, if any, one of the ten sending or eight taking device registers, by address, on the other; -4 and -5 name an unknown source or target and nothing else. |
| `DmaChannels.StartExact` | driver_l1/common/src/drv_l1_dma.c:630-816 | Starting a non-empty transfer, for every target: while the search can be trusted exactly one channel more is used, which was free, or the tables are as before and the driver queue given back; when it cannot, the transfer takes channel 0 as it is, or frees it. |
| `DmaChannels.EmptyStartKeeps` | driver_l1/common/src/drv_l1_dma.c:638-643 | A transfer of length 0 is told at once, a waiting one sleeps on its queue for good, and no table changes. |
| `DmaChannels.StartKeeps` | driver_l1/common/src/drv_l1_dma.c:630-816 | Starting keeps channels and queues one-to-one with their transfers if and only if the request is refused by its checks, or the target is not above 0xF8000000, or a channel 1 to 3 is free, or channel 0 is free and the count too long. |
| `DmaChannels.HighStartBreaks` | driver_l1/common/src/drv_l1_dma.c:76-89 | With channels 1 to 3 in use and a target above 0xF8000000 it keeps them only if the request is too long and channel 0 is free. |
| `DmaChannels.IsrKeeps` | driver_l1/common/src/drv_l1_dma.c:203-323 | A completion interrupt keeps them (one notification, then the channel is free unless occupied) if and only if it does not post into a driver queue that was given up and is another transfer's now. |
| `DmaChannels.WakeKeeps` | driver_l1/common/src/drv_l1_dma.c:856-865 | A task that wakes has its own completion, is over, and gives its queue back empty. |
| `DmaChannels.FreeDoubleKeeps` | driver_l1/common/src/drv_l1_dma.c:983-999 | Freeing a double-buffer transfer frees its channel. |
| `DmaChannels.GiveUpExact` | driver_l1/common/src/drv_l1_dma.c:1133-1137 | Freeing the channel after a timeout keeps them if and only if the channel has not been reported and handed to another transfer in the meantime. |
| `DmaChannels.NextExact` | driver_l1/common/src/drv_l1_dma.c:65-1137 | Any step, the two halves of giving up included, keeps them if and only if it is careful in the sense of these conditions. |
| `DmaChannels.RunExact` | driver_l1/common/src/drv_l1_dma.c:65-1137 | Over every run they are right at every moment if and only if every step is careful. |
| `DmaChannels.TransfersApart` | driver_l1/common/src/drv_l1_dma.c:65-323 | In every careful run from reset, given-up transfers included, no two transfers share a channel, each completed normal transfer was told exactly once, and every task that can wake has its own completion. |
| `DmaChannels.QueueReleased` | driver_l1/common/src/drv_l1_dma.c:143-175 | In every run, careful or not, a transfer that is over has no driver queue. |
| `DmaChannels.LateReportMisleads` | driver_l1/common/src/drv_l1_dma.c:1128-1137 | A completion between freeing the queue and freeing the channel wakes the queue's next owner while its own transfer still runs. |
| `DmaChannels.NothingLeaks` | driver_l1/common/src/drv_l1_dma.c:114-175 | When every transfer is over, all channels and driver queues are free. |
| `DmaChannels.OccupiedStays` | driver_l1/common/src/drv_l1_dma.c:228-230 | An occupied channel survives every step except the one that frees it, and that one ends it. |
| `DmaChannels.EmptyWaitStrands` | driver_l1/common/src/drv_l1_dma.c:638-643 | A waiting transfer of length 0 is never woken in any careful run and keeps its driver queue. |
| `DmaChannels.HighTargetShares` | driver_l1/common/src/drv_l1_dma.c:76-89 | With all channels used, a transfer to a target above 0xF8000000 runs on channel 0 beside its owner. |
| `DmaDriver.Tables.AcquireChannel` | driver_l1/common/src/drv_l1_dma.c:65-112 | Both search loops. |
| `DmaDriver.Tables.AcquireQueue` | driver_l1/common/src/drv_l1_dma.c:143-165 | The first free driver queue, emptied, or none. |
| `DmaDriver.Tables.BeginTransfer` | driver_l1/common/src/drv_l1_dma.c:836-855 | A waiting transfer takes a driver queue first. |
| `DmaDriver.Tables.CheckRequest` | driver_l1/common/src/drv_l1_dma.c:645-720 | The branches before the allocation give the code CheckExact is about. |
| `DmaDriver.Tables.TransferExtend` | driver_l1/common/src/drv_l1_dma.c:630-816 | The whole call with all exits, as StartExact is about; 0 for an empty transfer, and the codes -1, -4 and -5. |
| `DmaDriver.Tables.Complete` | driver_l1/common/src/drv_l1_dma.c:210-232 | One channel's part of the interrupt. |
| `DmaDriver.Tables.Interrupt` | driver_l1/common/src/drv_l1_dma.c:203-323 | All pending channels in turn; the invariant holds. |
| `DmaDriver.Tables.LeaveQueue` | driver_l1/common/src/drv_l1_dma.c:1128-1129 | The first half of giving up: the driver queue is free. |
| `DmaDriver.Tables.LeaveChannel` | driver_l1/common/src/drv_l1_dma.c:1133-1137 | The second half: the channel is freed by its number. |
| `DmaDriver.Tables.WakeUp` | driver_l1/common/src/drv_l1_dma.c:856-865 | The message is the task's own transfer. |
| `DmaDriver.Tables.FreeDoubleBuffer` | driver_l1/common/src/drv_l1_dma.c:983-999 | The occupied channel is free. |
| `DmaFill.StoreRunPaints` | driver_l1/common/src/drv_l1_dma.c:1021-1029 | The byte loop sets exactly its bytes as the CPU sees them, through either cache mode. |
| `DmaFill.TailRunPaints` | driver_l1/common/src/drv_l1_dma.c:1036-1040 | The loop from the end down sets exactly the bytes behind the last whole word. |
| `DmaWait.FillReleasesQueue` | driver_l1/common/src/drv_l1_dma.c:1054-1149 | On every exit of the channel path (no queue, no channel, count too long, woken, timed out), and whatever other tasks and the interrupt do meanwhile, careful or not, the call's driver queue is not its any more. |
| `DmaWait.WaitingExact` | driver_l1/common/src/drv_l1_dma.c:1054-1093 | The call reaches its wait if and only if a driver queue and a channel are free and the count fits; otherwise it returns -1 and all tables are as before. |
| `DmaWait.FillFreesChannel` | driver_l1/common/src/drv_l1_dma.c:1054-1149 | With everybody else careful the tables are right after the call if and only if a wait that timed out still had its channel or nobody had it; then the call has no channel any more. |
| `DmaWait.FillSucceeds` | driver_l1/common/src/drv_l1_dma.c:1054-1149 | With every other task and the interrupt careful in the sense of RunExact, the channel path returns 0 if a driver queue and a channel are free, the count fits its register, and the interrupt has reported the transfer by the end of the call, and -1 otherwise. |
| `DmaFill.FillSets` | driver_l1/common/src/drv_l1_dma.c:1002-1149 | A fill that reports success has set exactly the bytes [t, t+n) to the value, for every alignment and length, on the byte, word and channel paths, as long as no line of the channel's target is brought into the cache during the wait and everybody else uses the driver carefully; every other byte is as the CPU last stored it. |
| `DmaFillReads.FillExact` | driver_l1/common/src/drv_l1_dma.c:1002-1149 | In every state and careful run whose CPU reads stay outside the channel's target and in which nothing is locked down, success means every byte is right if and only if no channel is needed, the channel's target starts and ends on a line boundary, or the fill is too long to succeed at all. |
| `DmaFillReads.FillHidden` | driver_l1/common/src/drv_l1_dma.c:1031-1137 | For every other fill a run fails: a task reads a variable beside the channel's target during the wait, the fill reports success, and a byte of the range reads as before. |
| `DmaFill.FilledExact` | driver_l1/common/src/drv_l1_dma.c:1002-1149 | With every other task and the interrupt careful in the sense of RunExact, it reports success if and only if there are fewer than 16 bytes, or fewer than 128 in whole words, or a driver queue and a channel are free, the words fit the count register of 0xFFFFFF and the channel reports by the end of the call. |
| `DmaFill.RefusedFillPaintsEnds` | driver_l1/common/src/drv_l1_dma.c:1054-1093 | A fill refused for want of a queue or a channel or for its length has set the unaligned ends all the same, and nothing else; the tables are as before. |
| `DmaFill.RefusedFillExact` | driver_l1/common/src/drv_l1_dma.c:1031-1093 | A refused fill changes no byte in any state if and only if start and length are whole words. |
| `DmaMemory.Memory.MemoryFill` | driver_l1/common/src/drv_l1_dma.c:1002-1149 | The alignment loops, the word loop, the driver's tables and the wait give the memory, tables and code FillSets and FilledExact are about. |
| `DmaMemory.Memory.AlignStart` | driver_l1/common/src/drv_l1_dma.c:1031-1035 | The leading bytes up to a word boundary. |
| `DmaMemory.Memory.AlignEnd` | driver_l1/common/src/drv_l1_dma.c:1036-1040 | The trailing bytes from the end down. |
| `DmaMemory.Memory.StoreWords` | driver_l1/common/src/drv_l1_dma.c:1044-1052 | The word loop stores the same bytes as byte stores. |
| `Timers.SetupExact` | driver_l1/common/src/drv_l1_timer.c:144-166 | A frequency is accepted exactly between the two limits; then the preload fits the register and the count is the largest that is not too slow. |
| `Timers.PulseExact` | driver_l1/common/src/drv_l1_timer.c:651-693 | The compare value lies between preload-1 and 0xFFFF, grows with the duty and is less than one count below the wanted part of the period. |
| `Timers.CallsExact` | driver_l1/common/src/drv_l1_timer.c:454-473 | After n overflows the user's function has been called min(n, times) times; the interrupt masks itself and clears its counters on the overflow after the last call and not before. |
| `Timers.PwmSetup` | driver_l1/common/src/drv_l1_timer.c:651-693 | Accepts exactly the accepted frequencies with a duty up to 100 and keeps both register values in range. |
| `WordCopy.AlignedCopyExact` | gpstdlib/src/gp_stdlib.c:100-228 | gp_memcpy_align and gp_memcpy leave the same memory, whatever it held, if and only if the length is a whole number of words; otherwise sixteen words too many are copied. |
| `WordCopy.Memcpy` | gpstdlib/src/gp_stdlib.c:100-109 | The byte loop makes the target bytes those of the source and leaves all others. |
| `WordCopy.MemcpyAlign` | gpstdlib/src/gp_stdlib.c:111-228 | The switch and the group loop copy the length, or, if it is no whole number of words, the whole words below it and 64 bytes more, and leave all other bytes. |
| `WordCopy.Head` | gpstdlib/src/gp_stdlib.c:117-213 | The cases of the switch copy the words left over from groups of sixteen. |

## Left out

- CacheMachine.CacheIsMemory: lockdown calls are admitted only while write-back is off, because with write-back on they lose dirty bytes (CacheLockdown.LockdownLosesDirtyByte); invalidating calls other than those of a transfer are not steps of its runs, because losing bytes is their purpose (CacheHardware.InvalidateViews); and transfers whose targets the CPU caches meanwhile are outside, because the property is false for them (CacheTransfers.InputExact).
- CacheCopies.CopySeen: source and target ranges do not overlap; runs in which a line of the target is cached during the copy are outside, because the property is false for them (CacheCopies.CopyExact).
- OptionStore.FlagTellsTheTruth: runs with a spoiled store are excluded; OptionStore.FlagExact shows that they must be.
- MsgRuns.QueueIsDeque: sends of id 0, flushes while a receiver holds a block and colliding interrupt sends are excluded, because the property is false for them; MsgQueue.SendKeepsSound, MsgCollisions.FlushExact and MsgCollisions.CreatedExact give the exact conditions.
- MsgManager.Manager.FlushMsgs: a block is wiped in one step, its tag and its bytes together; a receive copies and frees its block in one step, which an interrupt send in the middle cannot tell apart because the block is tagged until the end.
- MsgManager.Manager.SendAtOnce: an interrupt's send is not interrupted by another interrupt.
- MsgRuns.ReceivedAsSent: for one receiver and ordinary sends; with several receivers or urgent messages the order is the one of the double-ended queue in MsgRuns.QueueIsDeque.
- DmaChannels.TransfersApart: for careful runs; DmaChannels.RunExact shows that they must be.
- DmaFill.FillSets: the stack word that feeds the channel lies in the cached area and apart from the target, the channel has moved every word before it reports, and meanwhile the CPU stores outside both; waits in which a line of the channel's target is cached are outside, because the property is false for them (DmaFillReads.FillExact).
- DmaWait.FillFreesChannel: with everybody else careful in the sense of DmaChannels.RunExact.
- JpegStitch.ReadBack: the encoder hardware is assumed to end each strip in FF D9 and to follow every data byte FF by 0; the decoding and scaling of the strips is not modelled.
- UsbRead.ReadPipeline.Read10: the loop over leftover sectors is absent because READWRITE_SECTOR is 1 and leaves none; a change of logical unit, the sector contents beyond 256 half-words, and a command that arrives while the hardware is still busy with a transfer a failed one left behind are outside.
- UsbWrite.WritePipeline.Write10: the same.
- WavRing.ClosedFile: for files under 2^32 bytes and a disk with room for them; opening, closing and the MP3 path are not modelled.
- FrameRuns.PicturesKept: for careful runs; FrameRuns.RunExact shows that they must be. A new picture begins only after the last one has ended; the USB webcam path takes its buffers from another queue and is left out.
- CsiBuffers.BuffersConserved: an address never equals a command word in the encoder's queue; what the encoder does with a band is not modelled beyond giving it back.
- Layout of the option record: its offsets and the resource defaults are parameters; the structure itself is not part of this model.
- The inside of the operating system's queues, the file system, the AVI packer, the audio encoders and the USB and card layers: each is a queue, a write or a start and wait.
- dma_transfer_double_buf_set, dma_buffer_copy's sprite widths and the I/O handshakes of a channel: register values only.
- The race on the global target_addr between two tasks that start transfers at once.
- The audio half of the AVI recorder (avi_audio_record.c), whose hand-over depends on packer timing that is not part of the sources.
- The unmasked window of the message queue's creation and deletion, and the 32-bit wrap of its allocation size.
- Register set-up, clocks, sensors, display, keys, fonts and debug prints: straight-line code without an invariant.
- The remaining three counted timer interrupts and the time bases repeat the first one.
