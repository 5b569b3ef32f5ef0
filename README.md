# GeneTEK accelerator offload, modelled in Dafny

GeneTEK offloads approximate DNA sequence matching from a Zynq UltraScale+ CPU to
an FPGA kernel. This project models the parts of the repository whose behaviour
is logic rather than I/O, one Dafny module per source file:

- `AccelDriver` (CAccelDriver): the process-wide registry of DMA-compatible
  buffers (virtual to physical address), the live-instance counter, the shared
  device descriptor, and the two exclusive ways of opening the accelerator
  (mapping its register window, or opening the kernel device).
- `RegisterMap` (CSeqMatcher.hpp and the twin declarations in seqdriver.c): the
  accelerator's register words and their byte offsets, the wait-type encoding and
  the command message with its little-endian byte layout.
- `SeqMatcher` (CSeqMatcher): binding the five job buffers to physical
  addresses, chunk address arithmetic with 64-bit wrap-around, programming a chunk
  through the registers or through the driver, starting a run and polling for it.
- `SeqDriver` (seqdriver.c): the kernel character driver's write handler (decode
  the command, program twelve registers), read handler (enable interrupts, start,
  wait by mode, disable interrupts) and interrupt handler.
- `SplitBlock` and `SequenceFile` (HW_split_block.cpp): the DMA budget arithmetic,
  the number of queries per chunk, the sweep of chunks issued to the accelerator,
  and the line-by-line reader that fills the fixed-stride sequence buffers.
- `SeqMatcherHw` and `LogicalBlock` (Seqmatcher.cpp, logical_block.h): the HLS
  kernel's 2-bit nucleotide packing, the target-major ids of the (target, query)
  pairs, the bit-parallel scan that keeps the earliest position of the lowest
  score, the scatter of the answers into the output, and the 360-bit vector
  helpers, with `sum` proved to be addition modulo 2^360.
- `Parser` (parser.hpp): `trim`, `extractValue`, the key-file and
  hardware-handoff scans over a key table, `getRegs` and the JSON writer, with a
  read-back lemma connecting the writer to the key-file reader.
- `Clock` (clock.hpp, clock.cpp): the UltraScale+ clock control word layouts, the
  register tables, the field setters, the source checks and the integer divisor
  logic of `setPLClock`.

Where the source mutates state the model is imperative: classes with `modifies`
clauses, arrays for register blocks and DMA buffers, and loops with invariants,
each method proved against a specification function. The defects listed under
Findings are modelled as written, and each has a corrected twin with the
intended property proved.

Two behaviours of the driver wrapper are modelled as the code has them. `CloseDriver`
(experiments/SW_fpga/src/CAccelDriver.cpp:98-107) closes the descriptor but leaves
its number in place, so a later `OpenDriver` answers DEVICE_ALREADY_INITIALIZED. The
destructor (experiments/SW_fpga/src/CAccelDriver.cpp:28-47) empties the shared
buffer registry whenever any instance is destroyed, not only the last one. Both are
listed under Findings, each with a corrected twin.

## Model

| member | source | states |
|---|---|---|
| AccelDriver.Cma.constructor | experiments/SW_fpga/src/CAccelDriver.cpp:7 | the allocator starts with no block held by the process |
| AccelDriver.Cma.Free | experiments/SW_fpga/src/CAccelDriver.cpp:155 | `cma_free` returns exactly that block to the kernel and no other |
| AccelDriver.Shared.constructor | experiments/SW_fpga/src/CAccelDriver.cpp:10-13 | at program start the registry is empty, no instance exists, logging is off, the descriptor is 0 and not open; the registry invariant holds |
| AccelDriver.Shared.AllocDMACompatible | experiments/SW_fpga/src/CAccelDriver.cpp:110-140 | an allocator failure or a physical address of 0 returns NULL and leaves the registry and the held blocks as they were (the block is freed again); otherwise the new virtual address is returned, registered with its physical address and held; the registry invariant (no entry maps to 0, every entry is held) is kept |
| AccelDriver.Shared.FreeDMACompatible | experiments/SW_fpga/src/CAccelDriver.cpp:144-158 | the address is removed from the registry and released, whether or not it was registered, and the result is always true |
| AccelDriver.Shared.GetDMAPhysicalAddr | experiments/SW_fpga/src/CAccelDriver.cpp:162-174 | a registered address gives its physical address, an unregistered one 0, and the registry is not changed (no insertion by the lookup); under the invariant, 0 comes back exactly for unregistered addresses |
| AccelDriver.Shared.Lookup | experiments/SW_fpga/src/CAccelDriver.cpp:162-174 | definition: the registry's answer, the physical address or 0; GetDMAPhysicalAddr is proved against it |
| AccelDriver.Shared.InternalEmptyDMAAllocs | experiments/SW_fpga/src/CAccelDriver.cpp:179-200 | with no instance left every registered buffer is released; with instances left no buffer is released; in both cases the registry ends empty |
| AccelDriver.Shared.EmptyDMAAllocsWhenLast | experiments/SW_fpga/src/CAccelDriver.cpp:42-46 | corrected twin: the registry is emptied and its buffers released only when no instance is left, otherwise registry and buffers are unchanged |
| AccelDriver.CAccelDriver.constructor | experiments/SW_fpga/src/CAccelDriver.cpp:16-24 | a new instance has no mapping, base address and size 0, sets the shared logging flag and increments the instance count modulo 2^32 |
| AccelDriver.CAccelDriver.Destroy | experiments/SW_fpga/src/CAccelDriver.cpp:28-47 | as written: the mapping is dropped, the instance count decremented modulo 2^32 and the shared registry emptied even while other instances still use their buffers |
| AccelDriver.CAccelDriver.DestroyKeepingSharedBuffers | experiments/SW_fpga/src/CAccelDriver.cpp:28-47 | corrected twin: the registry of other live instances survives; only the last instance empties it and releases its buffers |
| AccelDriver.CAccelDriver.Open | experiments/SW_fpga/src/CAccelDriver.cpp:51-78 | an instance already mapped answers DEVICE_ALREADY_INITIALIZED and changes nothing; otherwise base and size are recorded, a failed map answers ERROR_MAPPING_BASE_ADDR with no mapping, a successful one answers OK and hands the mapping out |
| AccelDriver.CAccelDriver.OpenDriver | experiments/SW_fpga/src/CAccelDriver.cpp:80-96 | a non-zero descriptor answers DEVICE_ALREADY_INITIALIZED and keeps the descriptor and whether it is open; otherwise the descriptor from `open` is stored, it is open exactly when it is not -1, and the answer is ERROR_OPENING_DRIVER exactly when it is -1 |
| AccelDriver.CAccelDriver.CloseDriver | experiments/SW_fpga/src/CAccelDriver.cpp:98-107 | as written: `close` is issued exactly when the descriptor is not 0; afterwards a non-zero descriptor is no longer open but its number is kept, so the device can never be opened again |
| AccelDriver.CAccelDriver.CloseDriverAndForget | experiments/SW_fpga/src/CAccelDriver.cpp:98-107 | corrected twin: closes exactly when a descriptor is held, resets it to 0, and leaves the device open only when the descriptor was 0 and open before |
| RegisterMap.ByteOffset | experiments/SW_fpga/driver/seqdriver.c:31-47 | a register's byte offset is four times its word index |
| RegisterMap.RegisterOffsets | experiments/SW_fpga/src/CSeqMatcher.hpp:9-25 | every field of the register file, padding included, sits at the byte address its declaration documents, from control at 0x00 to output_2 at 0x54 |
| RegisterMap.SetBit0 | experiments/SW_fpga/src/CSeqMatcher.cpp:163-165 | `v \| 1` raises bit 0 (ap_start) and keeps every other bit |
| RegisterMap.ToggleBit0 | experiments/SW_fpga/driver/seqdriver.c:318-321 | writing 1 to the toggle-on-write isr flips bit 0 and keeps every other bit |
| RegisterMap.ProgramWrites | experiments/SW_fpga/driver/seqdriver.c:198-211 | programming a run is twelve register writes |
| RegisterMap.ProgrammedRegisters | experiments/SW_fpga/driver/seqdriver.c:198-211 | after programming, each of the five addresses is read back from its (low, high) register pair, both counts are stored as given, and control, gier, ier, isr and the padding words keep their values |
| RegisterMap.Programmed | experiments/SW_fpga/driver/seqdriver.c:198-211 | definition: the register file after the twelve writes; ProgrammedRegisters states what each register holds afterwards |
| RegisterMap.ProgrammedQuery | experiments/SW_fpga/driver/seqdriver.c:203-211 | definition: the query half of the programming; ProgrammedRegisters states its registers |
| RegisterMap.ProgrammedTarget | experiments/SW_fpga/driver/seqdriver.c:198-202 | the target half of the programming keeps the register file's size |
| RegisterMap.ProgramWritesDistinct | experiments/SW_fpga/driver/seqdriver.c:198-211 | the twelve writes go to twelve different registers, so their order does not matter |
| RegisterMap.Pow256 | experiments/SW_fpga/driver/seqdriver.c:57-66 | a power of 256 is positive |
| RegisterMap.EncodeLE | experiments/SW_fpga/driver/seqdriver.c:57-66 | a field is laid out as exactly n little-endian bytes |
| RegisterMap.DecodeLE | experiments/SW_fpga/driver/seqdriver.c:190 | n bytes read back give a number below 256^n |
| RegisterMap.DecodeEncodeLE | experiments/SW_fpga/driver/seqdriver.c:190 | reading back the n little-endian bytes of a number below 256^n gives the number |
| RegisterMap.Pow256Widths | experiments/SW_fpga/driver/seqdriver.c:57-66 | 4 bytes hold a uint32_t and 8 bytes a uint64_t |
| RegisterMap.Encode | experiments/SW_fpga/src/CSeqMatcher.cpp:202-213 | the message user space writes is 56 bytes |
| RegisterMap.DecodeEncode | experiments/SW_fpga/driver/seqdriver.c:57-66 | the driver decodes exactly the message user space encoded, because both declare the same field layout |
| RegisterMap.Decode | experiments/SW_fpga/driver/seqdriver.c:189-190 | definition: the message the driver reads from the copied bytes, field by field in little-endian order; DecodeEncode states that it inverts the user-space encoding |
| SeqDriver.SeqDevice.constructor | experiments/SW_fpga/driver/seqdriver.c:86-87 | after initialisation the wait type is INTERRUPT, the flag is 0 and nothing has been written |
| SeqDriver.SeqDevice.IoWrite | experiments/SW_fpga/driver/seqdriver.c:198 | an iowrite32 stores the value in exactly that register and logs it |
| SeqDriver.SeqDevice.Write | experiments/SW_fpga/driver/seqdriver.c:179-216 | a count below the message size, or a copy from user space that fails, returns -1 and changes nothing; otherwise the decoded message is programmed by the twelve writes in order, the wait type is taken from it and 0 is returned |
| SeqDriver.SeqDevice.ProgramTarget | experiments/SW_fpga/driver/seqdriver.c:197-202 | the target address, count and lengths address are written, low word before high word |
| SeqDriver.SeqDevice.ProgramQuery | experiments/SW_fpga/driver/seqdriver.c:203-211 | the query address, count, lengths address and output address are written, low word before high word |
| SeqDriver.SeqDevice.IrqHandler | experiments/SW_fpga/driver/seqdriver.c:314-330 | the handler writes 1 to isr, which toggles the done bit, raises the flag and reports the interrupt handled |
| SeqDriver.SeqDevice.Read | experiments/SW_fpga/driver/seqdriver.c:142-175 | the read enables the interrupts, raises ap_start and keeps the other control bits, waits, then leaves gier and ier at 0 and returns 0; in polling mode it stops at the first read with ap_done; in interrupt and polling mode (the done interrupt stays enabled while it waits) the interrupt handler runs, so the flag ends at 1, the done bit of isr is disarmed and the handler's isr write is logged; in continue mode it does not wait and flag and isr keep their values; the other registers keep their values and the write log is exactly the driver's sequence of writes |
| SeqMatcher.ChunkAddress | experiments/SW_fpga/src/CSeqMatcher.cpp:127-131 | when the offset is not negative and no overflow occurs, a chunk's address is the buffer base plus the offset times the stride; otherwise the uint64_t arithmetic wraps |
| SeqMatcher.JobMessage | experiments/SW_fpga/src/CSeqMatcher.cpp:196-211 | the command holds the five chunk addresses (sequences at `max_seq_length` bytes per entry, lengths and outputs at 4), the two counts as uint32_t and the wait type |
| SeqMatcher.ChunkRegisters | experiments/SW_fpga/src/CSeqMatcher.cpp:127-144 | for in-range offsets, each register pair of a programmed chunk holds its buffer base plus offset times stride |
| SeqMatcher.FirstUnresolved | experiments/SW_fpga/src/CSeqMatcher.cpp:74-93 | the index where the in-order address resolution stops: every earlier address resolved, and this one (when it exists) has physical address 0 |
| SeqMatcher.FirstUnresolvedAt | experiments/SW_fpga/src/CSeqMatcher.cpp:74-93 | the index of the first unresolved address is the one the resolution stops at |
| SeqMatcher.Binding.constructor | experiments/SW_fpga/src/CSeqMatcher.cpp:9-15 | at program start all five physical addresses and the maximum length are 0 and the binding is incomplete |
| SeqMatcher.Binding.Snapshot | experiments/SW_fpga/src/CSeqMatcher.cpp:9-15 | definition: the five physical addresses and the maximum length held by the shared binding; the constructor, InitConfig and JobMessage state them |
| SeqMatcher.CSeqMatcher.constructor | experiments/SW_fpga/src/CSeqMatcher.hpp:54-55 | a matcher is a fresh CAccelDriver part (unmapped, instance count incremented) over the shared binding |
| SeqMatcher.CSeqMatcher.GetPhyAddress | experiments/SW_fpga/src/CSeqMatcher.cpp:44-55 | the physical address is the registry's answer, and the status is VIRT_ADDR_NOT_FOUND exactly when it is 0, that is, when the address is not registered |
| SeqMatcher.CSeqMatcher.InitConfig | experiments/SW_fpga/src/CSeqMatcher.cpp:58-98 | the maximum length is stored first; the five buffers are resolved in order and stored, including the 0 of the first failure; later buffers keep their old addresses; the status is VIRT_ADDR_NOT_FOUND exactly when some buffer fails; the binding becomes complete only when all five resolve and is never reset |
| SeqMatcher.CSeqMatcher.AlignmentConfig | experiments/SW_fpga/src/CSeqMatcher.cpp:101-147 | with no mapping or no complete binding the status is DEVICE_NOT_INITIALIZED and no register changes; otherwise the registers hold the chunk's command exactly as the kernel driver would program it, and the status is OK |
| SeqMatcher.CSeqMatcher.AlignmentStart | experiments/SW_fpga/src/CSeqMatcher.cpp:149-168 | with no mapping the status is DEVICE_NOT_INITIALIZED; otherwise ap_start is raised in control, every other bit and register is kept, and the status is OK |
| SeqMatcher.CSeqMatcher.AlignmentWait | experiments/SW_fpga/src/CSeqMatcher.cpp:18-41 | as written: with no mapping the status is DEVICE_NOT_INITIALIZED; otherwise polling stops at the first read with ap_done or times out after 500000 reads with none, and the status is OK in both cases |
| SeqMatcher.CSeqMatcher.AlignmentWaitReportingTimeout | experiments/SW_fpga/src/CSeqMatcher.cpp:18-41 | corrected twin: OK exactly when ap_done was seen within the poll limit, a distinct timeout status otherwise |
| SeqMatcher.CSeqMatcher.AlignmentDriverConfig | experiments/SW_fpga/src/CSeqMatcher.cpp:170-218 | with descriptor 0 or no complete binding the status is DEVICE_NOT_INITIALIZED and nothing is sent (registers, wait type and write log unchanged); a closed or failed descriptor makes `write` fail, so only the warning is produced, the driver's registers and write log are unchanged and the status is OK; an open descriptor makes the driver's registers receive the chunk's command with the interrupt wait type, through exactly the twelve writes of seq_write in order, and the status is OK |
| SeqMatcher.CSeqMatcher.AlignmentDriverStart | experiments/SW_fpga/src/CSeqMatcher.cpp:220-233 | with descriptor 0 the status is DEVICE_NOT_INITIALIZED; a closed or failed descriptor makes `read` fail and leaves the registers and the flag unchanged; an open one starts the run through the driver's read: ap_start raised, interrupts left disabled, every other register (the addresses and counts AlignmentDriverConfig programmed among them) unchanged, the flag at 1 and isr disarmed when the stored wait type waits, and the write log extended by exactly the read handler's writes; every non-zero descriptor gives OK |
| SequenceFile.FirstNul | experiments/SW_fpga/src/HW_split_block.cpp:77-78 | the first NUL of the line buffer at or after j: every byte before it is non-NUL |
| SequenceFile.Stop | experiments/SW_fpga/src/HW_split_block.cpp:93-101 | the copy of a sequence line stops at its first NUL or after MAX_SEQ_LENGTH (360) bytes, whichever comes first |
| SequenceFile.NonNewlines | experiments/SW_fpga/src/HW_split_block.cpp:94-99 | the count of bytes that are not newlines is at most the length |
| SequenceFile.LineLength | experiments/SW_fpga/src/HW_split_block.cpp:92-103 | the length recorded for a sequence line never exceeds 360 |
| SequenceFile.CopiedSlot | experiments/SW_fpga/src/HW_split_block.cpp:93-101 | copying a line into a slot keeps the slot's size of 360 bytes |
| SequenceFile.PutSlot | experiments/SW_fpga/src/HW_split_block.cpp:95 | replacing one slot keeps the buffer's size |
| SequenceFile.Slot | experiments/SW_fpga/src/HW_split_block.cpp:95 | a slot is 360 bytes |
| SequenceFile.Init | experiments/SW_fpga/src/HW_split_block.cpp:63-67 | before the first line every slot starts with a NUL and every length is 0, and no other byte changes; no sequence is counted yet |
| SequenceFile.Step | experiments/SW_fpga/src/HW_split_block.cpp:72-105 | one line keeps the reader's shape: at most capacity sequences, buffers of fixed size |
| SequenceFile.Run | experiments/SW_fpga/src/HW_split_block.cpp:72-106 | reading the whole file keeps the reader's shape |
| SequenceFile.RunCount | experiments/SW_fpga/src/HW_split_block.cpp:72-86 | the number of sequences read is the number of header lines, capped at the capacity, unless a sequence line came before any header |
| SequenceFile.BlankFirstLineFaults | experiments/SW_fpga/src/HW_split_block.cpp:42-103 | as written: a file whose first line is blank reaches the sequence-line branch with no sequence open, so the reader faults with count 0 |
| SequenceFile.InitCorrected | experiments/SW_fpga/src/HW_split_block.cpp:42-68 | corrected twin of the initial state: no sequence open and `ignore` set, so lines before the first header are skipped |
| SequenceFile.IgnoringReaderNeverFaults | experiments/SW_fpga/src/HW_split_block.cpp:72-105 | a reader that ignores lines while no sequence is open never faults, whatever the lines |
| SequenceFile.IgnoringReaderAgrees | experiments/SW_fpga/src/HW_split_block.cpp:72-105 | with no sequence open, setting `ignore` changes neither buffers, count nor stop on any file the as-written reader reads without a fault |
| SequenceFile.CorrectedReaderCounts | experiments/SW_fpga/src/HW_split_block.cpp:70-106 | the corrected reader never faults, reads min(headers, MAX_SEQUENCES) sequences, and leaves the same buffers as the as-written reader wherever that one does not fault |
| SequenceFile.CountIsHeadersUpToCapacity | experiments/SW_fpga/src/HW_split_block.cpp:70-106 | from the start, the reader accepts at most MAX_SEQUENCES sequences, one per header |
| SequenceFile.LengthsBounded | experiments/SW_fpga/src/HW_split_block.cpp:92-103 | every recorded length stays within 0..360 |
| SequenceFile.IgnoredLinesKeepBuffers | experiments/SW_fpga/src/HW_split_block.cpp:87-89 | the lines after a `+` line, up to the next header, change neither buffer nor the count |
| SequenceFile.SequenceLineWritesOneSlot | experiments/SW_fpga/src/HW_split_block.cpp:90-104 | a sequence line writes only the current sequence's slot and length; every other byte and length is kept |
| SequenceFile.ParseSequences | experiments/SW_fpga/src/HW_split_block.cpp:63-106 | the zeroing loop and the line loop leave in the two DMA buffers exactly what the reader specification computes, with the same count and fault |
| SequenceFile.ZeroSlots | experiments/SW_fpga/src/HW_split_block.cpp:63-67 | the zeroing loop leaves the buffers as the reader's initial state says |
| SequenceFile.StoreLine | experiments/SW_fpga/src/HW_split_block.cpp:92-103 | a sequence line replaces exactly the current slot by its copy and records its length |
| SequenceFile.CopyLine | experiments/SW_fpga/src/HW_split_block.cpp:93-101 | the inner copy loop writes the slot as the copy specification says, leaves the rest of the buffer alone, and counts the non-newline bytes before the stop |
| SplitBlock.AvailableMemory | experiments/SW_fpga/src/HW_split_block.cpp:134 | with no more than 420000000 bytes accounted, the budget left is the difference; beyond it the signed result is negative |
| SplitBlock.QuerySizeBounds | experiments/SW_fpga/src/HW_split_block.cpp:139-154 | when one query per target fits, the chunk width is between 1 and nq and nt chunks of it fit in the budget |
| SplitBlock.QuerySize | experiments/SW_fpga/src/HW_split_block.cpp:139-148 | definition: min(maxComputations / nt, nq); QuerySizeBounds states its range and that nt chunks of it fit |
| SplitBlock.FullChunksFit | experiments/SW_fpga/src/HW_split_block.cpp:200 | chunk k + 1 still fits within nq queries exactly when k + 1 <= nq / qSize, so the loop issues nq / qSize full chunks |
| SplitBlock.FullChunks | experiments/SW_fpga/src/HW_split_block.cpp:200-203 | definition: the nq / qSize full chunks of a sweep; FullChunksFit, FullChunkShape and FullChunksContiguous state their number, shape and order |
| SplitBlock.FullChunk | experiments/SW_fpga/src/HW_split_block.cpp:200-203 | definition: full chunk k, queries from k qSize, qSize of them; FullChunkShape states its shape |
| SplitBlock.RemainderChunk | experiments/SW_fpga/src/HW_split_block.cpp:204-207 | definition: the remainder chunk of the given width when qSize does not divide nq; RemainderWidthOverruns and RemainderWidthMissesQueries show the width 182 as written |
| SplitBlock.SweepChunks | experiments/SW_fpga/src/HW_split_block.cpp:200-207 | definition: the full chunks then the remainder chunk of width 182; IssueSweep is proved against it |
| SplitBlock.RunChunk | experiments/SW_fpga/src/HW_split_block.cpp:200-218 | definition: a chunk run through the driver (config, start) or through the registers (config, start, wait); RunChunksAppend and IssueSweep use it |
| SplitBlock.Calibration | experiments/SW_fpga/src/HW_split_block.cpp:173-182 | definition: the timed first chunk, qSize queries through the driver and all nq through the registers; CalibrateAndRun is proved against it |
| SplitBlock.ParseFile | experiments/SW_fpga/src/HW_split_block.cpp:63-106 | read_file's buffers hold what the reader specification computes from the lines, with the addresses handed in |
| SplitBlock.AllocReadBuffers | experiments/SW_fpga/src/HW_split_block.cpp:51-53 | the three DMA requests return each block or NULL, and the registry gains exactly the blocks that were obtained |
| SplitBlock.DescriptionsDropped | experiments/SW_fpga/src/HW_split_block.cpp:109 | freeing the descriptions buffer leaves exactly the sequence and length buffers registered |
| SplitBlock.Register | experiments/SW_fpga/src/HW_split_block.cpp:51-53 | the registry after one allocation gains the block exactly when the allocation succeeded |
| SplitBlock.SequenceSet.constructor | experiments/SW_fpga/src/HW_split_block.cpp:29-32 | the returned record holds the sequence and length buffers |
| SplitBlock.Host.constructor | experiments/SW_fpga/src/HW_split_block.cpp:23 | `current_alloc` starts at 0 |
| SplitBlock.Host.ReadFile | experiments/SW_fpga/src/HW_split_block.cpp:35-112 | if any of the three allocations fails, NULL is returned and the accounting is unchanged; otherwise the descriptions buffer is freed, the sequence and length buffers are registered and accounted modulo 2^64, and their content is what the reader specification computes |
| SplitBlock.Host.AccountReadBuffers | experiments/SW_fpga/src/HW_split_block.cpp:60-61 | `current_alloc` grows by the sequence and length buffer sizes, modulo 2^64 |
| SplitBlock.Host.SplitBlock | experiments/SW_fpga/src/HW_split_block.cpp:120-259 | an exceeded budget or too many targets issue nothing; otherwise the chunk width is min(budget / nt, nq); a failed output allocation stops after it; a failed InitConfig frees the output; otherwise the calibration chunk (below 100000 targets) and the given number of sweeps are issued in order, then the output is freed; the output is first filled with 27334 |
| SplitBlock.RunWithQuerySize | experiments/SW_fpga/src/HW_split_block.cpp:156-258 | the same outcome and call sequence once the chunk width is known |
| SplitBlock.CalibrateAndRun | experiments/SW_fpga/src/HW_split_block.cpp:173-220 | below 100000 targets the timed calibration chunk comes first and the repetitions are the measured ones; otherwise one sweep |
| SplitBlock.IssueRepetitions | experiments/SW_fpga/src/HW_split_block.cpp:198-220 | the repetition loop issues the sweep exactly `repetitions` times |
| SplitBlock.FillOutput | experiments/SW_fpga/src/HW_split_block.cpp:162-163 | every output entry is 27334 before the first run |
| SplitBlock.IssueSweep | experiments/SW_fpga/src/HW_split_block.cpp:200-207 | one sweep issues the full chunks at query offsets 0, qSize, 2 qSize, ... and then, when qSize does not divide nq, the remainder chunk, as written with 182 queries |
| SplitBlock.SweepStep | experiments/SW_fpga/src/HW_split_block.cpp:200-203 | each iteration of the chunk loop issues the next full chunk |
| SplitBlock.RunChunksAppend | experiments/SW_fpga/src/HW_split_block.cpp:200-207 | the calls of two chunk lists in a row are the calls of each list in turn |
| SplitBlock.FullChunkShape | experiments/SW_fpga/src/HW_split_block.cpp:200-203 | full chunk k covers queries from k qSize, qSize of them, against all nt targets from offset 0 |
| SplitBlock.FullChunksContiguous | experiments/SW_fpga/src/HW_split_block.cpp:200-203 | each full chunk ends where the next begins |
| SplitBlock.RemainderWidthOverruns | experiments/SW_fpga/src/HW_split_block.cpp:204-207 | as written: 250 queries in chunks of 100 give a remainder chunk reaching query 382 and writing past the output sized for 100 queries |
| SplitBlock.RemainderWidthMissesQueries | experiments/SW_fpga/src/HW_split_block.cpp:204-207 | as written: 399 queries in chunks of 200 leave query 398 in no chunk |
| SplitBlock.CorrectedSweepPartitions | experiments/SW_fpga/src/HW_split_block.cpp:200-207 | corrected twin (remainder width nq % qSize): the chunks cover every query exactly once and none reaches beyond nq |
| SplitBlock.CorrectedChunkAt | experiments/SW_fpga/src/HW_split_block.cpp:200-207 | corrected chunk i starts at i qSize and holds qSize queries, or the remainder for the last |
| SplitBlock.CorrectedSweepInBounds | experiments/SW_fpga/src/HW_split_block.cpp:200-207 | no corrected chunk reaches beyond the last query |
| SplitBlock.CorrectedSweepCovers | experiments/SW_fpga/src/HW_split_block.cpp:200-207 | every query lies in some corrected chunk |
| SplitBlock.CorrectedChunkCovers | experiments/SW_fpga/src/HW_split_block.cpp:200-207 | query q lies in corrected chunk q / qSize |
| SplitBlock.CorrectedSweepDisjoint | experiments/SW_fpga/src/HW_split_block.cpp:200-207 | no query lies in two corrected chunks |
| SplitBlock.CorrectedChunksApart | experiments/SW_fpga/src/HW_split_block.cpp:200-207 | an earlier corrected chunk ends before a later one begins |
| SeqMatcherHw.NucleotideCodesDistinct | fpga_design/HLS_v0/Seqmatcher.cpp:41-42 | bits 1 and 2 of the ASCII codes give A, C, G and T four different 2-bit codes (00, 01, 11, 10) |
| SeqMatcherHw.BitProcess | fpga_design/HLS_v0/Seqmatcher.cpp:32-43 | for every index below the length, bit i of the two vectors becomes bit 1 and bit 2 of byte offset + i; every bit from the length up keeps its old value |
| SeqMatcherHw.BlockWidth | fpga_design/HLS_v0/Seqmatcher.cpp:87-88 | a query block starting below the query count holds between 1 and QUERY_BLOCK_SIZE queries and never runs past the last query |
| SeqMatcherHw.NumBlocks | fpga_design/HLS_v0/Seqmatcher.cpp:82 | the block loop runs the least number of blocks that covers every query |
| SeqMatcherHw.Row | fpga_design/HLS_v0/Seqmatcher.cpp:115-125 | one target sends exactly one message per query of the block |
| SeqMatcherHw.Rows | fpga_design/HLS_v0/Seqmatcher.cpp:106-128 | the targets of one block send targets times block-width messages |
| SeqMatcherHw.PairsCount | fpga_design/HLS_v0/Seqmatcher.cpp:82-129 | after b blocks, targets times the number of queries covered so far messages have been sent |
| SeqMatcherHw.RowsMembers | fpga_design/HLS_v0/Seqmatcher.cpp:106-128 | a block's messages are for exactly the pairs of a target below the count and a query inside the block |
| SeqMatcherHw.PairsMembers | fpga_design/HLS_v0/Seqmatcher.cpp:82-129 | after b blocks, the messages are for exactly the pairs whose query lies in one of the first b blocks |
| SeqMatcherHw.RowsDistinct | fpga_design/HLS_v0/Seqmatcher.cpp:106-128 | within a block no pair is sent twice |
| SeqMatcherHw.PairsDistinct | fpga_design/HLS_v0/Seqmatcher.cpp:82-129 | across blocks no pair is sent twice |
| SeqMatcherHw.AllPairsEnumerate | fpga_design/HLS_v0/Seqmatcher.cpp:82-129 | read_in sends nt * nq messages, one for every (target, query) pair, in both directions of membership, each pair once |
| SeqMatcherHw.IdsInjective | fpga_design/HLS_v0/Seqmatcher.cpp:89-127 | different pairs with in-range queries get different ids |
| SeqMatcherHw.IdsArePositions | fpga_design/HLS_v0/Seqmatcher.cpp:89-127 | the ids of all pairs are exactly 0 .. nt * nq - 1: each pair's id is below nt * nq, and every id below it is the id of some pair |
| SeqMatcherHw.IdBelow | fpga_design/HLS_v0/Seqmatcher.cpp:89-127 | a pair inside the tables has an id below nt * nq |
| SeqMatcherHw.Id | fpga_design/HLS_v0/Seqmatcher.cpp:89-127 | definition: the target-major id target * nq + query; IdsInjective, IdBelow and PairOfId state that it numbers the pairs one to one |
| SeqMatcherHw.PairOfId | fpga_design/HLS_v0/Seqmatcher.cpp:89-127 | every id below nt * nq is the id of the pair (id / nq, id % nq), and that pair is inside the tables |
| SeqMatcherHw.PairOf | fpga_design/HLS_v0/Seqmatcher.cpp:89-127 | the pair decoded from an id has its query below nq |
| SeqMatcherHw.ReadIn | fpga_design/HLS_v0/Seqmatcher.cpp:65-130 | the messages sent are the messages of all pairs in the kernel's order (block, then target, then query); there are nt * nq of them, their ids are below nt * nq and pairwise different; each message carries the 9-bit lengths and the code bits of its target and query |
| SeqMatcherHw.BlockExtendsPairs | fpga_design/HLS_v0/Seqmatcher.cpp:82-129 | appending one block's messages to the messages so far gives the messages of the pairs of one more block |
| SeqMatcherHw.PairsNext | fpga_design/HLS_v0/Seqmatcher.cpp:82-88 | a block starting below nq exists and adds its targets' rows to the pairs |
| SeqMatcherHw.PairsDone | fpga_design/HLS_v0/Seqmatcher.cpp:82 | the first block that starts at or past nq ends the loop, after all blocks |
| SeqMatcherHw.MessageIds | fpga_design/HLS_v0/Seqmatcher.cpp:89-127 | the messages of all pairs number nt * nq and carry ids below nt * nq, no two the same |
| SeqMatcherHw.MessageIdsCover | fpga_design/HLS_v0/Seqmatcher.cpp:89-127 | every id below nt * nq is carried by some message, so every output entry of the tables is written |
| SeqMatcherHw.SendBlock | fpga_design/HLS_v0/Seqmatcher.cpp:106-128 | a block's target loop sends, target by target, the messages of every (target, query-of-block) pair with id target * nq + query |
| SeqMatcherHw.CarriesAllAppend | fpga_design/HLS_v0/Seqmatcher.cpp:122 | the messages of two pair lists, appended, are the messages of the appended lists |
| SeqMatcherHw.SendTarget | fpga_design/HLS_v0/Seqmatcher.cpp:109-125 | one target's code bits are packed over the vectors left by the previous target and one message goes out per query of the block, carrying the pair's id, both 9-bit lengths and the code bits below each length |
| SeqMatcherHw.ReadQueryBlock | fpga_design/HLS_v0/Seqmatcher.cpp:92-103 | the block's queries are packed in order: each entry holds the query's 9-bit length and its code bits, with every bit from the length up 0 |
| SeqMatcherHw.ReadQuery | fpga_design/HLS_v0/Seqmatcher.cpp:95-101 | a query's length is truncated to 9 bits and its code bits are packed from zero vectors |
| SeqMatcherHw.QueryBits | fpga_design/HLS_v0/Seqmatcher.cpp:95-101 | definition: the two code-bit vectors of a query, packed up to its 9-bit length; Packed and ReadQuery state their bits |
| SeqMatcherHw.QueryBlockExtend | fpga_design/HLS_v0/Seqmatcher.cpp:92-103 | reading one more query extends the packed block by exactly that query |
| SeqMatcherHw.Signed11 | fpga_design/HLS_v0/globals.h:30 | an ap_int<11> value lies in [-1024, 1023] and keeps any value already in that range |
| SeqMatcherHw.Unsigned9 | fpga_design/HLS_v0/globals.h:31 | an ap_uint<9> value lies below 512 |
| SeqMatcherHw.Signed9 | fpga_design/HLS_v0/Seqmatcher.cpp:160 | an ap_int<9> value lies in [-256, 255] and keeps any value already in that range |
| SeqMatcherHw.PositionSurvivesSigned9 | fpga_design/HLS_v0/Seqmatcher.cpp:160-189 | a position below 512 stored in the signed 9-bit min_pos reads back unchanged through the unsigned 9-bit pos |
| SeqMatcherHw.Delta | fpga_design/HLS_v0/Seqmatcher.cpp:177 | one reference position moves the score by -1, 0 or +1: HP minus HN at the pattern's last bit, and for a length-0 pattern (bit index -1) the two unspecified bits instead |
| SeqMatcherHw.CompCells | fpga_design/HLS_v0/Seqmatcher.cpp:172-176 | definition: D0, HN and HP of one comp_cells iteration from the mask, VP and VN; no contract of its own, the scan lemmas (ScanAfterNext, StepIgnoresUndefinedBits) state what follows from it |
| SeqMatcherHw.Advance | fpga_design/HLS_v0/Seqmatcher.cpp:177-184 | the score moves by the position's delta and is kept in 11 bits; for a length-0 pattern it moves by the unspecified bits alone |
| SeqMatcherHw.UndefinedScore | fpga_design/HLS_v0/Seqmatcher.cpp:159-177 | the score a length-0 pattern reaches after n positions, moved only by the unspecified bits, stays within n of 0 |
| SeqMatcherHw.ScanAfter | fpga_design/HLS_v0/Seqmatcher.cpp:159-185 | after n reference positions the score stays within n of the pattern length, so the 11-bit score never wraps; for a length-0 pattern it is the score the unspecified bits alone give |
| SeqMatcherHw.Step | fpga_design/HLS_v0/Seqmatcher.cpp:172-184 | one iteration of comp_cells changes the score by at most one |
| SeqMatcherHw.ScanAfterNext | fpga_design/HLS_v0/Seqmatcher.cpp:172-184 | the state after j + 1 positions is the comp_cells iteration applied to the state after j |
| SeqMatcherHw.ScoreList | fpga_design/HLS_v0/Seqmatcher.cpp:177 | the list of scores has one entry per reference position scanned |
| SeqMatcherHw.ScoreListAt | fpga_design/HLS_v0/Seqmatcher.cpp:177 | entry j of the score list is the score after reference position j |
| SeqMatcherHw.ScoreListNext | fpga_design/HLS_v0/Seqmatcher.cpp:177 | scanning one more position appends exactly that position's score |
| SeqMatcherHw.MinTrackNext | fpga_design/HLS_v0/Seqmatcher.cpp:178-181 | one more score replaces the running minimum, with its position, exactly when it is strictly lower |
| SeqMatcherHw.MinTrack | fpga_design/HLS_v0/Seqmatcher.cpp:178-181 | definition: the running minimum and its position, replaced only by a strictly lower score; its contract is MinTrackNext, MinTrackIsMinimum, MinTrackUntouched and MinTrackIsEarliest |
| SeqMatcherHw.MinTrackIsMinimum | fpga_design/HLS_v0/Seqmatcher.cpp:159-181 | the tracked minimum is at most the pattern length and at most every score |
| SeqMatcherHw.MinTrackUntouched | fpga_design/HLS_v0/Seqmatcher.cpp:160-181 | while no score went below the pattern length the position stays 0 |
| SeqMatcherHw.MinTrackIsEarliest | fpga_design/HLS_v0/Seqmatcher.cpp:178-181 | a minimum below the start sits at a position whose score it is, and every earlier score is strictly higher |
| SeqMatcherHw.MatchPos | fpga_design/HLS_v0/Seqmatcher.cpp:189 | the reported position fits in 9 bits |
| SeqMatcherHw.MatchPosWithoutImprovement | fpga_design/HLS_v0/Seqmatcher.cpp:159-181 | a scan whose scores never go below the pattern length reports position 0 |
| SeqMatcherHw.MatchPosIsEarliestMinimum | fpga_design/HLS_v0/Seqmatcher.cpp:168-189 | when some score goes below the pattern length the reported position is a reference position with the lowest score of the scan, and every earlier position scores strictly higher |
| SeqMatcherHw.StringMatching | fpga_design/HLS_v0/Seqmatcher.cpp:154-192 | for every message whose lengths fit the vectors, length-0 patterns included, the worker's answer carries the message's id and the earliest position of the lowest score, as the reference scan defines it for the given unspecified bits |
| SeqMatcherHw.AdvanceIgnoresUndefinedBits | fpga_design/HLS_v0/Seqmatcher.cpp:177 | for a pattern of length 1 or more the step does not depend on the unspecified bits |
| SeqMatcherHw.StepIgnoresUndefinedBits | fpga_design/HLS_v0/Seqmatcher.cpp:172-184 | from equal states, one more position of a non-empty pattern gives equal states whatever the unspecified bits |
| SeqMatcherHw.MatchPosIgnoresUndefinedBits | fpga_design/HLS_v0/Seqmatcher.cpp:159-189 | the answer for a non-empty pattern is the same for every choice of the unspecified bits |
| SeqMatcherHw.EmptyPatternScores | fpga_design/HLS_v0/Seqmatcher.cpp:159-177 | every score of a length-0 pattern is the sum of the unspecified bits read so far |
| SeqMatcherHw.AnswerOfTwo | fpga_design/HLS_v0/Seqmatcher.cpp:178-189 | over two scores from 0, the answer is 1 exactly when the second is below both the first and 0, otherwise 0 |
| SeqMatcherHw.EmptyPatternTwoPositions | fpga_design/HLS_v0/Seqmatcher.cpp:159-189 | a length-0 pattern against two reference positions answers 1 exactly when the second undefined score is below the first and below 0 |
| SeqMatcherHw.EmptyPatternAnswerUnspecified | fpga_design/HLS_v0/Seqmatcher.cpp:177 | the answer for a length-0 pattern depends on the unspecified bits: with all of them 0 it is 0, with only the HN bit at position 1 set it is 1 |
| SeqMatcherHw.Scatter | fpga_design/HLS_v0/Seqmatcher.cpp:145 | storing the answers leaves the output's length unchanged |
| SeqMatcherHw.ScatterStoresEachAnswer | fpga_design/HLS_v0/Seqmatcher.cpp:136-148 | with distinct ids, every answer's position ends up at its id and entries no answer names keep their value |
| SeqMatcherHw.WriteOut | fpga_design/HLS_v0/Seqmatcher.cpp:136-148 | the output becomes the old output with the first nseqt * nseqq answers stored, in order, each at its id |
| SeqMatcherHw.RowMajorBelow | fpga_design/HLS_v0/Seqmatcher.cpp:138-146 | the nested loops of write_out read answer number j * nseqt + i, which stays below nseqt * nseqq |
| SeqMatcherHw.ScatterNext | fpga_design/HLS_v0/Seqmatcher.cpp:144-145 | reading one more answer stores its position at its id on top of the earlier stores |
| SeqMatcherHw.ScanReadsRefBelowLength | fpga_design/HLS_v0/Seqmatcher.cpp:168-172 | the scan state after n positions depends only on the reference bits below the reference length |
| SeqMatcherHw.ScoreListsAgree | fpga_design/HLS_v0/Seqmatcher.cpp:168-172 | messages that agree below the reference length give the same score list |
| SeqMatcherHw.MatchPosReadsRefBelowLength | fpga_design/HLS_v0/Seqmatcher.cpp:168-172 | the stale reference bits above the length, left from an earlier target, never change an answer |
| SeqMatcherHw.Packed | fpga_design/HLS_v0/Seqmatcher.cpp:96-98 | a packed vector holds the code bit of each byte below the length and 0 from the length up |
| SeqMatcherHw.PairMessage | fpga_design/HLS_v0/Seqmatcher.cpp:109-120 | the clean message of a pair is one the kernel may send for it |
| SeqMatcherHw.PairMessageScannable | fpga_design/HLS_v0/Seqmatcher.cpp:168-177 | the message of every pair, length-0 queries included, has both lengths within the vectors |
| SeqMatcherHw.PairAnswer | fpga_design/HLS_v0/Seqmatcher.cpp:189 | the answer for a pair fits in 9 bits |
| SeqMatcherHw.CarriedMessageMatchesPair | fpga_design/HLS_v0/Seqmatcher.cpp:109-111 | every message read_in may send for a pair gets that pair's answer |
| SeqMatcherHw.SeqMatcherHW | fpga_design/HLS_v0/Seqmatcher.cpp:198-225 | for every (target, query) pair, output entry target * nq + query holds the position the scan finds for that pair; every entry from nt * nq up keeps its value; no query has to be non-empty, and the unspecified bits are a parameter |
| SeqMatcherHw.ScatteredAnswers | fpga_design/HLS_v0/Seqmatcher.cpp:136-148 | write_out's stores put each pair's answer at the pair's id and leave the entries past nt * nq alone |
| SeqMatcherHw.Workers | fpga_design/HLS_v0/Seqmatcher.cpp:212-222 | the workers give one answer per message, in message order, each carrying the message's id and its scan position; no query has to be non-empty, and the unspecified bits are a parameter |
| SeqMatcherHw.CarriedAreScannable | fpga_design/HLS_v0/Seqmatcher.cpp:168-177 | every message read_in sends has both lengths within the vectors |
| SeqMatcherHw.AnswerOfPair | fpga_design/HLS_v0/Seqmatcher.cpp:198-225 | among the answers there is one for each pair, carrying the pair's id and its answer |
| LogicalBlock.ValBound | fpga_design/HLS_v0/globals.h:33 | a vector of n bits stands for a number below 2^n |
| LogicalBlock.ValInjective | fpga_design/HLS_v0/globals.h:33 | two bit vectors of the same width with the same value are the same vector |
| LogicalBlock.ValAppendFalse | fpga_design/HLS_v0/globals.h:33 | a zero bit on top does not change the value |
| LogicalBlock.ValSplitLast | fpga_design/HLS_v0/globals.h:33 | a vector's value is that of its lower bits plus the weight of its top bit |
| LogicalBlock.Val | fpga_design/HLS_v0/globals.h:33 | definition: the unsigned number an ap_uint<360> stands for, bit 0 least significant; ValBound, ValInjective, ValAppendFalse and ValSplitLast state its properties |
| LogicalBlock.Bitwise | fpga_design/HLS_v0/logical_block.h:6-19 | a bitwise operation keeps the operands' width |
| LogicalBlock.BitwiseAt | fpga_design/HLS_v0/logical_block.h:6-19 | bit i of or, xor and and is the operation applied to the operands' bits i |
| LogicalBlock.BitwiseBits | fpga_design/HLS_v0/logical_block.h:6-19 | every bit of a bitwise operation is the operation on the operands' bits at that index |
| LogicalBlock.BitwiseValues | fpga_design/HLS_v0/logical_block.h:6-19 | on values, or plus and is the sum of the operands, and so is xor plus twice and |
| LogicalBlock.OrPlusAnd | fpga_design/HLS_v0/logical_block.h:6-19 | _mm512_or_si512 plus _mm512_and_si512 of two vectors equals the sum of their values |
| LogicalBlock.XorPlusTwiceAnd | fpga_design/HLS_v0/logical_block.h:11-19 | _mm512_xor_si512 plus twice _mm512_and_si512 equals the sum of the operands' values (the half adder) |
| LogicalBlock.Or | fpga_design/HLS_v0/logical_block.h:6-9 | definition: `_mm512_or_si512`, bitwise or; BitwiseBits, OrPlusAnd and OrComplement state its bits and value |
| LogicalBlock.Xor | fpga_design/HLS_v0/logical_block.h:11-14 | definition: `_mm512_xor_si512`, bitwise exclusive or; BitwiseBits, XorPlusTwiceAnd and XorInvolutive state its bits and value |
| LogicalBlock.And | fpga_design/HLS_v0/logical_block.h:16-19 | definition: `_mm512_and_si512`, bitwise and; BitwiseBits, OrPlusAnd and AndComplement state its bits and value |
| LogicalBlock.Complement | fpga_design/HLS_v0/logical_block.h:43-44 | the complement keeps the width |
| LogicalBlock.ComplementAt | fpga_design/HLS_v0/logical_block.h:43-44 | bit i of the complement is the negation of bit i |
| LogicalBlock.ComplementBits | fpga_design/HLS_v0/logical_block.h:43-44 | every bit of the complement is the negation of the same bit |
| LogicalBlock.Not | fpga_design/HLS_v0/logical_block.h:43-44 | definition: `~` on ap_uint<360>; ComplementBits and NotValue state its bits and value |
| LogicalBlock.Zeros | fpga_design/HLS_v0/logical_block.h:43-44 | the vector 0 stands for the number 0 |
| LogicalBlock.ZerosVal | fpga_design/HLS_v0/logical_block.h:43-44 | a vector with no bit set stands for 0 |
| LogicalBlock.Ones | fpga_design/HLS_v0/logical_block.h:43-44 | the vector ~0 stands for 2^360 - 1 |
| LogicalBlock.OnesVal | fpga_design/HLS_v0/logical_block.h:43-44 | a vector of n set bits stands for 2^n - 1 |
| LogicalBlock.OnesIsNotZeros | fpga_design/HLS_v0/logical_block.h:43-44 | ~0 is the all-one vector |
| LogicalBlock.OrComplement | fpga_design/HLS_v0/logical_block.h:6-9 | a vector or its complement is all ones |
| LogicalBlock.AndComplement | fpga_design/HLS_v0/logical_block.h:16-19 | a vector and its complement is all zeros |
| LogicalBlock.NotValue | fpga_design/HLS_v0/logical_block.h:43-44 | the complement of a vector stands for 2^360 - 1 minus its value |
| LogicalBlock.XorInvolutive | fpga_design/HLS_v0/logical_block.h:11-14 | xor with the same vector twice gives the vector back |
| LogicalBlock.NotOrIsAndOfNots | fpga_design/HLS_v0/logical_block.h:6-19 | the complement of an or is the and of the complements (De Morgan) |
| LogicalBlock.Eq | fpga_design/HLS_v0/logical_block.h:21-24 | eq holds exactly when the two vectors agree at every bit |
| LogicalBlock.EqIffSameValue | fpga_design/HLS_v0/logical_block.h:21-24 | eq holds exactly when the two vectors stand for the same number, in both directions |
| LogicalBlock.ShiftLeftBits | fpga_design/HLS_v0/logical_block.h:26-29 | shift_left clears bit 0 and moves every bit i to i + 1, dropping the top bit |
| LogicalBlock.ShiftRightBits | fpga_design/HLS_v0/logical_block.h:31-34 | shift_right clears the top bit and moves every bit i + 1 to i, dropping bit 0 |
| LogicalBlock.ShiftLeft | fpga_design/HLS_v0/logical_block.h:26-29 | definition: `reg << 1`; ShiftLeftBits and ShiftLeftDoubles state its bits and value |
| LogicalBlock.ShiftRight | fpga_design/HLS_v0/logical_block.h:31-34 | definition: `reg >> 1`; ShiftRightBits and ShiftRightHalves state its bits and value |
| LogicalBlock.ShiftLeftDoubles | fpga_design/HLS_v0/logical_block.h:26-29 | shift_left doubles the value modulo 2^360 |
| LogicalBlock.ShiftRightHalves | fpga_design/HLS_v0/logical_block.h:31-34 | shift_right halves the value, rounding down |
| LogicalBlock.AddBits | fpga_design/HLS_v0/logical_block.h:36-39 | the ripple-carry adder keeps the operands' width |
| LogicalBlock.AddBitsCorrect | fpga_design/HLS_v0/logical_block.h:36-39 | the adder's sum bits plus its carry out, weighted by 2^n, equal the operands' values plus the carry in |
| LogicalBlock.SumIsAdditionModulo | fpga_design/HLS_v0/logical_block.h:36-39 | sum on ap_uint<360> is addition of the values modulo 2^360 |
| LogicalBlock.Sum | fpga_design/HLS_v0/logical_block.h:36-39 | definition: `A + B` as a ripple-carry adder with carry in 0; SumIsAdditionModulo states that it is addition modulo 2^360 |
| LogicalBlock.Code | fpga_design/HLS_v0/logical_block.h:43-44 | definition: `next_bit ? 0 : ~0`; CodeBits states its bits |
| LogicalBlock.MaskPattern2Bit | fpga_design/HLS_v0/logical_block.h:41-48 | definition: `mask_pattern_2bit_v2`; MaskPattern2BitMatches states which bits it sets |
| LogicalBlock.CodeBits | fpga_design/HLS_v0/logical_block.h:43-44 | the code vector of a reference bit is ~0 when the bit is 0 and 0 when it is 1 |
| LogicalBlock.MaskPattern2BitMatches | fpga_design/HLS_v0/logical_block.h:41-48 | bit i of the mask is set exactly when pattern position i holds the reference nucleotide, that is, both of its code bits equal the reference's |
| Parser.LeadingSpaces | experiments/SW_fpga/bitloader/parser.hpp:30 | the count covers only space, tab, line feed and carriage return, and stops at the first other character |
| Parser.TrailingSpaces | experiments/SW_fpga/bitloader/parser.hpp:34 | the count covers only trailing whitespace and stops at the last other character |
| Parser.Trim | experiments/SW_fpga/bitloader/parser.hpp:29-36 | an all-whitespace string, the empty one included, comes back unchanged; any other comes back non-empty, starting and ending with a non-whitespace character |
| Parser.LeadingSpacesOf | experiments/SW_fpga/bitloader/parser.hpp:30 | whitespace followed by a non-whitespace character is exactly the leading run |
| Parser.TrailingSpacesOf | experiments/SW_fpga/bitloader/parser.hpp:34 | whitespace after a non-whitespace character is exactly the trailing run |
| Parser.TrimOfPadded | experiments/SW_fpga/bitloader/parser.hpp:29-36 | trim removes exactly the whitespace padding around a text that starts and ends with non-whitespace, whatever the padding |
| Parser.TrimIdempotent | experiments/SW_fpga/bitloader/parser.hpp:29-36 | trimming twice is trimming once |
| Parser.OccursAtChar | experiments/SW_fpga/bitloader/parser.hpp:48-49 | a one-character pattern occurs exactly where that character is |
| Parser.Find | experiments/SW_fpga/bitloader/parser.hpp:48-65 | find reports the first occurrence at or after the start index, and npos exactly when there is none |
| Parser.FindFirst | experiments/SW_fpga/bitloader/parser.hpp:62-65 | an occurrence with none before it, from the start index on, is the one find reports |
| Parser.FindAbsent | experiments/SW_fpga/bitloader/parser.hpp:65 | find reports npos when the pattern occurs nowhere from the start index on |
| Parser.ExtractValue | experiments/SW_fpga/bitloader/parser.hpp:61-71 | a line without VALUE=" yields the empty string, and a value never contains a double quote |
| Parser.ExtractValueOfAttribute | experiments/SW_fpga/bitloader/parser.hpp:61-71 | on a line whose first VALUE=" is followed by quote-free text and a closing quote, the value is exactly that text |
| Parser.ExtractValueUnclosed | experiments/SW_fpga/bitloader/parser.hpp:65-70 | a VALUE=" with no closing quote after it yields the empty string |
| Parser.KeyOfLine | experiments/SW_fpga/bitloader/parser.hpp:48-54 | a keys-file line yields a key exactly when it contains both a colon and a double quote |
| Parser.KeyText | experiments/SW_fpga/bitloader/parser.hpp:52 | the substring starts right after the quote and never runs past the end of the line; when the colon is at least three places after the quote its length is the size_t count colonPos - quotePos - 3 |
| Parser.FirstOccurrenceOf | experiments/SW_fpga/bitloader/parser.hpp:48-49 | a character absent from a prefix and present right after it is found at the prefix's length |
| Parser.QuoteOpensKey | experiments/SW_fpga/bitloader/parser.hpp:49 | the first double quote of a line whose prefix has none is the one after the prefix |
| Parser.ColonAfterKey | experiments/SW_fpga/bitloader/parser.hpp:48 | the first colon of a key line with a colon-free prefix and key is the one after the key |
| Parser.KeyOfSpacedLine | experiments/SW_fpga/bitloader/parser.hpp:48-54 | a line of the form `"KEY" : ...` whose prefix and key hold no colon or quote yields the trimmed key |
| Parser.KeyOfLineWith | experiments/SW_fpga/bitloader/parser.hpp:52 | a line whose first colon lies three places past the key text after the first quote yields that text trimmed |
| Parser.KeyOfUnspacedLine | experiments/SW_fpga/bitloader/parser.hpp:52 | a line of the form `"KEY": ...` (no space before the colon) yields the key without its last character |
| Parser.Touched | experiments/SW_fpga/bitloader/parser.hpp:80-100 | evaluating keysMap[key] for a set of keys adds exactly the missing ones and changes no stored value |
| Parser.TouchedStep | experiments/SW_fpga/bitloader/parser.hpp:80-100 | one more keysMap[key] inserts the key with "" only when it is missing, and reads what the table held |
| Parser.KeyLineCons | experiments/SW_fpga/bitloader/parser.hpp:47-55 | a key comes from some line exactly when it comes from the first line or from one of the rest |
| Parser.AddKey | experiments/SW_fpga/bitloader/parser.hpp:48-54 | definition: one keys-file line sets the key it yields to ""; KeysAddedEntries states the effect of all of them |
| Parser.KeysAdded | experiments/SW_fpga/bitloader/parser.hpp:47-55 | definition: the table after the keys-file lines in order; KeysAddedEntries states its keys and values |
| Parser.KeysAddedEntries | experiments/SW_fpga/bitloader/parser.hpp:47-55 | after the keys file a key is in the table exactly when it was there before or some line yields it; every key a line yields maps to "", every other key keeps its value |
| Parser.LineUpdate | experiments/SW_fpga/bitloader/parser.hpp:119-126 | one hardware-handoff line never adds or removes a key |
| Parser.ValuesFrom | experiments/SW_fpga/bitloader/parser.hpp:118-127 | scanning the hardware-handoff lines never adds or removes a key |
| Parser.ValuesFromAppend | experiments/SW_fpga/bitloader/parser.hpp:118-127 | scanning one more line applies that line's update on top of the earlier ones |
| Parser.ValuesFromLastValue | experiments/SW_fpga/bitloader/parser.hpp:118-127 | after the scan every key holds the value of the last line that mentions it with a non-empty VALUE, or its old value when there is none |
| Parser.LastValueIsLastUpdate | experiments/SW_fpga/bitloader/parser.hpp:120-124 | the last line that updates a key decides its value |
| Parser.LastValueWithoutUpdate | experiments/SW_fpga/bitloader/parser.hpp:120-124 | a key no line updates keeps its value |
| Parser.KeysMap.Get | experiments/SW_fpga/bitloader/parser.hpp:80 | keysMap[key] reads the stored value, or "" after inserting a missing key with an empty value; nothing else changes |
| Parser.Lookup | experiments/SW_fpga/bitloader/parser.hpp:80 | definition: what `keysMap[key]` reads, the stored value or ""; KeysMap.Get and TouchedLookups state it |
| Parser.KeysMap.ParseKeysJson | experiments/SW_fpga/bitloader/parser.hpp:39-58 | a keys file that cannot be opened leaves the table as it was; otherwise every line that yields a key sets that key to "", in order |
| Parser.KeysMap.UpdateWithLine | experiments/SW_fpga/bitloader/parser.hpp:119-126 | every key the line contains takes the line's value when that value is non-empty, whatever the order the keys are visited in; no key is added or removed |
| Parser.KeysMap.ParseFile | experiments/SW_fpga/bitloader/parser.hpp:107-130 | the keys file is read first; a design file that cannot be opened leaves the table as the keys file made it; otherwise the design lines update it in order |
| Parser.CSpaces | experiments/SW_fpga/bitloader/parser.hpp:80 | the run skipped before a number is white space as isspace defines it and stops at the first other character |
| Parser.DigitRun | experiments/SW_fpga/bitloader/parser.hpp:80 | the run read as a number holds only decimal digits |
| Parser.DigitsValue | experiments/SW_fpga/bitloader/parser.hpp:80 | definition: the number a run of decimal digits spells; DecimalValue and StoiOfDecimal state that it reads back to_string |
| Parser.Stoi | experiments/SW_fpga/bitloader/parser.hpp:80 | a parsed number fits in an int, and an empty or all-white-space string throws invalid_argument |
| Parser.Decimal | experiments/SW_fpga/bitloader/parser.hpp:79 | to_string of a natural number is a non-empty run of decimal digits |
| Parser.DecimalValue | experiments/SW_fpga/bitloader/parser.hpp:79 | the digits to_string writes spell the number back |
| Parser.DigitRunAll | experiments/SW_fpga/bitloader/parser.hpp:80 | a string of digits is read to its end |
| Parser.StoiOfDecimal | experiments/SW_fpga/bitloader/parser.hpp:79-80 | stoi reads back exactly what to_string writes, for every number up to INT_MAX |
| Parser.SourceIndex | experiments/SW_fpga/bitloader/parser.hpp:87-96 | exactly the names IOPLL, RPLL and APLL are accepted, with the indices 0, 2 and 3 |
| Parser.EntryOf | experiments/SW_fpga/bitloader/parser.hpp:77-104 | an iteration always sets clk_idx to i and always looks up the enable key |
| Parser.PlPart | experiments/SW_fpga/bitloader/parser.hpp:84-96 | the PL part never changes the index or the enable flag and only adds looked-up keys |
| Parser.PllPart | experiments/SW_fpga/bitloader/parser.hpp:97-103 | the PLL part keeps index, enable flag and source; when it throws nothing the PLL's own source is PSS_REF_CLK and pre_src is 0 |
| Parser.EntryDisabled | experiments/SW_fpga/bitloader/parser.hpp:80-83 | an enable flag other than 1 gives the entry its index and en = false, keeps every other field and looks up only the enable key |
| Parser.EntryWithoutEnable | experiments/SW_fpga/bitloader/parser.hpp:80 | a missing enable flag is read as "" and throws invalid_argument |
| Parser.EntryEnabled | experiments/SW_fpga/bitloader/parser.hpp:80-103 | an enabled entry that parses completely had enable flag 1, carries the index of its SRCSEL name, has a PLL fed from PSS_REF_CLK and pre_src 0 |
| Parser.EntryWithUnknownSource | experiments/SW_fpga/bitloader/parser.hpp:87-96 | an enabled entry with valid divisors whose SRCSEL is none of the three names throws Invalid clock source |
| Parser.TouchedLookups | experiments/SW_fpga/bitloader/parser.hpp:80-100 | inserting missing keys with "" changes the answer of no lookup |
| Parser.PllPartLookups | experiments/SW_fpga/bitloader/parser.hpp:97-103 | the PLL part depends only on what the lookups answer |
| Parser.PlPartLookups | experiments/SW_fpga/bitloader/parser.hpp:84-103 | the PL part depends only on what the lookups answer |
| Parser.EntryOfLookups | experiments/SW_fpga/bitloader/parser.hpp:78-103 | an iteration depends only on what the lookups answer, so the keys inserted by earlier iterations do not affect later ones |
| Parser.RegsFromEntries | experiments/SW_fpga/bitloader/parser.hpp:74-105 | when getRegs throws nothing, each of the four entries is what its own iteration makes of it against the original table, every iteration succeeds, and entries past the fourth are untouched |
| Parser.ParsePll | experiments/SW_fpga/bitloader/parser.hpp:97-103 | the PLL fields are parsed and stored in source order, stopping at the first throw, with the lookups inserting missing keys as the PLL part defines |
| Parser.ParsePl | experiments/SW_fpga/bitloader/parser.hpp:84-103 | the divisors and source are parsed and stored in source order, stopping at the first throw, then the PLL part follows |
| Parser.ParseEntry | experiments/SW_fpga/bitloader/parser.hpp:78-103 | one loop iteration leaves the entry, the thrown error and the table exactly as the iteration's definition says |
| Parser.GetRegs | experiments/SW_fpga/bitloader/parser.hpp:74-105 | the four entries are filled in order and the loop stops at the first throw, with the entries, the table and the error as defined from the old ones |
| Parser.OutputLines | experiments/SW_fpga/bitloader/parser.hpp:140-148 | the output is "{", one entry per key in iteration order with a comma after all but the last, and "}" |
| Parser.JsonEntry | experiments/SW_fpga/bitloader/parser.hpp:142-145 | definition: one output line, key and value quoted, with a comma when more follow; JsonEntryKey and OutputLineKey state that it names its key |
| Parser.Joined | experiments/SW_fpga/bitloader/parser.hpp:140-148 | definition: lines written in order, each ended by a line feed; JoinedPrefix states one more line |
| Parser.JoinedPrefix | experiments/SW_fpga/bitloader/parser.hpp:140-148 | writing one more line appends it and a line feed |
| Parser.OutputPrefix | experiments/SW_fpga/bitloader/parser.hpp:141-147 | the text up to entry i is the text before it plus that entry's line |
| Parser.WriteJsonOutput | experiments/SW_fpga/bitloader/parser.hpp:133-151 | a file that cannot be created receives nothing; otherwise its text is exactly the output lines, each ended by a line feed |
| Parser.BracesNameNoKey | experiments/SW_fpga/bitloader/parser.hpp:140-148 | the brace lines yield no key when read as a keys file |
| Parser.OutputLineKey | experiments/SW_fpga/bitloader/parser.hpp:142 | the entry line of a key yields that key when read back as a keys file |
| Parser.JsonEntryKey | experiments/SW_fpga/bitloader/parser.hpp:142-145 | an entry line, with or without its comma, names its key |
| Parser.OutputLineNamesKeyOfMap | experiments/SW_fpga/bitloader/parser.hpp:140-148 | any output line that yields a key yields a key of the table |
| Parser.OutputNamesKeys | experiments/SW_fpga/bitloader/parser.hpp:140-148 | the output has a key line for exactly the keys of the table, in both directions |
| Parser.KeysOfOutput | experiments/SW_fpga/bitloader/parser.hpp:39-151 | the written output read back as a keys file gives exactly the table's keys with empty values, when the keys are trimmed and hold no colon or double quote |
| Clock.PlClockRegister | experiments/SW_fpga/bitloader/clock.hpp:136-139 | PL clock k's control register is the word at CRL_APB offset 0xC0 + 4k, inside the mapped block |
| Clock.PlPllRegister | experiments/SW_fpga/bitloader/clock.hpp:141-144 | the PL PLL table has a NULL entry exactly at source 1; the others are mapped registers below the PL clock registers |
| Clock.PsPllRegister | experiments/SW_fpga/bitloader/clock.hpp:146-149 | the PS PLL table has a NULL entry exactly at source 1; the others are mapped CRF_APB registers |
| Clock.ClkSrcsel | experiments/SW_fpga/bitloader/clock.hpp:37 | the srcsel field of a PL clock word is below 8 (bits 0-2) |
| Clock.ClkDivisor0 | experiments/SW_fpga/bitloader/clock.hpp:39 | the divisor0 field of a PL clock word is below 64 (bits 8-13) |
| Clock.ClkDivisor1 | experiments/SW_fpga/bitloader/clock.hpp:41 | the divisor1 field of a PL clock word is below 64 (bits 16-21) |
| Clock.ClkAct | experiments/SW_fpga/bitloader/clock.hpp:43 | the clkact field of a PL clock word is 0 or 1 (bit 24) |
| Clock.PllFbdiv | experiments/SW_fpga/bitloader/clock.hpp:49 | the fbdiv field of a PLL word is below 128 (bits 8-14) |
| Clock.PllDiv2 | experiments/SW_fpga/bitloader/clock.hpp:51 | the div2 field of a PLL word is 0 or 1 (bit 16) |
| Clock.PllPreSrc | experiments/SW_fpga/bitloader/clock.hpp:53 | the pre_src field of a PLL word is below 8 (bits 20-22) |
| Clock.ArmSrcsel | experiments/SW_fpga/bitloader/clock.hpp:59 | the srcsel field of the ACPU word is below 8 (bits 0-2) |
| Clock.ArmDivisor0 | experiments/SW_fpga/bitloader/clock.hpp:61 | the divisor0 field of the ACPU word is below 64 (bits 8-13) |
| Clock.PlTablesApart | experiments/SW_fpga/bitloader/clock.hpp:136-151 | no PL PLL register is a PL clock register, and the ACPU register is mapped and distinct from them |
| Clock.WithDivisors | experiments/SW_fpga/bitloader/clock.cpp:15-20 | setPLDivs stores both divisors truncated to their 6-bit fields and sets clkact; srcsel and every unused bit keep their values |
| Clock.WithPlFields | experiments/SW_fpga/bitloader/clock.cpp:64-69 | setPLregs stores the source truncated to 3 bits, clkact and both divisors truncated to 6 bits; every other bit is kept |
| Clock.WithPllFields | experiments/SW_fpga/bitloader/clock.cpp:71-75 | setPLLregs stores fbdiv truncated to 7 bits, div2 to 1 bit and pre_src to 3 bits; every other bit is kept |
| Clock.DivisorsRoundTrip | experiments/SW_fpga/bitloader/clock.cpp:15-26 | divisors below 64 read back by getPLDivs exactly as setPLDivs wrote them, whatever the word held |
| Clock.DivisorsIdempotent | experiments/SW_fpga/bitloader/clock.cpp:15-20 | writing the same divisors twice is writing them once |
| Clock.PlFieldsAddSource | experiments/SW_fpga/bitloader/clock.cpp:64-69 | setPLregs is setPLDivs plus the source selection |
| Clock.Stored | experiments/SW_fpga/bitloader/clock.cpp:16-19 | storing one control word changes that word and no other mapped register |
| Clock.PreSrcRejectedAsWritten | experiments/SW_fpga/bitloader/clock.cpp:55 | definition: the source check as C++ parses it, `pre_src & (0x4 != 0)`; PreSrcCheckAsWritten states which values it rejects |
| Clock.PreSrcRejected | experiments/SW_fpga/bitloader/clock.cpp:55 | definition: the source check as intended, `(pre_src & 0x4) != 0`; PreSrcCheckIntended states which values it rejects |
| Clock.PreSrcCheckAsWritten | experiments/SW_fpga/bitloader/clock.cpp:55 | as written, the source check rejects exactly the odd pre_src values: 1 is rejected and 4 is accepted, the opposite of the intent |
| Clock.PreSrcCheckIntended | experiments/SW_fpga/bitloader/clock.cpp:55 | as intended, of the 3-bit pre_src values exactly 4 to 7 are rejected |
| Clock.PllFactorsOf | experiments/SW_fpga/bitloader/clock.cpp:51-62 | a NULL PLL throws; a PLL whose source the check rejects throws Invalid PLL Source, in both the as-written and the intended reading; otherwise the factors are the word's 7-bit fbdiv field and an output divisor of 2 when its div2 bit is set, 1 otherwise |
| Clock.PlSourceOf | experiments/SW_fpga/bitloader/clock.cpp:28-40 | a PL index above 3 throws, a source index above 3 throws, source 1 hits the NULL PLL entry, and a success runs from source 0, 2 or 3 |
| Clock.SearchFrom | experiments/SW_fpga/bitloader/clock.cpp:158-169 | definition: the search loop from a given state, as written; SearchFromFinds, SearchDividesByZero and SearchDivisors state how it ends |
| Clock.Search | experiments/SW_fpga/bitloader/clock.cpp:151-169 | definition: the whole search from `div0_min = 63 / product`; SearchDividesByZero, SearchFindsUpTo63 and SearchOfOne state its outcomes |
| Clock.SearchFromFinds | experiments/SW_fpga/bitloader/clock.cpp:158-169 | from a non-zero div0_min the search loop never divides by zero and ends with a pair |
| Clock.SearchDividesByZero | experiments/SW_fpga/bitloader/clock.cpp:153-159 | for a product of 0 the initialiser `63 / product` (:153) divides by zero; for a product above 63, div0_min starts at 0 and `product / div0_min` (:159) divides by zero |
| Clock.SearchFindsUpTo63 | experiments/SW_fpga/bitloader/clock.cpp:151-169 | for a product from 1 to 63 the search ends with a pair |
| Clock.SearchOfOne | experiments/SW_fpga/bitloader/clock.cpp:151-169 | a product of 1 ends the search with div0 = 63 and div1 = 0, which the range check then rejects |
| Clock.SearchDivisors | experiments/SW_fpga/bitloader/clock.cpp:151-169 | the search loop ends with exactly the outcome the search function defines, including the division by zero |
| Clock.PlannedDivisors | experiments/SW_fpga/bitloader/clock.cpp:151-181 | accepted divisors both lie in 1..63; two given divisors are used unchanged, or rejected by the divisor-0 check first and the divisor-1 check second |
| Clock.GivenDivisorFloors | experiments/SW_fpga/bitloader/clock.cpp:170-171 | with div0 given, div0 times the computed div1 never exceeds the product, because the quotient is already an integer when std::ceil is applied |
| Clock.GivenDivisorTooFast | experiments/SW_fpga/bitloader/clock.cpp:171 | asked for a tenth of the source clock with div0 = 3, the divisors are 3 and 3: a ninth, faster than requested |
| Clock.GivenDivisorTruncated | experiments/SW_fpga/bitloader/clock.cpp:171-181 | a quotient of 300 is stored in uint8_t as 44, the AArch64 result of the undefined conversion of the double 300.0, and passes the range check |
| Clock.CeilDiv | experiments/SW_fpga/bitloader/clock.cpp:149 | the rounded-up quotient times the divisor reaches the dividend, and one less does not |
| Clock.CeilDivLeast | experiments/SW_fpga/bitloader/clock.cpp:149 | no smaller multiple of the divisor reaches the dividend than the rounded-up quotient |
| Clock.CoversBound | experiments/SW_fpga/bitloader/clock.cpp:176-181 | any product two divisors in range reach is at most 63 * 63 |
| Clock.LeastCover | experiments/SW_fpga/bitloader/clock.cpp:170-174 | the least divisor from 1 up whose product with the given one reaches the requested product |
| Clock.BestDivisors | experiments/SW_fpga/bitloader/clock.cpp:151-169 | the intended search finds a pair exactly when the product is at most 63 * 63; the pair is in range, keeps the clock at or below the one asked for, and no pair in range comes closer from above |
| Clock.ChooseDivisors | experiments/SW_fpga/bitloader/clock.cpp:151-181 | the divisor selection and range checks end with exactly what the as-written plan defines |
| Clock.ChooseDivisorsCorrected | experiments/SW_fpga/bitloader/clock.cpp:151-181 | corrected twin: accepted divisors are in 1..63 and never make the clock faster than asked; with none given the pair is the best in range and exists exactly when the product is at most 63 * 63; a computed divisor is the least that reaches the product and the range checks see it untruncated; given divisors are kept and checked |
| Clock.SetPLClockPlan | experiments/SW_fpga/bitloader/clock.cpp:140-181 | a PL index above 3 throws the index error; an error of the source lookup is thrown as it is; accepted divisors both lie in 1..63 |
| Clock.UltrascaleClock.State | experiments/SW_fpga/bitloader/clock.hpp:115-116 | the two mapped blocks always have 64 words each |
| Clock.UltrascaleClock.constructor | experiments/SW_fpga/bitloader/clock.hpp:124-152 | the clock starts over the two mapped blocks holding whatever the hardware holds |
| Clock.UltrascaleClock.SetPLDivs | experiments/SW_fpga/bitloader/clock.cpp:15-20 | PL clock k's word gets the new divisors and clkact, and no other register changes |
| Clock.UltrascaleClock.GetPLDivs | experiments/SW_fpga/bitloader/clock.cpp:22-26 | the divisors read are the 6-bit fields of PL clock k's word, so they are what setPLDivs last stored, truncated to 6 bits |
| Clock.UltrascaleClock.SetPLregs | experiments/SW_fpga/bitloader/clock.cpp:64-69 | PL clock k's word gets source, divisors and clkact, and no other register changes |
| Clock.UltrascaleClock.SetPLLregs | experiments/SW_fpga/bitloader/clock.cpp:71-75 | the PLL word gets fbdiv, div2 and pre_src, and no other register changes |
| Clock.UltrascaleClock.FullSetPLClock | experiments/SW_fpga/bitloader/clock.cpp:77-88 | a source index above 3 throws first, then a PL index above 3; source 1 selects the NULL `pl_pll_ctrls[1]`, which the C++ dereferences (undefined behaviour, not an exception); the model answers `NullPll`; a failure writes nothing; otherwise the PLL word and then the PL clock word are rewritten and nothing else changes |
| Clock.UltrascaleClock.SetPLClock | experiments/SW_fpga/bitloader/clock.cpp:140-184 | as written: the divisors are stored only when every check passes, the error is the one the plan defines, and a failure writes nothing |
| Clock.UltrascaleClock.SetPLClockCorrected | experiments/SW_fpga/bitloader/clock.cpp:140-184 | corrected twin: uses the intended pre_src check; stored divisors are in 1..63, never make the clock faster than asked, keep the given ones and are the best pair in range when none is given; a failure writes nothing |

## Left out

- The platform calls `cma_alloc`, `cma_free`, `cma_get_phy_addr`, `cma_mmap`, `cma_munmap`, `open` and `close` are not executed: their results are parameters of the methods that call them. The `write` and `read` calls on the device are executed against the kernel driver's own handlers, `SeqDriver.SeqDevice.Write` and `SeqDriver.SeqDevice.Read`.
- The log and error messages printed with `printf`, `std::cout` and `std::cerr` are not modelled; the statuses and thrown errors that go with them are.
- `Open`'s default mapping size of 65536 bytes and `AllocDMACompatible`'s default cacheability of 0 are Dafny default parameters (`DEFAULT_MAPPING_SIZE`, `DEFAULT_CACHEABLE`).
- Ids, counts and lengths of the HLS kernel are unbounded naturals. The 32-bit `id` of a message never wraps in the model; the 9-bit lengths and positions and the 11-bit score are reduced explicitly.
- SeqMatcherHw.StringMatching, SeqMatcherHw.SeqMatcherHW, SeqMatcherHw.Workers: a length-0 query (the host passes the buffer capacity as the query count, and `read_file` leaves the unused lengths at 0) makes the kernel read bit -1 of HP and HN, which C++ leaves unspecified. The model does not pick a hardware result: those bits are the parameter `oob`, one pair per message id and reference position, and the answers are proved for every choice of them.
- `std::string` is modelled as Dafny `string` (a sequence of `char`), one element per byte. Every parser operation modelled is positional or compares ASCII characters, so the choice changes no result; multi-byte encodings are not modelled.
- The kernel's worker pool (a round-robin split to 42 `String_matching` tasks and a round-robin merge) is modelled as one sequential map over the messages, which it is in message order. The HLS pragmas and `#pragma HLS dataflow` overlap have no counterpart.
- SeqMatcherHw.StringMatching: proves that the position is the earliest minimum of the score sequence the bit-parallel recurrence computes. It does not prove that this score is an edit distance, which the source does not claim either.
- The `DEBUG` printing blocks of the kernel are not modelled.
- Concurrency between the interrupt handler and the read handler is not modelled. The completion interrupt is delivered, through the interrupt handler, before the wait on `flag` in interrupt mode and right after the polling loop sees ap_done in polling mode; `wait_event_interruptible` and `wake_up_interruptible` are left out.
- SeqDriver.SeqDevice.Read: the polling loop has no iteration cap in the source, so the model requires that the given control reads eventually show ap_done. A run that never finishes, where the source would spin forever, is not modelled.
- Clock.UltrascaleClock.FullSetPLClock: with clk_src = 1 the source writes through the NULL `pl_pll_ctrls[1]`, a null dereference with undefined behaviour. The model stops there with the error `NullPll` and writes nothing; what the crash does to the process is not modelled.
- SequenceFile.Step, SequenceFile.Run, SplitBlock.Host.ReadFile: a sequence line before any header (a leading blank line is enough) makes the source copy it into the 360 bytes in front of the sequence buffer and store its length at `length[-1]`, out of bounds, and then go on reading. The model ends the reading at that line with `fault` and count 0. Neither the out-of-bounds writes nor the lines after them are modelled.
- AccelDriver.CAccelDriver.CloseDriver: the closed descriptor's number is kept and the device counts as closed from then on. That a later `open` elsewhere in the process may be handed the same number is not modelled.
- The kernel module's init and cleanup (`alloc_chrdev_region`, `request_mem_region`, `ioremap`, `request_irq`, `cdev_add` and their undoing) are not modelled. The driver starts from the state they leave: registers mapped and no wait type stored.
- A failed `raw_copy_from_user` in the write handler is modelled as a user buffer shorter than the message: the bytes that can be copied are given, and fewer than 56 of them is the failure.
- `split_block`'s timing, energy and power measurements (`clock_gettime`, the telemetry library, `usleep`) and the files it writes (`times.txt`, `energy.txt`, `scores.bin`) are not modelled. The calibration's repetition count, computed from a floating-point time, is a parameter.
- SplitBlock.Host.SplitBlock: requires at least one target and one query. With no target the source divides by zero computing the chunk size; with no query the chunk size is 0, so below 100000 targets the calibration's `floor(nq / qSize)` (HW_split_block.cpp:186) divides by zero before the sweep is reached, and otherwise the sweep never ends.
- SplitBlock.Host.SplitBlock: requires `current_alloc` below 2^63. The only caller reaches split_block after two read_file calls, whose accounting stays far below that. A larger `current_alloc` would make the int64 budget wrap back to a large positive value, and `qSize = floor(maxComputations / nt)` (:144) would then truncate the quotient to `int32_t`. Neither is modelled.
- SplitBlock.Host.ReadFile, SplitBlock.Host.AccountReadBuffers: require `MAX_SEQUENCES * MAX_DESCRIPTION_LENGTH` to stay below 2^32. From a capacity of 5,932,363 sequences up, the source's uint32_t products of the allocation sizes wrap, the buffers are smaller than the zeroing loop assumes, and that loop writes past them; those capacities are not modelled.
- The host program's `main` (argument handling, reading the two files, freeing the buffers) is not modelled. `read_file` is, including its accounting of the allocated bytes.
- `read_file`'s copy of each description line is not modelled: the description buffer is freed before `read_file` returns and nothing reads it.
- Files read by `std::getline` and `fgets` are given as their lines; a file that cannot be opened is `None`.
- The iteration order of `std::unordered_map` is unspecified, so `writeJsonOutput` receives it as an explicit sequence of the map's keys.
- `std::stoi` is modelled for the decimal strings the loader reads: white space, an optional sign and digits. Hexadecimal or other bases are never asked for.
- `getRegs` truncates each parsed integer to `uint8_t`, as the assignment to the structure field does; `std::runtime_error` and the `std::stoi` exceptions are the `ParseError` values of a `Result`.
- The PYNQ-Z2 clock class (`PynqClock`) is not modelled: its bitfield structures pack `uint8_t` fields across byte boundaries, and that layout is left to the compiler.
- The floating-point parts of the clock code are not modelled: the MHz values of `get_pll_clk_mhz`, `get_ps_clk_mhz`, `getPLClock` and `getPSClock`. `setPLClock` receives its integer `product`, the rounded-up ratio of source to requested frequency, as a parameter.
- `get_ps_clk_mhz` indexes the four-entry PS PLL table with a 3-bit source field without a range check. It only feeds a floating-point result and is not modelled.
- The clock's mapping of the two register blocks with `cma_mmap`, the failure path that leaves them NULL, and the unmapping in the destructor are not modelled. The model's clock always holds two mapped blocks.
- The bitstream loader (`bitloader.cpp`, `programOverlay.cpp`), the telemetry library headers and `parse_config.py` are not part of this model: they only sequence file, sysfs and shell I/O.

## Findings

| source | as written | input that shows it | evidently intended | confidence | as-written member | corrected member |
|---|---|---|---|---|---|---|
| experiments/SW_fpga/src/HW_split_block.cpp:204-207 | the remainder chunk always has the literal width 182 | nq = 250 with qSize = 100 covers queries 200 to 381, past the last of the 250 queries; nq = 399 with qSize = 200 leaves query 398 in no chunk | the remainder chunk has width nq % qSize | not executed | SplitBlock.RemainderWidthOverruns | SplitBlock.CorrectedSweepPartitions |
| experiments/SW_fpga/src/HW_split_block.cpp:42-103 | `ignore` starts false, so a sequence line before any header is copied to slot `sequenceCount - 1 = -1` | a file whose first line is blank: the copy lands in the 360 bytes before the sequence buffer and the length at `length[-1]` | lines before the first header are skipped | not executed | SequenceFile.BlankFirstLineFaults | SequenceFile.CorrectedReaderCounts |
| experiments/SW_fpga/src/CSeqMatcher.cpp:18-41 | a wait that polls 500000 times without seeing ap_done returns OK | control never shows bit 1 | a timeout is reported with a status other than OK | not executed | SeqMatcher.CSeqMatcher.AlignmentWait | SeqMatcher.CSeqMatcher.AlignmentWaitReportingTimeout |
| experiments/SW_fpga/src/CAccelDriver.cpp:98-107 | CloseDriver closes the descriptor but never resets it | OpenDriver, CloseDriver, then OpenDriver again answers DEVICE_ALREADY_INITIALIZED | closing resets the descriptor to 0 | not executed | AccelDriver.CAccelDriver.CloseDriver | AccelDriver.CAccelDriver.CloseDriverAndForget |
| experiments/SW_fpga/src/CAccelDriver.cpp:28-47 | every destructor empties the shared buffer registry | two live instances, one destroyed: the other's buffers lose their physical addresses | only the destruction of the last instance empties the registry | not executed | AccelDriver.CAccelDriver.Destroy | AccelDriver.CAccelDriver.DestroyKeepingSharedBuffers |
| experiments/SW_fpga/bitloader/clock.cpp:55 | `pre_src & 0x4 != CRX_APB_SRC_DEFAULT` parses as `pre_src & 1` | pre_src = 1 is rejected and pre_src = 4 is accepted | `(pre_src & 0x4) != CRX_APB_SRC_DEFAULT` | not executed | Clock.PreSrcCheckAsWritten | Clock.PreSrcCheckIntended |
| experiments/SW_fpga/bitloader/clock.cpp:153-159 | the automatic search starts at `div0_min = 63 / product` and divides by it | product = 64: div0_min = 0 and `product / div0_min` (:159) divides by zero; product = 0 already divides by zero in `63 / product` (:153) | the search covers every div0 from 1 to 63 | not executed | Clock.SearchDividesByZero | Clock.BestDivisors |
| experiments/SW_fpga/bitloader/clock.cpp:170-174 | `std::ceil(product / div0)` rounds an already truncated integer quotient | div0 = 3 for a tenth of the source clock gives div1 = 3, a ninth: faster than requested | the quotient rounded up, so the clock never exceeds the one asked for | not executed | Clock.GivenDivisorTooFast | Clock.ChooseDivisorsCorrected |
| experiments/SW_fpga/bitloader/clock.cpp:170-181 | the computed divisor, the double `std::ceil(product / div0)`, is converted to `uint8_t` before the range check | div0 = 1 with product = 300: converting the double 300.0 to `uint8_t` is undefined in C++, and on AArch64 it stores div1 = 44, which passes the check | the range check sees the untruncated quotient and rejects it | not executed | Clock.GivenDivisorTruncated | Clock.ChooseDivisorsCorrected |
