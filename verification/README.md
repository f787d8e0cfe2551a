# KUROSAKI core, verified

KUROSAKI emulates the NES, the Famicom and the Famicom Disk System with a set of small
deterministic machines. This project models the ones with the hardest rules and proves what
they keep over every run.

- **Disk media and read channel.** `Crc`, `CrcRemainder`, `FdsMedia`, `FdsDirectory`, `FdsDrive`,
  `FdsMapper` and `FdsRoundTrip` rebuild the stream of a disk side from its raw bytes, decode it again
  under the control bytes of a host, cycle by cycle, and show that the two undo each other, that the
  independent file parser agrees with the block walk and with what was stored, that the register
  divides by its generator, and that corruptions within sixteen bits are always noticed.
- **Static decompiler against the executor.** `Decoder`, `Cpu`, `StaticFlow`, `Worklist`,
  `Coverage`, `Blocks`, `ControlFlow` and `GraphFlow` hold the instruction decoder, the executor's
  program counter, the two nested worklists and the control-flow graph: soundness and precision, exact
  fixpoints, a partition into maximal blocks, dual edges, loop marks, and when the graph is the
  static flow.
- **Namco 163.** `Integrator`, `Namco163`, `Namco163Turns`, `Namco163Levels`, `Namco163Snapshot`,
  `Namco163Restore`, `Namco163Registers` and `Namco163Mapper` give the round robin and the levels it
  plays in closed form, bound every sample, say what each register does, and show exactly when a
  restored chip cannot be told from the saved one.
- **Mapper protocols and banks.** `Mmc1`, `Mmc1Snapshot`, `Mmc1Registers` and `Mmc1Mapper` refine the
  serial register by a queue of bits, in which a write is dropped exactly in the cycle after the last
  accepted one (`Mmc1Serial.DroppedIff`); `Banks` and `PrgWindows` tie bank labels to reads, `PrgBanks`
  says which bank every slot shows, and `PrgCapture` ties the decompiler's captured windows to the
  reads; `VrcIrq` compares bulk clocks with single cycles, and `VrcRegisters` is the program's view.
- **APU.** `Schedule`, `ApuFrame`, `ApuFrameRuns` and `ApuFrameLevels` are the frame sequencer with
  its units over whole runs; `Dmc`, `DmcRuns` and `DmcLevels` the sample channel, bit by bit.
- **Battery saves.** `SaveProtocol` interleaves any number of processes at single file operations,
  with failures and crashes; `SaveProgress` says when the save can still be changed at all,
  and `SaveRuns` what a session gets; `BatterySession` is the sequential code, whose every run is a
  run of the protocol.

`Iteration`, `Arithmetic`, `Sequences`, `Codec`, `MachineWords` and `Options` are shared. Each file
holds one module of its own name, except `FdsDrive` (module `FdsReadChannel`), `Mmc1`
(`Mmc1Serial`), `Mmc1Mapper` (`Mmc1Board`), `Namco163Mapper` (`Namco163Board`) and
`BatterySession` (`BatterySessions`), whose classes carry the shorter name.

Where the source updates an object, a class does; each of its methods is proved equal to a
transition function on values, and the theorems are about those functions. A clock that takes a
chunk of cycles is specified as its single cycle iterated, so chunking never matters where the
theorem says so. Registers the source keeps in floating point only ever hold whole cycle counts
and are natural numbers here. Fixed-width arithmetic that can overflow wraps around, as it does
in a build without overflow checks.

Where the code does not do what its surroundings suggest, the code is modelled and the exact
condition is proved:

- The opcode tables of decoder and executor differ at $EB and $9F (`StaticFlow.TablesDiffer`).
- The Namco 163 snapshot accepts cycle counts up to i64::MAX / 4800, while the sample's product is
  safe, and the sample right, exactly up to i64::MAX / 21600 (`Namco163Restore.SamplesFitIff`,
  `Namco163Restore.SamplesExactIff`, `Namco163Restore.RestoreAdmitsOverflow`).
- The snapshot omits the held outputs: a restore goes unnoticed exactly with multiplexed output or
  on the submappers without sound (`Namco163Restore.RestoresUnnoticedIff`); the differing run is
  in `Namco163Restore.AveragedOutputIsLost`.
- A VRC4 chunk of more than 256 - latch increments is wrong for some counter value, unless latch is 0
  (`VrcIrq.BulkExactIff`, shown by the run of `VrcIrq.TwoCycleChunkInexact`); an empty VRC3 chunk is
  a no-op only while the counter is inside its width (`VrcIrq.Vrc3EmptyChunkIff`), and a VRC3 chunk whose 32-bit
  sum wraps can lose its interrupt (`VrcIrq.Vrc3BulkExactIff`).
- Bank labels are exact under a wider condition than a multiple of 8 KiB, and only under it
  (`Banks.LabelExactIff`).
- The control-flow graph follows the order of the map, not of the windows, and can miss a
  fallthrough (`GraphFlow.GraphIsFlowIff`; in the analysis of a concrete ROM,
  `GraphFlow.FallthroughLost`).
- A lock file left by a crash blocks all later saves, and so does a temporary left by a failed
  clean-up, the lock released (`SaveProtocol.StaleLockBlocks`, `SaveProgress.LeftoverBlocks`); the save
  can be changed exactly when neither is in the way (`SaveProgress.CanChangeIff`).

`dafny verify dfyconfig.toml` checks everything.

## Model

| member | source | states |
|---|---|---|
| Crc.ComputeCrcByte | crates/kurosaki-core/src/fds_drive.rs:26-32 | the eight-step register loop computes the byte step that the lemmas below reason about |
| Crc.CrcByteLinear | crates/kurosaki-core/src/fds_drive.rs:26-32 | the byte step is linear over exclusive or, in register and byte together |
| Crc.StepInjective | crates/kurosaki-core/src/fds_drive.rs:26-32 | one register step never merges two registers |
| Crc.FoldLinear | crates/kurosaki-core/src/fds_drive.rs:90-94 | folding a corrupted message is folding the message, exclusive-or folding the error |
| Crc.BlockResidue | crates/kurosaki-core/src/fds_drive.rs:90-94 | for every block, folding sync byte, body and stored CRC leaves zero |
| Crc.CorruptedResidue | crates/kurosaki-core/src/fds_drive.rs:90-94 | the register after a corrupted block depends on the error pattern alone |
| Crc.FoldIsBitwise | crates/kurosaki-core/src/fds_drive.rs:26-32 | folding bytes is feeding the register their bits one at a time, lowest first |
| Crc.BurstIsSeen | crates/kurosaki-core/src/fds_drive.rs:26-32 | a nonzero error within any sixteen consecutive bits of a message of any length never folds to zero |
| Crc.AdjacentBytesAreBurst | crates/kurosaki-core/src/fds_drive.rs:26-32 | any nonzero error confined to two adjacent bytes is such an error |
| CrcRemainder.GeneratorFolds | crates/kurosaki-core/src/fds_drive.rs:26-32 | the bits of x^16 + x^12 + x^5 + 1 fold to zero |
| CrcRemainder.FoldIsDivision | crates/kurosaki-core/src/fds_drive.rs:26-32 | a message leaves zero in the register if and only if long division of its bits by x^16 + x^12 + x^5 + 1 leaves nothing |
| CrcRemainder.StoredIsMultiple | crates/kurosaki-core/src/fds_drive.rs:90-94 | so sync byte, block and stored CRC together are always a multiple of the generator |
| FdsMedia.ExpandSide | crates/kurosaki-core/src/fds_drive.rs:72-100 | the byte-pushing loop produces lead gap, one synchronised and checksummed section per block of the walk, and a final gap |
| FdsMedia.BlocksCutTheSide | crates/kurosaki-core/src/fds_drive.rs:76-97 | the block walk cuts a raw side into blocks whose lengths their own first bytes and the last file header dictate, which together are a prefix of the side |
| FdsMedia.ParseFileList | crates/kurosaki-core/src/fds.rs:251-304 | the file loop lists exactly the files from the cursor on, or stops at the first malformed one with its warning |
| FdsMedia.ParseSide | crates/kurosaki-core/src/fds.rs:219-307 | a side yields its listing, or exactly the one warning for less than 58 bytes, a missing info block or a missing count block |
| FdsMedia.OneFileTwoBlocks | crates/kurosaki-core/src/fds.rs:251-304 | a file the parser accepts is exactly one header block and one data block of the drive's own walk |
| FdsMedia.ParsedFilesAreBlocks | crates/kurosaki-core/src/fds.rs:251-304 | from any cursor, the parsed file data are a prefix of the data blocks of the walk from there |
| FdsMedia.ParsersAgree | crates/kurosaki-core/src/fds.rs:219-307 | on every raw side the i-th data block of the walk is the data of the i-th parsed file |
| FdsMedia.DisplayName | crates/kurosaki-core/src/fds.rs:311-323 | a listed name is the stored one byte by byte, unprintable bytes as dots, cut exactly before its trailing spaces |
| FdsMedia.FromBytes | crates/kurosaki-core/src/fds.rs:45-92 | errors exactly for empty input and for a header without data; otherwise side count, header flag, files and warnings of all sides in order, after one warning if the image is shorter than its sides |
| FdsMedia.ChunkIsSide | crates/kurosaki-core/src/fds_drive.rs:58-70 | the chunks the drive loads are the sides the parser reads |
| FdsMedia.ImageFilesOfSide | crates/kurosaki-core/src/fds.rs:75-83 | the files listed for a side of an image are exactly those its own bytes parse to |
| FdsMedia.ImageSidesAgree | crates/kurosaki-core/src/fds_drive.rs:58-70 | on every loaded side the image's files are the data blocks of the drive's walk, in order |
| FdsMedia.StreamSpelled | crates/kurosaki-core/src/fds_drive.rs:72-100 | the rebuilt stream spelled out: 3537 bytes of lead, then $80, the block, its CRC low byte first and 122 bytes of gap for each block, and a final gap |
| FdsDirectory.DirectoryReadBack | crates/kurosaki-core/src/fds.rs:219-307 | a side written as information, count and files is listed as exactly those files, every header field where it was put, without a warning |
| FdsDirectory.FaultReported | crates/kurosaki-core/src/fds.rs:251-304 | a count that promises more files than follow gives the files before the first bad one and exactly one warning, the one that says what is wrong there |
| FdsDirectory.SideWalked | crates/kurosaki-core/src/fds_drive.rs:72-100 | the drive's walk cuts the same side into exactly the blocks it was written as, up to the first byte that starts none |
| FdsDirectory.SidesCounted | crates/kurosaki-core/src/fds.rs:45-66 | the number of sides: the header's if it gives one, else as many as 65500 bytes each fill, between 1 and 255 |
| FdsReadChannel.FdsDrive.constructor | crates/kurosaki-core/src/fds_drive.rs:34-56 | a drive with its media, motor off, stopped, side 0 inserted if there is one |
| FdsReadChannel.FdsDrive.Load | crates/kurosaki-core/src/fds_drive.rs:58-70 | the drive holds the rebuilt stream of every side of the image |
| FdsReadChannel.FdsDrive.SetControl | crates/kurosaki-core/src/fds_drive.rs:102-120 | the whole new state of a control write: acknowledge, re-arm when START drops, stop when the motor is turned off |
| FdsReadChannel.FdsDrive.WriteControl | crates/kurosaki-core/src/fds_drive.rs:102-120 | each control bit from its own bit of the byte; bit 6 clear re-arms the decoder, bit 0 clear stops the drive, and every write acknowledges the interrupt |
| FdsReadChannel.FdsDrive.ReadData | crates/kurosaki-core/src/fds_drive.rs:132-137 | the data byte, with interrupt and ready acknowledged and the saturating read count |
| FdsReadChannel.FdsDrive.Clock | crates/kurosaki-core/src/fds_drive.rs:139-165 | any number of cycles in one call does what the byte-clock recursion does, including spin-up, several bytes per call and the stop at the end |
| FdsReadChannel.FdsDrive.Transfer | crates/kurosaki-core/src/fds_drive.rs:167-216 | the next byte passes the head, or the drive stops and clears its motor bit at the end of the medium |
| FdsReadChannel.FdsDrive.Receive | crates/kurosaki-core/src/fds_drive.rs:183-216 | sync hunting, byte decoding, CRC accumulation and the two-byte CRC phase; with START low the decoder stays closed, without error |
| FdsReadChannel.FdsDrive.ReadStatus | crates/kurosaki-core/src/mapper.rs:3621-3635 | ready, end, orientation and CRC error as they were; byte and interrupt acknowledged |
| FdsReadChannel.AdvanceSplit | crates/kurosaki-core/src/fds_drive.rs:150-165 | splitting the cycles of a running drive anywhere gives the same state, the dead countdown of a stopped drive aside |
| FdsReadChannel.ClockSplit | crates/kurosaki-core/src/fds_drive.rs:139-165 | clocking a then b cycles equals clocking a + b cycles, from every state |
| FdsReadChannel.AdvancePosition | crates/kurosaki-core/src/fds_drive.rs:150-182 | how many bytes have passed, and whether the drive has stopped, after any number of cycles |
| FdsReadChannel.ByteSchedule | crates/kurosaki-core/src/fds_drive.rs:139-182 | byte k has been transferred if and only if 50000 + 150 k cycles have passed since motor start; the drive has stopped, its motor bit cleared, if and only if one more byte time after the last has |
| FdsMapper.FdsMapper.ClockTimer | crates/kurosaki-core/src/mapper.rs:3881-3893 | the chunked timer loop equals single cycles of a down-counter |
| FdsMapper.FdsMapper.ClockCpu | crates/kurosaki-core/src/mapper.rs:3873-3909 | timer and drive advance independently, the drive only while disk registers are enabled, and the mirrored status fields follow the drive |
| FdsMapper.FdsMapper.ReadDiskStatus | crates/kurosaki-core/src/mapper.rs:3611-3640 | the byte of register $4030, with both interrupts and the byte acknowledged; nothing while disk registers are disabled |
| FdsMapper.StatusByteDecodes | crates/kurosaki-core/src/mapper.rs:3622-3635 | every part of the status can be read back from that byte |
| FdsMapper.TimerPeriod | crates/kurosaki-core/src/mapper.rs:3881-3893 | no interrupt before the counter has run out; then reload, and disable unless repeating |
| FdsMapper.TimerRepeats | crates/kurosaki-core/src/mapper.rs:3881-3893 | a repeating timer has period reload + 1, forever |
| FdsMapper.BoardClockSplit | crates/kurosaki-core/src/mapper.rs:3873-3909 | two chunks leave the whole board where one chunk of their sum does |
| FdsMapper.ControlReadBack | crates/kurosaki-core/src/fds_drive.rs:102-130 | the status shows the orientation bit of the last control byte, and the end once the motor bit is clear, unless there is no disk |
| FdsMapper.HeldDrive | crates/kurosaki-core/src/fds_drive.rs:139-150 | without motor bit or disk, or at the end with the reset bit, no cycle does anything |
| FdsMapper.ReleasedDrive | crates/kurosaki-core/src/fds_drive.rs:139-150 | otherwise a stopped drive starts over before the lead of the medium |
| FdsRoundTrip.ByteArrives | crates/kurosaki-core/src/fds_drive.rs:139-216 | at whatever intervals a host polls, up to a byte time, it sees each byte once, before the next one overwrites it |
| FdsRoundTrip.NextGapHunts | crates/kurosaki-core/src/fds_drive.rs:102-120 | dropping START at any cycle of a gap and raising it at any later one leaves the decoder hunting in the rest of the gap |
| FdsRoundTrip.BlockReadBack | crates/kurosaki-core/src/fds_drive.rs:167-216 | a host polling for a block of known size gets the stored bytes, and sees an error flag exactly when they do not fold to zero |
| FdsRoundTrip.CorruptionVerdict | crates/kurosaki-core/src/fds_drive.rs:167-216 | on a corrupted block the error flag is seen exactly when the error pattern itself does not fold to zero |
| FdsRoundTrip.BurstDetected | crates/kurosaki-core/src/fds_drive.rs:167-216 | the error flag is seen for any nonzero corruption within sixteen consecutive stored bits, of any block length |
| FdsRoundTrip.SectionReadBack | crates/kurosaki-core/src/fds_drive.rs:72-216 | one round on an intact medium reads exactly the next block with a clear flag and stops in the next gap |
| FdsRoundTrip.SectionsReadBack | crates/kurosaki-core/src/fds_drive.rs:72-216 | from any gap of a well-sized medium, every round in time reads the next block, and the round after the last finds the end |
| FdsRoundTrip.SideReadBack | crates/kurosaki-core/src/fds_drive.rs:72-216 | for every raw side, a host that polls at any intervals, reads at any cycle of each byte time and raises START before each gap ends recovers exactly the block walk, every CRC clear |
| FdsRoundTrip.PromptSideReadBack | crates/kurosaki-core/src/fds_drive.rs:72-216 | in particular every host whose rounds take no longer than their gaps, whatever else it does |
| FdsRoundTrip.FilesReadBack | crates/kurosaki-core/src/fds.rs:219-307 | the data blocks read back from a loaded side start with the data of every file the image lists for it, in order |
| FdsRoundTrip.HostCommands | crates/kurosaki-core/src/fds_drive.rs:102-120 | three control bytes make a polling host exactly when their bits read motor on, reset off, START off or on, and CRC phase off or on, as masks |
| FdsRoundTrip.ByteInterrupts | crates/kurosaki-core/src/fds_drive.rs:183-205 | a byte taken in interrupts exactly when bit 7 of the control byte is set |
| Decoder.ReadBytesAt | crates/kurosaki-core/src/decompile.rs:1238-1245 | each byte of an instruction is the mapped byte at its own address, none past $FFFF |
| Decoder.ResolveInWindow | crates/kurosaki-core/src/decompile.rs:241-258 | from a captured address every target resolves to what the captured windows show |
| Decoder.FlowStaysInWindow | crates/kurosaki-core/src/decompile.rs:224-270 | successors and call targets of a captured instruction are captured |
| Decoder.DecodedBytesAreFetched | crates/kurosaki-core/src/decompile.rs:1233-1285 | the bytes of a decoded instruction are the ones the CPU fetches, its length and flow follow from its opcode, and it does not run past $FFFF |
| Cpu.CpuState.Fetch | crates/kurosaki-core/src/cpu.rs:528-534 | the byte under the program counter, which advances with wrap-around |
| Cpu.CpuState.FetchWord | crates/kurosaki-core/src/cpu.rs:535-547 | the two little-endian bytes under the program counter |
| Cpu.CpuState.ResolveAddr | crates/kurosaki-core/src/cpu.rs:598-670 | every addressing mode consumes exactly its operand bytes; without a pointer in memory, the address and the page crossing are what operand and index say |
| Cpu.CpuState.ReadMode | crates/kurosaki-core/src/cpu.rs:675-701 | a read consumes its operand bytes, the immediate one included, and yields the ROM byte at the address they name |
| Cpu.CpuState.WriteMode | crates/kurosaki-core/src/cpu.rs:702-716 | a write consumes its operand bytes |
| Cpu.CpuState.BranchOn | crates/kurosaki-core/src/cpu.rs:848-868 | a taken branch adds the signed offset after consuming it; two cycles, three if taken, four into another page |
| Cpu.CpuState.ExecuteData | crates/kurosaki-core/src/cpu.rs:135-524 | an instruction that falls through leaves the program counter just past its operand |
| Cpu.CpuState.ExecuteControl | crates/kurosaki-core/src/cpu.rs:135-524 | jumps, calls, branches, returns and breaks; where operand and flags, or a pointer in ROM, decide, the program counter is exactly that |
| Cpu.CpuState.Execute | crates/kurosaki-core/src/cpu.rs:135-524 | one instruction: stops exactly on unimplemented opcodes; a branch goes where its own status bit says, $20 and $4C to their operand, $6C to the word at its pointer, whose second byte is in the pointer's page, and data instructions past their operand |
| Cpu.BranchLaw | crates/kurosaki-core/src/cpu.rs:472-479 | the branches are the opcodes $10, $30 to $F0; each goes to its signed offset exactly when status bit 7, 6, 0 or 1, by the top two opcode bits, equals opcode bit 5 |
| StaticFlow.LengthsAgree | crates/kurosaki-core/src/decompile.rs:1290-1307 | the decoder's instruction length is the number of bytes the executor consumes, for every opcode both accept |
| StaticFlow.KindsAgree | crates/kurosaki-core/src/decompile.rs:1311-1323 | the decoder's flow kind is the executor's kind of operation, for every opcode both accept |
| StaticFlow.TablesDiffer | crates/kurosaki-core/src/cpu.rs:135-524 | the two opcode tables disagree exactly at $EB, which the decoder falls through and the executor refuses, and $9F, which the executor runs and the decoder ends at |
| StaticFlow.TargetListed | crates/kurosaki-core/src/decompile.rs:1255-1265 | the executor's next address is the following one or the encoded target, as the flow kind allows |
| StaticFlow.StepIsListed | crates/kurosaki-core/src/decompile.rs:1233-1265 | the same for a decoded instruction in ROM and any flags |
| StaticFlow.StepIsSuccessor | crates/kurosaki-core/src/decompile.rs:1233-1392 | decoder soundness: a next address in ROM is a static successor or the call target |
| StaticFlow.ExecuteDecoded | crates/kurosaki-core/src/cpu.rs:135-524 | executing a decoded instruction leaves the program counter where its bytes and the status register spell, which is the address the static side computes |
| StaticFlow.LengthByColumn | crates/kurosaki-core/src/decompile.rs:1290-1307 | instruction lengths by the columns of the opcode matrix, for every listed opcode |
| StaticFlow.StepSpelled | crates/kurosaki-core/src/cpu.rs:135-524 | the next program counter of a decoded instruction, from its bytes and the status register alone |
| StaticFlow.SuccessorIsPossible | crates/kurosaki-core/src/decompile.rs:1233-1392 | decoder precision: every successor other than a call's return address, and every call target, is where some flags lead |
| StaticFlow.JumpKeepsBank | crates/kurosaki-core/src/decompile.rs:241-258 | a jump inside its own 8 KiB slot stays in its bank, captured or not |
| Worklist.ReachedIsLeast | crates/kurosaki-core/src/decompile.rs:743-880 | the reached addresses lie in every set that holds the start and is closed under static flow |
| Worklist.AnalyzeFunction | crates/kurosaki-core/src/decompile.rs:723-880 | terminates within the budget, which is at least one instruction; collects only reached addresses with their own decoding; every one of them unless truncated; and exactly the call targets of what it collected |
| Worklist.Analyze | crates/kurosaki-core/src/decompile.rs:396-420 | terminates; analyses only valid addresses reached from the roots by calls; every valid root and every valid call target of an analysed function is analysed |
| Worklist.ValidIff | crates/kurosaki-core/src/decompile.rs:224-270 | the valid addresses are those in $8000-$FFFF with a byte in the ROM |
| Coverage.ReachedInWindow | crates/kurosaki-core/src/decompile.rs:224-270 | from a captured root every reached address keeps the bank of its captured window |
| Coverage.CodeInWindow | crates/kurosaki-core/src/decompile.rs:224-270 | from captured roots everything analysed keeps the bank of its captured window |
| Coverage.NextInCode | crates/kurosaki-core/src/decompile.rs:396-420 | whatever the roots, the successors and calls of a captured analysed instruction are captured and analysed, where decodable |
| Coverage.StepStaysInCode | crates/kurosaki-core/src/decompile.rs:396-420 | whatever the roots, one executed instruction leads from captured analysed code to captured analysed code |
| Coverage.ExecutionStaysInCode | crates/kurosaki-core/src/decompile.rs:396-420 | execution of any length, under any flags, stays in analysed code while the captured windows stay in place |
| Coverage.ExecutionFromVectors | crates/kurosaki-core/src/decompile.rs:347-420 | whatever execution reaches from an interrupt vector or the current program counter is analysed |
| Coverage.VectorsListed | crates/kurosaki-core/src/decompile.rs:347-380 | the roots are exactly the ROM addresses in the NMI, reset and IRQ vectors and at the program counter |
| Blocks.InOrder | crates/kurosaki-core/src/decompile.rs:928-936 | the instruction map as a sequence in address order, nothing lost or repeated |
| Blocks.CollectLeaders | crates/kurosaki-core/src/decompile.rs:936-959 | the leaders are the first address, known targets inside the function, and what follows a branch |
| Blocks.TakeBlock | crates/kurosaki-core/src/decompile.rs:963-987 | a block extends to just before the next leader or just past the instruction that ends flow |
| Blocks.CutBlocks | crates/kurosaki-core/src/decompile.rs:962-1002 | the heads of the blocks are exactly the first instruction, the leaders and the instructions after one that ends flow |
| Blocks.EdgesHitHeads | crates/kurosaki-core/src/decompile.rs:1008-1036 | every edge inside the function leads to a head |
| Blocks.OwnersOf | crates/kurosaki-core/src/decompile.rs:988-992 | each instruction address is owned by the block that holds it |
| ControlFlow.LinkBlock | crates/kurosaki-core/src/decompile.rs:1008-1047 | a block's links are its last instruction's edges inside the function, once each, and it is a latch exactly when one does not lead forward |
| ControlFlow.LinkPredecessors | crates/kurosaki-core/src/decompile.rs:1048-1066 | the back links and header marks that the collected edges call for, and nothing else changed |
| ControlFlow.BuildBlocks | crates/kurosaki-core/src/decompile.rs:928-1068 | the whole graph is well formed: blocks concatenate to the sorted code; all but the last instruction of each go on; each is maximal, for the one before it does not go on or some branch or jump leads to it; edges land on starts, links and back links are dual and free of duplicates, marks are exact |
| ControlFlow.CycleHasLatch | crates/kurosaki-core/src/decompile.rs:1033-1066 | every directed cycle of a well-formed graph goes through a latch |
| ControlFlow.MarkedIffOnBackEdge | crates/kurosaki-core/src/decompile.rs:1033-1066 | a block is marked if and only if it is an end of an edge whose target start is not after its source start |
| GraphFlow.EdgesAreFlowIff | crates/kurosaki-core/src/decompile.rs:1008-1036 | an instruction's edges are its static successors in the function if and only if the next key of the map is its following address, so far as that adds one |
| GraphFlow.LinksAreFlowIff | crates/kurosaki-core/src/decompile.rs:1008-1047 | the links of every block are exactly the static successors in the function if and only if that holds of every last instruction |
| GraphFlow.GraphIsFlowIff | crates/kurosaki-core/src/decompile.rs:928-1068 | steps inside and between blocks are exactly the static flow in the function if and only if it holds of every instruction |
| GraphFlow.AcrossAnalyzed | crates/kurosaki-core/src/decompile.rs:723-880 | from a 48 KiB ROM with a NOP at the end of bank 5 and a return at the start of bank 2, the function walk yields exactly these two instructions |
| GraphFlow.FallthroughLost | crates/kurosaki-core/src/decompile.rs:928-1068 | its sorted code has that fallthrough in its static flow, and no graph built from it does |
| Integrator.UpdateTick | crates/kurosaki-core/src/namco163.rs:342-352 | the held level is integrated up to the update, which then happens once |
| Integrator.UpdatesInCycles | crates/kurosaki-core/src/namco163.rs:336-353 | n cycles hold floor((n + 15 - divider) / 15) updates, and the divider that remains |
| Integrator.TicksKeepBound | crates/kurosaki-core/src/namco163.rs:336-353 | the integral stays within 120 per cycle over any run, enabled or not |
| Integrator.SampleFits | crates/kurosaki-core/src/namco163.rs:354-368 | while scaling fits, the truncating quotient scaled by 180 lies within 21600, and the 16-bit cast loses nothing |
| Integrator.ScalingFitsIff | crates/kurosaki-core/src/namco163.rs:358-360 | the 64-bit product cannot overflow if and only if the cycle count is at most i64::MAX / 21600 |
| Integrator.MeanExactIff | crates/kurosaki-core/src/namco163.rs:358-360 | the wrapped product still gives the exact scaled mean of every possible integral if and only if the same bound holds |
| Namco163.SoundUnit.constructor | crates/kurosaki-core/src/namco163.rs:65-95 | zeroed RAM and outputs, divider 15, channel 7 |
| Namco163.SoundUnit.AdvancePhase | crates/kurosaki-core/src/namco163.rs:130-140 | the current channel's phase bytes, and only these, move on by its frequency modulo its wave length |
| Namco163.SoundUnit.UpdateChannel | crates/kurosaki-core/src/namco163.rs:125-155 | the whole new state of one update, in both output modes |
| Namco163.SoundUnit.ClockExpansionAudio | crates/kurosaki-core/src/namco163.rs:336-353 | a chunk of any size is that many single cycles |
| Namco163.SoundUnit.ExpansionAudioSample | crates/kurosaki-core/src/namco163.rs:354-368 | the scaled mean since the last sample, its product wrapped in 64 bits, after which the integral starts over |
| Namco163Board.Namco163Mapper.constructor | crates/kurosaki-core/src/namco163.rs:55-95 | power-on registers, work RAM and the given CHR backing |
| Namco163Board.Namco163Mapper.ReadPrg | crates/kurosaki-core/src/namco163.rs:176-210 | every read range, with the data port moving its address on |
| Namco163Board.Namco163Mapper.WritePrg | crates/kurosaki-core/src/namco163.rs:211-281 | the whole new state of a write: data port, IRQ counter, gated work RAM, bank registers |
| Namco163Board.Namco163Mapper.ReadChr | crates/kurosaki-core/src/namco163.rs:282-289 | the byte of the selected 1 KiB bank |
| Namco163Board.Namco163Mapper.WriteChr | crates/kurosaki-core/src/namco163.rs:290-300 | the byte the matching read would return, only when the backing is RAM |
| Namco163Board.Namco163Mapper.ClockCpu | crates/kurosaki-core/src/namco163.rs:310-329 | the counter stops at $7FFF and interrupts there |
| Namco163Board.Namco163Mapper.ClockExpansionAudio | crates/kurosaki-core/src/namco163.rs:336-353 | sound advances if enabled by register and submapper |
| Namco163Board.Namco163Mapper.ExpansionAudioSample | crates/kurosaki-core/src/namco163.rs:354-368 | the sample taken, and the integral started over |
| Namco163Board.Namco163Mapper.SnapshotBytes | crates/kurosaki-core/src/namco163.rs:386-415 | the bytes that the restore lemmas are about |
| Namco163Board.Namco163Mapper.RestoreSnapshotBytes | crates/kurosaki-core/src/namco163.rs:416-472 | rejects and changes nothing, or replaces exactly what a snapshot covers |
| Namco163Turns.AdvancedPhase | crates/kurosaki-core/src/namco163.rs:131-140 | the three stored bytes read back as the new phase |
| Namco163Turns.AdvancedKeeps | crates/kurosaki-core/src/namco163.rs:131-140 | an update changes no channel's frequency or length and no other channel's phase |
| Namco163Turns.TurnsClosedForm | crates/kurosaki-core/src/namco163.rs:125-155 | among m updates a channel at distance d among N active ones has ceil((m - d) / N) turns |
| Namco163Turns.TurnsInWholeRounds | crates/kurosaki-core/src/namco163.rs:125-155 | in N k updates every active channel has exactly k turns |
| Namco163Turns.PhaseAfterUpdates | crates/kurosaki-core/src/namco163.rs:125-155 | after any number of updates each active channel's phase has advanced once per turn, from every state |
| Namco163Turns.PhaseAfterRounds | crates/kurosaki-core/src/namco163.rs:125-155 | N k updates, k at least 1, leave each active phase at (phase + k frequency) mod (length 65536) |
| Namco163Turns.PhaseAfterCycles | crates/kurosaki-core/src/namco163.rs:336-353 | the phase of each active channel after n cycles, in closed form |
| Namco163Turns.UpdatesTouch | crates/kurosaki-core/src/namco163.rs:125-155 | no run of updates changes a byte outside the phases of the active channels |
| Namco163Turns.OutputInRange | crates/kurosaki-core/src/namco163.rs:141-143 | a channel's output is in -120..105 |
| Namco163Turns.UpdateStaysLoud | crates/kurosaki-core/src/namco163.rs:144-149 | in both output modes the DAC stays in -120..105 |
| Namco163Turns.SamplesAreExact | crates/kurosaki-core/src/namco163.rs:336-368 | for any split of the cycles: same state, bounded integral, and, while scaling fits, a sample that survives its cast |
| Namco163Levels.WaveDigits | crates/kurosaki-core/src/namco163.rs:141-142 | the wave is the base-16 digits of sound RAM, low digit first |
| Namco163Levels.TurnSpelled | crates/kurosaki-core/src/namco163.rs:126-129 | whose turn it is, and whose is next, from the last byte of sound RAM |
| Namco163Levels.PhaseSpelled | crates/kurosaki-core/src/namco163.rs:130-140 | the new phase from the channel's phase, frequency and length bytes; no other byte changes |
| Namco163Levels.LevelSpelled | crates/kurosaki-core/src/namco163.rs:141-149 | the output: the wave digit at the phase plus the offset register, less 8, times the low four bits of the volume register; it is the DAC unless outputs are averaged |
| Namco163Levels.AverageSpelled | crates/kurosaki-core/src/namco163.rs:144-149 | in averaging mode the DAC is the mean of the active channels' held outputs, rounded towards zero |
| Namco163Levels.SampleSpelledOut | crates/kurosaki-core/src/namco163.rs:354-368 | a sample is 180 times the mean level, rounded towards zero |
| Namco163Levels.SteadySample | crates/kurosaki-core/src/namco163.rs:354-368 | a level held for all its cycles gives exactly 180 times that level |
| Namco163Levels.LevelAtTurn | crates/kurosaki-core/src/namco163.rs:125-155 | in any run, the level at turn k of a channel: update d + N k plays the digit at the phase after k + 1 advances |
| Namco163Snapshot.StepKeepsSound | crates/kurosaki-core/src/namco163.rs:176-368 | every operation keeps the DAC, output and integral bounds |
| Namco163Snapshot.ReachableIsSound | crates/kurosaki-core/src/namco163.rs:51-368 | every state reachable from power-on keeps them |
| Namco163Snapshot.SnapshotRegisters | crates/kurosaki-core/src/namco163.rs:386-415 | where each register field lies in the snapshot |
| Namco163Snapshot.SnapshotMemories | crates/kurosaki-core/src/namco163.rs:386-415 | where the sound numbers and the memories lie in the snapshot |
| Namco163Snapshot.SnapshotAcceptedIff | crates/kurosaki-core/src/namco163.rs:416-447 | a sound state's snapshot passes the checks if and only if its cycle count is at most i64::MAX / 4800 |
| Namco163Snapshot.RestoredChip | crates/kurosaki-core/src/namco163.rs:416-472 | any chip of the same cartridge restores the saved state, the unsaved held outputs aside |
| Namco163Snapshot.AcceptedIsSnapshot | crates/kurosaki-core/src/namco163.rs:386-472 | every accepted byte string is exactly the snapshot of the chip it restores |
| Namco163Snapshot.AcceptedExactly | crates/kurosaki-core/src/namco163.rs:386-472 | the accepted byte strings are exactly the snapshots of the same cartridge's states with the DAC in -120..105, an integral of at most 120 per cycle and at most i64::MAX / 4800 cycles |
| Namco163Restore.SamplesFitIff | crates/kurosaki-core/src/namco163.rs:441-441 | among the cycle counts a restore lets through, the next sample of every accepted snapshot fits 64 bits if and only if the count is at most i64::MAX / 21600 |
| Namco163Restore.SamplesExactIff | crates/kurosaki-core/src/namco163.rs:354-472 | and the next sample of every accepted snapshot is the exact scaled mean if and only if the same bound holds |
| Namco163Restore.RestoreAdmitsOverflow | crates/kurosaki-core/src/namco163.rs:441-441 | every chip accepts some byte string after which the next sample's product overflows |
| Namco163Restore.RestoreIsBisimilar | crates/kurosaki-core/src/namco163.rs:386-472 | with multiplexed output, or on a board without sound, the restored chip gives the same reads, interrupts and samples for every later sequence of operations |
| Namco163Restore.AveragedOutputIsLost | crates/kurosaki-core/src/namco163.rs:145-146 | with averaged output four writes and clocks from power-on lead to a state that a fresh chip restores and then sounds different from |
| Namco163Restore.RestoresUnnoticedIff | crates/kurosaki-core/src/namco163.rs:386-472 | per cartridge and output mode, every restore within the bound goes unnoticed if and only if output is multiplexed or the submapper is 1 or 2 |
| Namco163Registers.PowerOnShown | crates/kurosaki-core/src/namco163.rs:51-95 | at power-on the slots show banks 0, 1, 2 and the last, the CHR windows bank 0, without interrupt or sound |
| Namco163Registers.IrqAfter | crates/kurosaki-core/src/namco163.rs:310-329 | while enabled the counter advances by the cycles passed, in any chunks and whatever else runs, and interrupts exactly in the chunk that brings it to $7FFF |
| Namco163Registers.IrqAtStop | crates/kurosaki-core/src/namco163.rs:310-329 | acknowledged at $7FFF it interrupts again with the next chunk |
| Namco163Registers.IrqProgrammed | crates/kurosaki-core/src/namco163.rs:227-235 | programmed through its registers it is pending exactly once $7FFF less its value cycles have passed, if bit 7 enabled it; reading gives counter and enable bit back |
| Namco163Registers.PortRoundTrip | crates/kurosaki-core/src/namco163.rs:114-226 | up to 128 bytes written through the data port are read back through it |
| Namco163Registers.StoresCounted | crates/kurosaki-core/src/namco163.rs:222-226 | every byte written to the port is counted, saturating |
| Namco163Registers.ChrSelected | crates/kurosaki-core/src/namco163.rs:242-289 | each CHR register selects its own 1 KiB window and no other |
| Namco163Registers.PrgSelected | crates/kurosaki-core/src/namco163.rs:244-252 | each PRG register selects its own 8 KiB slot by its low six bits; the last slot is fixed |
| Namco163Registers.NametableSelected | crates/kurosaki-core/src/namco163.rs:243-309 | bit 0 of each nametable register selects the page of its nametable |
| Namco163Registers.SoundSwitched | crates/kurosaki-core/src/namco163.rs:121-247 | bit 6 of the first PRG register switches the sound off |
| Namco163Registers.WorkRamWritten | crates/kurosaki-core/src/namco163.rs:236-241 | work RAM takes a byte exactly when the port's high nibble is 4 and the bit of its 2 KiB window is clear |
| Mmc1Board.Mmc1Mapper.constructor | crates/kurosaki-core/src/mapper.rs:1806-1834 | power-on registers, and at least one byte of work RAM |
| Mmc1Board.Mmc1Mapper.WriteSerial | crates/kurosaki-core/src/mapper.rs:2105-2210 | the whole new state of a ROM-area write: reset, dropped adjacent write, shift, commit |
| Mmc1Board.Mmc1Mapper.WritePrg | crates/kurosaki-core/src/mapper.rs:2078-2224 | RAM is written only while enabled and in place; ROM addresses reach the serial port; nothing else changes |
| Mmc1Board.Mmc1Mapper.ReadPrg | crates/kurosaki-core/src/mapper.rs:2037-2075 | the banked read, $FF from disabled RAM |
| Mmc1Board.Mmc1Mapper.ReadChr | crates/kurosaki-core/src/mapper.rs:2227-2244 | the CHR byte of the one 8 KiB or two 4 KiB banks |
| Mmc1Board.Mmc1Mapper.WriteChr | crates/kurosaki-core/src/mapper.rs:2247-2275 | the byte the matching read would return, only when the backing is RAM |
| Mmc1Board.Mmc1Mapper.NotifyPpuAddr | crates/kurosaki-core/src/mapper.rs:2280-2302 | the mismatch is reported once, until rearmed |
| Mmc1Board.Mmc1Mapper.SnapshotBytes | crates/kurosaki-core/src/mapper.rs:2344-2371 | the bytes that the restore lemmas are about |
| Mmc1Board.Mmc1Mapper.RestoreSnapshotBytes | crates/kurosaki-core/src/mapper.rs:2375-2419 | rejects and changes nothing, or replaces all mutable state, registers, work RAM and CHR |
| Mmc1Serial.WriteRefines | crates/kurosaki-core/src/mapper.rs:2105-2160 | a shift register with a sentinel bit refines a queue of accepted bits, write by write |
| Mmc1Serial.RunRefines | crates/kurosaki-core/src/mapper.rs:2078-2224 | over every sequence of writes and cycles the shift register encodes exactly the bits accepted since the last reset or commit |
| Mmc1Serial.RunFromPowerOn | crates/kurosaki-core/src/mapper.rs:1806-1834 | in particular from power-on, where no bit has been accepted |
| Mmc1Serial.DroppedIff | crates/kurosaki-core/src/mapper.rs:2128-2147 | in a new cycle, a write changes nothing if and only if it is a serial bit in the cycle after the last accepted write |
| Mmc1Serial.SecondWriteDropped | crates/kurosaki-core/src/mapper.rs:2128-2147 | so the second write of a read-modify-write instruction can be struck from any log |
| Mmc1Serial.FiveBitsCommit | crates/kurosaki-core/src/mapper.rs:1840-1864 | five accepted bits load their value, first bit lowest, into the register of the fifth write's address; the other four addresses do not matter |
| Mmc1Serial.RunKeepsRamGate | crates/kurosaki-core/src/mapper.rs:1857-1861 | in every run work RAM is enabled exactly while bit 4 of the PRG register is clear, and registers stay 5 bits wide |
| Mmc1Snapshot.RestoredChip | crates/kurosaki-core/src/mapper.rs:2344-2419 | any mapper of the same cartridge restores the saved state; a last write in the very last cycle is forgotten |
| Mmc1Snapshot.RestoreIsBisimilar | crates/kurosaki-core/src/mapper.rs:2344-2419 | saving and restoring is behaviourally the identity, from every state and for every later sequence |
| Mmc1Snapshot.RestoreIsIdentityIff | crates/kurosaki-core/src/mapper.rs:2344-2419 | it is the identity on the state if and only if the last write was not in the last cycle |
| Mmc1Registers.PowerOnShown | crates/kurosaki-core/src/mapper.rs:1806-1834 | at power-on the first bank is below the last one, and work RAM is open |
| Mmc1Registers.FiveBitsLoad | crates/kurosaki-core/src/mapper.rs:1840-1864 | five accepted bits load control, CHR 0, CHR 1, or PRG and the RAM gate, by the range of the fifth address, and leave the others |
| Mmc1Registers.ResetSpelled | crates/kurosaki-core/src/mapper.rs:2107-2113 | a reset drops the bits, fixes the last bank and keeps every other register |
| Mmc1Registers.PrgSelected | crates/kurosaki-core/src/mapper.rs:1894-1919 | the value sent to $E000-$FFFF selects the PRG bank in every mode, and opens RAM exactly below 16 |
| Mmc1Registers.ControlSelected | crates/kurosaki-core/src/mapper.rs:1840-1936 | bits 0 and 1 of the value sent to $8000-$9FFF select the mirroring, bits 2 and 3 the PRG mode |
| Mmc1Registers.ChrSelected | crates/kurosaki-core/src/mapper.rs:2227-2244 | the values sent to $A000-$DFFF select the CHR banks, in both modes |
| Mmc1Registers.MismatchReportedOnce | crates/kurosaki-core/src/mapper.rs:2280-2302 | conflicting outer bits are reported at the first PPU address and not again |
| Mmc1Registers.RamRoundTrip | crates/kurosaki-core/src/mapper.rs:2078-2100 | a byte written to open work RAM is read back; closed, it is neither written nor shown |
| Mmc1Registers.SnapshotSpelled | crates/kurosaki-core/src/mapper.rs:2344-2371 | where each register and memory lies in the snapshot |
| Banks.WriteBank | crates/kurosaki-core/src/mapper.rs:495-504 | a write lands where the matching read looks |
| Banks.LabelExactIff | crates/kurosaki-core/src/mapper.rs:456-493 | for windows of a multiple of 8 KiB, every offset is read from the labelled 8 KiB bank if and only if the ROM fills one window or is a multiple of 8 KiB long |
| Banks.WindowLabelled | crates/kurosaki-core/src/mapper.rs:456-493 | wherever a label exists, the byte read is the labelled bank's byte at the address modulo 8 KiB |
| Banks.WholeBankRead | crates/kurosaki-core/src/mapper.rs:456-477 | in a backing of whole banks the bank number wraps at their count |
| PrgWindows.UxromLabelled | crates/kurosaki-core/src/mapper.rs:816-872 | UxROM, both fixed-half variants: in every register state the label and the read agree |
| PrgWindows.Vrc3Labelled | crates/kurosaki-core/src/mapper.rs:1045-1085 | VRC3: in every register state the label and the read agree |
| PrgWindows.Mmc1Labelled | crates/kurosaki-core/src/mapper.rs:2016-2075 | MMC1 in all four PRG modes, generic and SUROM: in every register state the label and the read agree |
| PrgWindows.Mmc2Mmc4Labelled | crates/kurosaki-core/src/mapper.rs:2551-2607 | MMC2 and MMC4: in every register state the label and the read agree |
| PrgWindows.Mmc3Labelled | crates/kurosaki-core/src/mapper.rs:2834-3020 | MMC3 in both PRG modes: in every register state the label and the read agree |
| PrgWindows.VrcLabelled | crates/kurosaki-core/src/mapper_scaffolds.rs:1250-1386 | VRC2/4/6/7: in every register state the label and the read agree |
| PrgWindows.Namco163Labelled | crates/kurosaki-core/src/namco163.rs:165-202 | Namco 163: in every register state the label and the read agree |
| PrgWindows.SuromStaysInHalf | crates/kurosaki-core/src/mapper.rs:1876-1911 | a 512 KiB SUROM maps only banks of the 256 KiB half its outer bit selects |
| PrgCapture.UxromFetched | crates/kurosaki-core/src/mapper.rs:816-872 | UxROM: a ROM byte fetched through windows captured from the labels at the four slots is the byte the board reads, defined exactly where the label is |
| PrgCapture.Vrc3Fetched | crates/kurosaki-core/src/mapper.rs:1045-1085 | VRC3: a ROM byte fetched through windows captured from the labels at the four slots is the byte the board reads, defined exactly where the label is |
| PrgCapture.Mmc1Fetched | crates/kurosaki-core/src/mapper.rs:2016-2075 | MMC1 and SUROM: a ROM byte fetched through windows captured from the labels at the four slots is the byte the board reads, defined exactly where the label is |
| PrgCapture.Mmc2Mmc4Fetched | crates/kurosaki-core/src/mapper.rs:2551-2607 | MMC2 and MMC4: a ROM byte fetched through windows captured from the labels at the four slots is the byte the board reads, defined exactly where the label is |
| PrgCapture.Mmc3Fetched | crates/kurosaki-core/src/mapper.rs:2834-3020 | MMC3: a ROM byte fetched through windows captured from the labels at the four slots is the byte the board reads, defined exactly where the label is |
| PrgCapture.VrcFetched | crates/kurosaki-core/src/mapper_scaffolds.rs:1250-1386 | VRC2/4/6/7: a ROM byte fetched through windows captured from the labels at the four slots is the byte the board reads, defined exactly where the label is |
| PrgCapture.Namco163Fetched | crates/kurosaki-core/src/namco163.rs:165-202 | Namco 163: a ROM byte fetched through windows captured from the labels at the four slots is the byte the board reads, defined exactly where the label is |
| PrgBanks.UxromMapped | crates/kurosaki-core/src/mapper.rs:816-872 | UxROM: the selected bank below the last one, or above the first one; the byte read at every slot and offset of a ROM of whole banks |
| PrgBanks.Vrc3Mapped | crates/kurosaki-core/src/mapper.rs:1045-1085 | VRC3: the selected bank below the last one; the byte read at every slot and offset of a ROM of whole banks |
| PrgBanks.Mmc1Mapped | crates/kurosaki-core/src/mapper.rs:1894-1919 | MMC1: a pair of banks, one above the first, or one below the last, by control bits 2 and 3; the byte read at every slot and offset of a ROM of whole banks |
| PrgBanks.SuromMapped | crates/kurosaki-core/src/mapper.rs:1894-1919 | SUROM: the same inside the half that bit 4 of CHR register 0 selects; the byte read at every slot and offset of a ROM of whole banks |
| PrgBanks.Mmc2Mapped | crates/kurosaki-core/src/mapper.rs:2551-2607 | MMC2: the selected bank below the last three; the byte read at every slot and offset of a ROM of whole banks |
| PrgBanks.Mmc4Mapped | crates/kurosaki-core/src/mapper.rs:2551-2607 | MMC4: the selected bank below the last one; the byte read at every slot and offset of a ROM of whole banks |
| PrgBanks.Mmc3Mapped | crates/kurosaki-core/src/mapper.rs:2834-3020 | MMC3: R7 second, the last bank fourth, R6 and the last but one in the order bit 6 says; the byte read at every slot and offset of a ROM of whole banks |
| PrgBanks.VrcMapped | crates/kurosaki-core/src/mapper_scaffolds.rs:1250-1386 | VRC2/4/6/7: which register each slot follows in each mode; the byte read at every slot and offset of a ROM of whole banks |
| PrgBanks.Namco163Mapped | crates/kurosaki-core/src/namco163.rs:165-202 | Namco 163: three selected banks below the last one; the byte read at every slot and offset of a ROM of whole banks |
| VrcIrq.Vrc4Irq.ClockCpu | crates/kurosaki-core/src/mapper_scaffolds.rs:1539-1567 | the chunk update of prescaler, counter and pending flag, wrapped in 64 bits; nothing on VRC2 boards |
| VrcIrq.Vrc4ChunkExact | crates/kurosaki-core/src/mapper_scaffolds.rs:1539-1567 | chunks below (2^64 - 512) / 3 cycles wrap nowhere |
| VrcIrq.Vrc4Irq.WriteIrq | crates/kurosaki-core/src/mapper_scaffolds.rs:1300-1322 | latch nibbles, control with reload, acknowledge |
| VrcIrq.Vrc4Irq.WriteVrc4Irq | crates/kurosaki-core/src/mapper_scaffolds.rs:1182-1322 | the same through the board's two address lines |
| VrcIrq.Vrc3Irq.WriteIrqRegister | crates/kurosaki-core/src/mapper.rs:1011-1031 | latch nibbles by address, control with reload, acknowledge |
| VrcIrq.Vrc3LatchSpelled | crates/kurosaki-core/src/mapper.rs:1011-1016 | four nibble writes leave exactly the value they spell in the latch, whatever was there |
| VrcIrq.Vrc3ProgrammedPeriod | crates/kurosaki-core/src/mapper.rs:1011-1031 | programmed and enabled, it first interrupts when the counter reaches its width, whatever the old state |
| VrcIrq.IncrementsClosedForm | crates/kurosaki-core/src/mapper_scaffolds.rs:1555-1562 | any number of single increments with reload, in closed form |
| VrcIrq.BulkExactIff | crates/kurosaki-core/src/mapper_scaffolds.rs:1555-1562 | the chunk update equals single increments for every counter value if and only if the increments are at most 256 - latch, or the latch is 0 |
| VrcIrq.TwoCycleChunkInexact | crates/kurosaki-core/src/mapper_scaffolds.rs:1539-1567 | from any state, latch $FF and control 6, one chunk of two cycles leaves the counter at 0 where two cycles leave it at $FF |
| VrcIrq.Vrc4BulkExact | crates/kurosaki-core/src/mapper_scaffolds.rs:1539-1567 | within that bound a chunk equals its single cycles, prescaler included |
| VrcIrq.Vrc4PendingExact | crates/kurosaki-core/src/mapper_scaffolds.rs:1539-1567 | the interrupt flag is right after a chunk of any size |
| VrcIrq.ScanlineChunksExact | crates/kurosaki-core/src/mapper_scaffolds.rs:1539-1567 | in scanline mode every split into chunks of at most 113 cycles is exact, for every latch |
| VrcIrq.ProgrammedPeriod | crates/kurosaki-core/src/mapper_scaffolds.rs:1300-1322 | two latch writes and an enable give a first interrupt exactly 256 - latch cycles later, whatever the old state |
| VrcIrq.Vrc3Irq.ClockCpu | crates/kurosaki-core/src/mapper.rs:1137-1163 | the chunk update in both widths, the chunk cut to 32 bits and the sum wrapped in 32 bits |
| VrcIrq.Vrc3Ticks | crates/kurosaki-core/src/mapper.rs:1137-1163 | any number of single cycles in closed form, without truncation |
| VrcIrq.Vrc3CounterExact | crates/kurosaki-core/src/mapper.rs:1137-1163 | the counter is right after every nonempty chunk of any size |
| VrcIrq.Vrc3BulkExactIff | crates/kurosaki-core/src/mapper.rs:1137-1163 | a nonempty chunk equals its single cycles, interrupt included, if and only if the sum fits 32 bits, or still reaches the width once cut to them, or the interrupt is already pending |
| VrcIrq.Vrc3ChunksExact | crates/kurosaki-core/src/mapper.rs:1137-1163 | every split into chunks of 1 to 2^32 - 2^16 cycles equals the single cycles |
| VrcIrq.Vrc3EmptyChunkIff | crates/kurosaki-core/src/mapper.rs:1137-1163 | an empty chunk changes nothing if and only if the counter is inside its width or the unit is disabled |
| VrcIrq.Vrc3AnyChunksExact | crates/kurosaki-core/src/mapper.rs:1137-1163 | from inside the width, splits with empty chunks equal the single cycles as well |
| VrcRegisters.BoardAddresses | crates/kurosaki-core/src/mapper_scaffolds.rs:1182-1200 | which two address bits select the registers on each board |
| VrcRegisters.Vrc4Programmed | crates/kurosaki-core/src/mapper_scaffolds.rs:1300-1567 | a programmed VRC4 counter is pending exactly once 256 - latch cycles, or that many scanlines of 341 thirds of a cycle, have passed, in one chunk of any size |
| VrcRegisters.Vrc4Acknowledged | crates/kurosaki-core/src/mapper_scaffolds.rs:1316-1319 | acknowledging clears it and leaves it running exactly if bit 0 of the control byte was set |
| VrcRegisters.Vrc3Programmed | crates/kurosaki-core/src/mapper.rs:1011-1163 | a programmed VRC3 counter is pending exactly once its latch and the cycles reach $100 or $10000, by bit 2 of the control byte |
| VrcRegisters.Vrc3Acknowledged | crates/kurosaki-core/src/mapper.rs:1011-1031 | acknowledging clears it and leaves it running exactly if bit 0 was set |
| ApuFrame.FrameSequencer.ClockEnvelope | crates/kurosaki-core/src/apu.rs:539-559 | restart, decay, loop and divider of one envelope |
| ApuFrame.FrameSequencer.ClockTriangleLinear | crates/kurosaki-core/src/apu.rs:561-573 | reload, count and reload-flag clearing of the linear counter |
| ApuFrame.FrameSequencer.ClockQuarterFrame | crates/kurosaki-core/src/apu.rs:520-526 | three envelopes and the linear counter, nothing else |
| ApuFrame.FrameSequencer.ClockLengthCounter | crates/kurosaki-core/src/apu.rs:575-586 | one length counter, unless halted |
| ApuFrame.FrameSequencer.ClockSweep | crates/kurosaki-core/src/apu.rs:589-620 | reload, divider and timer target of one sweep |
| ApuFrame.FrameSequencer.ClockHalfFrame | crates/kurosaki-core/src/apu.rs:528-535 | four length counters, then both sweeps, nothing else |
| ApuFrame.FrameSequencer.WriteRegister | crates/kurosaki-core/src/apu.rs:306-321 | keep and count the register value, select the mode, restart its period, clear an inhibited interrupt, and clock everything at once in five-step mode |
| ApuFrame.FrameSequencer.ClockFrameEventsBetween | crates/kurosaki-core/src/apu.rs:497-517 | exactly the points in (start, end], in order, each once |
| ApuFrame.FrameSequencer.ClockFrameSequencer | crates/kurosaki-core/src/apu.rs:477-493 | a chunk of any size, over any number of periods, is that many single cycles |
| Schedule.TicksWithinPeriod | crates/kurosaki-core/src/apu.rs:497-517 | inside a period single cycles fire exactly the points they pass |
| Schedule.ChunkIsTicks | crates/kurosaki-core/src/apu.rs:477-493 | clocking a chunk period by period is that many single cycles |
| Schedule.ChunksCompose | crates/kurosaki-core/src/apu.rs:477-493 | chunks clocked one after the other are one chunk of their sum |
| Schedule.FullPeriod | crates/kurosaki-core/src/apu.rs:477-517 | in one period from any position every point fires exactly once, in cyclic order |
| Schedule.RunFollows | crates/kurosaki-core/src/apu.rs:477-517 | whatever changes at some of the points and nowhere else changes once per pass of them, over any run |
| Schedule.PassesClosedForm | crates/kurosaki-core/src/apu.rs:477-517 | how often a point is passed in n cycles |
| ApuFrameRuns.FourStepIrqs | crates/kurosaki-core/src/apu.rs:508-513 | the frame interrupts of n cycles are the j with 29829 + 29830 j in (start, start + n], saturating, and none while inhibited |
| ApuFrameRuns.FiveStepIrqs | crates/kurosaki-core/src/apu.rs:23-28 | five-step mode never interrupts |
| ApuFrameRuns.LengthsInCycles | crates/kurosaki-core/src/apu.rs:575-586 | a length counter that is not halted loses one per half frame passed until it is zero, in both modes |
| ApuFrameRuns.ChunksDoNotMatter | crates/kurosaki-core/src/apu.rs:477-493 | any way of cutting cycles into chunks, each clocked period by period, leaves every unit as single cycles do |
| ApuFrameRuns.PeriodInOrder | crates/kurosaki-core/src/apu.rs:17-22 | a four-step period from its start is its four events in order, back at the start |
| ApuFrameLevels.EnvelopeInCycles | crates/kurosaki-core/src/apu.rs:539-557 | a restarted envelope after any run: down from 15 once per P + 1 quarter frames, and round again or at zero by bit 5 |
| ApuFrameLevels.LengthInCycles | crates/kurosaki-core/src/apu.rs:575-586 | a length counter after any run, halted by bit 7 of $4008 or bit 5 of the others |
| ApuFrameLevels.LinearInCycles | crates/kurosaki-core/src/apu.rs:561-571 | the linear counter after any run: loaded, held while bit 7 is set, or counting down |
| ApuFrameLevels.SweepInCycles | crates/kurosaki-core/src/apu.rs:589-620 | a sweep after any run: the timer swept once per P + 2 half frames after the divider is loaded |
| ApuFrameLevels.SweptSpelled | crates/kurosaki-core/src/apu.rs:605-618 | one sweep: the timer plus or minus its shifted self, one less on the first pulse, taken only within 8 to $7FF |
| ApuFrameLevels.RestartSpelled | crates/kurosaki-core/src/apu.rs:306-321 | a write of $4017 restarts the period, inhibits by bit 6, and by bit 7 clocks every unit once |
| Dmc.DmcChannel.OutputOneBit | crates/kurosaki-core/src/apu.rs:930-960 | refill or silence, level change within bounds, shift |
| Dmc.DmcChannel.ClockOutput | crates/kurosaki-core/src/apu.rs:922-962 | one bit per full period of a chunk, the remainder kept |
| Dmc.DmcChannel.CompleteSampleFetch | crates/kurosaki-core/src/apu.rs:865-891 | a byte is accepted only when wanted; address wrap, loop restart, final interrupt |
| Dmc.DmcChannel.WriteRegister | crates/kurosaki-core/src/apu.rs:272-304 | the whole new state of a DMC register write |
| Dmc.ClockSplit | crates/kurosaki-core/src/apu.rs:922-962 | clocking a then b cycles equals clocking a + b cycles, from every state |
| DmcRuns.EveryRunIsSafe | crates/kurosaki-core/src/apu.rs:854-962 | over all runs from power-on the level is at most 127 and fetch addresses are in $8000-$FFFF |
| DmcRuns.LoopingSample | crates/kurosaki-core/src/apu.rs:854-918 | fetch k of a looping sample reads start + (k mod length), with $FFFF wrapping to $8000 |
| DmcRuns.OneShotSample | crates/kurosaki-core/src/apu.rs:854-891 | a one-shot sample reads each byte once, in order, never more, and interrupts exactly at its last byte if enabled |
| DmcRuns.BufferDrains | crates/kurosaki-core/src/apu.rs:922-962 | within eight bit times of the selected rate the byte buffer is free again |
| DmcRuns.RoundsRead | crates/kurosaki-core/src/bus.rs:229-313 | a host that polls before chunks of at most m cycles reads q bytes in q byte times and chunks, from every state of a sample that has as many left |
| DmcRuns.OneShotCompletes | crates/kurosaki-core/src/bus.rs:229-313 | with such a host a one-shot sample makes exactly length fetches and then interrupts if and only if enabled |
| DmcLevels.EveryBitPlays | crates/kurosaki-core/src/apu.rs:922-962 | however clocks and fetches alternate, the bits played and those pending are the bits of the bytes taken, lowest first, and the level has moved by exactly the bits played |
| DmcLevels.AllBytesPlayed | crates/kurosaki-core/src/apu.rs:922-962 | so once nothing is pending the level has moved by all bits of all bytes |
| DmcLevels.MovesInRange | crates/kurosaki-core/src/apu.rs:945-953 | away from the ends the level moves by two for every set bit less every clear one |
| DmcLevels.ProgrammedSample | crates/kurosaki-core/src/apu.rs:270-304 | a sample programmed through its registers: where byte k is read, how many are, and when the last one interrupts |
| DmcLevels.EnabledAgain | crates/kurosaki-core/src/apu.rs:282-304 | enabling a channel in the middle of its sample acknowledges its interrupt and changes nothing it reads or plays |
| DmcLevels.ControlQuiets | crates/kurosaki-core/src/apu.rs:270-276 | a control byte without bit 7 acknowledges the interrupt, and no run after it interrupts |
| DmcLevels.LevelWritten | crates/kurosaki-core/src/apu.rs:276-962 | a level written directly is where the following bits move from |
| DmcLevels.SwitchedOff | crates/kurosaki-core/src/apu.rs:282-304 | switched off, the channel plays and takes nothing, and its interrupt is clear |
| SaveProtocol.HolderActs | crates/kurosaki-core/src/battery.rs:205-252 | what the lock holder relies on, about target, temporary and backup, survives each of its own file operations |
| SaveProtocol.StepKeeps | crates/kurosaki-core/src/battery.rs:205-252 | the invariant of all processes survives every step of every process |
| SaveProtocol.MutualExclusion | crates/kurosaki-core/src/battery.rs:228-237 | in every interleaving at most one process holds the lock, and then its file exists |
| SaveProtocol.EveryChangeIsCompareAndSwap | crates/kurosaki-core/src/battery.rs:193-252 | in every interleaving, with failures and crashes anywhere, each step leaves the target or swaps it whole from what the writer last observed |
| SaveProtocol.ChangesFormAChain | crates/kurosaki-core/src/battery.rs:148-167 | the changes of the target form one chain from the initial contents to the current ones: no write is lost |
| SaveProtocol.ChainLinks | crates/kurosaki-core/src/battery.rs:238-243 | each change replaced exactly the bytes the previous one wrote |
| SaveProtocol.SuccessIsOnDisk | crates/kurosaki-core/src/battery.rs:244-252 | a replacement that reports success has its bytes on disk while it holds the lock |
| SaveProtocol.StaleLockBlocks | crates/kurosaki-core/src/battery.rs:229-233 | once a lock file is left behind, no run of cooperating processes changes the save again |
| SaveProtocol.CrashLeavesStaleLock | crates/kurosaki-core/src/battery.rs:197-203 | a process that dies holding the lock leaves such a file |
| SaveProgress.BlockedForever | crates/kurosaki-core/src/battery.rs:205-252 | while no live process is free of another's lock and of left-over temporaries, no step of any process changes that, or the save |
| SaveProgress.AbleReplaces | crates/kurosaki-core/src/battery.rs:205-252 | a process that is free of them can change the save by itself, whatever it was in the middle of |
| SaveProgress.CanChangeIff | crates/kurosaki-core/src/battery.rs:205-252 | from every reachable state some continuation changes the save if and only if some live process is free of them |
| SaveProgress.QuietCanChangeIff | crates/kurosaki-core/src/battery.rs:205-252 | with no replacement under way: if and only if no lock file, no temporary of the save and, with a save to back up, no temporary of the backup exists |
| SaveProgress.LeftoverBlocks | crates/kurosaki-core/src/battery.rs:185-222 | a write that fails and whose clean-up fails leaves the lock free and the save unchangeable for good, without any crash |
| SaveRuns.ComparisonPassesIff | crates/kurosaki-core/src/battery.rs:126-243 | however other processes act in between, an opened session with changed RAM that gets the lock goes on to write if and only if the save is what it was when the session was opened |
| SaveRuns.SavesAlone | crates/kurosaki-core/src/battery.rs:227-252 | alone, with nothing in the way, a flush leaves the new bytes in place, the old ones as backup, and a session ready for the next change |
| SaveRuns.OpenedSavesAll | crates/kurosaki-core/src/battery.rs:126-167 | a process that opens a session and flushes one change after the other saves them all, and leaves no lock or temporary |
| SaveRuns.SessionMovesOnly | crates/kurosaki-core/src/battery.rs:162-165 | what a session remembers moves only on opening and on its own saved flush, never by an export |
| BatterySessions.AtomicWrite | crates/kurosaki-core/src/battery.rs:210-222 | goes through exactly when no temporary is in the way and nothing fails; otherwise the target is untouched; always a run of the protocol |
| BatterySessions.ReplaceSave | crates/kurosaki-core/src/battery.rs:227-252 | succeeds exactly when the lock is free, the contents are as expected and nothing fails; then new contents and backup are in place; always a run of the protocol |
| BatterySessions.LayoutOf | crates/kurosaki-core/src/battery.rs:23-57 | only a battery cartridge whose RAM is exactly 8 KiB has a layout that is saved; only one without a battery has nothing to save |
| BatterySessions.Nes20SizeIff | crates/kurosaki-core/src/battery.rs:36-45 | an NES 2.0 header means 8 KiB if and only if its first size byte is $70 and it gives no CHR NVRAM |
| BatterySessions.Emulator.ImportRam | crates/kurosaki-core/src/battery.rs:70-88 | replaces the RAM by bytes of exactly its size, or changes nothing |
| BatterySessions.BatterySession.Open | crates/kurosaki-core/src/battery.rs:126-143 | when a session opens, is refused, or has nothing to save; it remembers exactly the save on disk and the RAM, which an existing save replaces |
| BatterySessions.BatterySession.Flush | crates/kurosaki-core/src/battery.rs:150-167 | refused for another ROM or an unsupported layout; unchanged RAM touches nothing; a save replaces exactly the contents last seen, with the old ones as backup; baselines move only on success; always a run of the protocol that begins with this flush |
| BatterySessions.SecondWriterIsRefused | crates/kurosaki-core/src/battery.rs:239-243 | of two sessions that saw the same save, the second to flush is refused once the first has saved a change, whose bytes stay |
| BatterySessions.SavedIff | crates/kurosaki-core/src/battery.rs:23-57 | a cartridge is saved exactly if it is a battery board of mapper 0, 1 or 4 without a submapper with 8 KiB of RAM by its header |
| BatterySessions.FirstFlush | crates/kurosaki-core/src/battery.rs:126-167 | an opened session whose RAM the game changed saves it exactly when nothing is in the way and nothing fails, and the old save is then the backup |

## Left out

- Decoder: mnemonics are represented by their operand placeholder; rendered text, cross references, labels and warnings are strings and are not modelled.
- Cpu.CpuState.ResolveAddr: pointers in memory are arbitrary, so the address of the two indirect modes and the page crossing of the second one are too.
- Cpu.CpuState.ReadMode: the page crossing it passes on is stated by ResolveAddr alone.
- Cpu.CpuState.WriteMode: a write may reach any register and change any window, so its address is not in the contract.
- Cpu.CpuState.ExecuteData: arithmetic results, flags, stored values and cycle counts are arbitrary; only the program counter is exact.
- Cpu.CpuState.ExecuteControl: stack contents, pointers outside ROM and cycle counts are arbitrary, so returns, breaks and such indirect jumps only complete.
- Cpu.CpuState.Execute: interrupts are not polled; only the program counter is exact.
- Coverage.ExecutionStaysInCode: returns, breaks and indirect jumps leave the statement, because their targets are not static; so do $9F, which the executor runs and the decoder does not, and ROM addresses that do not decode; bank switches end it, because the windows are captured.
- Worklist.Analyze: selected-function and bank-scan roots are ordinary members of the root list; only vector and current-PC roots are shown to be captured.
- FdsReadChannel.FdsDrive.SetControl: takes the control register already split into its bits; the drive status of $4032 and disk side changes are not modelled.
- FdsRoundTrip.SideReadBack: the host meets its deadlines: it polls at least once a byte time, reads each byte before the next one arrives and raises START before the gap ends.
- FdsMedia.FromBytes: warnings are values, not texts; boot images and vector fix-ups are not modelled.
- Namco163Restore.RestoreIsBisimilar: the integral and the cycle count are unbounded, so their own wrap-around in 64 bits is not captured, only that of the scaled product.
- Namco163.SoundUnit.ExpansionAudioSample: the cast of the cycle count to a signed word, which matters from 2^63 cycles on, is not modelled.
- PrgWindows: bank-register writes are not modelled here, because the theorems hold in every register state.
- VrcIrq.Vrc4Irq.ClockCpu: the 16-bit latch and the initial prescaler of the VRC6 and VRC7 path are not modelled.
- ApuFrame.FrameSequencer.ClockFrameSequencer: the mode is fixed during a run; channel register writes, with their length loads and restart requests, are not modelled.
- Dmc.DmcChannel.ClockOutput: diagnostic counters of bits, silence, fetches and stalls are not modelled.
- SaveProtocol.StepKeeps: directory metadata, non-cooperating writers and path comparison with the loaded ROM are outside; rename and exclusive creation are atomic.
- BatterySessions.BatterySession.Open: error texts are not modelled; the header fields it checks are taken as parsed.
- Oscillators, mixer, filters and every other synthesis in floating point are not modelled.
- The PPU, tracing, the command line, cartridge header parsing and the remaining boards are not modelled.
