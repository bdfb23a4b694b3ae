# A verified model of parts of Das U-Boot

This project models the parts of the U-Boot boot loader whose correctness is hardest to see from the
code, and proves what their users rely on:

- **The PowerPC debugger** (`common/bedbug.c`): the binary search over masked opcodes, reading and
  writing operand fields, the disassembler, the assembler, and the prediction of the next
  instruction for "step" and "next". The main results are the exact condition under which a
  disassembled instruction assembles to itself, and the agreement of stepping with the branch rules
  of the Power instruction set. Both are proved for any table of the right shape and then, without
  any assumption, for the debugger's own tables of 35 operands, 206 opcodes and 98 register names.
- **Bounce buffers** (`common/bouncebuf.c`): DMA to unaligned buffers on a machine whose cache is not
  coherent with its devices, correct for every interleaving of fills, evictions, processor writes and
  device writes, also in the middle of the copies.
- **The memory layout before relocation** (`common/board_f.c`, `common/board_r.c`): the regions that
  are carved from the top of RAM, for every choice of options, and their use by the second stage.
- **Boot-stage records** (`common/bootstage.c`): the table of time stamps over any run of operations,
  and stashing it in memory and restoring it.
- **The API for standalone applications** (`api/api.c`, `api/api_storage.c`): the enumeration of
  devices and of environment variables, as a client sees it over a whole run.

Code that updates state is modelled by classes and methods with loops, each proved equal to a
specification function; the properties are lemmas about those functions. 32-bit words are bit
vectors. Memory, the allocator's choice, instruction fetches, the devices present and the board's
configuration are parameters.

## Where the code departs from what it is meant to do

Some properties that the documentation or the design suggests do not hold of the code. For each, the
model follows the code, and the exact condition is proved.

- A disassembled instruction does not always assemble to itself. It does exactly if it is not printed
  in one of the three simplified forms of `bc`, which the assembler does not know, and `Survives` holds:
  the mnemonic has at most seven letters (an eighth is overwritten by the first operand), no bit of
  the word is left unprinted, no operand is printed as an offset such as `8(r1)` (it is read as one
  word), a special-purpose register is printed as a number (names are compared in lower case with a
  table in upper case), a time base register is one of the two with names, and immediates are not
  printed in octal unless zero. (`SimplifiedBranchIsLost`, `DisplacementsAreLost`)
- Stepping treats bits of the BO field that do not decide whether a branch is taken as part of the
  condition. The PowerPC architecture books mark these bits z, to be ignored; Book I of the Power ISA
  makes most of them branch hints, which do not change the outcome either. Stepping also does not drop
  the low two bits of a target taken from a register.
  (`ZBitIsMissed`, `UnalignedLinkIsMissed`)
- `api/README` promises to enumerate all devices. Taking the first device of a storage group also ends
  the group, so only first devices are listed. (`SecondDiskIsMissed`)
- `envmatch` does not stop at the ends of two equal strings without an equals sign, but goes on
  comparing what is behind them. (`EqualNamesReadOn`)
- An environment with two variables of the same name is enumerated forever, and so is an empty one.
  (`SameNameNeverEnds`, `EmptyNeverEnds`)
- With a boot page for secondary cores below the top of RAM, the log buffer is not where it was
  reserved, and the memory exported to the operating system overlaps the protected RAM.
  (`BootPageMovesReservation`)
- Unstashing compares the size of the records with the size of the stash without the header, and does
  not look for the ends of the names, so an accepted stash may be read beyond the given size.
  (`ShortStashIsReadBeyond`) Its checks are computed in 32 bits: a count of records that makes them wrap is
  accepted, and recorded events are kept if and only if there is room for as many as the
  header announces. (`WrappingStashIsAccepted`, `UnstashKeepsEventsIff`)
- A stash that fills a buffer up to the very top of memory is not accepted, because the address of its
  end is zero. (`UnstashRestores`)

## Model

| member | source | states |
|---|---|---|
| Opcodes.FindOpcode | common/bedbug.c:418-441 | the loop returns only matching entries, and on a table in searching order exactly the entry that a scan of the whole table finds, or none |
| Opcodes.ProbeComplete | common/bedbug.c:418-441 | halving never discards the entry that matches the word |
| Opcodes.ProbeIsLinear | include/bedbug/tables.h:59-64 | on a table in searching order, binary search under each entry's own mask is linear search, and at most one entry matches any word |
| Opcodes.OrderDecidedByMasks | include/bedbug/tables.h:59-64 | a table serves the search for all 2^32 words if and only if each pair of entries is ordered at the extremes of its free bits |
| Opcodes.SortedTableIsSearchable | include/bedbug/tables.h:59-64 | numeric order with one mask for each primary opcode is enough, and can be checked between neighbours |
| Operands.GetOperandValue | common/bedbug.c:374-401 | the value is present exactly if the opcode lists the field and the table has it, and is then the field's bits |
| Operands.EncodeKeeps | common/bedbug.c:796-829 | adding operand values changes no bit outside their fields |
| Operands.EncodeThenRead | common/bedbug.c:796-829 | after assembling any in-range values into separate fields, reading an operand gives its value |
| Operands.EncodeDecode | common/bedbug.c:796-829 | the assembled word still has its opcode under the mask, so it is recognised as the same instruction |
| Operands.MaskedUnion | common/bedbug.c:796-829 | assembling the values read from a word gives the word restricted to the opcode and the printed fields |
| Operands.FieldOfDisplacement | common/bedbug.c:864-880 | encoding the displacement of a field gives the field back, for every width and sign |
| Operands.DisplacementOfField | common/bedbug.c:262-272 | decoding the field of a displacement gives it back, for every multiple of four in the field's signed range |
| Operands.TargetRoundTrip | common/bedbug.c:864-880 | a branch target survives assembling and disassembling at the same address if and only if it can be encoded, relative or absolute, with wrap-around |
| Text.SimpleStrtoul | lib/vsprintf.c:42-72 | for every base, the loop computes the value of the longest run of digits, modulo 2^32; 0x overrides the base, and without a base a leading zero means 8 and anything else 10 |
| Text.StrtoulDigits | lib/vsprintf.c:42-72 | parsing the digits of a number in a base gives the number |
| Text.ReadHex | common/bedbug.c:991-1015 | a number printed as 0x followed by hex digits is read back |
| Text.ReadDecimal | common/bedbug.c:991-1015 | a number printed in decimal is read back |
| Text.ReadNegative | common/bedbug.c:991-1015 | a decimal number behind a minus sign is read as its two's complement |
| Text.ReadOctal | common/bedbug.c:991-1015 | a number printed in octal is read as zero, because of its letter O |
| Text.GetWord | common/bedbug.c:954-978 | the word behind the blanks, up to a blank, a comma or the end, and the rest of the line |
| Text.GetWordOf | common/bedbug.c:954-978 | a word followed by a separator is read exactly, and the rest starts behind the separator |
| Text.DownString | common/bedbug.c:1018-1030 | the array is lower-cased in place |
| Disassembler.SprName | common/bedbug.c:491-511 | the name of the register whose halves are swapped, or its number |
| Disassembler.PpcCtx.PrintOperands | common/bedbug.c:232-347 | the buffer and its length after the operand loop are those of the specification, with commas, parentheses and overwriting; operands that are not in the table are passed over |
| Disassembler.PpcCtx.HandleBc | common/bedbug.c:656-700 | prints `blt`, `bne` or `bdnz` with its operands exactly for the three pairs of BO and BI, and otherwise leaves the line alone |
| Disassembler.DisassembleOne | common/bedbug.c:151-213 | one line, for all flags: address, raw bytes, mnemonic in its column and operands, simplified if asked for, or the raw word if no opcode matches |
| Disassembler.Disppc | common/bedbug.c:79-219 | one line for each instruction, for all flags, at consecutive addresses that may wrap |
| Disassembler.PrefixLength | common/bedbug.c:151-196 | the buffer positions that the code adds up are the length of what it wrote |
| Disassembler.PrefixIndependent | common/bedbug.c:232-347 | what is printed for an instruction does not depend on what precedes it in the buffer |
| Assembler.FindOpcodeByName | common/bedbug.c:459-473 | the first entry whose mnemonic is the lower-cased name |
| Assembler.SprValue | common/bedbug.c:527-560 | the swapped number of a register given by number or name, zero if unknown |
| Assembler.Asmppc | common/bedbug.c:754-842 | the operand loop computes the specified word or error code |
| RoundTrip.PrintIsTail | common/bedbug.c:232-347 | the operands are printed separated by commas, the register behind an offset in parentheses |
| RoundTrip.ParseOperandText | common/bedbug.c:855-919 | parsing the text of one operand gives its bits or the specified error, for every class of operand |
| RoundTrip.NamedSprIsLost | common/bedbug.c:527-560 | a special-purpose register that is printed by name is not read back |
| RoundTrip.AssembleOffset | common/bedbug.c:796-829 | an offset and its register are read as a single word, which leaves one operand too few |
| RoundTrip.AssembleTail | common/bedbug.c:796-829 | the assembler takes the printed operands one by one, in order |
| RoundTrip.AssembleShortName | common/bedbug.c:754-842 | a mnemonic that fits its column is recognised, and assembling continues with the operands |
| RoundTrip.AssembleLongName | common/bedbug.c:754-842 | an eight-letter mnemonic runs into its first operand and is rejected as unknown |
| RoundTrip.SimplifiedIsLost | common/bedbug.c:656-700 | an instruction printed under a mnemonic that is not in the table is rejected as unknown |
| RoundTrip.ReassembledIsEncoding | common/bedbug.c:796-829 | the result is an error if any operand is rejected, and otherwise the encoding of the values read |
| RoundTrip.EncodingOfWord | common/bedbug.c:796-829 | with all operands read right, the word comes back if and only if all its bits were printed |
| RoundTrip.RoundTrip | common/bedbug.c:754-842 | for every table of the debugger's shape, word, address and radix: assembling the printed instruction gives the word without error if and only if the instruction survives |
| RoundTrip.LineRoundTrip | common/bedbug.c:79-219 | the same for whole lines found by binary search and all flags: the instruction must also not be printed in a simplified form; words without an opcode are printed raw |
| Buffers.OperandWidth | include/bedbug/tables.h:14-51 | the printed form of an operand has at most ten characters, a register three and an immediate seven, in every radix |
| Buffers.BuffersSuffice | common/bedbug.c:754-842 | for every table of the debugger's shape: a line of the disassembly is shorter than its buffer of 256 bytes, and every word that `get_word` cuts off it is shorter than the assembler's buffer of 20 |
| Stepper.DecodeBranch | common/bedbug.c:1094-1159 | the switch over branch opcodes extracts address, flags and condition; for every other opcode there are none |
| Stepper.FindNextAddress | common/bedbug.c:1054-1237 | the address to stop at for "step" and "next", or failure if no opcode matches or its entry lacks an operand of the branch |
| Stepper.DecisionAgrees | common/bedbug.c:1161-1215 | the 32-way decision on BO is the architecture's counter and condition test, except that a set z bit never branches |
| Stepper.PredictedIsTaken | common/bedbug.c:1094-1229 | for every instruction word, a branch is predicted exactly when the architecture takes it, no z bit is set and a decremented count register is right, with the right target and link flag |
| Stepper.StopAddresses | common/bedbug.c:1217-1234 | where "step" and "next" stop, in the architecture's terms, for every instruction word |
| Stepper.StepAgreesWithArchitecture | common/bedbug.c:1054-1237 | for every instruction word, the step address is the architecture's next instruction address if and only if the branch is not taken, or is followed to an aligned target, or is not followed but leads to the next word anyway |
| Stepper.AlignedTargets | common/bedbug.c:1129-1153 | the unrounded target is right if and only if the register it comes from is a multiple of four |
| Stepper.StepOverStopsBehindCalls | common/bedbug.c:1217-1234 | "next" stops behind a call that is followed and otherwise where "step" stops, z bits or not |
| Stepper.PrintedTargetIsSteppedTo | common/bedbug.c:262-272 | the target that the disassembler prints for a branch is the one that stepping goes to |
| PpcSearch.TableIsSearchable | include/bedbug/tables.h:66-481 | the debugger's 206 opcodes are in searching order, so every 32-bit word finds its one entry |
| PpcNames.NamesAreDistinct | include/bedbug/tables.h:66-481 | no two of the debugger's opcodes have the same mnemonic |
| PpcDebugger.TablesAreWellFormed | include/bedbug/tables.h:14-584 | the debugger's own tables have the shape that the general results ask for |
| PpcDebugger.DebuggerRoundTrip | common/bedbug.c:754-842 | with the debugger's own tables and for every 32-bit word, every address and all flags, the disassembly assembles to the word if and only if the instruction survives and is not simplified; words without an opcode are printed raw and rejected as unknown |
| PpcDebugger.DebuggerBuffers | common/bedbug.c:79-219 | with the debugger's own tables and for every word, address and all flags, no line and no word of it outgrows its buffer |
| PpcDebugger.Reassemble | common/bedbug.c:754-842 | the same of the disassembling and assembling code run one after the other |
| PpcDebugger.DisplacementsAreLost | include/bedbug/tables.h:66-481 | no load or store with a displacement assembles to itself |
| PpcDebugger.RegistersSurvive | include/bedbug/tables.h:66-481 | every instruction on three registers whose mnemonic fits assembles to itself, in every radix |
| PpcDebugger.BranchesSurvive | include/bedbug/tables.h:85-86 | every `bc` assembles to itself in every radix but octal, when it is printed plainly |
| PpcDebugger.SimplifiedBranchIsLost | common/bedbug.c:656-700 | a branch that comes back when printed plainly and does not when simplified |
| PpcStepping.TableIsSteppable | include/bedbug/tables.h:66-481 | every branch in the table lists the operands that stepping asks for |
| PpcStepping.TableHasBranches | include/bedbug/tables.h:66-481 | all branches of the instruction set are in the table with the masks of their forms |
| PpcStepping.DebuggerStep | common/bedbug.c:1054-1237 | the stepping code with the debugger's own tables fails exactly on words without an opcode, stops where the architecture's terms say for "step" and "next", and for "step" agrees with the architecture under the exact condition |
| PpcStepping.DebuggerPrintsTarget | common/bedbug.c:262-272 | for every branch in the debugger's table, the target printed is the one stepped to |
| PpcStepping.ZBitIsMissed | common/bedbug.c:1211-1213 | a branch with a z bit set that the architecture takes and stepping does not follow |
| PpcStepping.UnalignedLinkIsMissed | common/bedbug.c:1142-1153 | a return to an unaligned address, where stepping keeps the low bits |
| Cache.FlushEffect | doc/README.arm-caches:20-22 | flushing whole lines puts what the processor sees into memory and leaves the lines empty, and nothing else changes |
| Cache.InvalidateEffect | doc/README.arm-caches:24-41 | invalidating whole lines makes the processor see memory there, and only there |
| Cache.CopyEffect | common/bouncebuf.c:65-67 | copying byte by byte through the cache, whatever it fills or evicts before each load and each store, is the copy on plain memory |
| Cache.CopyMoves | common/bouncebuf.c:65-67 | between separate ranges, that copies the source as it was and nothing else |
| Cache.DisturbEffect | doc/README.arm-caches:24-34 | in coherent memory no sequence of fills and evictions can be seen by the processor |
| BounceBuffer.Bouncer.Start | common/bouncebuf.c:50-79 | fails exactly if a buffer is needed and none can be had, changing nothing; otherwise places the buffer, copies for reading and flushes, whatever the cache does during the copy |
| BounceBuffer.Bouncer.Stop | common/bouncebuf.c:81-99 | invalidates and copies back for writing, whatever the cache does during the copy, and frees exactly the block that was taken |
| BounceBuffer.StartCouples | common/bouncebuf.c:50-79 | after start the device finds the caller's bytes and nothing else is changed for the processor |
| BounceBuffer.StepKeeps | doc/README.arm-caches:24-34 | no fill, eviction, processor write or device write breaks the correspondence with a flat memory and a separate DMA buffer |
| BounceBuffer.RunKeeps | doc/README.arm-caches:24-34 | nor does any sequence of them |
| BounceBuffer.StopDelivers | common/bouncebuf.c:81-99 | stop makes the processor see the device's bytes in the caller's buffer and its own bytes elsewhere |
| BounceBuffer.TransferCorrect | common/bouncebuf.c:50-99 | a whole transfer, bounced or not, for every interleaving and whatever the cache does before each byte that is copied and behind the last: the device reads the caller's bytes, the caller gets the final DMA contents, neighbours on shared cache lines keep theirs, and the cache is coherent again |
| BounceBuffer.Transact | common/bouncebuf.c:50-99 | start, any events and stop leave the allocator as it was and memory as the transfer says |
| MemoryLayout.LayoutSafety | common/board_f.c:400-649 | short of wrapping, regions carved downwards are disjoint and in RAM if and only if the lowest address is |
| MemoryLayout.EnoughIsSafe | common/board_f.c:400-649 | RAM for all sizes and the rounding slack is enough |
| MemoryLayout.LayoutAt | common/board_f.c:400-649 | each region lies directly below what was carved before it, rounded down |
| Board.Gd.SetupDestAddr | common/board_f.c:400-438 | carving starts at the top of RAM that the board declares usable, or at the boot page of the secondary cores below it, and nothing is carved yet |
| Board.Gd.ReserveLogbuffer | common/board_f.c:441-448 | takes the log buffer |
| Board.Gd.ReservePram | common/board_f.c:453-462 | takes the protected RAM, in kB |
| Board.Gd.ReserveMmu | common/board_f.c:474-487 | takes the page table on a 64 kB boundary |
| Board.Gd.ReserveLcd | common/board_f.c:491-501 | takes the frame buffer and records it, or records the fixed one and takes nothing |
| Board.Gd.ReserveTrace | common/board_f.c:504-514 | takes the trace buffer and records its address |
| Board.Gd.ReserveUboot | common/board_f.c:528-547 | takes the monitor on a page boundary and starts the stack below it |
| Board.Gd.ReserveMalloc | common/board_f.c:551-557 | takes the arena below the monitor |
| Board.Gd.ReserveGlobalData | common/board_f.c:579-586 | takes the new global data and records its address |
| Board.Gd.ReserveFdt | common/board_f.c:588-605 | takes room for the device tree, if there is one |
| Board.Gd.ReserveStacks | common/board_f.c:607-649 | takes the exception stacks of the architecture |
| Board.Gd.BoardInitF | common/board_f.c:965-1009 | the whole sequence carves exactly the specified regions, and the copy that the second stage runs on holds all their addresses |
| Board.LayoutIsSafe | common/board_f.c:400-649 | for every choice of options and all sizes, with enough RAM the regions are in RAM and pairwise disjoint, and no address wraps |
| Board.LayoutSafeIff | common/board_f.c:400-649 | short of wrapping, that is so if and only if the last address is in RAM |
| Board.LayoutIsAligned | common/board_f.c:474-547 | page table, monitor and exception stack are aligned whatever the sizes |
| Board.MallocArenaWasReserved | common/board_r.c:271-280 | the arena that the second stage computes anew is a region that the first one reserved |
| Board.HandOff | common/board_r.c:110-117 | over both stages, the arena, the trace buffer and the device tree are used where they were reserved |
| Board.ExportedMemoryIsSafe | common/board_r.c:655-671 | the exported memory ends below the protected RAM and the log buffer if and only if carving started no lower than the end of RAM |
| Board.LogbufferIsReserved | common/board_r.c:207-210 | the log buffer is used where it was reserved if and only if no boot page lies below the top of RAM |
| Board.BootPageMovesReservation | common/board_r.c:207-210 | a board where the log buffer lies outside its region and the exported memory reaches into the protected RAM |
| StashFormat.GetPutU32 | common/bootstage.c:364-376 | a 32-bit number survives its little-endian bytes |
| StashFormat.FittingIsLongest | common/bootstage.c:339-348 | the chunks that fit are the longest such prefix |
| StashFormat.AppendAllWrites | common/bootstage.c:339-348 | appending writes exactly the chunks that fit, one behind the other, while the position counts all of them |
| Bootstage.Bootstage.AddRecord | common/bootstage.c:77-100 | the first mark of a slot is stored, later ones are not, and allocating marks take the next id even beyond the end |
| Bootstage.Bootstage.AppendData | common/bootstage.c:339-348 | moves the position always and writes only what fits |
| Bootstage.Bootstage.Stash | common/bootstage.c:350-405 | the buffer and the result are those of the specification, for every size |
| Bootstage.Bootstage.Unstash | common/bootstage.c:407-473 | refuses a buffer exactly if one of the six checks fails, which are made in 32 bits; appends its records to the table if there is room for them; and otherwise stops where the code would leave the table |
| Stashing.StashEffect | common/bootstage.c:350-405 | succeeds if and only if header, records and names fit; writes the header and the longest prefix of whole chunks |
| Stashing.StashStaysInside | common/bootstage.c:350-405 | no byte at or beyond the given size changes |
| Stashing.FailedStashIsRejected | common/bootstage.c:407-473 | a stash that ran out of space is not accepted by unstash, at any address |
| Stashing.UnstashRestores | common/bootstage.c:407-473 | stash, then unstash into a table with room: it is accepted if and only if the buffer ends below the top of memory (or is empty), and then restores exactly the records with a time, in order, with times, flags, ids and reported names, and no other slot changes |
| Stashing.PointerChecksAreExactIff | common/bootstage.c:339-405 | for a buffer below the top of memory, all 32-bit comparisons of addresses in stash agree with the sizes if and only if all that it would append stays below the top of memory too |
| Stashing.ReadsInsideIff | common/bootstage.c:407-473 | an accepted stash is read only inside the given size if and only if the records fit behind the header and a NUL for every name follows them |
| Stashing.ShortStashIsReadBeyond | common/bootstage.c:432-437 | a stash that is accepted for 20 bytes and read beyond them |
| Stashing.WrappingStashIsAccepted | common/bootstage.c:407-473 | a header that announces 2^32 - 1 records and is accepted for any buffer and table |
| Stashing.EveryWordIsWritten | common/bootstage.c:459-466 | storing 2^30 names reaches every word of memory |
| BootRecords.InitialInv | common/bootstage.c:46-47 | a new table satisfies the invariant |
| BootRecords.ApplyKeeps | common/bootstage.c:77-100 | marks, and unstashes that are refused or have room, keep the invariant and every recorded event |
| BootRecords.UnstashKeepsEventsIff | common/bootstage.c:446-469 | of an accepted stash, a recorded event is left alone if and only if there is room for as many records as the header announces |
| BootRecords.RunKeepsInv | common/bootstage.c:77-100 | so does any run of them |
| BootRecords.EventsAreKept | common/bootstage.c:77-100 | an event once recorded is kept over any run |
| BootRecords.FirstMarkIsOnRecord | common/bootstage.c:77-100 | the first mark of an id, and every allocated one that fits, is on record after any run |
| BootRecords.AllocatedIdsAreFresh | common/bootstage.c:77-100 | allocated ids strictly increase over any run, unstashes included |
| BootRecords.OverflowCountsLost | common/bootstage.c:299-302 | the reported overflow is exactly the number of allocated marks that were lost |
| StorageEnum.Storage.StorGet | api/api_storage.c:116-177 | the first or next device of a group, whether there may be more, and the cookie left behind; a device that is found is described by its group's type and its own block count and size |
| StorageEnum.Storage.StorType | api/api_storage.c:183-193 | the first group that has the device |
| StorageEnum.Storage.EnumStor | api/api_storage.c:205-296 | one group's answer and flags, in all cases of the cookie |
| StorageEnum.Storage.EnumReset | api/api_storage.c:298-306 | all groups unvisited |
| StorageEnum.Storage.EnumStorage | api/api_storage.c:308-321 | the answer of the first group that has one, with the cookie and flags that earlier groups changed |
| StorageEnum.Storage.DevEnum | api/api.c:214-244 | one call: an error without an argument; else reset and network device on NULL, then a storage device with its description, then NULL |
| StorageEnum.Storage.OpenStor | api/api_storage.c:336-347 | a cookie opens if and only if it is an active device of its group |
| StorageRun.EnumerationRun | api/api.c:214-244 | from any earlier state, a client that starts with NULL gets the network device, the active first devices in group order, and NULL, within seven calls |
| StorageRun.FirstDevicesDistinct | api/api_storage.c:205-296 | no device is listed twice |
| StorageRun.ListedDevicesOpen | api/api_storage.c:336-347 | every listed storage device can be opened |
| StorageRun.ListsAllIff | api/README:36-38 | all active devices are listed if and only if no group has an active device behind its first |
| StorageRun.SecondDiskIsMissed | api/README:36-38 | a machine with two disks in a group, the second of which is not listed |
| EnvEnum.EnvMatch | common/cmd_nvedit.c:732-745 | the index behind the equals sign, if the two memories agree up to it or up to the end of the name; otherwise where they differ; or that no such place is in the memory given |
| EnvEnum.EnvEnum | api/api.c:513-554 | one call on the memory at its argument, with the size limit |
| EnvEnum.MatchIsSameName | common/cmd_nvedit.c:732-745 | comparing any two strings finds equal names and an equals sign in the second, unless they are the same string without one |
| EnvEnum.EqualNamesReadOn | common/cmd_nvedit.c:732-745 | the same string without an equals sign: the outcome is that of what is behind the two |
| EnvEnum.CallAnswers | api/api.c:513-554 | one call answers with the variable behind the first one of that name |
| EnvEnum.WalkIsComplete | api/README:35 | with distinct names the walk visits every variable once and in order |
| EnvEnum.WalkEndsIffDistinct | api/README:35 | the walk ends if and only if the names are distinct |
| EnvEnum.EmptyNeverEnds | api/api.c:513-554 | without variables every answer is the empty string at the start |
| EnvEnum.SameNameNeverEnds | api/api.c:513-554 | two variables of one name, whose enumeration never gets to NULL |
| EnvEnum.EnumerationIsComplete | api/api.c:513-554 | for a client of the code that feeds back the pointers it gets, over a whole run: every variable once, in order, then NULL, if there are variables with distinct names; never NULL otherwise |

## Left out

- Symbols and source lines in the disassembly (USE_SOURCE_CODE).
- Disassembler.Disppc: the lines are returned instead of printed.
- Disassembler.PpcCtx.PrintOperands: operands in the table have a field inside the word and a width that goes with their class; all 35 of the debugger's have.
- Assembler.Asmppc: words of any length are read; the code copies each to a buffer of 20 bytes, which the words of a disassembly fit (`DebuggerBuffers`) and longer ones outgrow.
- Text.SimpleStrtoul: results are modulo 2^32, the width of long on the 32-bit targets; the pointer to the end is not returned.
- Stepper.StepAgreesWithArchitecture: takes the description of a branch to the count register literally where it also decrements the register, which is an invalid form; traps, system calls and returns from interrupts are not branches to the stepper or the model.
- BounceBuffer.TransferCorrect: address arithmetic does not wrap; flushing and invalidating are primitives on whole lines.
- Board.LayoutIsSafe: when the sizes exceed the address space, addresses wrap and nothing is claimed beyond the sequence of addresses itself.
- Board.Gd.SetupDestAddr: the top that a board declares usable is a parameter.
- Board.Gd.ReserveStacks: only the generic and the ARM variant outside SPL, not the back chain that PowerPC stores; the contents of the board information, clearing of memory and the copy of the device tree are not modelled.
- Board.Gd.ReserveLcd: the sizes that the display drivers report are parameters.
- Bootstage.Bootstage.Unstash: where an accepted buffer has more records than there is room for, the model stops; of what the code does then, only the addresses of the names it stores are modelled. A name that has no NUL inside the memory given is taken to end with it.
- Bootstage.Bootstage.Stash: positions are offsets from the start of the buffer; the code compares addresses in 32 bits, which is the same exactly under the condition of `PointerChecksAreExactIff`.
- BootRecords.UnstashKeepsEventsIff: the next id is below 2^31.
- The other parts of the boot-stage code: reports, the device tree node, accumulated times, the timer, and relocating names.
- StorageEnum.Storage.DevEnum: the address and type that are reported of the network device are not modelled.
- StorageRun.EnumerationRun: the devices of a machine are distinct, and a group without devices has no first one; the set of devices does not change during a run.
- EnvEnum.EnvEnum: the memory up to two bytes behind the size limit can be read; where a comparison leaves the memory given, the model says so and stops.
- The rest of the API: dispatch, console, network, display, and reading blocks.
- Everything else in U-Boot: drivers, file systems, the command shell, networking and board support.
