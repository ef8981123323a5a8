# Verified models of the SCOOOTER verification tools

These Dafny modules model five parts of the core-v-verif tooling in this repository, and prove what those
parts promise. `dafny verify --warn-contradictory-assumptions dfyconfig.toml` verifies all of them (with
that flag the solver stays within the default time limit on the bit-vector lemmas).

**Trace comparison** (`TraceCsv`, `SimLog`, `HexValues`, `TraceCompare`, `TraceVerdict`, `TraceUpdates`,
`TracePipeline`). The Spike and Verilator log readers are line machines with the states TRAMPOLINE, INSTR
and EFFECT; what they deliver is told by the positions of the lines in the log. The comparator is the
two-cursor loop with one running register map per trace; its counters and its early exits are given in
closed form. From that follows what PASSED means: which pairs of traces pass, that registers are then equal
where comparison stopped exactly when no update is hidden, and when exactly full and reduced traces are
interchangeable (logs ending in ecall are such a case). The loop leaves off as soon as trace 2 is used up,
so a pass can leave part of trace 1 unread; the theorems say so.

**Disassembler index** (`DisasmIndex`). The hashed instruction table of the Spike disassembler, with its
fallback chain. It agrees with an ordered scan exactly when the number of buckets is a power of two.

**Random program generator** (`InstrBase`, `InstrStream`, `StackBlocks`, `JumpStream`, `LoadStore`,
`InstrSequence`, `CallstackGen`, `ProgramGen`, and the theory they need: `Machine`, `StackDiscipline`,
`SequenceLabels`, `BranchTargets`, `Segments`, `ClosedStreams`, `ProgramRun`, `MachineRun`, `TextRun`,
`SequenceGrowth`, `PrintedRun`). The generator fills lists with random instructions, mixes and splices
streams into them, numbers labels, chooses forward branch targets while erasing unused labels in the same
pass, and distributes calls over a levelled call tree. Every random draw and every answer of the constraint
solver is any value that meets the stated constraints. The main results: splices keep atomic streams whole
and lose nothing; post-processing of every sequence the generator can build succeeds and every branch
resolves to a later line; no name is on two lines of the whole text and every program called is there; the
call graph has no loop and reaches every program; loads and stores stay aligned and in their page; and the
exact conditions under which stack blocks restore registers and calls reach their target.

On top of these, the whole printed text runs on registers and memory (`MachineRun`, `TextRun`): a `ret` goes
to the address in RA, a JALR to the sum of its base register and its immediate, a branch either way, and a
random instruction writes anything. For what the generator delivers it is proved that the return of every
call finds the instruction behind it, with SP, T0 and the caller's stack as they were, and that the main
program comes to its end within a bound computed from the text. The generator does not deliver everything
this takes. What has to hold besides is stated as conditions that can be read off the text: the random
instructions of the stack blocks spare what the blocks carry, nothing between the blocks writes SP, no JALR
has the immediate that misses its target, the data pages referred to are printed, and there is a frame's
length of stack for every level, apart from the data pages. `PrintedRun` executes the lines as they are
printed, by mnemonic, operands and labels, and proves that this comes to the same. What comes behind the
main program does not end the run, though; see below.

**Pseudo-instruction lowering** (`PseudoInstr`, `BitPermute`). Lowered instructions lead to the same next
state as the pseudo-instruction means in chapter 25 of the RISC-V Unprivileged ISA (20191213) and section
2.2 of the Bitmanip draft 0.92, from every state.

**Verification-plan database** (`VpNumbers`, `VpSorted`, `VpTags`, `VpPack`, `VpDatabase`, `VpTagHistory`,
`VpSave`, `VpKept`, `VpFiles`). Items and properties with their numbering, renumbering and tags, the two
representations around saving and loading, what becomes of every text and tag, and the whole database with
its directory of files: when saving and then loading gives the database back, and what comes back instead
when it does not.

`Wrappers`, `Sequences` and `IntRegisters` hold what several of the parts share.

## Where the code does less than it says

Each of these is a theorem with the exact condition.

- The test that should keep the JALR immediate -1024 out of call streams compares with 0xFFFFFC00, which is
  outside the drawn range and excludes nothing. With that immediate the call lands 2048 bytes below its
  target (`JumpStream.ReachesTargetIff`, `ProgramGen.ReachesIff`).
- No register is reserved for the random instructions mixed into push and pop blocks, so a generated block
  can lose SP, RA or T0 (`ClosedStreams.GeneratedBlocksRestoreIff`, `StackBlocks.UnsafeBlockIsPossible`).
- The main program is followed by `test_done`, whose `ecall` is commented out, and then by the sub-programs.
  Control falls into the first of them, and its return, which no call made, goes to whatever RA holds: as a
  rule back behind the last call of the main program, and round again. Where the main program leaves RA,
  behind its last call, to random instructions, all runs end exactly if there is no sub-program
  (`TextRun.TextEndsIff`); where it leaves RA to its calls, none does (`TextRun.NoRunEnds`); and for every
  content of RA it is proved what happens next (`TextRun.LapEndsIff`).
- The alignment of a data page comes behind its label, so accesses lie in front of the contents of a page
  exactly if its label is not aligned (`LoadStore.AllHitIff`).
- `mix_instr_stream` with `contained` does not enclose the original list, as its comment says: the last
  original instruction stays last (`InstrStream.LastStaysLast`).
- `csrr` is lowered to a write of zero to the csr (`PseudoInstr.CsrrIff`), and lowering `jr` or `jalr` with
  an `offset(base)` operand is not idempotent (`PseudoInstr.IdempotentIff`).
- An empty string in an update list hides the updates in front of it from the comparator, which then
  passes traces with different registers (`TraceVerdict.SilentIsSafeIff`, `TraceVerdict.PassIsSafeIff`).
- Without an ecall at its end, a log may pass in one form of its trace and fail in the other
  (`TracePipeline.FormsAgreeIff`, `TracePipeline.EcallIsNeeded`).
- A comment asks that tags never be reused. Inserting an item in front of a number that has been counted
  gives it the tag of another item, and a property can get the number of a deleted one
  (`VpTagHistory.TagTwiceIff`, `VpTagHistory.DeletedTagComesBack`, `VpDatabase.TagFreedIff`).
- Duplicating an item with insertion breaks the numbering of items once a property has counted to 1000
  (`VpDatabase.DuplicateKeepsNumberingIff`, `VpDatabase.SessionKeepsNumberingIff`).
- Loading after saving loses an Ip numbered 1000 or more, as the loader looks for three digits; one of two
  Ips with the same number; and it brings back an Ip that was deleted, whose file stays
  (`VpFiles.SaveThenLoadIff`).
- `update_ip_name` drops an Ip that has the new name already (`VpFiles.RenamingDropsIff`).

## Form

What the source keeps in fields and changes in place is a class here, with its methods proved against
specification functions; what it computes from arguments alone is a function. The theorems are lemmas about
the specification functions. That programs come to their end is proved in two steps: `ProgramRun` bounds the
runs of a stack of frames, in which a return resumes the frame below, and `MachineRun` proves that from the
start of a program to its end every step on registers and memory is a step of such a run. `TextRun` puts the
programs together as they are printed, and `PrintedRun` runs their text.

## Model

| member | source | states |
|---|---|---|
| `TraceCsv.ReadTrace` | tools/core-v-verif/scoooter/sim/dv/scripts/riscv_trace_csv.py:61-74 | Reading a CSV gives one entry per row, in order, with the gpr and csr columns taken apart at their semicolons. |
| `TraceCsv.SplitOfJoin` | tools/core-v-verif/scoooter/sim/dv/scripts/riscv_trace_csv.py:66-82 | Splitting what was joined gives the list back, for every non-empty list of separator-free strings. |
| `TraceCsv.JoinOfSplit` | tools/core-v-verif/scoooter/sim/dv/scripts/riscv_trace_csv.py:66-82 | Joining what was split gives the column text back, for every text. |
| `TraceCsv.ColumnRoundTrip` | tools/core-v-verif/scoooter/sim/dv/scripts/riscv_trace_csv.py:66-82 | A column survives writing and reading if and only if it is a non-empty list of separator-free strings; the empty list comes back as one empty string. |
| `TraceCsv.TraceRoundTrip` | tools/core-v-verif/scoooter/sim/dv/scripts/riscv_trace_csv.py:61-87 | A trace survives writing and reading if and only if both packed columns of every entry do. |
| `TraceCompare.GprState.CheckUpdateGpr` | tools/core-v-verif/scoooter/sim/dv/scripts/instr_trace_compare.py:234-251 | One update list: the flag, the new register map and the two ways the program can end, tied to a recursive meaning of update lists read from the last update back; TraceUpdates.UpdateMeans tells it by the positions of the updates, and HexValues what a value is. |
| `HexValues.NumeralValue` | tools/core-v-verif/scoooter/sim/dv/scripts/instr_trace_compare.py:247-249 | Every numeral (blanks around it, a sign, a 0x prefix, single underscores between digits) has as its value the sum of each digit times 16 to the number of digits behind it, letters of either case counting from 10 to 15, negative behind a minus sign. |
| `HexValues.OnlyNumerals` | tools/core-v-verif/scoooter/sim/dv/scripts/instr_trace_compare.py:247-249 | A text is read as a number if and only if it is such a numeral; everything else is an error. |
| `HexValues.DigitsValue` | tools/core-v-verif/scoooter/sim/dv/scripts/instr_trace_compare.py:247-249 | The digits of a numeral, with or without underscores, have the positional value. |
| `HexValues.ZeroValueIff` | tools/core-v-verif/scoooter/sim/dv/scripts/instr_trace_compare.py:247-249 | The value is zero if and only if every digit is. |
| `TraceUpdates.UpdateMeans` | tools/core-v-verif/scoooter/sim/dv/scripts/instr_trace_compare.py:234-251 | For every list without empty strings that is read to its end: each register holds what was last written to it, and the flag is set if and only if some update writes another text than its register held there, or something other than zero to a register without entry. |
| `TraceUpdates.FirstWriteIff` | tools/core-v-verif/scoooter/sim/dv/scripts/instr_trace_compare.py:247-250 | The first write to a register is a change if and only if some digit of the value is not 0. |
| `TraceUpdates.FirstWritePassesIff` | tools/core-v-verif/scoooter/sim/dv/scripts/instr_trace_compare.py:62-132 | A trace of one first write passes against a trace without changes if and only if all digits of the value are 0. |
| `TraceCompare.Advance` | tools/core-v-verif/scoooter/sim/dv/scripts/instr_trace_compare.py:65-80 | The inner loop stops just behind the next register-changing entry of a trace, or at its end, or at a fault, and has then met exactly that many changing entries. |
| `TraceCompare.SameUpdates` | tools/core-v-verif/scoooter/sim/dv/scripts/instr_trace_compare.py:88-117 | The field-by-field loop decides equality of the two update lists. |
| `TraceCompare.CompareEntry` | tools/core-v-verif/scoooter/sim/dv/scripts/instr_trace_compare.py:75-117 | One changing entry of trace 1 meets the next changing entry of trace 2, or finds none left. |
| `TraceCompare.Leftover` | tools/core-v-verif/scoooter/sim/dv/scripts/instr_trace_compare.py:122-132 | What is counted for changes left over in trace 2: everything from the first of them on. |
| `TraceCompare.CompareLoop` | tools/core-v-verif/scoooter/sim/dv/scripts/instr_trace_compare.py:65-120 | Where both cursors stand when the loop ends, including the early break at the end of trace 2. |
| `TraceCompare.CompareTraceCsv` | tools/core-v-verif/scoooter/sim/dv/scripts/instr_trace_compare.py:62-132 | The whole comparison, for all pairs of traces: it ends the program if and only if a stated condition on the two traces holds, and otherwise both counters are given in closed form from the changing updates of the two traces. |
| `TraceCompare.ScanPrefix` | tools/core-v-verif/scoooter/sim/dv/scripts/instr_trace_compare.py:65-80 | The changing entries of a prefix are a prefix of the changing entries, and a fault in a prefix is the fault of the whole. |
| `TraceVerdict.PassesIff` | tools/core-v-verif/scoooter/sim/dv/scripts/instr_trace_compare.py:62-132 | PASSED if and only if no fault is met and the changing updates agree, or trace 2 ends on a changing entry and its updates are a prefix of those of trace 1. |
| `TraceVerdict.SilentIsSafeIff` | tools/core-v-verif/scoooter/sim/dv/scripts/instr_trace_compare.py:234-251 | The "no change" flag of an update list can be trusted in every register state if and only if no update stands in front of an empty string. |
| `TraceVerdict.SameUpdatesSameRegisters` | tools/core-v-verif/scoooter/sim/dv/scripts/instr_trace_compare.py:234-251 | Equal changing updates mean equal register values, with absent registers read as zero. |
| `TraceVerdict.CursorsAgree` | tools/core-v-verif/scoooter/sim/dv/scripts/instr_trace_compare.py:62-117 | While no mismatch has been counted, the two running register maps denote the same register file after each matched pair. |
| `TraceVerdict.PassMeansEqualRegisters` | tools/core-v-verif/scoooter/sim/dv/scripts/instr_trace_compare.py:62-132 | After PASSED, every register has the same value in both traces where comparison stopped. |
| `TraceVerdict.HiddenUpdatePasses` | tools/core-v-verif/scoooter/sim/dv/scripts/instr_trace_compare.py:237-238 | A pair of traces that passes with different values in a0, because an empty string hides an update. |
| `TraceVerdict.HiddenPasses` | tools/core-v-verif/scoooter/sim/dv/scripts/instr_trace_compare.py:234-251 | Every list of well-formed updates that hides one makes a pair of traces that passes and leaves some register different. |
| `TraceVerdict.PassIsSafeIff` | tools/core-v-verif/scoooter/sim/dv/scripts/instr_trace_compare.py:62-132 | Passes whose traces hold no other lists can be trusted, for every register and every stopping point, if and only if nothing in the list stands in front of an empty string. |
| `TraceVerdict.QuietEntriesDoNotMatter` | tools/core-v-verif/scoooter/sim/dv/scripts/instr_trace_compare.py:62-132 | For canonical values, adding or removing any set of non-changing entries, in trace 1 and anywhere but at the end of trace 2, leaves the verdict as it was. |
| `SimLog.ReadSpikeTrace` | tools/core-v-verif/scoooter/sim/dv/scripts/spike_log_to_trace_csv.py:125-183 | The reader delivers one item for each instruction line that is strictly behind the first end of the trampoline and not behind an ecall that is itself behind it, in the order of the log, and each item is made of the lines of the whole log as SpikeItemsAt says. |
| `SimLog.ReadVerilatorTrace` | tools/core-v-verif/scoooter/sim/verilator_log_to_trace_csv.py:121-189 | The same for the lines at or behind the first end of the trampoline, outside all debug windows, and not behind an ecall among them. |
| `SimLog.SpikeItemsAt` | tools/core-v-verif/scoooter/sim/dv/scripts/spike_log_to_trace_csv.py:125-183 | By positions in the whole log: the k-th item belongs to the k-th instruction line that is read; its pc, binary and disassembly are that line's, its updates are the commits up to the next instruction or trap line, in order, its mode is that of the last of them, and it is illegal if and only if a trap line comes before the next instruction. |
| `SimLog.VerilatorItemsAt` | tools/core-v-verif/scoooter/sim/verilator_log_to_trace_csv.py:121-189 | The same by the positions the Verilator reader reads. |
| `SimLog.InDebugIff` | tools/core-v-verif/scoooter/sim/verilator_log_to_trace_csv.py:134-142 | Where no line both opens and closes a window, a line is inside one if and only if some line at or behind the end of the trampoline opened one and none since has closed it. |
| `SimLog.DeliveredOnce` | tools/core-v-verif/scoooter/sim/dv/scripts/spike_log_to_trace_csv.py:125-183 | Only one list of items fits that description. |
| `SimLog.ItemOfLine` | tools/core-v-verif/scoooter/sim/dv/scripts/spike_log_to_trace_csv.py:125-183 | By position: which item an instruction line becomes, and that the item depends on that line and its group alone. |
| `SimLog.ItemCount` | tools/core-v-verif/scoooter/sim/dv/scripts/spike_log_to_trace_csv.py:125-183 | There are as many items as instruction lines. |
| `SimLog.FollowLine` | tools/core-v-verif/scoooter/sim/dv/scripts/spike_log_to_trace_csv.py:138-179 | One line in state INSTR or EFFECT: what is delivered now plus what is still to be delivered is what was to be delivered before. |
| `TracePipeline.ProcessSimLog` | tools/core-v-verif/scoooter/sim/dv/scripts/spike_log_to_trace_csv.py:198-220 | The CSV holds, in order, exactly the entries to be written, and the count returned is the number of rows. |
| `TracePipeline.WrittenAt` | tools/core-v-verif/scoooter/sim/dv/scripts/spike_log_to_trace_csv.py:203-220 | Row j is the j-th item that is written (in a reduced trace: that updates a register or is wfi or ecall), column by column. |
| `TracePipeline.ReducedFollowsFull` | tools/core-v-verif/scoooter/sim/dv/scripts/spike_log_to_trace_csv.py:209-220 | A full and a reduced trace of one log make the same changing updates and end in the same registers. |
| `TracePipeline.LastItemIsEcall` | tools/core-v-verif/scoooter/sim/dv/scripts/spike_log_to_trace_csv.py:147-162 | A log that reaches an ecall ends with the ecall item. |
| `TracePipeline.FullAndReducedAgree` | tools/core-v-verif/scoooter/sim/dv/scripts/spike_log_to_trace_csv.py:198-220 | For all logs, the second of which reaches an ecall, the comparison of full traces and of reduced traces gives the same verdict. |
| `TracePipeline.SameVerdict` | tools/core-v-verif/scoooter/sim/dv/scripts/instr_trace_compare.py:62-132 | Traces of the same effect and the same kind of ending are interchangeable in a comparison. |
| `TracePipeline.EcallIsNeeded` | tools/core-v-verif/scoooter/sim/dv/scripts/spike_log_to_trace_csv.py:215-217 | Two logs without ecall for which full and reduced traces give different verdicts. |
| `TracePipeline.FormsAgreeIff` | tools/core-v-verif/scoooter/sim/dv/scripts/spike_log_to_trace_csv.py:198-220 | For every second log: full and reduced traces give the same verdict against all first logs if and only if its last item is written in the reduced form or the reduced trace does not end on a change. |
| `DisasmIndex.Disassembler.constructor` | tools/core-v-verif/lib/dpi_dasm/spike/disasm.cc:1354-1367 | An empty table of the given number of buckets and one more chain. |
| `DisasmIndex.Disassembler.AddInsn` | tools/core-v-verif/lib/dpi_dasm/spike/disasm.cc:1354-1360 | The table holds the history of insertions with the new entry at its end. |
| `DisasmIndex.Disassembler.Lookup` | tools/core-v-verif/lib/dpi_dasm/spike/disasm.cc:1339-1352 | A lookup probes the bucket of the word and then the extra chain, each in insertion order. |
| `DisasmIndex.Disassembler.Destroy` | tools/core-v-verif/lib/dpi_dasm/spike/disasm.cc:1362-1367 | The destructor deletes every inserted entry exactly once. |
| `DisasmIndex.LookupIsOrderedScanIff` | tools/core-v-verif/lib/dpi_dasm/spike/disasm.cc:1339-1360 | The hashed lookup equals an ordered scan (entries with all index bits in their mask first, then the others), for every history and every word, if and only if the number of buckets is a power of two. |
| `DisasmIndex.LostEntry` | tools/core-v-verif/lib/dpi_dasm/spike/disasm.cc:1339-1360 | For any other number of buckets, an entry and a matching word that does not find it. |
| `DisasmIndex.NullIffNoMatch` | tools/core-v-verif/lib/dpi_dasm/spike/disasm.cc:1339-1352 | NULL if and only if no inserted entry matches; any other result is an inserted entry that matches. |
| `DisasmIndex.LaterInsertions` | tools/core-v-verif/lib/dpi_dasm/spike/disasm.cc:1339-1360 | Insertions never change a hit in a bucket, and change a hit in the extra chain only by a later entry in the bucket. |
| `DisasmIndex.ChainsHoldHistory` | tools/core-v-verif/lib/dpi_dasm/spike/disasm.cc:1354-1360 | The chains together hold every inserted entry exactly as often as it was inserted. |
| `DisasmIndex.BucketIsComplete` | tools/core-v-verif/lib/dpi_dasm/spike/disasm.cc:1341-1358 | With a power of two, the probed bucket loses no match among the entries of its kind. |
| `InstrBase.Randomize` | tools/core-v-verif/scoooter/sim/dv/pygen/experimental/riscv_instr_base.py:134-389 | A randomized instruction is some solution of the constraints: no load, store or jump, no branch where excluded, no reserved destination. |
| `InstrBase.Imm11Facts` | tools/core-v-verif/scoooter/sim/dv/pygen/experimental/riscv_instr_base.py:108-129 | The printed immediate of length 11 lies in -1024..1023 and is congruent to the drawn one modulo 2048. |
| `InstrStream.RandInstrStream.GenInstr` | tools/core-v-verif/scoooter/sim/dv/pygen/experimental/riscv_instr_stream.py:147-157 | A stream of the given length whose last instruction is no branch. |
| `InstrStream.RandInstrStream.InsertInstrStream` | tools/core-v-verif/scoooter/sim/dv/pygen/experimental/riscv_instr_stream.py:42-62 | Insertion in front of a non-atomic instruction, or in its place with its label. |
| `InstrStream.RandInstrStream.InsertInstrAt` | tools/core-v-verif/scoooter/sim/dv/pygen/experimental/riscv_instr_stream.py:94-103 | List insertion at an index. |
| `InstrStream.RandInstrStream.Solve` | tools/core-v-verif/scoooter/sim/dv/pygen/experimental/riscv_instr_stream.py:71-88 | The positions are non-decreasing and inside the list, also after the two that `contained` overwrites. |
| `InstrStream.RandInstrStream.MixInstrStream` | tools/core-v-verif/scoooter/sim/dv/pygen/experimental/riscv_instr_stream.py:68-90 | When mixing is possible, and that its result is the merge for some solution. |
| `InstrStream.SpliceKeepsBlock` | tools/core-v-verif/scoooter/sim/dv/pygen/experimental/riscv_instr_stream.py:42-62 | One splice at a random place leaves every all-atomic block whole; at the front or end it stays there. |
| `InstrStream.RunKeepsBlock` | tools/core-v-verif/scoooter/sim/dv/pygen/experimental/riscv_instr_stream.py:42-62 | The same across any number of splices. |
| `InstrStream.RunConserves` | tools/core-v-verif/scoooter/sim/dv/pygen/experimental/riscv_instr_stream.py:42-62 | No instruction is lost or duplicated by any number of splices. |
| `InstrStream.InsertedStreamsSurvive` | tools/core-v-verif/scoooter/sim/dv/pygen/experimental/riscv_instr_stream.py:42-62 | Every atomic stream that was spliced in is contiguous and in order in the final list. |
| `InstrStream.NewPositions` | tools/core-v-verif/scoooter/sim/dv/pygen/experimental/riscv_instr_stream.py:89-90 | New instruction i ends at position sol[i]+i. |
| `InstrStream.UnmixMerged` | tools/core-v-verif/scoooter/sim/dv/pygen/experimental/riscv_instr_stream.py:64-90 | Deleting those positions gives the original list back. |
| `InstrStream.OldPositions` | tools/core-v-verif/scoooter/sim/dv/pygen/experimental/riscv_instr_stream.py:64-90 | Original instruction j moves back by the number of new ones placed at or before it. |
| `InstrStream.Origin` | tools/core-v-verif/scoooter/sim/dv/pygen/experimental/riscv_instr_stream.py:64-90 | Every position holds a new instruction at its own place or an original one. |
| `InstrStream.LastStaysLast` | tools/core-v-verif/scoooter/sim/dv/pygen/experimental/riscv_instr_stream.py:85-90 | The last original instruction stays the last, in every case; with `contained` the last new one is directly in front of it. |
| `StackDiscipline.OpCarries` | tools/core-v-verif/scoooter/sim/dv/pygen/experimental/riscv_directed_instr_lib.py:210-311 | An operation of a push or pop block keeps, in both directions, what the block carries. |
| `StackDiscipline.SafeCarries` | tools/core-v-verif/scoooter/sim/dv/pygen/experimental/riscv_directed_instr_lib.py:312-459 | On every run, with each of its branches taken or not and whatever its random instructions write, a safe block carries SP, RA and T0. |
| `StackDiscipline.NeutralRun` | tools/core-v-verif/scoooter/sim/dv/pygen/experimental/riscv_directed_instr_lib.py:332-459 | Values for the random instructions with which a block carries exactly what it was given. |
| `StackDiscipline.UnsafeBreaks` | tools/core-v-verif/scoooter/sim/dv/pygen/experimental/riscv_directed_instr_lib.py:332-459 | Values for the random instructions of an unsafe block that lose a register. |
| `StackDiscipline.SafeRestores` | tools/core-v-verif/scoooter/sim/dv/pygen/experimental/riscv_directed_instr_lib.py:210-459 | Any run of the push block, any body that keeps SP and the frame slots, any run of the pop block: SP, RA and T0 are as before. |
| `StackDiscipline.RestoresIff` | tools/core-v-verif/scoooter/sim/dv/pygen/experimental/riscv_directed_instr_lib.py:210-459 | From any state, for every stack length and interleaving: the three registers are restored on all runs, branches taken or not, if and only if no random instruction of the blocks writes SP, or RA or T0 while the register holds the only copy. |
| `StackDiscipline.SkippingKeeps` | tools/core-v-verif/scoooter/sim/dv/pygen/experimental/riscv_directed_instr_lib.py:312-332 | A taken branch over random instructions leaves a safe block of the same kind. |
| `StackDiscipline.FallingThroughRuns` | tools/core-v-verif/scoooter/sim/dv/pygen/experimental/riscv_directed_instr_lib.py:332-459 | Falling through every branch is one of the runs. |
| `StackBlocks.PushStackInstr.CreatePushInstr` | tools/core-v-verif/scoooter/sim/dv/pygen/experimental/riscv_directed_instr_lib.py:214-311 | addi sp,sp,-len, then sw of RA to 4(sp) and of T0 to 8(sp), and nothing else. |
| `StackBlocks.PushStackInstr.AddBranch` | tools/core-v-verif/scoooter/sim/dv/pygen/experimental/riscv_directed_instr_lib.py:316-331 | A branch in front whose target is the first operation, which gets the label. |
| `StackBlocks.PushStackInstr.GenPushStackInstr` | tools/core-v-verif/scoooter/sim/dv/pygen/experimental/riscv_directed_instr_lib.py:210-336 | The block is the operations, with or without the branch, merged into random instructions, all atomic. |
| `StackBlocks.PopStackInstr.CreatePopInstr` | tools/core-v-verif/scoooter/sim/dv/pygen/experimental/riscv_directed_instr_lib.py:363-455 | Loads of RA and T0 from slots 4 and 8 and addi sp,sp,len. |
| `StackBlocks.PopStackInstr.GenPopStackInstr` | tools/core-v-verif/scoooter/sim/dv/pygen/experimental/riscv_directed_instr_lib.py:358-459 | The block is those operations merged into random instructions, all atomic and without label. |
| `StackBlocks.MergedSteps` | tools/core-v-verif/scoooter/sim/dv/pygen/experimental/riscv_directed_instr_lib.py:332-336 | Mixing keeps the operations in order, for every solution of the mix. |
| `StackBlocks.MixedHasShape` | tools/core-v-verif/scoooter/sim/dv/pygen/experimental/riscv_directed_instr_lib.py:332-336 | What the two generators make has the shape the restore theorem is about. |
| `StackBlocks.UnsafeBlockIsPossible` | tools/core-v-verif/scoooter/sim/dv/pygen/experimental/riscv_directed_instr_lib.py:207-213 | The generator can make a block that is not safe, since no register is reserved for the instructions mixed in. |
| `JumpStream.JumpInstr.ProblemDefinition` | tools/core-v-verif/scoooter/sim/dv/pygen/experimental/riscv_directed_instr_lib.py:69-146 | la, addi, jump and branch for a common base register other than zero, with the drawn immediate and its negation, both truncated. |
| `JumpStream.JumpInstr.PostRandomize` | tools/core-v-verif/scoooter/sim/dv/pygen/experimental/riscv_directed_instr_lib.py:152-181 | The stream: la, addi and branch (branch alone for JAL) merged into random instructions, then the labelled jump, all atomic. |
| `JumpStream.ImmediatesCancelIff` | tools/core-v-verif/scoooter/sim/dv/pygen/experimental/riscv_directed_instr_lib.py:97-109 | The sum of the two printed immediates is zero unless the truncated one is -1024, when it is -2048. |
| `JumpStream.BaseAtJump` | tools/core-v-verif/scoooter/sim/dv/pygen/experimental/riscv_directed_instr_lib.py:152-181 | Wherever la and addi ended up and whatever the others wrote, the base register holds target plus immediate at the jump. |
| `JumpStream.ReachesTargetIff` | tools/core-v-verif/scoooter/sim/dv/pygen/experimental/riscv_directed_instr_lib.py:97-181 | Whether or not the branch is taken, JALR reaches its target if and only if the drawn immediate is not 1024 modulo 2048, and lands 2048 bytes below it otherwise. |
| `JumpStream.MadeStreams` | tools/core-v-verif/scoooter/sim/dv/pygen/experimental/riscv_directed_instr_lib.py:152-181 | The streams that are made have the form that theorem is about. |
| `SequenceLabels.SpliceForward` | tools/core-v-verif/scoooter/sim/dv/pygen/experimental/riscv_instr_sequence.py:124-125 | Splicing keeps every assigned branch in front of its label. |
| `SequenceLabels.SpliceDistinct` | tools/core-v-verif/scoooter/sim/dv/pygen/experimental/riscv_instr_sequence.py:124-125 | Splicing a stream with other labels keeps labels distinct. |
| `SequenceLabels.SpliceOpenCovered` | tools/core-v-verif/scoooter/sim/dv/pygen/experimental/riscv_instr_sequence.py:124-125 | Splicing keeps a numbered instruction behind every branch still to be assigned. |
| `SequenceLabels.SpliceReady` | tools/core-v-verif/scoooter/sim/dv/pygen/experimental/riscv_instr_sequence.py:124-125 | A list ready for post-processing stays ready when a finished stream is spliced in anywhere. |
| `BranchTargets.NumberFound` | tools/core-v-verif/scoooter/sim/dv/pygen/experimental/riscv_instr_sequence.py:128-142 | Every number below the counter is on some numbered instruction. |
| `BranchTargets.NumberUnique` | tools/core-v-verif/scoooter/sim/dv/pygen/experimental/riscv_instr_sequence.py:128-142 | ... and on only one. |
| `BranchTargets.RoomIff` | tools/core-v-verif/scoooter/sim/dv/pygen/experimental/riscv_instr_sequence.py:153-154 | There is a legal target for a numbered branch if and only if a later instruction is numbered. |
| `BranchTargets.SucceedsIff` | tools/core-v-verif/scoooter/sim/dv/pygen/experimental/riscv_instr_sequence.py:144-176 | Target assignment raises no error if and only if every branch to be assigned has a numbered instruction behind it. |
| `BranchTargets.TargetExists` | tools/core-v-verif/scoooter/sim/dv/pygen/experimental/riscv_instr_sequence.py:144-176 | An assigned branch names a label that still exists after the same single pass, on a strictly later instruction, at most 20 numbers ahead and outside atomic streams. |
| `BranchTargets.LabelKeptIff` | tools/core-v-verif/scoooter/sim/dv/pygen/experimental/riscv_instr_sequence.py:172-176 | A number keeps its label if and only if some branch of the whole list goes there. |
| `BranchTargets.StillDistinct` | tools/core-v-verif/scoooter/sim/dv/pygen/experimental/riscv_instr_sequence.py:128-176 | All labels of the processed list are distinct. |
| `BranchTargets.AllForward` | tools/core-v-verif/scoooter/sim/dv/pygen/experimental/riscv_instr_sequence.py:144-176 | After the pass every branch is assigned and its label is on a later instruction. |
| `ClosedStreams.RandomReady` | tools/core-v-verif/scoooter/sim/dv/pygen/experimental/riscv_instr_stream.py:147-157 | Fresh random instructions are ready for splicing and post-processing. |
| `ClosedStreams.PushClosed` | tools/core-v-verif/scoooter/sim/dv/pygen/experimental/riscv_directed_instr_lib.py:312-336 | A push block is a finished stream: its one branch goes forward inside it. |
| `ClosedStreams.PopClosed` | tools/core-v-verif/scoooter/sim/dv/pygen/experimental/riscv_directed_instr_lib.py:456-459 | So is a pop block, which has no label and no branch. |
| `ClosedStreams.PushSpares` | tools/core-v-verif/scoooter/sim/dv/pygen/experimental/riscv_directed_instr_lib.py:312-336 | The branch of a push block stays in it and skips none of its operations. |
| `ClosedStreams.GeneratedBlocksRestoreIff` | tools/core-v-verif/scoooter/sim/dv/pygen/experimental/riscv_directed_instr_lib.py:210-459 | Any generated push block with any generated pop block restores SP, RA and T0 on all runs if and only if both are safe. |
| `ClosedStreams.CallStreamClosed` | tools/core-v-verif/scoooter/sim/dv/pygen/experimental/riscv_directed_instr_lib.py:152-181 | So is a call stream, whose branch goes to its jump; its jump is a call as machine runs need it. |
| `Segments.SpliceEquipped` | tools/core-v-verif/scoooter/sim/dv/pygen/experimental/riscv_instr_sequence.py:82-197 | Splicing anywhere but into an atomic stream keeps every call the base register it was made with, and every store its data page; no branch comes to lead into the stretch in between. |
| `Segments.PassEquipped` | tools/core-v-verif/scoooter/sim/dv/pygen/experimental/riscv_instr_sequence.py:121-176 | So does post-processing. |
| `InstrSequence.RiscvInstrSequence.GenStackEnterInstr` | tools/core-v-verif/scoooter/sim/dv/pygen/experimental/riscv_instr_sequence.py:61-82 | A stack length between 40 and 64 that is a multiple of 4, and a push block in front of the list. |
| `InstrSequence.RiscvInstrSequence.GenStackExitInstr` | tools/core-v-verif/scoooter/sim/dv/pygen/experimental/riscv_instr_sequence.py:86-91 | A pop block of the same length behind the list. |
| `InstrSequence.RiscvInstrSequence.GenInstr` | tools/core-v-verif/scoooter/sim/dv/pygen/experimental/riscv_instr_sequence.py:45-56 | A sub-program is push block, random instructions, pop block; a main program has no blocks. |
| `InstrSequence.RiscvInstrSequence.InsertJumpInstr` | tools/core-v-verif/scoooter/sim/dv/pygen/experimental/riscv_instr_sequence.py:184-197 | A call stream for the callee is spliced in front of a non-atomic instruction. |
| `InstrSequence.RiscvInstrSequence.InsertDirected` | tools/core-v-verif/scoooter/sim/dv/pygen/experimental/riscv_instr_sequence.py:124-125 | All directed streams are spliced in, one after the other. |
| `InstrSequence.RiscvInstrSequence.NumberLabels` | tools/core-v-verif/scoooter/sim/dv/pygen/experimental/riscv_instr_sequence.py:128-142 | Every non-atomic labelled instruction has the number of such instructions before it. |
| `InstrSequence.RiscvInstrSequence.AssignTargets` | tools/core-v-verif/scoooter/sim/dv/pygen/experimental/riscv_instr_sequence.py:144-176 | The single pass: targets in range, labels erased that nothing before or at them names, and an error if and only if some range is empty. |
| `InstrSequence.RiscvInstrSequence.PostProcessInstr` | tools/core-v-verif/scoooter/sim/dv/pygen/experimental/riscv_instr_sequence.py:121-176 | Splicing, numbering and the pass in a row, with the same condition for success. |
| `InstrSequence.RiscvInstrSequence.GenerateInstrStream` | tools/core-v-verif/scoooter/sim/dv/pygen/experimental/riscv_instr_sequence.py:93-119 | The text: the program name on the first line, surviving labels on the others, each instruction with its operands in printed order, and a numbered return for a sub-program. What the lines do is PrintedRun. |
| `InstrSequence.ReturnNumberFree` | tools/core-v-verif/scoooter/sim/dv/pygen/experimental/riscv_instr_sequence.py:115-118 | No instruction of a sub-program bears the number printed on its return line. |
| `InstrSequence.BranchLinesResolve` | tools/core-v-verif/scoooter/sim/dv/pygen/experimental/riscv_instr_sequence.py:93-176 | In the printed text the label of every branch is on exactly one line, a later one that is not the return. |
| `CallstackGen.RiscvCallstackGen.MembersAt` | tools/core-v-verif/scoooter/sim/dv/pygen/experimental/riscv_callstack_gen.py:146-150 | The programs of one level in ascending order. |
| `CallstackGen.RiscvCallstackGen.MakePool` | tools/core-v-verif/scoooter/sim/dv/pygen/experimental/riscv_callstack_gen.py:155-165 | Every program of the next level, and at most one of them a second time. |
| `CallstackGen.RiscvCallstackGen.Shares` | tools/core-v-verif/scoooter/sim/dv/pygen/experimental/riscv_callstack_gen.py:166-178 | Shares that add up to the size of the pool. |
| `CallstackGen.RiscvCallstackGen.AssignCalls` | tools/core-v-verif/scoooter/sim/dv/pygen/experimental/riscv_callstack_gen.py:180-185 | One program takes the next calls of the pool, all other programs stay. |
| `CallstackGen.RiscvCallstackGen.HandOneShare` | tools/core-v-verif/scoooter/sim/dv/pygen/experimental/riscv_callstack_gen.py:179-185 | After one turn the programs served so far hold exactly the pool up to the running index. |
| `CallstackGen.RiscvCallstackGen.Distribute` | tools/core-v-verif/scoooter/sim/dv/pygen/experimental/riscv_callstack_gen.py:166-185 | In the end the programs of the level hold exactly the pool, in order. |
| `CallstackGen.RiscvCallstackGen.GenerateLevel` | tools/core-v-verif/scoooter/sim/dv/pygen/experimental/riscv_callstack_gen.py:140-185 | One round gives its level a pool and changes no other level. |
| `CallstackGen.RiscvCallstackGen.NumberPrograms` | tools/core-v-verif/scoooter/sim/dv/pygen/experimental/riscv_callstack_gen.py:134-136 | Programs get their ids and levels and keep their calls. |
| `CallstackGen.RiscvCallstackGen.PostRandomize` | tools/core-v-verif/scoooter/sim/dv/pygen/experimental/riscv_callstack_gen.py:132-185 | For every level list that meets the constraints the result is a call tree: each level calls a pool of the next one, the last calls nobody. |
| `CallstackGen.CallsDescend` | tools/core-v-verif/scoooter/sim/dv/pygen/experimental/riscv_callstack_gen.py:80-82 | Calls go from one level to the next. |
| `CallstackGen.HasCaller` | tools/core-v-verif/scoooter/sim/dv/pygen/experimental/riscv_callstack_gen.py:169-170 | Every program but program 0 has a caller, one level above. |
| `CallstackGen.PathDescends` | tools/core-v-verif/scoooter/sim/dv/pygen/experimental/riscv_callstack_gen.py:70-82 | A chain of calls goes one level down with each call. |
| `CallstackGen.NoCallLoop` | tools/core-v-verif/scoooter/sim/dv/pygen/experimental/riscv_callstack_gen.py:71-81 | No program reaches itself, and no chain is longer than the number of levels. |
| `CallstackGen.ReachedFromMain` | tools/core-v-verif/scoooter/sim/dv/pygen/experimental/riscv_callstack_gen.py:169-170 | Every program is reached from program 0, in as many calls as its level. |
| `CallstackGen.PrintCallStack` | tools/core-v-verif/scoooter/sim/dv/pygen/experimental/riscv_callstack_gen.py:187-192 | The recursive walk ends and prints the lines of every call in order. |
| `CallstackGen.LinesAreCompletePaths` | tools/core-v-verif/scoooter/sim/dv/pygen/experimental/riscv_callstack_gen.py:187-192 | Every printed line is a chain of calls to a program that calls nobody. |
| `CallstackGen.CompletePathsArePrinted` | tools/core-v-verif/scoooter/sim/dv/pygen/experimental/riscv_callstack_gen.py:187-192 | Every such chain is printed. |
| `CallstackGen.PrintedIff` | tools/core-v-verif/scoooter/sim/dv/pygen/experimental/riscv_callstack_gen.py:187-192 | A line is printed from program 0 if and only if it is a complete chain of calls. |
| `ProgramRun.CostFalls` | tools/core-v-verif/scoooter/sim/dv/pygen/experimental/riscv_instr_sequence.py:149-154 | The step bound falls along a program. |
| `ProgramRun.StepFalls` | tools/core-v-verif/scoooter/sim/dv/pygen/experimental/riscv_instr_sequence.py:121-197 | Every step of the call stack, whichever way a branch goes, lowers the measure and keeps waiting programs on strictly rising levels. |
| `ProgramRun.RunFalls` | tools/core-v-verif/scoooter/sim/dv/pygen/experimental/riscv_instr_sequence.py:121-197 | After n steps at least n of the bound is used up. |
| `ProgramRun.EveryRunEnds` | tools/core-v-verif/scoooter/sim/dv/pygen/experimental/riscv_instr_sequence.py:121-197 | No run of the call stack from the start of a program to its end is longer than a bound computed from the program text, and never do more programs wait than there are levels. |
| `ProgramRun.RunGoesOn` | tools/core-v-verif/scoooter/sim/dv/pygen/experimental/riscv_instr_sequence.py:121-197 | A run of the call stack does not stop before its first program is through. |
| `ProgramRun.NestedDepth` | tools/core-v-verif/scoooter/sim/dv/pygen/experimental/riscv_callstack_gen.py:71-81 | The number of waiting programs is the level of the running one, counted from the first. |
| `MachineRun.MachineGoesOn` | tools/core-v-verif/scoooter/sim/dv/pygen/experimental/riscv_asm_program_gen.py:99-166 | A machine at an instruction of the text has a next state. |
| `MachineRun.FinishedIsSound` | tools/core-v-verif/scoooter/sim/dv/pygen/experimental/riscv_instr_sequence.py:121-197 | A finished sequence only moves forward or calls its own callees, given that its JALR calls reach their targets. |
| `MachineRun.HeldNext` | tools/core-v-verif/scoooter/sim/dv/pygen/experimental/riscv_directed_instr_lib.py:152-181 | Between la and its use, through every instruction, the base register holds the address, and behind addi the sum. |
| `MachineRun.HeldBranch` | tools/core-v-verif/scoooter/sim/dv/pygen/experimental/riscv_instr_sequence.py:144-176 | ... and across every branch, taken or not. |
| `MachineRun.StoreSpares` | tools/core-v-verif/scoooter/sim/dv/pygen/experimental/riscv_load_store_instr_lib.py:52-252 | A store between the stack blocks changes nothing in the stack. |
| `MachineRun.BlockPlainStep` | tools/core-v-verif/scoooter/sim/dv/pygen/experimental/riscv_directed_instr_lib.py:210-459 | In a stack block, with this much of it run, SP, RA and T0 are carried as the block is meant to, and the memory above the frame is untouched. |
| `MachineRun.BlockBranchStep` | tools/core-v-verif/scoooter/sim/dv/pygen/experimental/riscv_directed_instr_lib.py:316-331 | The same when the branch of a push block is taken or not. |
| `MachineRun.CallReaches` | tools/core-v-verif/scoooter/sim/dv/pygen/experimental/riscv_directed_instr_lib.py:69-181 | A JAL or JALR call goes to the first instruction of its callee, with the address behind the jump in RA. |
| `MachineRun.EndRestores` | tools/core-v-verif/scoooter/sim/dv/pygen/experimental/riscv_instr_sequence.py:84-91 | At its end a sub-program has SP, RA and T0 as on entry, and everything above its entry SP. |
| `MachineRun.ReturnKeeps` | tools/core-v-verif/scoooter/sim/dv/pygen/experimental/riscv_instr_sequence.py:115-119 | The return address of the callee is that of the instruction behind the call, and the caller finds its frame as it left it. |
| `MachineRun.StepKeeps` | tools/core-v-verif/scoooter/sim/dv/pygen/experimental/riscv_instr_sequence.py:58-197 | From the start of a program to its end, every step on registers and memory is a step of the call stack and keeps the invariant of all waiting programs. |
| `TextRun.RunToEnd` | tools/core-v-verif/scoooter/sim/dv/pygen/experimental/riscv_instr_sequence.py:58-197 | So every program that is entered with its frame of stack comes to its end within the bound, and until then control is in the text, before `test_done`, with SP in the stack. |
| `TextRun.MainReachesTestDone` | tools/core-v-verif/scoooter/sim/dv/pygen/experimental/riscv_asm_program_gen.py:99-103 | Every run of every generated text reaches `test_done` within the bound, for safe stack blocks, sequences that do not write SP in between, JALR calls without the immediate that misses, printed data pages, and enough stack apart from them. |
| `TextRun.TestDoneFallsThrough` | tools/core-v-verif/scoooter/sim/dv/pygen/experimental/riscv_asm_program_gen.py:102-110 | Behind `test_done`, control runs through the first printed sub-program, whose return goes to the address RA held at `test_done`, with SP, RA and T0 as they were there. |
| `TextRun.LapEndsIff` | tools/core-v-verif/scoooter/sim/dv/pygen/experimental/riscv_asm_program_gen.py:102-166 | So the run is then over if that is the address of `write_tohost`, and at the instruction with that address if it is one of the text. |
| `TextRun.RunIsKnown` | tools/core-v-verif/scoooter/sim/dv/pygen/experimental/riscv_asm_program_gen.py:99-110 | As long as RA is an address behind a call of the main program whenever `test_done` is reached, the programs that are active are known at every step of a run. |
| `TextRun.CallComesBack` | tools/core-v-verif/scoooter/sim/dv/pygen/experimental/riscv_asm_program_gen.py:99-110 | In such a run every ret goes to the instruction behind the jump that made the call, with SP, T0 and the stack above SP as at that jump; or, if no jump did, behind a call of the main program, with SP and T0 as at `test_done`. |
| `TextRun.AloneEnds` | tools/core-v-verif/scoooter/sim/dv/pygen/experimental/riscv_asm_program_gen.py:99-166 | Without sub-programs every run reaches `write_tohost` within the bound. |
| `TextRun.LongRun` | tools/core-v-verif/scoooter/sim/dv/pygen/experimental/riscv_asm_program_gen.py:99-110 | With sub-programs there are runs of every length from every start state. |
| `TextRun.TextEndsIff` | tools/core-v-verif/scoooter/sim/dv/pygen/experimental/riscv_asm_program_gen.py:99-166 | All runs from all start states end if and only if there is no sub-program, for main programs that leave RA, behind their last call, to random instructions. |
| `TextRun.SettingRaEnds` | tools/core-v-verif/scoooter/sim/dv/pygen/experimental/riscv_asm_program_gen.py:99-166 | That condition cannot be dropped: a text whose main program sets RA to the address of `write_tohost` at its very end ends on every run, whatever it calls. |
| `TextRun.NoRunEnds` | tools/core-v-verif/scoooter/sim/dv/pygen/experimental/riscv_asm_program_gen.py:99-110 | If the main program leaves RA to its calls and RA starts behind one of them, no run ends at all. |
| `PrintedRun.LineDoes` | tools/core-v-verif/scoooter/sim/dv/pygen/experimental/riscv_instr_base.py:56-94 | For every instruction that is no branch or jump, every state and every value drawn: executing the line as it is printed, by mnemonic and operands, leads to the state that executing the instruction leads to. |
| `PrintedRun.LineTells` | tools/core-v-verif/scoooter/sim/dv/pygen/experimental/riscv_instr_base.py:66-86 | Mnemonic and operands of branches, jumps and la can be read off their lines in printed order. |
| `PrintedRun.PrintedMovesIff` | tools/core-v-verif/scoooter/sim/dv/pygen/experimental/riscv_instr_sequence.py:93-119 | One step of the whole text, with labels looked up in it, is exactly one step of the instructions behind it: from every configuration the same ones follow, at the same place. |
| `PrintedRun.PrintedRunIff` | tools/core-v-verif/scoooter/sim/dv/pygen/experimental/riscv_asm_program_gen.py:99-112 | So the runs of the text are those of TextRun. |
| `PrintedRun.PrintedReachesTestDone` | tools/core-v-verif/scoooter/sim/dv/pygen/experimental/riscv_asm_program_gen.py:99-103 | Every run of the printed text reaches `test_done` within the bound, under the conditions of TextRun.MainReachesTestDone. |
| `PrintedRun.PrintedTextEndsIff` | tools/core-v-verif/scoooter/sim/dv/pygen/experimental/riscv_asm_program_gen.py:99-112 | All runs of the printed text end if and only if no sub-program is printed, for main programs with settled RA. |
| `SequenceGrowth.SpliceGrows` | tools/core-v-verif/scoooter/sim/dv/pygen/experimental/riscv_instr_sequence.py:124-197 | Splicing keeps everything a sequence under construction has to have: readiness, a place for the next splice, a free return number, known calls, known names. |
| `SequenceGrowth.CallGrows` | tools/core-v-verif/scoooter/sim/dv/pygen/experimental/riscv_asm_program_gen.py:89-97 | Inserting a call does, with the callee added to the calls and one more call number in use. |
| `SequenceGrowth.RunGrows` | tools/core-v-verif/scoooter/sim/dv/pygen/experimental/riscv_instr_sequence.py:124-125 | Inserting all directed streams does, and leaves the stack blocks at the ends. |
| `SequenceGrowth.StackBlocksStayAtTheEnds` | tools/core-v-verif/scoooter/sim/dv/pygen/experimental/riscv_instr_sequence.py:82-125 | However many streams and calls go into a sub-program, its push block stays a prefix and its pop block a suffix, and all instructions are there exactly once. |
| `SequenceGrowth.PassFinishes` | tools/core-v-verif/scoooter/sim/dv/pygen/experimental/riscv_instr_sequence.py:121-176 | Post-processing of a grown sequence never fails and makes every branch go forward. |
| `SequenceGrowth.GrownTextResolves` | tools/core-v-verif/scoooter/sim/dv/pygen/experimental/riscv_instr_sequence.py:93-176 | Its text resolves every branch. |
| `SequenceGrowth.PassFrames` | tools/core-v-verif/scoooter/sim/dv/pygen/experimental/riscv_instr_sequence.py:58-176 | Whatever went in: the finished sequence has a push block in front and a pop block at the end, of the shape the restore theorem is about, and every call and every store behind the push block has its base register. |
| `SequenceGrowth.GrownTextNames` | tools/core-v-verif/scoooter/sim/dv/pygen/experimental/riscv_instr_sequence.py:93-119 | Its text has the name of the program on the first line, and no name on two lines. |
| `ProgramGen.InsertCalls` | tools/core-v-verif/scoooter/sim/dv/pygen/experimental/riscv_asm_program_gen.py:89-97 | The calls of one program are inserted, with consecutive call numbers, between its stack blocks. |
| `ProgramGen.Finish` | tools/core-v-verif/scoooter/sim/dv/pygen/experimental/riscv_asm_program_gen.py:99-110 | Post-processing and text of one sequence. |
| `ProgramGen.GenSequence` | tools/core-v-verif/scoooter/sim/dv/pygen/experimental/riscv_asm_program_gen.py:53-110 | One sequence from start to text: every branch forward and resolved, every jump one of its calls, stack blocks at the ends. |
| `ProgramGen.GenProgram` | tools/core-v-verif/scoooter/sim/dv/pygen/experimental/riscv_asm_program_gen.py:39-110 | The same for all sequences together with a call tree, for every level list, every instruction count and all directed streams, and any order of the sub-programs: what TextRun asks of the generator; every named label is on one line of the whole text, and every program referred to is there. |
| `ProgramGen.WholeTextResolves` | tools/core-v-verif/scoooter/sim/dv/pygen/experimental/riscv_asm_program_gen.py:89-110 | In whatever order the sequences are put, no name is on two lines, and the name of every program that is called is on the first line of its sequence. |
| `ProgramGen.ReachesIff` | tools/core-v-verif/scoooter/sim/dv/pygen/experimental/riscv_directed_instr_lib.py:79-109 | A call reaches its target if and only if it is a JAL or its drawn immediate is not 1024 modulo 2048. |
| `LoadStore.LoadStoreStream.GenLoadStoreInstr` | tools/core-v-verif/scoooter/sim/dv/pygen/experimental/riscv_load_store_instr_lib.py:181-220 | One load or store per drawn address, of a size the address is aligned for, through the base register, which it does not overwrite. |
| `LoadStore.LoadStoreStream.AddMixedInstr` | tools/core-v-verif/scoooter/sim/dv/pygen/experimental/riscv_load_store_instr_lib.py:241-252 | Insertion keeps the loads and stores and their order, adds only instructions that spare the base register, and fails if and only if there is nothing to insert into. |
| `LoadStore.LoadStoreStream.AddRs1InitLaInstr` | tools/core-v-verif/scoooter/sim/dv/pygen/experimental/riscv_load_store_instr_lib.py:127-142 | la of the base register in front. |
| `LoadStore.LoadStoreStream.PostRandomize` | tools/core-v-verif/scoooter/sim/dv/pygen/experimental/riscv_load_store_instr_lib.py:108-115 | The finished stream, for every solution of the constraints: la, then the accesses in order among other instructions, all atomic. |
| `LoadStore.AccessesInsert` | tools/core-v-verif/scoooter/sim/dv/pygen/experimental/riscv_load_store_instr_lib.py:241-252 | Inserting another instruction anywhere leaves the sequence of accesses as it is. |
| `LoadStore.BaseHolds` | tools/core-v-verif/scoooter/sim/dv/pygen/experimental/riscv_load_store_instr_lib.py:108-142 | From the second instruction on the base register holds the value la gave it, whatever the others write. |
| `LoadStore.AccessesStayInPage` | tools/core-v-verif/scoooter/sim/dv/pygen/experimental/riscv_load_store_instr_lib.py:52-252 | Every memory access, wherever it ended up, is naturally aligned and lies wholly inside the 4096 bytes from the label of its page. |
| `LoadStore.OnlyThePageIsWritten` | tools/core-v-verif/scoooter/sim/dv/pygen/experimental/riscv_load_store_instr_lib.py:52-252 | No memory outside those bytes changes, at any point of the stream. |
| `LoadStore.StoreIsMade` | tools/core-v-verif/scoooter/sim/dv/pygen/experimental/riscv_load_store_instr_lib.py:52-252 | A store of a finished stream has its base from the la of a data page, and stays in that page. |
| `LoadStore.StreamIsDirected` | tools/core-v-verif/scoooter/sim/dv/pygen/experimental/riscv_load_store_instr_lib.py:108-115 | The stream may be spliced into a sequence. |
| `LoadStore.HitsContentsIff` | tools/core-v-verif/scoooter/sim/dv/pygen/experimental/riscv_data_page_gen.py:51-61 | An access hits the contents of the page if and only if it is not in front of them, since the alignment comes behind the label. |
| `LoadStore.AllHitIff` | tools/core-v-verif/scoooter/sim/dv/pygen/experimental/riscv_data_page_gen.py:51-61 | All addresses that can be drawn do if and only if the label itself is aligned. |
| `PseudoInstr.LoweringKeepsArithmetic` | tools/core-v-verif/scoooter/sim/dv/scripts/lib.py:339-369 | Every rd, rs form of RV32, from every machine state: the lowered instruction leads to the state in which rd holds the value meant. |
| `PseudoInstr.ArithmeticMeansOne` | tools/core-v-verif/scoooter/sim/dv/scripts/lib.py:339-369 | The value meant, stated by a property of the result, is the one the lowered operation computes, and no other. |
| `PseudoInstr.LoweringKeepsPermutations` | tools/core-v-verif/scoooter/sim/dv/scripts/lib.py:432-594 | The same for every rev, orc, zip and unzip name. |
| `PseudoInstr.PermutationMeansOne` | tools/core-v-verif/scoooter/sim/dv/scripts/lib.py:432-594 | The word with the bits permuted as the name says is the one the lowered operation computes, and no other. |
| `PseudoInstr.LoweringKeepsZeroBranches` | tools/core-v-verif/scoooter/sim/dv/scripts/lib.py:370-379 | beqz, bnez, bgez, bltz, blez, bgtz: taken exactly when meant, to the same place. |
| `PseudoInstr.LoweringKeepsCompareBranches` | tools/core-v-verif/scoooter/sim/dv/scripts/lib.py:380-395 | bgt, ble, bgtu, bleu with their exchanged operands. |
| `PseudoInstr.LoweringKeepsCsrWrites` | tools/core-v-verif/scoooter/sim/dv/scripts/lib.py:399-404 | csrw, csrs, csrc and their immediate forms: the csr changes as meant and no register does. |
| `PseudoInstr.CsrrIff` | tools/core-v-verif/scoooter/sim/dv/scripts/lib.py:396-398 | csrr as lowered delivers the csr but overwrites it with zero: the next state is the one meant if and only if the csr held zero. |
| `PseudoInstr.LoweringKeepsJumps` | tools/core-v-verif/scoooter/sim/dv/scripts/lib.py:405-429 | j, jal, jr, jalr in all its operand forms, and ret in both lengths. |
| `PseudoInstr.LoweringKeepsRv32Jumps` | tools/core-v-verif/scoooter/sim/dv/scripts/lib.py:405-429 | The same for RV32, without any assumption on the machine. |
| `PseudoInstr.LoweringKeepsNop` | tools/core-v-verif/scoooter/sim/dv/scripts/lib.py:336-338 | nop only moves the pc. |
| `PseudoInstr.LoweringKeepsWords` | tools/core-v-verif/scoooter/sim/dv/scripts/lib.py:349-355 | negw, sext.w and zext.w on RV64 words. |
| `PseudoInstr.IdempotentIff` | tools/core-v-verif/scoooter/sim/dv/scripts/lib.py:334-595 | Lowering twice is lowering once if and only if the instruction is not a jr with an offset(base) among its operands, or a one-operand jalr with one. |
| `PseudoInstr.UnchangedIff` | tools/core-v-verif/scoooter/sim/dv/scripts/lib.py:334-595 | For every name and every operand list: the conversion succeeds and gives both back unchanged if and only if the name is no pseudo name and the form is no short form of jal or jalr. |
| `PseudoInstr.OrdinaryKept` | tools/core-v-verif/scoooter/sim/dv/scripts/lib.py:334-595 | So on any machine and from every state an ordinary instruction does after the conversion what it did before. |
| `PseudoInstr.FailsIff` | tools/core-v-verif/scoooter/sim/dv/scripts/lib.py:343-395 | The conversion fails if and only if operands are to be exchanged or parted by a zero and there are too few of them. |
| `PseudoInstr.CompressedIff` | tools/core-v-verif/scoooter/sim/dv/scripts/lib.py:423-429 | A compressed instruction comes out if and only if one went in. |
| `BitPermute.RevBit` | tools/core-v-verif/scoooter/sim/dv/scripts/lib.py:432-476 | Where every bit of a reversal comes from, for all 15 rev names. |
| `BitPermute.RevMeans` | tools/core-v-verif/scoooter/sim/dv/scripts/lib.py:432-476 | A word is the reversal the name describes if and only if it is the result of grevi with the amount used. |
| `BitPermute.OrcKeeps` | tools/core-v-verif/scoooter/sim/dv/scripts/lib.py:477-521 | A bit set anywhere in a field at the same place of its unit is set in the result, for all 15 orc names. |
| `BitPermute.OrcFinds` | tools/core-v-verif/scoooter/sim/dv/scripts/lib.py:477-521 | A bit set in the result has such a bit in the operand. |
| `BitPermute.OrcMeans` | tools/core-v-verif/scoooter/sim/dv/scripts/lib.py:477-521 | A word ors the units of each field together if and only if it is the result of gorci with the amount used. |
| `BitPermute.ZipBit` | tools/core-v-verif/scoooter/sim/dv/scripts/lib.py:535-594 | Where every bit of an interleaving comes from, for all 10 zip names. |
| `BitPermute.ZipMeans` | tools/core-v-verif/scoooter/sim/dv/scripts/lib.py:535-594 | A word is the interleaving the name describes if and only if it is the result of shfli with the amount used. |
| `BitPermute.UnzipMeans` | tools/core-v-verif/scoooter/sim/dv/scripts/lib.py:535-594 | unshfli with the same amount gives the one word whose interleaving is the operand. |
| `BitPermute.RevUndoesRev` | tools/core-v-verif/scoooter/sim/dv/scripts/lib.py:432-476 | Every rev form undoes itself. |
| `BitPermute.UnzipUndoesZip` | tools/core-v-verif/scoooter/sim/dv/scripts/lib.py:535-594 | Every unzip form undoes its zip form. |
| `BitPermute.ZipUndoesUnzip` | tools/core-v-verif/scoooter/sim/dv/scripts/lib.py:535-594 | ... and the other way round. |
| `BitPermute.GrevBit` | tools/core-v-verif/scoooter/sim/dv/scripts/lib.py:432-476 | Where every bit of grevi comes from, for every amount. |
| `BitPermute.ShflBit` | tools/core-v-verif/scoooter/sim/dv/scripts/lib.py:535-594 | Where every bit of shfli comes from, for every amount. |
| `BitPermute.GorcFinds` | tools/core-v-verif/scoooter/sim/dv/scripts/lib.py:477-521 | A bit set in gorci, for any amount, has a set bit in the operand at a place that differs only where the amount has a bit. |
| `BitPermute.GorcKeeps` | tools/core-v-verif/scoooter/sim/dv/scripts/lib.py:477-521 | ... and every such bit sets it. |
| `BitPermute.GrevTwice` | tools/core-v-verif/scoooter/sim/dv/scripts/lib.py:432-476 | grevi undoes itself for every amount. |
| `BitPermute.UnshflShfl` | tools/core-v-verif/scoooter/sim/dv/scripts/lib.py:535-594 | unshfli undoes shfli for every amount. |
| `BitPermute.ShflUnshfl` | tools/core-v-verif/scoooter/sim/dv/scripts/lib.py:535-594 | ... and the other way round. |
| `VpNumbers.ZfillFacts` | tools/core-v-verif/tools/vptool/vptool/vp_pack.py:395-400 | A padded number reads back as that number and has three digits if and only if it is below 1000. |
| `VpNumbers.NameOfNumber` | tools/core-v-verif/tools/vptool/vptool/vp_pack.py:443-457 | A three-digit name is the padded form of its number. |
| `VpNumbers.BeforeIffLess` | tools/core-v-verif/tools/vptool/vptool/vp_pack.py:426-446 | On three-digit names string order is number order. |
| `VpNumbers.LongerIsBehindIff` | tools/core-v-verif/tools/vptool/vptool/vp_pack.py:446-446 | With more digits it is not: a number of three digits is in front of a longer one if and only if it is not above its first three digits. |
| `VpNumbers.ThousandIsBefore` | tools/core-v-verif/tools/vptool/vptool/vp_pack.py:446-446 | So the largest key of 999 and 1000 is 999. |
| `VpNumbers.OneIsBefore` | tools/core-v-verif/tools/vptool/vptool/vp_pack.py:426-426 | String order is total and strict. |
| `VpSorted.SortItems` | tools/core-v-verif/tools/vptool/vptool/vp_pack.py:426-426 | The dictionary as a list in key order, every entry once. |
| `VpSorted.SortedOnce` | tools/core-v-verif/tools/vptool/vptool/vp_pack.py:426-426 | There is only one such list. |
| `VpSorted.SortedGivesBack` | tools/core-v-verif/tools/vptool/vptool/vp_pack.py:426-436 | Storing the list entry by entry gives the dictionary back. |
| `VpSorted.StoredOver` | tools/core-v-verif/tools/vptool/vptool/vp_pack.py:434-435 | Storing over a dictionary with the same keys leaves nothing of the old values. |
| `VpTags.OldStyleIs` | tools/core-v-verif/tools/vptool/vptool/vp_pack.py:38-46 | Every tag of the old form is recognized, with its three numbers. |
| `VpTags.OldStyleSplits` | tools/core-v-verif/tools/vptool/vptool/vp_pack.py:38-46 | Every recognized tag is of the old form. |
| `VpTags.NormalizeOnce` | tools/core-v-verif/tools/vptool/vptool/vp_pack.py:38-46 | Normalizing twice is normalizing once, whatever the project is called. |
| `VpPack.Prop.constructor` | tools/core-v-verif/tools/vptool/vptool/vp_pack.py:347-359 | A property without items and with counter zero. |
| `VpPack.Prop.AddItem` | tools/core-v-verif/tools/vptool/vptool/vp_pack.py:393-403 | The new item is stored under the padded counter, with that name and tag suffix, and the counter grows. |
| `VpPack.Prop.DelItem` | tools/core-v-verif/tools/vptool/vptool/vp_pack.py:405-410 | The item goes, the counter stays; an error if and only if there is no such item. |
| `VpPack.Prop.InsertItem` | tools/core-v-verif/tools/vptool/vptool/vp_pack.py:438-463 | The item with the largest key goes behind the named one, those behind move up by one with key, name and tag suffix; an error if and only if there are no items. |
| `VpPack.MaxKey` | tools/core-v-verif/tools/vptool/vptool/vp_pack.py:446-446 | The largest key in string order. |
| `VpPack.SlideAll` | tools/core-v-verif/tools/vptool/vptool/vp_pack.py:447-457 | No other item is lost or overwritten by the renumbering. |
| `VpPack.DuplicateItem` | tools/core-v-verif/tools/vptool/vptool/vp.py:1664-1681 | A copy of the selected item is added and the item with the largest key inserted behind the selected one. |
| `VpDatabase.DuplicateContents` | tools/core-v-verif/tools/vptool/vptool/vp.py:1664-1681 | Below 1000: the copy has description and purpose of the selected item and nothing else, under the number behind it, and every old item keeps its contents under its own number or, behind the selected one, the next. |
| `VpPack.Prop.PrepToSave` | tools/core-v-verif/tools/vptool/vptool/vp_pack.py:418-427 | The sanitized items as a sorted list, and an empty dictionary. |
| `VpPack.Prop.PostLoad` | tools/core-v-verif/tools/vptool/vptool/vp_pack.py:429-436 | The list stored back into the dictionary, and an empty list. |
| `VpPack.SanitizeItems` | tools/core-v-verif/tools/vptool/vptool/vp_pack.py:424-425 | Every item is sanitized, none is lost. |
| `VpPack.SanitizedOnce` | tools/core-v-verif/tools/vptool/vptool/vp_pack.py:278-288 | Sanitizing twice is sanitizing once. |
| `VpPack.StoreAll` | tools/core-v-verif/tools/vptool/vptool/vp_pack.py:434-435 | The dictionary after the loop. |
| `VpDatabase.RenamedTagIff` | tools/core-v-verif/tools/vptool/vptool/vp_pack.py:452-461 | Renaming an item fits its tag to the new key if and only if the old key had three digits. |
| `VpDatabase.DuplicateKeepsNumbering` | tools/core-v-verif/tools/vptool/vptool/vp_pack.py:438-463 | Below 1000, after duplicating with insertion, the moved item is the added one and every key, name, tag suffix and the counter fit again. |
| `VpDatabase.DuplicateKeepsNumberingIff` | tools/core-v-verif/tools/vptool/vptool/vp_pack.py:438-463 | They fit again if and only if the counter was below 1000; otherwise some item has a tag that does not end in its key. |
| `VpDatabase.DuplicateBreaksTag` | tools/core-v-verif/tools/vptool/vptool/vp_pack.py:438-463 | That tag, whichever item was moved. |
| `VpDatabase.InsertKeepsOrder` | tools/core-v-verif/tools/vptool/vptool/vp_pack.py:447-462 | In the item dictionary: every other item is there, slid, the old items keep their order, and the inserted one is directly behind those numbered below it. |
| `VpDatabase.ActionKeepsIff` | tools/core-v-verif/tools/vptool/vptool/vp_pack.py:393-622 | An editing command keeps the numbering invariant of an Ip if and only if it does not duplicate an item with insertion where the counter has reached 1000. |
| `VpDatabase.EmptyIpOk` | tools/core-v-verif/tools/vptool/vptool/vp_pack.py:556-575 | An Ip without properties meets the invariant. |
| `VpDatabase.SessionKeepsNumberingIff` | tools/core-v-verif/tools/vptool/vptool/vp_pack.py:393-622 | A session of adding, deleting and duplicating items and adding and deleting properties keeps the invariant throughout (key, name and tag suffix agree and live numbers are distinct and below their counters) if and only if it has no such command. |
| `VpDatabase.SessionKeepsNumbering` | tools/core-v-verif/tools/vptool/vptool/vp_pack.py:393-622 | At every point of a session without such a command the invariant holds. |
| `VpDatabase.SessionCanInsert` | tools/core-v-verif/tools/vptool/vptool/vp_pack.py:438-463 | There all keys are numerals as `insert_item` needs them. |
| `VpDatabase.CountFallsIff` | tools/core-v-verif/tools/vptool/vptool/vp_pack.py:617-622 | The property counter falls if and only if the property with the last number goes and that number has three digits. |
| `VpDatabase.TagsDistinct` | tools/core-v-verif/tools/vptool/vptool/vp_pack.py:81-82 | All live item tags of a numbered Ip are distinct. |
| `VpDatabase.TagFreedIff` | tools/core-v-verif/tools/vptool/vptool/vp_pack.py:617-622 | Over whole sessions: the number of a deleted property can be given out again if and only if it was the last one when it was deleted and has three digits. |
| `VpDatabase.DeadStaysDead` | tools/core-v-verif/tools/vptool/vptool/vp_pack.py:596-622 | A number below the counter without a live property stays so in every session. |
| `VpDatabase.IpNumbersApart` | tools/core-v-verif/tools/vptool/vptool/vp_pack.py:596-615 | Equal item tags belong to Ips with equal numbers. |
| `VpTagHistory.TagTwiceIff` | tools/core-v-verif/tools/vptool/vptool/vp_pack.py:81-82 | In a session from an empty Ip that keeps the numbering, some tag is borne by two different items, at whatever times, if and only if some command inserts an item in front of a number that its property has counted, or gives an item a number that a deleted property with the same number had counted. |
| `VpTagHistory.NoTagTwice` | tools/core-v-verif/tools/vptool/vptool/vp_pack.py:393-622 | Without such a command no two items ever share a tag. |
| `VpTagHistory.TagTwice` | tools/core-v-verif/tools/vptool/vptool/vp_pack.py:438-463 | The first such command gives the new item a tag that another item has borne. |
| `VpTagHistory.TagFixed` | tools/core-v-verif/tools/vptool/vptool/vp_pack.py:393-463 | Until then every item keeps the tag it was created with. |
| `VpTagHistory.GivenOnce` | tools/core-v-verif/tools/vptool/vptool/vp_pack.py:393-622 | A tag is given to a second item only by such a command. |
| `VpTagHistory.DeletedTagComesBack` | tools/core-v-verif/tools/vptool/vptool/vp_pack.py:438-463 | Deleting an item and duplicating the one in front of it with insertion brings the deleted tag back, without any property being deleted. |
| `VpSave.Ip.constructor` | tools/core-v-verif/tools/vptool/vptool/vp_pack.py:556-575 | An Ip without properties. |
| `VpSave.Ip.AddProperty` | tools/core-v-verif/tools/vptool/vptool/vp_pack.py:596-615 | A new property under custom prefix, padded counter and ASCII name, with its tag, unless the name is taken. |
| `VpDatabase.AsciiAppend` | tools/core-v-verif/tools/vptool/vptool/vp_pack.py:32-33 | Exactly the characters below 128 stay, in order. |
| `VpSave.Ip.DelProperty` | tools/core-v-verif/tools/vptool/vptool/vp_pack.py:617-622 | The property goes, and the counter falls if it had the last number. |
| `VpSave.ItemRoundTrip` | tools/core-v-verif/tools/vptool/vptool/vp_pack.py:107-186 | An item converted to the new representation and back keeps everything but status, targets and lock. |
| `VpSave.SaveKeepsMemory` | tools/core-v-verif/tools/vptool/vptool/vp.py:2141-2151 | One Ip prepared for saving and taken back is as it was, up to cleared cue texts and normalized tags. |
| `VpSave.LoadGivesBack` | tools/core-v-verif/tools/vptool/vptool/vp_pack.py:107-186 | One Ip through the new representation gives the same names, tags, keys, counters, orders, revisions and item attributes, up to the same cleaning. |
| `VpKept.TagIsKept` | tools/core-v-verif/tools/vptool/vptool/vp_pack.py:38-46 | A tag of the old form is rewritten with its three numbers; any other stays. |
| `VpKept.ItemIsKept` | tools/core-v-verif/tools/vptool/vptool/vp_pack.py:278-288 | One item, field by field, in memory, in the file and after loading. |
| `VpKept.IpComesBack` | tools/core-v-verif/tools/vptool/vptool/vp_pack.py:107-186 | One Ip out and in again, and through the file: told of texts, tags and fields themselves. |
| `VpKept.IpGoesOut` | tools/core-v-verif/tools/vptool/vptool/vp_pack.py:168-186 | What of an Ip stands in its file. |
| `VpSave.SavedTwiceIsSavedOnce` | tools/core-v-verif/tools/vptool/vptool/vp.py:2141-2151 | One Ip prepared a second time gives the same record. |
| `VpSave.LoadKeepsNumbering` | tools/core-v-verif/tools/vptool/vptool/vp.py:2110-2122 | The numbering invariant holds after loading if it held when saving. |
| `VpFiles.Database.CreateIp` | tools/core-v-verif/tools/vptool/vptool/vp.py:1368-1386 | A new name gets an Ip with the next number; a database in order (keys are names, numbers distinct and below the counter) stays so. |
| `VpFiles.Database.DeleteIp` | tools/core-v-verif/tools/vptool/vptool/vp.py:1388-1392 | The Ip goes, its file stays. |
| `VpFiles.Database.UpdateIpName` | tools/core-v-verif/tools/vptool/vptool/vp.py:1423-1428 | The Ip moves to its new name, where another Ip is lost. |
| `VpFiles.RenamingDropsIff` | tools/core-v-verif/tools/vptool/vptool/vp.py:1423-1428 | Renaming keeps all Ips if and only if no other Ip has the new name; otherwise it drops that one and no other. |
| `VpFiles.Database.PrepDbExport` | tools/core-v-verif/tools/vptool/vptool/vp.py:2141-2145 | Every Ip is prepared for saving. |
| `VpFiles.Database.PrepDbImport` | tools/core-v-verif/tools/vptool/vptool/vp.py:2147-2151 | All lists of every Ip are turned back into dictionaries. |
| `VpFiles.Database.WriteAll` | tools/core-v-verif/tools/vptool/vptool/vp.py:1958-1989 | Every Ip is signed with the revisions of the tool and written to the file of its number, in order. |
| `VpFiles.Database.SaveDb` | tools/core-v-verif/tools/vptool/vptool/vp.py:1914-2014 | Memory and directory after saving, field by field: in memory every text is empty if it was its own cue and else the old one, old-form tags are rewritten, all else stays; the file of each Ip holds the same, and no other file changes. |
| `VpFiles.Database.LoadDb` | tools/core-v-verif/tools/vptool/vptool/vp.py:2056-2139 | The Ips of all files with a number of three digits, read in any order, and a counter one above the largest number. |
| `VpFiles.SavingKeepsMemory` | tools/core-v-verif/tools/vptool/vptool/vp.py:1914-2014 | Saving leaves the database in memory as it was, up to cleared cue texts, normalized tags and the four revisions, which it overwrites. |
| `VpFiles.SavingKeepsTexts` | tools/core-v-verif/tools/vptool/vptool/vp_pack.py:278-288 | After saving, in memory: each of the five texts of each item is empty if it was its own cue and else the old text, a tag VP_IPa_Pb_Ic has become VP_project_Fa_Sb_Ic and any other is the old one, and every other field is the old one. |
| `VpFiles.SavingFillsFiles` | tools/core-v-verif/tools/vptool/vptool/vp.py:1914-2014 | After saving, in the directory: the file of each Ip holds its properties and items in key order with exactly these texts, tags and fields, and files of other numbers are untouched. |
| `VpFiles.SavingKeepsFiling` | tools/core-v-verif/tools/vptool/vptool/vp.py:1982-1989 | Every file bears the number of the Ip in it, if it did before. |
| `VpFiles.SaveThenLoadIff` | tools/core-v-verif/tools/vptool/vptool/vp.py:1914-2122 | For every database, and every directory whose files bear the numbers of their Ips (as saving keeps it): loading after saving always gives the whole database back, cleaned and signed, if and only if every Ip is stored under its name, with a number of its own below 1000, and the directory holds no visible file of another Ip. |
| `VpFiles.LoadedTexts` | tools/core-v-verif/tools/vptool/vptool/vp.py:1914-2122 | Under that condition, and whatever the order of reading, the same holds of what is loaded, with status, targets and lock reset. |
| `VpFiles.OtherFileComesBack` | tools/core-v-verif/tools/vptool/vptool/vp.py:2081-2083 | A file of another Ip, one deleted since for instance, is in what is loaded. |
| `VpFiles.MustBeStorable` | tools/core-v-verif/tools/vptool/vptool/vp.py:1982-2083 | An Ip numbered 1000 or more, or sharing its number with another, does not come back. |
| `VpFiles.ConsistentIsStorableIff` | tools/core-v-verif/tools/vptool/vptool/vp.py:1368-1428 | A database as the editor keeps it meets the first part if and only if its numbers are below 1000. |
| `VpFiles.DatabaseTagsDistinct` | tools/core-v-verif/tools/vptool/vptool/vp_pack.py:81-82 | All live item tags of a database in order are distinct, across its Ips. |
| `VpFiles.SavedAgain` | tools/core-v-verif/tools/vptool/vptool/vp.py:1914-2014 | Saving again at once changes no file. |

## Left out

Contracts that say less than one might ask:

- MainReachesTestDone: one direction only. A program that breaks one of the conditions may still reach its end; a jump to an address where the program has nothing may do anything. That a block which is not safe does lose a register on some run is `GeneratedBlocksRestoreIff`.
- CallComesBack: under the same conditions, and for runs in which RA holds an address behind a call of the main program whenever `test_done` is reached. The instructions between the stack blocks are only kept from writing SP by assumption, since the source does not reserve it.
- TextEndsIff: for main programs in which no `la`, `addi` or `lw` behind the last call writes RA. With one the equivalence can fail (`SettingRaEnds`): where the return goes then depends on the instruction, and for `lw` on what is in memory. `LapEndsIff` says what happens for every content of RA. Reaching `write_tohost` counts as the end; that section writes `tohost` over and over until the simulator stops.
- MachineGoesOn: the model has the two data pages that are printed; a program that refers to one of the other 38 that can be drawn does not link.
- GenProgram: asks for at least one instruction in each sequence, since the source's random index fails on an empty list; sequences are generated one after the other, while the source generates all before it inserts calls (they share nothing but the call numbers).
- AccessesStayInPage: the label is taken to be a multiple of 8 (the data section starts with `.align 4`).
- QuietEntriesDoNotMatter: zero must be written as one fixed string in all updates, since the comparator compares strings.
- DelProperty: a tag whose last three characters are no digits is read as a number instead of raising an error; no property made by `add_property` has such a tag.
- AddProperty: when the name is taken the source fails on an unset variable after its message, here it reports failure.
- LoweringKeepsWords: for any RV64 machine with the operations used, without its other instructions.
- TagFreedIff: for sessions that keep the numbering, that is, without a duplication beyond 1000.
- TagTwiceIff: for the same sessions; beyond 1000 tags no longer end in the numbers of their items. An item counts as the bearer of a tag after the command, not in the middle of it.
- SaveThenLoadIff: for directories whose files bear the numbers of their Ips; a file that was renamed by hand could hold a copy of what is missing.
- SavedAgain: for Ips with numbers of their own; of two Ips with one number the one written last may change, as the order of a dictionary decides.
- CheckUpdateGpr: Python's `int` also accepts digits of other scripts, which count as errors here.

Not modelled:

- Aliasing: instructions, programs and properties are values in lists and maps held by class fields; the source creates each object afresh. The branch target of a call stream is filled in before mixing instead of afterwards through the shared object.
- Inheritance: the push, pop, jump and load/store streams hold a stream instead of extending one.
- The constraint solver and the random library, replaced by nondeterministic choice.
- Values of random instructions: each writes any value to its destination; memory is word-granular, and sub-word stores write any value at their address.
- LWU, LD, SD and the compressed loads and stores, which are drawn from but are no RV32I instructions.
- The letters of the printed text: a line is its label, its mnemonic and its operands in order; the operands behind the destination of a random instruction depend on its mnemonic and are kept together.
- The branch byte offset (its result is not printed), illegal and hint instructions, immediates in binary form.
- The current identity level list and the fixed number of sub-programs: any level list that meets the constraints is covered. `print_call_stack` calls itself without `self` in the source; the recursive walk that is meant is modelled.
- The contents of the data pages, the program header, and the initialization of registers (a start state is arbitrary but for SP).
- CSV quoting, regular expressions (a log line is what they say about it), file access and logging; `gpr_to_abi` and the conversion of operands to hexadecimal.
- The out-of-order compare mode, which is commented out in the source, and the limit on printed mismatches.
- The entries and printers of the disassembler; the header with its number of buckets is not part of this model, so the number is a parameter.
- Splitting operand text at commas. A negative number directly in front of an `offset(base)` operand is read without its sign by the source's search; here it is read with it. Accesses to registers and csrs outside the machine are ignored.
- The text format of saved databases (writing and reading YAML is taken as the identity), the pickle format and the mode that saves to one file, the Markdown output, missing attributes of items saved by older versions, locks, and the order of dictionaries.
- The graphical interface of the verification-plan tool, `Feature.add_subfeature` and the other editing of the new representation.
- The other log converters, the SystemVerilog-based generator, and the scripts that run simulators.
