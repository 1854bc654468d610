# TTK-91 emulator core in Dafny

This project models the execution engine of the strax TTK-91 emulator and the
loader for its `.b91` object files, and proves properties of both. TTK-91 is a
teaching computer with 32-bit words.

- **Ops** (`ops.dfy`): the opcode table, `Op` to byte and byte to `Op`.
- **Instructions** (`instruction.dfy`): the decoder of a word laid out as
  `[opcode:8][rj:3][mode:2][ri:3][addr:16]`, and the addressing modes.
- **Registers** (`register_file.dfy`): the register file.
  - R0 always reads as zero, yet writing it succeeds.
  - R6 is SP and R7 is FP.
  - PC, IR, TR and SR are the control registers.
- **Memory** (`mmu.dfy`): the MMU, a fixed array of words.
  - Reads and writes are bounds-checked.
  - Each read or write records its address in MAR and its value in MBR.
  - The loader copies blocks straight into the backing array.
- **Machines** and **Vm** (`machine.dfy`, `vm.dfy`): the machine.
  - `new` and `load_object_module`.
  - The operand computation `fetch_value`, with immediate, direct and
    indirect modes.
  - `tick`: fetch at PC, decode, advance PC, execute.
  - `run`: tick while PC has not passed FP.
- **Control** (`control.dfy`): `execute`, the semantics of each opcode arm.
- **B91Parser** (`b91_parser.dfy`, with `text.dfy` for the standard-library
  pieces it uses): the line-oriented object-module format.
  - The header line, then a code section, a data section and a symbol
    table.
  - Each section is introduced by a sentinel line.
- **Header** (`header.dfy`): the check of a file's first nine bytes.
- **Scenarios** (`scenarios.dfy`): a three-instruction program, traced from its
  object module to the end of its run.

**How the model is built.** Each stateful part has two halves:

- A pure specification function over a value snapshot (`ReadSpec`,
  `FetchValueSpec`, `ExecuteSpec`, `TickSpec`, `RunSpec`, `ParseSpec`, …).
  The lemmas are about these functions.
- A class or method that does the work the way the source does, proved
  against that function:
  - `RegisterFile` assigns its twelve fields.
  - `MMU` updates `mar`, `mbr` and an `array`.
  - `Machine.Run` is the `while pc <= fp` loop.
  - The parser methods advance a line position.

**Failures.** Each panic of the source becomes an explicit failure value: a
`Fault`, a `ParseError` or `None`. Among the panics modelled this way are
`unwrap` on a missing value, an out-of-range index and an unimplemented
instruction.

**Arithmetic.** The source uses plain `+`, `-` and `*` on `u32` and `usize`.
The model fixes release-build semantics throughout:

- word sums, differences and products wrap modulo 2^32;
- `usize` sums and differences wrap modulo 2^64;
- `as u32` keeps the low 32 bits.

The affected operations are:

- the effective address `reg[ri] + addr`;
- `pc + 1`;
- ADD, SUB and MUL;
- the block length `end - start + 1`;
- the loader's `end + 1`.

DIV by zero always faults.

**Two points where the model follows the code:**

- STORE in immediate mode is not refused. It writes to the effective address
  itself.
- JZER with a non-zero Rj never computes its operand.

## Model

| member | source | states |
|---|---|---|
| Ops.OpByteRoundTrip | src/vm/ops.rs:1-49 | converting any operation to its byte and back gives the same operation |
| Ops.OpFromByteSound | src/vm/ops.rs:3-49 | a byte that converts to an operation is exactly that operation's byte |
| Ops.OpByteInjective | src/vm/ops.rs:3-49 | no two mnemonics share an opcode byte |
| Ops.OpFromByteDefined | src/vm/ops.rs:3-49 | a byte converts to an operation if and only if some operation carries it |
| Ops.OpFromByteGaps | src/vm/ops.rs:3-49 | conversion fails exactly on the unassigned bytes 0x05–0x10, 0x1d–0x1e, 0x2d–0x30, 0x37–0x6f and 0x71–0xff |
| Instructions.ModeFromBits | src/vm.rs:27-33 | mode bits 0, 1 and 2 give a mode whose encoding they are; 3 gives none |
| Instructions.Decode | src/vm/instruction.rs:17-24 | decoding succeeds iff the top byte names an operation and the mode bits are not 3; an unknown opcode is reported first; on success the opcode's byte is bits 31–24, the mode's encoding bits 20–19, rj is bits 23–21 and ri bits 18–16 (both at most 7), and addr is the low 16 bits |
| Instructions.EncodeDecode | src/vm/instruction.rs:17-24 | the fields tile all 32 bits: re-packing a decoded word gives the word back |
| Instructions.DecodeEncode | src/vm/instruction.rs:17-24 | packing any instruction with register numbers below 8 and decoding gives the instruction back |
| Instructions.DecodeRejectsModeThree | src/vm/instruction.rs:20 | a word with mode bits 3 fails to decode even when its opcode is valid |
| Words.WrapAdd | src/vm.rs:84 | `u32` addition: the plain sum when it fits, otherwise the sum minus 2^32 |
| Words.WrapSub | src/vm/control.rs:58 | `u32` subtraction: the plain difference when it is not negative, otherwise 2^32 plus it |
| Words.WrapMul | src/vm/control.rs:63 | `u32` multiplication: the plain product when it fits, and always the product minus a multiple of 2^32 |
| Words.TruncateToWord | src/vm.rs:65 | `as u32` keeps the low 32 bits: the result differs from the input by a multiple of 2^32, so it is the identity below 2^32 |
| Words.USizeSpan | src/b91/parser.rs:32 | `end - start + 1` on `usize`: the block length when `start <= end + 1` and the length is below 2^64; 0 for `start = 0, end = usize::MAX`, whose length of 2^64 wraps; 2^64 plus the negative difference when `end + 1 < start` |
| Words.USizeSucc | src/vm.rs:63 | `end + 1` on `usize`: the successor, or 0 for the largest value |
| Text.ParseUnsigned | src/b91/parser.rs:24 | `str::parse` for unsigned integers: a parsed value is below the type's bound, and the string is an optional `+` then one or more ASCII digits (the converse is `ParseUnsignedAccepts`) |
| Text.ParseUnsignedAccepts | src/b91/parser.rs:24 | every non-empty digit string, with or without one leading `+`, parses iff its decimal value is below the bound, and then to that value |
| Text.LeadingZeroAndSign | src/b91/parser.rs:24 | a leading `0` or `+` in front of a digit string changes neither whether it parses nor its value |
| Text.ParseShow | src/b91/parser.rs:24 | parsing the decimal rendering of any value below the bound gives the value back |
| Text.Split | src/b91/parser.rs:16 | `split(' ')` gives at least one piece and no piece holds a space |
| Text.JoinSplit | src/b91/parser.rs:16 | joining the pieces of a split with single spaces gives the original string |
| Text.SplitPairIff | src/b91/parser.rs:15-20 | `parse_tuple` yields `(a, b)` iff the line is `a`, one space, `b` with neither piece holding a space |
| Registers.AllZero | src/vm/register_file.rs:29-44 | all twelve registers start at zero |
| Registers.ReadZero | src/vm/register_file.rs:58-60 | R0 reads as 0 whatever its backing field holds |
| Registers.WriteZeroInvisible | src/vm/register_file.rs:73-76 | writing R0 succeeds and stores into its field, yet R0 still reads as 0 |
| Registers.ReadAfterWrite | src/vm/register_file.rs:46-52 | for R1..R7 a read right after a write returns the written value |
| Registers.StackAndFramePointer | src/vm/register_file.rs:55-87 | index 6 is the `sp` field and index 7 the `fp` field, for reading and for writing |
| Registers.WriteFrame | src/vm/register_file.rs:73-86 | a write changes only the addressed field; the other general registers and PC, IR, TR, SR keep their values |
| Registers.OutOfRange | src/vm/register_file.rs:55-87 | any index above 7 makes both reading and writing fail |
| Registers.RegisterFile.constructor | src/vm/register_file.rs:29-44 | a new register file is all zeros |
| Registers.RegisterFile.Get | src/vm/register_file.rs:50-70 | the lookup on the fields agrees with the snapshot's read rule, R0 included |
| Registers.RegisterFile.Set | src/vm/register_file.rs:46-48 | the assignment through `index_mut` succeeds iff the index is at most 7 and then updates exactly that field |
| Memory.Fresh | src/vm/mmu.rs:11-14 | `size` zero words, MAR = MBR = 0, and `limit` is `size as u32`: the size itself when it fits in a `u32` |
| Memory.SliceCopy | src/vm.rs:63 | copying into `[start..stop]` succeeds iff the slice lies in the array and has the block's length; it then puts the block there and leaves every other word alone |
| Memory.ReadInBounds | src/vm/mmu.rs:16-20 | an in-bounds read returns the stored word, sets MAR and MBR, and leaves memory alone |
| Memory.WriteInBounds | src/vm/mmu.rs:27-31 | an in-bounds write stores the word, sets MAR and MBR, and leaves every other cell unchanged |
| Memory.ReadAfterWrite | src/vm/mmu.rs:16-31 | a read right after a write to the same address returns the written word |
| Memory.OutOfBounds | src/vm/mmu.rs:16-35 | at or past the limit both read and write fail and change nothing |
| Memory.SizeFixed | src/vm/mmu.rs:3-14 | neither read nor write changes the limit or the array's size |
| Memory.MMU.constructor | src/vm/mmu.rs:11-14 | the new MMU's state is `Fresh(size)`, on a fresh array |
| Memory.MMU.Read | src/vm/mmu.rs:16-25 | the read on the fields and the array gives the value and new state of `ReadSpec` |
| Memory.MMU.Write | src/vm/mmu.rs:27-35 | the write on the fields and the array gives the outcome and new state of `WriteSpec` |
| Memory.MMU.CopyIntoSlice | src/vm/mmu.rs:37-39 | the loop copying into the backing array yields `SliceCopy`'s result, leaving MAR and MBR alone, and changes nothing when the copy would panic |
| Machines.NewSpec | src/vm.rs:50-54 | a new machine has all-zero registers and a fresh MMU of the given size |
| Machines.FetchValueFrame | src/vm.rs:81-93 | computing an operand changes no register, no memory cell and not the limit |
| Machines.FetchValueModes | src/vm.rs:81-93 | with `ea = reg[ri] + addr` (so `ea = addr` for R0), the operand is `ea` for immediate, `mem[ea]` for direct and `mem[mem[ea]]` for indirect; each read sets MAR and MBR, and any read at or past the limit faults |
| Machines.FetchValueBadIndex | src/vm.rs:82 | an index register above 7 faults in every mode and changes nothing |
| Machines.LoadOkIff | src/vm.rs:56-72 | loading succeeds iff each block's slice `start..end+1` fits in memory and holds as many words as the block |
| Machines.BlockFitsPlain | src/vm.rs:63-69 | for ends below the largest `usize`, a block fits iff `end` is below the memory size and its word count is `end - start + 1` |
| Machines.LoadPlacesBlocks | src/vm.rs:56-72 | after a load the data block is in place, the code block is in place wherever data does not overlap it, and FP and SP hold the block ends; other registers, MAR, MBR, the limit and every cell outside both blocks are unchanged |
| Machines.LoadDisjoint | src/vm.rs:56-72 | with non-overlapping blocks the whole code block is in place |
| Control.NopUnchanged | src/vm/control.rs:12 | NOP changes nothing |
| Control.ExecuteKeepsPc | src/vm/control.rs:10-82 | every instruction but JUMP and JZER leaves PC alone |
| Control.ExecuteControlFrame | src/vm/control.rs:10-82 | no instruction changes IR, TR or SR |
| Control.ExecuteMemoryFrame | src/vm/control.rs:10-82 | no instruction changes the limit or the size of memory |
| Control.ArithmeticFrame | src/vm/control.rs:50-69 | ADD, SUB, MUL and DIV change no register but Rj and no memory cell |
| Control.OnlyStoreWrites | src/vm/control.rs:10-82 | every instruction except STORE leaves every memory cell as it was |
| Control.LoadSetsRegister | src/vm/control.rs:29-32 | LOAD sets Rj to the operand and changes no other register and no cell; MAR and MBR are those of the operand's reads |
| Control.StoreWritesMemory | src/vm/control.rs:24-28 | STORE writes Rj at the operand address, setting MAR and MBR, and changes no register; an address at or past the limit faults |
| Control.StoreImmediate | src/vm/control.rs:24-28 | in immediate mode STORE writes Rj at `reg[ri] + addr` itself |
| Control.ArithmeticSetsRegister | src/vm/control.rs:50-69 | ADD, SUB, MUL and DIV replace Rj by `Rj op operand` (wrapping) and change nothing else; DIV by zero faults and changes no register |
| Control.ArithmeticPlain | src/vm/control.rs:50-69 | without overflow the results are the ordinary sum, difference and product, and DIV rounds down |
| Control.JumpSetsPc | src/vm/control.rs:47-49 | JUMP sets PC to Rj and changes nothing else, whatever the mode, ri and addr |
| Control.JzerBranches | src/vm/control.rs:41-46 | JZER with Rj ≠ 0 changes nothing and reads no memory; with Rj = 0 it sets PC to the operand |
| Control.OutputToCrt | src/vm/control.rs:33-40 | OUT to device 0 emits Rj; any other device faults; neither changes a register or cell |
| Control.SupervisorCall | src/vm/control.rs:70-79 | SVC with the halt service halts; any other service faults |
| Control.OperandFaults | src/vm/control.rs:24-79 | when the operand fetch faults, LOAD, STORE, ADD, SUB, MUL, DIV, OUT, SVC and JZER with Rj = 0 end with that fault in the state the fetch left |
| Control.BadRjFaults | src/vm/control.rs:24-69 | an Rj above 7 faults: STORE, JZER and JUMP before changing anything, LOAD and the arithmetic instructions in the state their operand fetch left |
| Control.UnsupportedFaults | src/vm/control.rs:10-82 | IN and every operation without an arm fault and change nothing |
| Vm.TickFetchesAtPc | src/vm.rs:75-79 | a tick reads the word at PC through the MMU, faults past the limit or on an undecodable word, and otherwise executes it with PC already advanced by one |
| Vm.TickAdvancesPc | src/vm.rs:75-79 | unless the instruction is a jump, PC ends one past the fetched word |
| Vm.TickJumpOverridesAdvance | src/vm.rs:75-79 | a JUMP's target, the value Rj reads (0 for R0), overrides the advance, because execution sees the incremented PC |
| Vm.TickNop | src/vm.rs:75-79 | the all-zero word is NOP: a tick over it only advances PC and records the fetch |
| Vm.RunStopsPastFp | src/vm.rs:42-46 | once PC is past FP the run stops without a tick |
| Vm.RanOffEndPastFp | src/vm.rs:42-46 | a run that ended by leaving the loop stopped with PC past FP |
| Vm.RunFuelMonotone | src/vm.rs:42-46 | a run that ended for any reason but the tick bound ends the same way with more fuel |
| Vm.RunStep | src/vm.rs:42-46 | while PC has not passed FP a run is one tick followed by the rest of the run; an output is emitted first; a halt or fault ends it |
| Vm.Machine.constructor | src/vm.rs:50-54 | the new machine's state is `NewSpec(memorySize)` |
| Vm.Machine.LoadObjectModule | src/vm.rs:56-72 | copying both blocks and setting FP and SP gives `LoadSpec`'s outcome and state |
| Vm.Machine.FetchValue | src/vm.rs:81-93 | the operand computation through the MMU gives `FetchValueSpec`'s result and state |
| Vm.Machine.SetRegister | src/vm/control.rs:31 | `registers.set` inside `execute` faults on an index above 7 and otherwise writes that register |
| Vm.Machine.Arithmetic | src/vm/control.rs:50-69 | the ADD, SUB, MUL and DIV arms on the machine give the specified step and state |
| Vm.Machine.Execute | src/vm/control.rs:10-82 | every arm of `execute` on the machine gives `ExecuteSpec`'s step and state |
| Vm.Machine.Tick | src/vm.rs:75-79 | fetch, decode, advance and execute on the machine give `TickSpec`'s step and state |
| Vm.Machine.Run | src/vm.rs:42-46 | the `while pc <= fp` loop gives `RunSpec`'s outcome and final state, with the values printed in order |
| B91Parser.OffsetsLineIff | src/b91/parser.rs:22-27 | an offsets line is read as `(start, end)` iff it is two space-free pieces around one space that parse as `start` and `end` |
| B91Parser.TakeWordsShape | src/b91/parser.rs:31-35 | taking words succeeds iff each of the first `n` lines present is a `u32`; it yields those words in order, stops short of `n` only at the end of input, and leaves the remaining lines |
| B91Parser.ParseWords | src/b91/parser.rs:31-35 | the `take(n).map(parse)` loop yields what `TakeWordsSpec` specifies and the position after the lines it consumed |
| B91Parser.ParseCodeBlock | src/b91/parser.rs:29-37 | reading a code block from a position gives `CodeBlockSpec`'s block and remaining lines |
| B91Parser.ParseDataBlock | src/b91/parser.rs:39-47 | reading a data block from a position gives `DataBlockSpec`'s block and remaining lines |
| B91Parser.ParseSymbolTable | src/b91/parser.rs:49-56 | the `take_while` insert loop builds `SymbolsSpec`'s table |
| B91Parser.Expect | src/b91/parser.rs:60-69 | a sentinel check consumes one line equal to the token, and fails at the end of input or on any other line |
| B91Parser.Parse | src/b91/parser.rs:58-73 | the whole parse, section by section, gives `ParseSpec`'s result |
| B91Parser.UpToEnd | src/b91/parser.rs:51 | the lines before the first end sentinel: a prefix holding no sentinel, followed by the sentinel unless the input ran out |
| B91Parser.CodeBlockShape | src/b91/parser.rs:29-37 | a parsed code block stores the parsed offsets and the following lines' words in order; it holds exactly `end - start + 1` words unless the input ran out |
| B91Parser.DataBlockShape | src/b91/parser.rs:39-47 | the same for a data block |
| B91Parser.ParseSteps | src/b91/parser.rs:58-73 | a successful parse consists of the header and code sentinels, a code block, the data sentinel, a data block, the symbol-table sentinel and the table |
| B91Parser.ParseShape | src/b91/parser.rs:58-73 | a successful parse read, line by line: the header, the code sentinel, the code offsets, exactly `end - start + 1` code words in order, the same for data, the symbol-table sentinel, then the table built from the remaining lines |
| B91Parser.SymbolsUpToEnd | src/b91/parser.rs:49-56 | lines from the end sentinel on never affect the symbol table |
| B91Parser.SymbolsOkIff | src/b91/parser.rs:49-56 | the table is built iff every line before the sentinel (or the end of input) is `name address` |
| B91Parser.SymbolsLaterWins | src/b91/parser.rs:53 | a later line with the same name overrides an earlier address |
| B91Parser.OffsetsLineParses | src/b91/parser.rs:22-27 | the rendered offsets line `start end` reads back as `(start, end)` |
| B91Parser.TakeWordsRender | src/b91/parser.rs:31-35 | words rendered one per line read back as the same words, leaving what follows |
| B91Parser.CodeBlockRender | src/b91/parser.rs:29-37 | a rendered code block with a matching word count reads back as the same block |
| B91Parser.DataBlockRender | src/b91/parser.rs:39-47 | a rendered data block with a matching word count reads back as the same block |
| B91Parser.SymbolLineRender | src/b91/parser.rs:52-53 | a rendered `name address` line reads back as the pair and is not the end sentinel |
| B91Parser.SymbolsRender | src/b91/parser.rs:49-56 | rendered symbol lines followed by the sentinel read back as the table built by inserting them in order |
| B91Parser.ParseRender | src/b91/parser.rs:58-73 | reading back a rendered module gives the same blocks and the table built by inserting its symbols in order |
| Header.ValidateHeader | src/ttk91/vm/mod.rs:3-5 | fails iff the input has fewer than 9 bytes; accepted input starts with the header |
| Header.HeaderAccepted | src/ttk91/vm/mod.rs:1-5 | any input that starts with the header is accepted |
| Header.ValidateHeaderIff | src/ttk91/vm/mod.rs:3-5 | input of 9 bytes or more is accepted iff its first nine bytes are the header |
| Header.TailIgnored | src/ttk91/vm/mod.rs:4 | bytes from index 9 on never change the verdict |
| Header.HeaderIsParserToken | src/ttk91/vm/mod.rs:1 | the header bytes are the character codes of the object-module parser's first-line token |
| Scenarios.HelloLoads | src/vm.rs:56-72 | loading the three-instruction module into an eight-word machine gives the listed memory, FP = SP = 2 |
| Scenarios.LoadDecodes | src/vm/instruction.rs:17-24 | `0x02200005` decodes as `LOAD R1, =5` |
| Scenarios.OutDecodes | src/vm/instruction.rs:17-24 | `0x04200000` decodes as `OUT R1, =0` |
| Scenarios.SvcDecodes | src/vm/instruction.rs:17-24 | `0x7000000B` decodes as `SVC R0, =11` |
| Scenarios.FirstTick | src/vm.rs:75-79 | the first tick loads 5 into R1 |
| Scenarios.SecondTick | src/vm.rs:75-79 | the second tick prints 5 |
| Scenarios.ThirdTick | src/vm.rs:75-79 | the third tick halts |
| Scenarios.HelloRun | src/vm.rs:42-46 | the run prints exactly `[5]` and halts with R1 = 5 and PC = 3 |

## Left out

- src/vm/mod.rs is not part of this model. It is an older variant of the machine that cannot be compiled alongside src/vm.rs.
- The debugger (src/vm/debugger.rs) and the command line (src/main.rs) are left out. Both are interactive I/O.
- `read_keyboard` (src/vm/io.rs) is left out, because IN never reaches it. Only the device numbers CRT = 0 and Keyboard = 1 are kept.
- compiler/src/parser.rs and compiler/src/parser2.rs are left out. They are not connected to the engine.
- `println!` output is not modelled. A value OUT prints on the CRT is an `Output` step, and `run` collects these values in order.
- The halt call's `process::exit` becomes a `Halted` step that ends the run.
- The supervisor module's `Service` enum is not available. The halt service number is the constant `HALT_SERVICE = 11`, the TTK-91 numbering.
- `Service::from_u32(..).unwrap()` on a number that is no service, and a known service other than halt, both become the fault `UnknownService`.
- Vm.RunSpec: bounded by a fuel count of ticks, with an `OutOfFuel` outcome. The source loops forever on a program that never passes FP.
- Words.WrapAdd: debug-build overflow panics are not modelled, because the model fixes release-build wrap-around throughout. The same goes for WrapSub, WrapMul, USizeSpan and USizeSucc.
- Byte decoding and line splitting of the object file (`Cursor::lines`, UTF-8 `unwrap`) are left out. The parser's input is the sequence of its lines.
- Line terminators are not modelled, so the `\r` that `lines` strips is not either.
- `str::parse` is modelled for plain ASCII decimal digits with an optional `+`. This matches Rust's rules for unsigned integers.
- The `ir`, `tr` and `sr` registers are never written by the modelled code. The model only states that nothing changes them.
- `usize` is taken to be 64 bits wide.
- Memory sizes of 2^32 words or more are allowed. Then `limit` is the truncated size while the array keeps its full length, as `size as u32` does in the source.
- Error messages are replaced by one error constructor per panic site.
- B91Parser.ParseShape: the symbol table is stated through `SymbolsSpec` of the remaining lines. `SymbolsOkIff`, `SymbolsUpToEnd` and `SymbolsLaterWins` give its meaning.
