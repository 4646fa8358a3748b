# A 6502 assembler and engine, modelled in Dafny

This project models the two halves of a small 6502 toolchain written in
JavaScript:

- **The assembler** (`src/assembler/assembler.js`) turns program text into
  numbers. The text is split at newlines. On each line:
  - everything from the first `;` on is a comment;
  - a regular expression picks out a mnemonic and an optional operand;
  - the upper-cased mnemonic is looked up in a table of 56 entries;
  - the first operand syntax (variant) of that entry that accepts the
    operand gives the opcode, and the variant's extractor gives the operand
    bytes.

  `assembleBlob`, exported as `assemble`, runs the groups of numbers
  together. `assembleDebug` returns both the groups and the blob.
- **The engine** (`src/emulator/`):
  - *address modes* compute an address from the state and say how many
    operand bytes follow the opcode;
  - *instruction types* are the handlers that change the state;
  - *instructions* build the 256-slot dispatch table. Each registered opcode
    wraps its handler with an address mode, which then advances the program
    counter past the operand bytes;
  - the *CPU* owns a state object. It can load a ROM at 0x200, `tick` (fetch
    an opcode, step the program counter, run the entry), and `run` until the
    byte at the program counter is a stop opcode.

The model keeps JavaScript's number semantics where the source relies on
them, in module `JsNumber`:
- a value is `Int(i)` or `NaN`, and `undefined` is folded into `NaN`;
- a `Uint8Array` store at an integer index converts with ToUint8 and
  ignores indices outside the array (a store at the index `undefined` is
  not modelled; see `CpuState.State.Store` under "Left out");
- the bitwise operators convert with ToInt32/ToUint32;
- there is no wrap-around unless the source writes one.

Each handler is specified by a function `Apply` on a snapshot `Machine`. The
methods that run on the mutable `State` object are proved against `Apply`.
The dispatch table is written as a grid by opcode; it is proved equal to
what the `registerInstruction(s)` calls build from their lists as written, and
`run` is proved against a fuelled function `RunSpec`.

Module `OpcodeAgreement` relates the two halves. Both are keyed by the same
opcode bytes. For every table entry outside a fixed list of exceptions,
assembling a line and dispatching its opcode runs the line's mnemonic in the
line's addressing mode. The exceptions, modelled as written:
- CMP, CPX and CPY have handlers but no registered opcode;
- JSR is registered without an address mode;
- LDA and STA register their absolute,X and absolute,Y opcodes with the
  other index register;
- LDX registers 0xB6 and 0xBE with Y although the assembler writes them
  with X.

Other behaviours the model states as the code has them:
- BCC, BNE, BPL and BVC are never taken, because they test
  `statusRegister & (MASK === 0)`;
- BCS, BEQ, BMI and BVS all branch on the carry bit;
- JMP absolute lands two bytes past its target, because the mode wrapper
  adds `bytes` after the handler has set the program counter;
- ADC and SBC add and subtract without carry, flags or wrap-around;
- `makeCpu` takes no options and always loads the program at 0x200;
- `makeState` never creates `statusRegister`, so it starts out
  `undefined`.

Files:

| file | module | models |
|---|---|---|
| `js_number.dfy` | `Wrappers`, `JsNumber` | `Result`/`Option`; JavaScript number conversions and bitwise operators |
| `cpu_state.dfy` | `CpuState` | `makeState`, memory reads and stores, the `State` class |
| `address_modes.dfy` | `AddressModes` | `address-modes.js` |
| `instruction_types.dfy` | `InstructionTypes` | `instruction-types.js`: push, pop, compare, every handler |
| `handler_properties.dfy` | `HandlerProperties` | what each handler does, and the round trips between handlers |
| `instructions.dfy` | `Instructions` | `instructions.js`: registration and the dispatch table |
| `cpu.dfy` | `Cpu` | `cpu.js`: load, tick, run |
| `assembler.dfy` | `Assembler` | `assembler.js` |
| `opcode_agreement.dfy` | `OpcodeAgreement` | how the assembler's table and the engine's table agree |

## Model

| member | source | states |
|---|---|---|
| CpuState.Fresh | src/emulator/cpu.js:8-25 | the fresh state has zero memory, program counter 0x200, stack pointer 0xFF, A = X = Y = 0 and an `undefined` status register |
| CpuState.ReadAfterWrite | src/emulator/cpu.js:10 | a cell read back after a store inside memory holds the stored value modulo 256; every other index reads as before |
| CpuState.State.constructor | src/emulator/cpu.js:8-25 | a new state object has a fresh memory array whose snapshot is `Fresh()`, and all status fields 0 |
| CpuState.State.Get | src/emulator/cpu.js:10 | reading the array gives `Read` of its contents: the cell, or `undefined` outside memory |
| CpuState.State.Store | src/emulator/cpu.js:10 | a store on the array leaves exactly `Write` of the old contents: ToUint8 of the value at an index inside memory, nothing otherwise |
| AddressModes.ReadWordIsWord | src/emulator/address-modes.js:6-9 | the bitwise or of `memory[i]` and `memory[i + 1] << 8` is the little-endian word at i, below 0x10000 |
| AddressModes.AbsoluteAddress | src/emulator/address-modes.js:5-27 | absolute, absolute,X and absolute,Y read the word at pc, pc + X and pc + Y, and all three skip 2 bytes |
| AddressModes.ZeroPageAddress | src/emulator/address-modes.js:29-34 | zero page is the byte at pc, `undefined` when pc is outside memory, and skips 1 byte |
| AddressModes.ZeroPageIndexedAddress | src/emulator/address-modes.js:36-48 | zero page,X and zero page,Y give (byte at pc + index) mod 256, or 0 when either side is not a number; they skip 1 byte |
| AddressModes.ImmediateAddress | src/emulator/address-modes.js:50-55 | immediate addresses the operand byte itself and skips 1 byte |
| AddressModes.RelativeAddress | src/emulator/address-modes.js:57-66 | relative gives pc plus the two's-complement offset byte (-128..127), and `undefined` when pc is outside memory |
| AddressModes.SignedByte | src/emulator/address-modes.js:61-63 | the offset value lies in -128..127 and is congruent to the byte modulo 256 |
| AddressModes.OffsetBits | src/emulator/address-modes.js:61-63 | `offset & 0x80` is the sign bit and `offset & 0x7F` the low seven bits of the byte |
| AddressModes.IndirectAddress | src/emulator/address-modes.js:68-76 | indirect returns the single byte stored at the pointer word, not a word, and skips 2 bytes |
| AddressModes.IndexedIndirectAddress | src/emulator/address-modes.js:78-87 | indexed indirect reads the word at the word found at pc + X, and skips 1 byte |
| AddressModes.IndirectIndexedAddress | src/emulator/address-modes.js:89-98 | indirect indexed reads the word at (word at pc) + Y, and skips 1 byte |
| AddressModes.AddressRange | src/emulator/address-modes.js:4-99 | every mode but immediate and relative gives an index inside memory, except a zero page read from outside memory; the zero-page modes stay below 256 |
| InstructionTypes.MaskLayout | src/emulator/instruction-types.js:4-17 | each SET mask has only its flag's bit, and each CLEAR mask has all the other bits of the byte |
| InstructionTypes.CombinedMasks | src/emulator/instruction-types.js:4-9 | the `&` of the single CLEAR masks is 0x7C for N, Z and C, and 0x3D for N, V and Z |
| InstructionTypes.Push | src/emulator/instruction-types.js:19-22 | push stores the value at 0x100 + sp and then decrements sp, as `PushSpec` |
| InstructionTypes.Pop | src/emulator/instruction-types.js:24-27 | pop increments sp and returns the cell at 0x100 + sp, as `PopSpec` |
| InstructionTypes.Compare | src/emulator/instruction-types.js:29-41 | compare changes only the status register, to `CompareSpec` of the old register and the difference |
| InstructionTypes.RunAccumulator | src/emulator/instruction-types.js:44-58 | the handlers that write A leave the state object equal to `Apply` on its old snapshot |
| InstructionTypes.RunJump | src/emulator/instruction-types.js:60-127 | the branches and JMP leave the state object equal to `Apply` on its old snapshot |
| InstructionTypes.RunStatus | src/emulator/instruction-types.js:129-155 | the flag handlers, BIT and the compares leave the state object equal to `Apply` on its old snapshot |
| InstructionTypes.RunMemory | src/emulator/instruction-types.js:157-159 | the handlers that store to memory leave the state object equal to `Apply` on its old snapshot |
| InstructionTypes.RunIndex | src/emulator/instruction-types.js:161-191 | the index and transfer handlers leave the state object equal to `Apply` on its old snapshot |
| InstructionTypes.RunStack | src/emulator/instruction-types.js:230-244 | PHA, PHP, PLA and PLP leave the state object equal to `Apply` on its old snapshot |
| InstructionTypes.Execute | src/emulator/instruction-types.js:43-326 | running any handler in place matches `Apply`; BRK, JSR, RTI and RTS report a throw |
| HandlerProperties.PushThenPop | src/emulator/instruction-types.js:19-27 | a pop after a push returns the value modulo 256 and restores the stack pointer |
| HandlerProperties.PushAllPopMany | src/emulator/instruction-types.js:19-27 | n pops after n pushes return the values modulo 256 in reverse order and restore the stack pointer |
| HandlerProperties.PopManyKeepsMemory | src/emulator/instruction-types.js:24-27 | pops never change memory and move the stack pointer up by the number of pops |
| HandlerProperties.ClearFlag | src/emulator/instruction-types.js:129-143 | CLC, CLD, CLI and CLV clear exactly their flag, leave a byte even from `undefined`, and change nothing else |
| HandlerProperties.SetFlag | src/emulator/instruction-types.js:279-289 | SEC, SED and SEI set exactly their flag and change nothing else; a status byte stays a byte |
| HandlerProperties.CompareStatus | src/emulator/instruction-types.js:29-41 | compare leaves a byte: C when the difference is at least 0, Z when it is 0, N when it is negative, and bits 2 to 6 kept |
| HandlerProperties.CompareHandlers | src/emulator/instruction-types.js:145-155 | CMP, CPX and CPY set the flags from register minus memory and change nothing else |
| HandlerProperties.CompareBytes | src/emulator/instruction-types.js:145-155 | on a byte register, Z is set iff it equals the cell, C iff it is at least the cell, and N iff it is below |
| HandlerProperties.BranchesNeverTaken | src/emulator/instruction-types.js:60-121 | BCC, BNE, BPL and BVC change nothing, whatever the flags |
| HandlerProperties.BranchesOnCarry | src/emulator/instruction-types.js:66-127 | BCS, BEQ, BMI and BVS jump to the address iff the carry bit is set |
| HandlerProperties.BitHandler | src/emulator/instruction-types.js:78-84 | BIT changes only the status register: N and V cleared, Z set iff the value is 0 and A is odd, other bits kept |
| HandlerProperties.RotateRightCell | src/emulator/instruction-types.js:256-259 | ROR on a cell moves bit 0 to bit 7 |
| HandlerProperties.RotateLeftCell | src/emulator/instruction-types.js:246-249 | ROL on a cell moves bit 7 to bit 0; the store drops bit 8 |
| HandlerProperties.RotateMemoryRoundTrip | src/emulator/instruction-types.js:246-259 | on a cell, ROL undoes ROR and ROR undoes ROL |
| HandlerProperties.RolUndoesRor | src/emulator/instruction-types.js:246-259 | n left rotations of a byte undo n right rotations |
| HandlerProperties.RotateRightEightTimes | src/emulator/instruction-types.js:256-259 | eight right rotations give the byte back |
| HandlerProperties.RotateLeftEightTimes | src/emulator/instruction-types.js:246-249 | eight left rotations give the byte back |
| HandlerProperties.RotateCellSteps | src/emulator/instruction-types.js:246-259 | n RORs or ROLs on a cell rotate its byte n times and touch nothing else |
| HandlerProperties.RotateCellEightTimes | src/emulator/instruction-types.js:246-259 | eight RORs, or eight ROLs, on a cell restore the whole machine |
| HandlerProperties.RotateAccumulator | src/emulator/instruction-types.js:251-264 | ROR_A keeps a byte in A; ROL_A keeps bit 8, so ROR_A then ROL_A adds 256 to an odd A |
| HandlerProperties.Shifts | src/emulator/instruction-types.js:52-58 | ASL loads twice the cell into A, LSR halves the cell, and ASL_A/LSR_A double/halve a byte A without wrapping |
| HandlerProperties.IncDecCell | src/emulator/instruction-types.js:157-183 | INC and DEC change a cell by one modulo 256, and do nothing outside memory |
| HandlerProperties.IncDecRoundTrip | src/emulator/instruction-types.js:157-183 | DEC undoes INC and INC undoes DEC at any address |
| HandlerProperties.DecrementIndex | src/emulator/instruction-types.js:161-175 | DEX and DEY wrap 0 to 255, so a byte stays a byte |
| HandlerProperties.IncrementIndex | src/emulator/instruction-types.js:161-191 | INX and INY do not wrap (255 becomes 256), and DEX/DEY undo them except where DEX's wrap intervenes |
| HandlerProperties.StoreThenLoad | src/emulator/instruction-types.js:204-301 | a store writes the register modulo 256 to the cell and nothing else; the matching load reads that byte back |
| HandlerProperties.OutsideMemory | src/emulator/instruction-types.js:157-301 | a memory handler at an address outside memory changes nothing |
| HandlerProperties.LoadOutside | src/emulator/instruction-types.js:204-214 | a load from outside memory yields `undefined` |
| HandlerProperties.TransferRoundTrip | src/emulator/instruction-types.js:303-325 | TXA after TAX, TYA after TAY and TXS after TSX only copy the register |
| HandlerProperties.AddSubtract | src/emulator/instruction-types.js:44-46 | ADC adds the cell to A with no carry, flags or wrap (255 + 255 is 510); SBC at the same address takes it back off |
| HandlerProperties.ExclusiveOrTwice | src/emulator/instruction-types.js:177-179 | on a byte A, EOR twice with the same cell gives A back |
| HandlerProperties.ExclusiveOrByte | src/emulator/instruction-types.js:177-179 | EOR on a byte A leaves the bitwise exclusive or of A and the cell |
| HandlerProperties.AndOrBits | src/emulator/instruction-types.js:48-228 | on a byte A, AND and ORA leave a byte whose bit j is the and / or of bit j of A and of the cell |
| HandlerProperties.PushPullHandlers | src/emulator/instruction-types.js:230-244 | PLA after PHA gives back A modulo 256 and the stack pointer; PLP after PHP gives back a status byte |
| HandlerProperties.StatusInvariant | src/emulator/instruction-types.js:43-326 | whatever handler runs, a status register that is `undefined` or a byte stays `undefined` or a byte |
| Instructions.NoCompareEntry | src/emulator/instructions.js:24-254 | no opcode dispatches to CMP, CPX or CPY |
| Instructions.Listed | src/emulator/instructions.js:24-254 | every other handler is registered |
| Instructions.PairsSound | src/emulator/instructions.js:24-254 | every opcode a handler registers, with the mode it registers it with, is that handler's entry in the dispatch table |
| Instructions.EntryRegistered | src/emulator/instructions.js:24-254 | every entry of the dispatch table is registered by its handler with its mode |
| Instructions.RegisterAllAt | src/emulator/instructions.js:18-22 | registering pairs leaves every slot no pair names as it was, and puts the handler with one of its modes in every slot a pair names |
| Instructions.BuildAt | src/emulator/instructions.js:24-254 | after registering a list of handlers, a slot holds its dispatch-table entry exactly when one of them registers its opcode, and is empty otherwise |
| Instructions.TableBuilt | src/emulator/instructions.js:24-254 | the calls of `makeInstructions`, with their lists as written and in their order, build exactly the dispatch table |
| Instructions.RegisterInstruction | src/emulator/instructions.js:9-16 | the array afterwards is the old array with the slot set to the handler, wrapped when a mode is given |
| Instructions.RegisterInstructions | src/emulator/instructions.js:18-22 | the array afterwards has the pairs registered in order |
| Instructions.MakeInstructions | src/emulator/instructions.js:6-257 | a fresh 256-slot array whose every slot is the dispatch table's entry |
| Instructions.Invoke | src/emulator/instructions.js:10-15 | calling an entry on the state object matches `Perform` on its snapshot, and reports a throw |
| Instructions.KeepsProgramCounter | src/emulator/instruction-types.js:43-326 | a handler outside the jump and throwing groups returns and leaves the program counter alone |
| Instructions.Wrapped | src/emulator/instructions.js:10-15 | a wrapped entry runs its handler at the mode's address, then adds the mode's byte count to the program counter |
| Instructions.Advances | src/emulator/instructions.js:9-16 | an entry whose handler does not jump or throw moves the program counter by exactly its mode's operand bytes |
| Instructions.ThrowingEntry | src/emulator/instructions.js:9-16 | BRK, JSR, RTI and RTS throw before the wrapper adds anything |
| Instructions.JumpOvershoots | src/emulator/instructions.js:119-122 | 0x4C is JMP absolute, and it lands at the target word plus 2 |
| Instructions.BranchSkipped | src/emulator/instructions.js:55-76 | BCC, BNE, BPL and BVC in relative mode only step over their offset byte |
| Instructions.BranchOnCarry | src/emulator/instructions.js:55-76 | BCS, BEQ, BMI and BVS in relative mode go to pc + 1 + offset when carry is set, else pc + 1 |
| Cpu.FetchEntry | src/emulator/cpu.js:41-42 | only a byte value read at the program counter has a slot |
| Cpu.Converted | src/emulator/cpu.js:36-38 | each ROM value lands as ToUint8 of itself |
| Cpu.LoadCells | src/emulator/cpu.js:36-38 | `load` succeeds iff the ROM fits after 0x200; then the ROM lands cell by cell from 0x200 and every other cell is kept |
| Cpu.StopsAtStopOpcode | src/emulator/cpu.js:49-53 | whenever `run` returns normally, the byte at the program counter is the stop opcode |
| Cpu.MoreFuel | src/emulator/cpu.js:49-53 | a run that ended is not changed by more ticks |
| Cpu.RunStep | src/emulator/cpu.js:49-53 | off the stop opcode, a run is one tick followed by the rest of the run, or the tick's throw |
| Cpu.Cpu.constructor | src/emulator/cpu.js:27-30 | `makeCpu` holds the dispatch table in a fresh array and a fresh state equal to `Fresh()` |
| Cpu.Cpu.GetState | src/emulator/cpu.js:32-34 | `getState` returns the CPU's own state object |
| Cpu.Cpu.Load | src/emulator/cpu.js:36-38 | memory afterwards is `LoadSpec` of the old memory; on a RangeError memory is unchanged |
| Cpu.Cpu.Tick | src/emulator/cpu.js:40-47 | the state afterwards is `Step` of the old snapshot: fetch, increment pc, run the entry (or throw) |
| Cpu.Cpu.Run | src/emulator/cpu.js:49-53 | the result is `RunSpec` over the CPU's table from the old snapshot, and the state object holds the final machine |
| Cpu.BootedCell | src/emulator/cpu.js:36-38 | a fresh machine with a ROM loaded holds the ROM modulo 256 from 0x200 and zero elsewhere |
| Cpu.OneTick | src/emulator/cpu.js:40-53 | a first instruction that returns onto a zero byte makes `run` with stop opcode 0 stop after one tick |
| Cpu.AddImmediate | src/emulator/cpu.js:40-53 | `ADC #$23` from a fresh state stops with A = 0x23 and pc = 0x202 |
| Cpu.DecrementXFromZero | src/emulator/instruction-types.js:161-167 | `DEX` from a fresh state wraps X to 255 and moves pc to 0x201 |
| Cpu.IncrementZeroPage | src/emulator/instruction-types.js:181-183 | `INC $23` from a fresh state sets cell 0x23 to 1 and moves pc to 0x202 |
| Cpu.AddAbsolute | src/emulator/instructions.js:24-33 | `ADC $2345` from a fresh state leaves A at 0 and moves pc past both operand bytes to 0x203 |
| Assembler.DecodeInverts | src/assembler/assembler.js:4-200 | every table entry is found again from its opcode |
| Assembler.OpcodesDistinct | src/assembler/assembler.js:4-200 | no two mnemonic/variant entries share an opcode |
| Assembler.TakeWhile | src/assembler/assembler.js:298 | the longest prefix whose characters all satisfy the predicate |
| Assembler.DigitsValue | src/assembler/assembler.js:202-206 | n digits in a radix spell a number below radix^n |
| Assembler.ParseDigits | src/assembler/assembler.js:202-206 | `parseInt` of a run of digits is the number they spell |
| Assembler.ParseNegative | src/assembler/assembler.js:202-206 | `parseInt` of a minus sign and decimal digits is the negative number |
| Assembler.LittleEndian | src/assembler/assembler.js:227-233 | `parseWord` emits a 16-bit value as low byte then high byte, both bytes |
| Assembler.RelativeOffset | src/assembler/assembler.js:215-225 | an offset in -128..127 is emitted as its two's-complement byte, which the engine's relative mode reads back as the same offset |
| Assembler.LargeOffset | src/assembler/assembler.js:219-221 | a non-negative offset above 127 loses its high bits (128 comes out as 0) |
| Assembler.Extract | src/assembler/assembler.js:235-288 | an accepted operand yields as many numbers as its variant's operand size |
| Assembler.StripComment | src/assembler/assembler.js:294-296 | the line up to its first `;`, with no `;` left |
| Assembler.SplitLine | src/assembler/assembler.js:298-303 | no match iff the line has no word character; a match has a non-empty mnemonic |
| Assembler.CaseInsensitive | src/assembler/assembler.js:305 | looking a mnemonic up ignores its case |
| Assembler.FirstVariant | src/assembler/assembler.js:306-308 | the first variant that accepts the operand, none before it accepting; none iff no variant accepts |
| Assembler.AssembleLine | src/assembler/assembler.js:293-317 | a line gives the empty group iff no mnemonic is found |
| Assembler.Collect | src/assembler/assembler.js:293 | a successful map has one group per line |
| Assembler.CollectEach | src/assembler/assembler.js:293 | each position holds the group of that line |
| Assembler.FirstFailing | src/assembler/assembler.js:293-317 | a failing text fails with the error of its first failing line, every earlier line succeeding |
| Assembler.CollectAppend | src/assembler/assembler.js:293 | encoding two runs of lines gives the two results one after the other |
| Assembler.FlattenAppend | src/assembler/assembler.js:325 | concatenating groups distributes over appending |
| Assembler.DebugAgrees | src/assembler/assembler.js:328-335 | `assembleDebug` fails exactly when `assemble` does, with its error; otherwise its `lines` are the result of `assemble` and its `blob` the result of `assembleBlob` on the same text |
| Assembler.LinesJoin | src/assembler/assembler.js:291 | the lines hold no newline, and joining them with newlines gives the text back |
| Assembler.JoinLines | src/assembler/assembler.js:291 | splitting joined newline-free lines gives the same lines |
| Assembler.BlobOfJoin | src/assembler/assembler.js:322-326 | assembling two programs joined by a newline gives the two blobs one after the other |
| Assembler.CommentIgnored | src/assembler/assembler.js:294-296 | a line is assembled from the text before its first `;` |
| Assembler.LineEncoding | src/assembler/assembler.js:305-313 | a non-empty group starts with a table opcode of the looked-up mnemonic, for a variant that accepts the operand, followed by that variant's operand bytes |
| Assembler.FirstWins | src/assembler/assembler.js:306-308 | the emitted opcode belongs to the first accepting variant, never to a later one |
| Assembler.FailingLineFails | src/assembler/assembler.js:315 | one line that throws makes the whole text fail |
| Assembler.FieldValue | src/assembler/assembler.js:202-206 | a `$` field of 2 or 4 hex digits parses to the number they spell, below 0x100 or 0x10000 |
| Assembler.ByteAddress | src/assembler/assembler.js:252-263 | the zero-page and indexed-indirect forms emit one byte, the number written in the operand's hex digits |
| Assembler.WordAddress | src/assembler/assembler.js:264-279 | the absolute and indirect forms emit two bytes that, low byte first, spell the number written in the operand's hex digits |
| Assembler.SingleLineBlob | src/assembler/assembler.js:322-326 | a text with neither a newline nor a comment assembles to its one line's group |
| Assembler.AddressedLine | src/assembler/assembler.js:290-326 | `NAME OPERAND` assembles to the opcode of the first accepting variant, then that operand's bytes |
| Assembler.AdcAbsolute | src/assembler/assembler.js:5-14 | `ADC $hhhh` emits 0x6D and then the word low byte first |
| Assembler.AdcImmediate | src/assembler/assembler.js:244-247 | `ADC #$hh` emits 0x69 and then the byte |
| Assembler.AdcAbsoluteExample | test/spec/assembler.js:11 | `ADC $2345` assembles to 0x6D 0x45 0x23 |
| Assembler.AdcImmediateExample | test/spec/assembler.js:8 | `ADC #$23` assembles to 0x69 0x23 |
| Assembler.AslAccumulatorExample | test/spec/assembler.js:28 | `ASL A` assembles to 0x0A alone |
| OpcodeAgreement.Agreement | src/emulator/instructions.js:24-254 | outside the exceptions, each assembler opcode dispatches to the mnemonic's handler with the written mode |
| OpcodeAgreement.Disagreement | src/emulator/instructions.js:124-230 | on the exceptions, the dispatched entry differs from the written one, so Agreement holds exactly off the exceptions |
| OpcodeAgreement.CompareUnregistered | src/emulator/instructions.js:24-254 | the assembler's CMP, CPX and CPY opcodes have no engine entry |
| OpcodeAgreement.SwappedIndexes | src/emulator/instructions.js:124-230 | JSR has no mode; LDA/STA absolute,X and absolute,Y are swapped; LDX 0xB6/0xBE use Y |
| OpcodeAgreement.EngineAgrees | src/emulator/instructions.js:24-254 | every registered opcode outside the exceptions is one the assembler emits for that handler and mode |
| OpcodeAgreement.AssembleThenDispatch | src/assembler/assembler.js:305-313 | a line's opcode is a table opcode, and off the exceptions it dispatches to the line's mnemonic and mode |
| OpcodeAgreement.AssembleThenRun | test/spec/assembler.js:11 | `ADC $2345`, assembled and loaded, stops after one tick at pc 0x203 with nothing else changed |

## Left out

- `src/app/app.js`, `src/emulator/emulator.js` and the test harness are not part of this model. The test expectations appear only as the example lemmas.
- BRK, JSR and RTI call `push`/`pop` without the state, so they throw a TypeError; RTS has no `state` parameter at all, so it throws a ReferenceError (src/emulator/instruction-types.js:271-273). The model reports a throw (`Threw`) with the state as it was, and does not model the kind of error or its message.
- Cpu.Cpu.Run: `run` loops without bound. The model takes a fuel bound and reports `OutOfFuel` when it is used up, so it says nothing about a run that never ends.
- CpuState.State.Store: a store at the index `undefined` (for example STA zero page at program counter 0xFFFF, whose operand byte reads past the array) adds an ordinary property to the memory object in JavaScript, and a later read at `undefined` returns the stored value. The model folds `undefined` into NaN, so such a store writes nothing and such a read gives NaN.
- Cpu.Cpu.Load: the RangeError for a ROM that does not fit is a `Failure` result with a fixed message text.
- Cpu.Cpu.Run: the stop opcode is an integer compared with `===`. Stop values that are not integers are not modelled.
- Cpu.Cpu.GetState: the state object is returned by reference. Aliasing through callers that keep it is not modelled beyond `s == state`.
- Assembler.AssembleLine: the two ways a line throws are `Failure` values. A word that is not a mnemonic (a TypeError in the source) is `NoSuchMnemonic`; an operand no variant accepts is `NoVariant`, carrying the line without its comment. The message texts are not modelled.
- Assembler.Extract: it requires an accepted operand, because the source only calls `extract` after `test` has accepted the operand.
- Assembler.ParseInt: `parseInt` is modelled on unbounded integers. JavaScript numbers are doubles, which round integers above 2^53. The immediate and relative operand patterns accept any number of digits, so an operand whose value exceeds 2^53 is encoded differently: for `LDA #$20000000000001` the source's group holds 9007199254740992 (2^53) and the model's holds 9007199254740993. They differ as bytes (0 and 1) once `load` stores them through ToUint8.
- Assembler.ParseDigits: works on unbounded integers, so digit strings whose value exceeds 2^53 are not rounded as `parseInt` rounds them (see `Assembler.ParseInt`).
- Assembler.ParseNegative: works on unbounded integers, so a relative operand whose magnitude exceeds 2^53 is not rounded as `parseInt` rounds it (see `Assembler.ParseInt`).
- Assembler.Upper: `toUpperCase` is modelled on ASCII letters only. Mnemonics and operands are made of ASCII word characters.
- The status register starts as `undefined` (NaN). `statusRegister` and the `status` object are separate fields in the source; `status` is never read by the core and is only initialised.
- Floating point: values are integers or NaN. Fractional numbers cannot arise from the core's operations on integer inputs.
