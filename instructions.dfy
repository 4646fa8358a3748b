// The opcode table of instructions.js: for each registered byte, the
// handler it runs and the addressing mode (if any) resolved before it, and
// the wrapper closure that adds the mode's operand length to the program
// counter afterwards.

module Instructions {
  import opened Wrappers
  import opened JsNumber
  import opened CpuState
  import opened AddressModes
  import opened InstructionTypes
  import HandlerProperties

  /** `instructions[opcode]`: a handler, registered with or without a mode. */
  datatype Entry = Entry(handler: Handler, mode: Option<Mode>)

  /** The number of slots of the `instructions` array. */
  const SLOT_COUNT: nat := 256

  /** The 256 slots of the `instructions` array; `None` is a hole. */
  type Table = t: seq<Option<Entry>> | |t| == 256 witness Holes(256)

  /** n empty slots. */
  function Holes(n: nat): (t: seq<Option<Entry>>)
    ensures |t| == n && forall i :: 0 <= i < n ==> t[i] == None
  {
    if n == 0 then [] else Holes(n - 1) + [None]
  }

  /** The handlers in the order `makeInstructions` registers them. */
  const REGISTRATION_ORDER: seq<Handler> :=
    [ADC, AND, ASL, ASL_A, BCC, BCS, BEQ, BIT, BMI, BNE]
    + [BPL, BRK, BVC, BVS, CLC, CLD, CLI, CLV, DEC, DEX]
    + [DEY, EOR, INC, INX, INY, JMP, JSR, LDA, LDX, LDY]
    + [LSR, LSR_A, NOP, ORA, PHA, PHP, PLA, PLP, ROL, ROL_A]
    + [ROR, ROR_A, RTI, RTS, SBC, SEC, SED, SEI, STA, STX]
    + [STY, TAX, TAY, TSX, TXA, TXS, TYA]

  /** The table the registrations build: `instructions[opcode]`, or `None`
      where nothing was registered. It is written as a grid of rows (high
      nibble) and columns (low nibble); each row is a literal `match`, so an
      opcode registered twice would be a redundant case. */
  function Dispatch(opcode: int): Option<Entry> {
    if 0 <= opcode < 256 then DispatchCell(opcode / 16, opcode % 16) else None
  }

  function DispatchCell(high: int, low: int): Option<Entry> {
    match high
    case 0x0 =>
      (match low
      case 0x0 => Some(Entry(BRK, None))
      case 0x1 => Some(Entry(ORA, Some(IndexedIndirect)))
      case 0x5 => Some(Entry(ORA, Some(ZeroPage)))
      case 0x6 => Some(Entry(ASL, Some(ZeroPage)))
      case 0x8 => Some(Entry(PHP, None))
      case 0x9 => Some(Entry(ORA, Some(Immediate)))
      case 0xA => Some(Entry(ASL_A, None))
      case 0xD => Some(Entry(ORA, Some(Absolute)))
      case 0xE => Some(Entry(ASL, Some(Absolute)))
      case _ => None)
    case 0x1 =>
      (match low
      case 0x0 => Some(Entry(BPL, Some(Relative)))
      case 0x1 => Some(Entry(ORA, Some(IndirectIndexed)))
      case 0x5 => Some(Entry(ORA, Some(ZeroPageX)))
      case 0x6 => Some(Entry(ASL, Some(ZeroPageX)))
      case 0x8 => Some(Entry(CLC, None))
      case 0x9 => Some(Entry(ORA, Some(AbsoluteX)))
      case 0xD => Some(Entry(ORA, Some(AbsoluteY)))
      case 0xE => Some(Entry(ASL, Some(AbsoluteX)))
      case _ => None)
    case 0x2 =>
      (match low
      case 0x0 => Some(Entry(JSR, None))
      case 0x1 => Some(Entry(AND, Some(IndexedIndirect)))
      case 0x4 => Some(Entry(BIT, Some(ZeroPage)))
      case 0x5 => Some(Entry(AND, Some(ZeroPage)))
      case 0x6 => Some(Entry(ROL, Some(ZeroPage)))
      case 0x8 => Some(Entry(PLP, None))
      case 0x9 => Some(Entry(AND, Some(Immediate)))
      case 0xA => Some(Entry(ROL_A, None))
      case 0xC => Some(Entry(BIT, Some(Absolute)))
      case 0xD => Some(Entry(AND, Some(Absolute)))
      case 0xE => Some(Entry(ROL, Some(Absolute)))
      case _ => None)
    case 0x3 =>
      (match low
      case 0x0 => Some(Entry(BMI, Some(Relative)))
      case 0x1 => Some(Entry(AND, Some(IndirectIndexed)))
      case 0x5 => Some(Entry(AND, Some(ZeroPageX)))
      case 0x6 => Some(Entry(ROL, Some(ZeroPageX)))
      case 0x8 => Some(Entry(SEC, None))
      case 0x9 => Some(Entry(AND, Some(AbsoluteY)))
      case 0xD => Some(Entry(AND, Some(AbsoluteX)))
      case 0xE => Some(Entry(ROL, Some(AbsoluteX)))
      case _ => None)
    case 0x4 =>
      (match low
      case 0x0 => Some(Entry(RTI, None))
      case 0x1 => Some(Entry(EOR, Some(IndexedIndirect)))
      case 0x5 => Some(Entry(EOR, Some(ZeroPage)))
      case 0x6 => Some(Entry(LSR, Some(ZeroPage)))
      case 0x8 => Some(Entry(PHA, None))
      case 0x9 => Some(Entry(EOR, Some(Immediate)))
      case 0xA => Some(Entry(LSR_A, None))
      case 0xC => Some(Entry(JMP, Some(Absolute)))
      case 0xD => Some(Entry(EOR, Some(Absolute)))
      case 0xE => Some(Entry(LSR, Some(Absolute)))
      case _ => None)
    case 0x5 =>
      (match low
      case 0x0 => Some(Entry(BVC, Some(Relative)))
      case 0x1 => Some(Entry(EOR, Some(IndirectIndexed)))
      case 0x5 => Some(Entry(EOR, Some(ZeroPageX)))
      case 0x6 => Some(Entry(LSR, Some(ZeroPageX)))
      case 0x8 => Some(Entry(CLI, None))
      case 0x9 => Some(Entry(EOR, Some(AbsoluteX)))
      case 0xD => Some(Entry(EOR, Some(AbsoluteY)))
      case 0xE => Some(Entry(LSR, Some(AbsoluteX)))
      case _ => None)
    case 0x6 =>
      (match low
      case 0x0 => Some(Entry(RTS, None))
      case 0x1 => Some(Entry(ADC, Some(IndexedIndirect)))
      case 0x5 => Some(Entry(ADC, Some(ZeroPage)))
      case 0x6 => Some(Entry(ROR, Some(ZeroPage)))
      case 0x8 => Some(Entry(PLA, None))
      case 0x9 => Some(Entry(ADC, Some(Immediate)))
      case 0xA => Some(Entry(ROR_A, None))
      case 0xC => Some(Entry(JMP, Some(Indirect)))
      case 0xD => Some(Entry(ADC, Some(Absolute)))
      case 0xE => Some(Entry(ROR, Some(Absolute)))
      case _ => None)
    case 0x7 =>
      (match low
      case 0x0 => Some(Entry(BVS, Some(Relative)))
      case 0x1 => Some(Entry(ADC, Some(IndirectIndexed)))
      case 0x5 => Some(Entry(ADC, Some(ZeroPageX)))
      case 0x6 => Some(Entry(ROR, Some(ZeroPageX)))
      case 0x8 => Some(Entry(SEI, None))
      case 0x9 => Some(Entry(ADC, Some(AbsoluteY)))
      case 0xD => Some(Entry(ADC, Some(AbsoluteX)))
      case 0xE => Some(Entry(ROR, Some(AbsoluteX)))
      case _ => None)
    case 0x8 =>
      (match low
      case 0x1 => Some(Entry(STA, Some(IndexedIndirect)))
      case 0x4 => Some(Entry(STY, Some(ZeroPage)))
      case 0x5 => Some(Entry(STA, Some(ZeroPage)))
      case 0x6 => Some(Entry(STX, Some(ZeroPage)))
      case 0x8 => Some(Entry(DEY, None))
      case 0xA => Some(Entry(TXA, None))
      case 0xC => Some(Entry(STY, Some(Absolute)))
      case 0xD => Some(Entry(STA, Some(Absolute)))
      case 0xE => Some(Entry(STX, Some(Absolute)))
      case _ => None)
    case 0x9 =>
      (match low
      case 0x0 => Some(Entry(BCC, Some(Relative)))
      case 0x1 => Some(Entry(STA, Some(IndirectIndexed)))
      case 0x4 => Some(Entry(STY, Some(ZeroPageX)))
      case 0x5 => Some(Entry(STA, Some(ZeroPageX)))
      case 0x6 => Some(Entry(STX, Some(ZeroPageY)))
      case 0x8 => Some(Entry(TYA, None))
      case 0x9 => Some(Entry(STA, Some(AbsoluteX)))
      case 0xA => Some(Entry(TXS, None))
      case 0xD => Some(Entry(STA, Some(AbsoluteY)))
      case _ => None)
    case 0xA =>
      (match low
      case 0x0 => Some(Entry(LDY, Some(Immediate)))
      case 0x1 => Some(Entry(LDA, Some(IndexedIndirect)))
      case 0x2 => Some(Entry(LDX, Some(Immediate)))
      case 0x4 => Some(Entry(LDY, Some(ZeroPage)))
      case 0x5 => Some(Entry(LDA, Some(ZeroPage)))
      case 0x6 => Some(Entry(LDX, Some(ZeroPage)))
      case 0x8 => Some(Entry(TAY, None))
      case 0x9 => Some(Entry(LDA, Some(Immediate)))
      case 0xA => Some(Entry(TAX, None))
      case 0xC => Some(Entry(LDY, Some(Absolute)))
      case 0xD => Some(Entry(LDA, Some(Absolute)))
      case 0xE => Some(Entry(LDX, Some(Absolute)))
      case _ => None)
    case 0xB =>
      (match low
      case 0x0 => Some(Entry(BCS, Some(Relative)))
      case 0x1 => Some(Entry(LDA, Some(IndirectIndexed)))
      case 0x4 => Some(Entry(LDY, Some(ZeroPageX)))
      case 0x5 => Some(Entry(LDA, Some(ZeroPageX)))
      case 0x6 => Some(Entry(LDX, Some(ZeroPageY)))
      case 0x8 => Some(Entry(CLV, None))
      case 0x9 => Some(Entry(LDA, Some(AbsoluteX)))
      case 0xA => Some(Entry(TSX, None))
      case 0xC => Some(Entry(LDY, Some(AbsoluteX)))
      case 0xD => Some(Entry(LDA, Some(AbsoluteY)))
      case 0xE => Some(Entry(LDX, Some(AbsoluteY)))
      case _ => None)
    case 0xC =>
      (match low
      case 0x6 => Some(Entry(DEC, Some(ZeroPage)))
      case 0x8 => Some(Entry(INY, None))
      case 0xA => Some(Entry(DEX, None))
      case 0xE => Some(Entry(DEC, Some(Absolute)))
      case _ => None)
    case 0xD =>
      (match low
      case 0x0 => Some(Entry(BNE, Some(Relative)))
      case 0x6 => Some(Entry(DEC, Some(ZeroPageX)))
      case 0x8 => Some(Entry(CLD, None))
      case 0xE => Some(Entry(DEC, Some(AbsoluteX)))
      case _ => None)
    case 0xE =>
      (match low
      case 0x1 => Some(Entry(SBC, Some(IndexedIndirect)))
      case 0x5 => Some(Entry(SBC, Some(ZeroPage)))
      case 0x6 => Some(Entry(INC, Some(ZeroPage)))
      case 0x8 => Some(Entry(INX, None))
      case 0x9 => Some(Entry(SBC, Some(Immediate)))
      case 0xA => Some(Entry(NOP, None))
      case 0xD => Some(Entry(SBC, Some(Absolute)))
      case 0xE => Some(Entry(INC, Some(Absolute)))
      case _ => None)
    case 0xF =>
      (match low
      case 0x0 => Some(Entry(BEQ, Some(Relative)))
      case 0x1 => Some(Entry(SBC, Some(IndirectIndexed)))
      case 0x5 => Some(Entry(SBC, Some(ZeroPageX)))
      case 0x6 => Some(Entry(INC, Some(ZeroPageX)))
      case 0x8 => Some(Entry(SED, None))
      case 0x9 => Some(Entry(SBC, Some(AbsoluteX)))
      case 0xD => Some(Entry(SBC, Some(AbsoluteY)))
      case 0xE => Some(Entry(INC, Some(AbsoluteX)))
      case _ => None)
    case _ => None
  }

  /** CMP, CPX and CPY have handlers but no opcode. */
  lemma NoCompareEntry(opcode: int)
    requires Dispatch(opcode).Some?
    ensures Dispatch(opcode).value.handler !in {CMP, CPX, CPY}
  {
  }

  /** Every handler but the three compares is registered. */
  lemma Listed(h: Handler)
    requires h !in {CMP, CPX, CPY}
    ensures h in REGISTRATION_ORDER
  {
  }

  // ---- the registrations ----

  /** The table as the 256 slots of an array. */
  const TABLE: Table := Slots(SLOT_COUNT)

  /** The table's first n slots. */
  function Slots(n: nat): (t: seq<Option<Entry>>)
    ensures |t| == n && forall i :: 0 <= i < n ==> t[i] == Dispatch(i)
  {
    if n == 0 then [] else Slots(n - 1) + [Dispatch(n - 1)]
  }

  /** The `(opcode, mode)` pairs the `registerInstruction(s)` calls of
      `makeInstructions` give h, in the order of the call; a handler
      registered without a mode has the single pair `(opcode, None)`. */
  function Pairs(h: Handler): seq<(Byte, Option<Mode>)> {
    match h
    case ADC => ADC_PAIRS
    case AND => AND_PAIRS
    case ASL => ASL_PAIRS
    case ASL_A => ASL_A_PAIRS
    case BCC => BCC_PAIRS
    case BCS => BCS_PAIRS
    case BEQ => BEQ_PAIRS
    case BIT => BIT_PAIRS
    case BMI => BMI_PAIRS
    case BNE => BNE_PAIRS
    case BPL => BPL_PAIRS
    case BRK => BRK_PAIRS
    case BVC => BVC_PAIRS
    case BVS => BVS_PAIRS
    case CLC => CLC_PAIRS
    case CLD => CLD_PAIRS
    case CLI => CLI_PAIRS
    case CLV => CLV_PAIRS
    case DEC => DEC_PAIRS
    case DEX => DEX_PAIRS
    case DEY => DEY_PAIRS
    case EOR => EOR_PAIRS
    case INC => INC_PAIRS
    case INX => INX_PAIRS
    case INY => INY_PAIRS
    case JMP => JMP_PAIRS
    case JSR => JSR_PAIRS
    case LDA => LDA_PAIRS
    case LDX => LDX_PAIRS
    case LDY => LDY_PAIRS
    case LSR => LSR_PAIRS
    case LSR_A => LSR_A_PAIRS
    case NOP => NOP_PAIRS
    case ORA => ORA_PAIRS
    case PHA => PHA_PAIRS
    case PHP => PHP_PAIRS
    case PLA => PLA_PAIRS
    case PLP => PLP_PAIRS
    case ROL => ROL_PAIRS
    case ROL_A => ROL_A_PAIRS
    case ROR => ROR_PAIRS
    case ROR_A => ROR_A_PAIRS
    case RTI => RTI_PAIRS
    case RTS => RTS_PAIRS
    case SBC => SBC_PAIRS
    case SEC => SEC_PAIRS
    case SED => SED_PAIRS
    case SEI => SEI_PAIRS
    case STA => STA_PAIRS
    case STX => STX_PAIRS
    case STY => STY_PAIRS
    case TAX => TAX_PAIRS
    case TAY => TAY_PAIRS
    case TSX => TSX_PAIRS
    case TXA => TXA_PAIRS
    case TXS => TXS_PAIRS
    case TYA => TYA_PAIRS
    case CMP => []
    case CPX => []
    case CPY => []
  }

  // The lists of the calls, as `makeInstructions` writes them.

  const ADC_PAIRS: seq<(Byte, Option<Mode>)> :=
    [ (0x61, Some(IndexedIndirect)),
      (0x65, Some(ZeroPage)),
      (0x69, Some(Immediate)),
      (0x6D, Some(Absolute)),
      (0x71, Some(IndirectIndexed)),
      (0x75, Some(ZeroPageX)),
      (0x79, Some(AbsoluteY)),
      (0x7D, Some(AbsoluteX)) ]
  const AND_PAIRS: seq<(Byte, Option<Mode>)> :=
    [ (0x21, Some(IndexedIndirect)),
      (0x25, Some(ZeroPage)),
      (0x29, Some(Immediate)),
      (0x2D, Some(Absolute)),
      (0x31, Some(IndirectIndexed)),
      (0x35, Some(ZeroPageX)),
      (0x39, Some(AbsoluteY)),
      (0x3D, Some(AbsoluteX)) ]
  const ASL_PAIRS: seq<(Byte, Option<Mode>)> :=
    [ (0x06, Some(ZeroPage)),
      (0x0E, Some(Absolute)),
      (0x16, Some(ZeroPageX)),
      (0x1E, Some(AbsoluteX)) ]
  const ASL_A_PAIRS: seq<(Byte, Option<Mode>)> := [(0x0A, None)]
  const BCC_PAIRS: seq<(Byte, Option<Mode>)> := [(0x90, Some(Relative))]
  const BCS_PAIRS: seq<(Byte, Option<Mode>)> := [(0xB0, Some(Relative))]
  const BEQ_PAIRS: seq<(Byte, Option<Mode>)> := [(0xF0, Some(Relative))]
  const BIT_PAIRS: seq<(Byte, Option<Mode>)> := [(0x24, Some(ZeroPage)), (0x2C, Some(Absolute))]
  const BMI_PAIRS: seq<(Byte, Option<Mode>)> := [(0x30, Some(Relative))]
  const BNE_PAIRS: seq<(Byte, Option<Mode>)> := [(0xD0, Some(Relative))]
  const BPL_PAIRS: seq<(Byte, Option<Mode>)> := [(0x10, Some(Relative))]
  const BRK_PAIRS: seq<(Byte, Option<Mode>)> := [(0x00, None)]
  const BVC_PAIRS: seq<(Byte, Option<Mode>)> := [(0x50, Some(Relative))]
  const BVS_PAIRS: seq<(Byte, Option<Mode>)> := [(0x70, Some(Relative))]
  const CLC_PAIRS: seq<(Byte, Option<Mode>)> := [(0x18, None)]
  const CLD_PAIRS: seq<(Byte, Option<Mode>)> := [(0xD8, None)]
  const CLI_PAIRS: seq<(Byte, Option<Mode>)> := [(0x58, None)]
  const CLV_PAIRS: seq<(Byte, Option<Mode>)> := [(0xB8, None)]
  const DEC_PAIRS: seq<(Byte, Option<Mode>)> :=
    [ (0xC6, Some(ZeroPage)),
      (0xD6, Some(ZeroPageX)),
      (0xCE, Some(Absolute)),
      (0xDE, Some(AbsoluteX)) ]
  const DEX_PAIRS: seq<(Byte, Option<Mode>)> := [(0xCA, None)]
  const DEY_PAIRS: seq<(Byte, Option<Mode>)> := [(0x88, None)]
  const EOR_PAIRS: seq<(Byte, Option<Mode>)> :=
    [ (0x49, Some(Immediate)),
      (0x45, Some(ZeroPage)),
      (0x55, Some(ZeroPageX)),
      (0x4D, Some(Absolute)),
      (0x5D, Some(AbsoluteY)),
      (0x59, Some(AbsoluteX)),
      (0x41, Some(IndexedIndirect)),
      (0x51, Some(IndirectIndexed)) ]
  const INC_PAIRS: seq<(Byte, Option<Mode>)> :=
    [ (0xE6, Some(ZeroPage)),
      (0xF6, Some(ZeroPageX)),
      (0xEE, Some(Absolute)),
      (0xFE, Some(AbsoluteX)) ]
  const INX_PAIRS: seq<(Byte, Option<Mode>)> := [(0xE8, None)]
  const INY_PAIRS: seq<(Byte, Option<Mode>)> := [(0xC8, None)]
  const JMP_PAIRS: seq<(Byte, Option<Mode>)> := [(0x4C, Some(Absolute)), (0x6C, Some(Indirect))]
  const JSR_PAIRS: seq<(Byte, Option<Mode>)> := [(0x20, None)]
  const LDA_PAIRS: seq<(Byte, Option<Mode>)> :=
    [ (0xA9, Some(Immediate)),
      (0xA5, Some(ZeroPage)),
      (0xB5, Some(ZeroPageX)),
      (0xAD, Some(Absolute)),
      (0xBD, Some(AbsoluteY)),
      (0xB9, Some(AbsoluteX)),
      (0xA1, Some(IndexedIndirect)),
      (0xB1, Some(IndirectIndexed)) ]
  const LDX_PAIRS: seq<(Byte, Option<Mode>)> :=
    [ (0xA2, Some(Immediate)),
      (0xA6, Some(ZeroPage)),
      (0xB6, Some(ZeroPageY)),
      (0xAE, Some(Absolute)),
      (0xBE, Some(AbsoluteY)) ]
  const LDY_PAIRS: seq<(Byte, Option<Mode>)> :=
    [ (0xA0, Some(Immediate)),
      (0xA4, Some(ZeroPage)),
      (0xB4, Some(ZeroPageX)),
      (0xAC, Some(Absolute)),
      (0xBC, Some(AbsoluteX)) ]
  const LSR_PAIRS: seq<(Byte, Option<Mode>)> :=
    [ (0x46, Some(ZeroPage)),
      (0x56, Some(ZeroPageX)),
      (0x4E, Some(Absolute)),
      (0x5E, Some(AbsoluteX)) ]
  const LSR_A_PAIRS: seq<(Byte, Option<Mode>)> := [(0x4A, None)]
  const NOP_PAIRS: seq<(Byte, Option<Mode>)> := [(0xEA, None)]
  const ORA_PAIRS: seq<(Byte, Option<Mode>)> :=
    [ (0x09, Some(Immediate)),
      (0x05, Some(ZeroPage)),
      (0x15, Some(ZeroPageX)),
      (0x0D, Some(Absolute)),
      (0x1D, Some(AbsoluteY)),
      (0x19, Some(AbsoluteX)),
      (0x01, Some(IndexedIndirect)),
      (0x11, Some(IndirectIndexed)) ]
  const PHA_PAIRS: seq<(Byte, Option<Mode>)> := [(0x48, None)]
  const PHP_PAIRS: seq<(Byte, Option<Mode>)> := [(0x08, None)]
  const PLA_PAIRS: seq<(Byte, Option<Mode>)> := [(0x68, None)]
  const PLP_PAIRS: seq<(Byte, Option<Mode>)> := [(0x28, None)]
  const ROL_PAIRS: seq<(Byte, Option<Mode>)> :=
    [ (0x26, Some(ZeroPage)),
      (0x36, Some(ZeroPageX)),
      (0x2E, Some(Absolute)),
      (0x3E, Some(AbsoluteX)) ]
  const ROL_A_PAIRS: seq<(Byte, Option<Mode>)> := [(0x2A, None)]
  const ROR_PAIRS: seq<(Byte, Option<Mode>)> :=
    [ (0x66, Some(ZeroPage)),
      (0x76, Some(ZeroPageX)),
      (0x6E, Some(Absolute)),
      (0x7E, Some(AbsoluteX)) ]
  const ROR_A_PAIRS: seq<(Byte, Option<Mode>)> := [(0x6A, None)]
  const RTI_PAIRS: seq<(Byte, Option<Mode>)> := [(0x40, None)]
  const RTS_PAIRS: seq<(Byte, Option<Mode>)> := [(0x60, None)]
  const SBC_PAIRS: seq<(Byte, Option<Mode>)> :=
    [ (0xE9, Some(Immediate)),
      (0xE5, Some(ZeroPage)),
      (0xF5, Some(ZeroPageX)),
      (0xED, Some(Absolute)),
      (0xFD, Some(AbsoluteY)),
      (0xF9, Some(AbsoluteX)),
      (0xE1, Some(IndexedIndirect)),
      (0xF1, Some(IndirectIndexed)) ]
  const SEC_PAIRS: seq<(Byte, Option<Mode>)> := [(0x38, None)]
  const SED_PAIRS: seq<(Byte, Option<Mode>)> := [(0xF8, None)]
  const SEI_PAIRS: seq<(Byte, Option<Mode>)> := [(0x78, None)]
  const STA_PAIRS: seq<(Byte, Option<Mode>)> :=
    [ (0x85, Some(ZeroPage)),
      (0x95, Some(ZeroPageX)),
      (0x8D, Some(Absolute)),
      (0x9D, Some(AbsoluteY)),
      (0x99, Some(AbsoluteX)),
      (0x81, Some(IndexedIndirect)),
      (0x91, Some(IndirectIndexed)) ]
  const STX_PAIRS: seq<(Byte, Option<Mode>)> :=
    [ (0x86, Some(ZeroPage)),
      (0x96, Some(ZeroPageY)),
      (0x8E, Some(Absolute)) ]
  const STY_PAIRS: seq<(Byte, Option<Mode>)> :=
    [ (0x84, Some(ZeroPage)),
      (0x94, Some(ZeroPageX)),
      (0x8C, Some(Absolute)) ]
  const TAX_PAIRS: seq<(Byte, Option<Mode>)> := [(0xAA, None)]
  const TAY_PAIRS: seq<(Byte, Option<Mode>)> := [(0xA8, None)]
  const TSX_PAIRS: seq<(Byte, Option<Mode>)> := [(0xBA, None)]
  const TXA_PAIRS: seq<(Byte, Option<Mode>)> := [(0x8A, None)]
  const TXS_PAIRS: seq<(Byte, Option<Mode>)> := [(0x9A, None)]
  const TYA_PAIRS: seq<(Byte, Option<Mode>)> := [(0x98, None)]

  /** Every pair of `pairs` from index i on is h's entry in the table. */
  predicate Sound(h: Handler, pairs: seq<(Byte, Option<Mode>)>, i: nat := 0)
    decreases |pairs| - i
  {
    i >= |pairs| || (Dispatch(pairs[i].0) == Some(Entry(h, pairs[i].1)) && Sound(h, pairs, i + 1))
  }

  lemma {:induction false} SoundMember(h: Handler, pairs: seq<(Byte, Option<Mode>)>, i: nat, k: nat)
    requires Sound(h, pairs, i) && i <= k < |pairs|
    ensures Dispatch(pairs[k].0) == Some(Entry(h, pairs[k].1))
    decreases k - i
  {
    if i < k {
      SoundMember(h, pairs, i + 1, k);
    }
  }

  /** What a handler registers is its entry in the table. */
  lemma PairsSound(h: Handler)
    ensures Sound(h, Pairs(h))
  {
    if h == ADC {
      AdcSound(h);
    } else if h == AND {
      AndSound(h);
    } else if h in {ASL, ASL_A, BCC, BCS, BEQ} {
      AslToBeqSound(h);
    } else if h in {BIT, BMI, BNE, BPL, BRK, BVC, BVS} {
      BitToBvsSound(h);
    } else if h in {CLC, CLD, CLI, CLV, DEC} {
      ClcToDecSound(h);
    } else if h in {DEX, DEY} {
      DexToDeySound(h);
    } else if h == EOR {
      EorSound(h);
    } else if h in {INC, INX, INY, JMP} {
      IncToJmpSound(h);
    } else if h == JSR {
      JsrSound(h);
    } else if h == LDA {
      LdaSound(h);
    } else if h == LDX {
      LdxSound(h);
    } else if h == LDY {
      LdySound(h);
    } else if h in {LSR, LSR_A, NOP} {
      LsrToNopSound(h);
    } else if h == ORA {
      OraSound(h);
    } else if h in {PHA, PHP, PLA, PLP, ROL} {
      PhaToRolSound(h);
    } else if h in {ROL_A, ROR, ROR_A, RTI, RTS} {
      RolAToRtsSound(h);
    } else if h == SBC {
      SbcSound(h);
    } else if h in {SEC, SED, SEI} {
      SecToSeiSound(h);
    } else if h == STA {
      StaSound(h);
    } else if h in {STX, STY, TAX, TAY} {
      StxToTaySound(h);
    } else if h in {TSX, TXA, TXS, TYA} {
      TsxToTyaSound(h);
    }
  }

  // Soundness is proved for a few handlers at a time, so that each proof
  // looks up at most eight cells of the table.

  lemma AdcSound(h: Handler)
    requires h == ADC
    ensures Sound(h, Pairs(h))
  {
  }

  lemma AndSound(h: Handler)
    requires h == AND
    ensures Sound(h, Pairs(h))
  {
  }

  lemma AslToBeqSound(h: Handler)
    requires h in {ASL, ASL_A, BCC, BCS, BEQ}
    ensures Sound(h, Pairs(h))
  {
  }

  lemma BitToBvsSound(h: Handler)
    requires h in {BIT, BMI, BNE, BPL, BRK, BVC, BVS}
    ensures Sound(h, Pairs(h))
  {
  }

  lemma ClcToDecSound(h: Handler)
    requires h in {CLC, CLD, CLI, CLV, DEC}
    ensures Sound(h, Pairs(h))
  {
  }

  lemma DexToDeySound(h: Handler)
    requires h in {DEX, DEY}
    ensures Sound(h, Pairs(h))
  {
  }

  lemma EorSound(h: Handler)
    requires h == EOR
    ensures Sound(h, Pairs(h))
  {
  }

  lemma IncToJmpSound(h: Handler)
    requires h in {INC, INX, INY, JMP}
    ensures Sound(h, Pairs(h))
  {
  }

  lemma JsrSound(h: Handler)
    requires h == JSR
    ensures Sound(h, Pairs(h))
  {
  }

  lemma LdaSound(h: Handler)
    requires h == LDA
    ensures Sound(h, Pairs(h))
  {
  }

  lemma LdxSound(h: Handler)
    requires h == LDX
    ensures Sound(h, Pairs(h))
  {
  }

  lemma LdySound(h: Handler)
    requires h == LDY
    ensures Sound(h, Pairs(h))
  {
  }

  lemma LsrToNopSound(h: Handler)
    requires h in {LSR, LSR_A, NOP}
    ensures Sound(h, Pairs(h))
  {
  }

  lemma OraSound(h: Handler)
    requires h == ORA
    ensures Sound(h, Pairs(h))
  {
  }

  lemma PhaToRolSound(h: Handler)
    requires h in {PHA, PHP, PLA, PLP, ROL}
    ensures Sound(h, Pairs(h))
  {
  }

  lemma RolAToRtsSound(h: Handler)
    requires h in {ROL_A, ROR, ROR_A, RTI, RTS}
    ensures Sound(h, Pairs(h))
  {
  }

  lemma SbcSound(h: Handler)
    requires h == SBC
    ensures Sound(h, Pairs(h))
  {
  }

  lemma SecToSeiSound(h: Handler)
    requires h in {SEC, SED, SEI}
    ensures Sound(h, Pairs(h))
  {
  }

  lemma StaSound(h: Handler)
    requires h == STA
    ensures Sound(h, Pairs(h))
  {
  }

  lemma StxToTaySound(h: Handler)
    requires h in {STX, STY, TAX, TAY}
    ensures Sound(h, Pairs(h))
  {
  }

  lemma TsxToTyaSound(h: Handler)
    requires h in {TSX, TXA, TXS, TYA}
    ensures Sound(h, Pairs(h))
  {
  }

  /** An opcode registered with h and a mode is h's entry in the table,
      with that mode. */
  lemma RegisteredEntry(h: Handler, pair: (Byte, Option<Mode>))
    requires pair in Pairs(h)
    ensures Dispatch(pair.0) == Some(Entry(h, pair.1))
  {
    PairsSound(h);
    var k :| 0 <= k < |Pairs(h)| && Pairs(h)[k] == pair;
    SoundMember(h, Pairs(h), 0, k);
  }

  /** Whether the table's entry at opcode, if any, is registered by its
      handler with its mode. */
  predicate RegisteredAt(opcode: int) {
    Dispatch(opcode).Some? ==>
      (opcode, Dispatch(opcode).value.mode) in Pairs(Dispatch(opcode).value.handler)
  }

  /** Every entry of the table is registered by its handler. */
  lemma EntryRegistered(opcode: Byte)
    ensures RegisteredAt(opcode)
  {
    if opcode < 0x08 {
      Row0LeftRegistered(opcode);
    } else if opcode < 0x10 {
      Row0RightRegistered(opcode);
    } else if opcode < 0x18 {
      Row1LeftRegistered(opcode);
    } else if opcode < 0x20 {
      Row1RightRegistered(opcode);
    } else if opcode < 0x28 {
      Row2LeftRegistered(opcode);
    } else if opcode < 0x30 {
      Row2RightRegistered(opcode);
    } else if opcode < 0x38 {
      Row3LeftRegistered(opcode);
    } else if opcode < 0x40 {
      Row3RightRegistered(opcode);
    } else if opcode < 0x48 {
      Row4LeftRegistered(opcode);
    } else if opcode < 0x50 {
      Row4RightRegistered(opcode);
    } else if opcode < 0x58 {
      Row5LeftRegistered(opcode);
    } else if opcode < 0x60 {
      Row5RightRegistered(opcode);
    } else if opcode < 0x68 {
      Row6LeftRegistered(opcode);
    } else if opcode < 0x70 {
      Row6RightRegistered(opcode);
    } else if opcode < 0x78 {
      Row7LeftRegistered(opcode);
    } else if opcode < 0x80 {
      Row7RightRegistered(opcode);
    } else if opcode < 0x88 {
      Row8LeftRegistered(opcode);
    } else if opcode < 0x90 {
      Row8RightRegistered(opcode);
    } else if opcode < 0x98 {
      Row9LeftRegistered(opcode);
    } else if opcode < 0xA0 {
      Row9RightRegistered(opcode);
    } else if opcode < 0xA8 {
      RowALeftRegistered(opcode);
    } else if opcode < 0xB0 {
      RowARightRegistered(opcode);
    } else if opcode < 0xB8 {
      RowBLeftRegistered(opcode);
    } else if opcode < 0xC0 {
      RowBRightRegistered(opcode);
    } else if opcode < 0xC8 {
      RowCLeftRegistered(opcode);
    } else if opcode < 0xD0 {
      RowCRightRegistered(opcode);
    } else if opcode < 0xD8 {
      RowDLeftRegistered(opcode);
    } else if opcode < 0xE0 {
      RowDRightRegistered(opcode);
    } else if opcode < 0xE8 {
      RowELeftRegistered(opcode);
    } else if opcode < 0xF0 {
      RowERightRegistered(opcode);
    } else if opcode < 0xF8 {
      RowFLeftRegistered(opcode);
    } else {
      RowFRightRegistered(opcode);
    }
  }

  // Completeness is proved half a row of the grid at a time, so that each
  // proof looks up eight cells and the lists of their handlers only.

  lemma Row0LeftRegistered(opcode: int)
    requires 0x00 <= opcode < 0x08
    ensures RegisteredAt(opcode)
  {
  }

  lemma Row0RightRegistered(opcode: int)
    requires 0x08 <= opcode < 0x10
    ensures RegisteredAt(opcode)
  {
  }

  lemma Row1LeftRegistered(opcode: int)
    requires 0x10 <= opcode < 0x18
    ensures RegisteredAt(opcode)
  {
  }

  lemma Row1RightRegistered(opcode: int)
    requires 0x18 <= opcode < 0x20
    ensures RegisteredAt(opcode)
  {
  }

  lemma Row2LeftRegistered(opcode: int)
    requires 0x20 <= opcode < 0x28
    ensures RegisteredAt(opcode)
  {
  }

  lemma Row2RightRegistered(opcode: int)
    requires 0x28 <= opcode < 0x30
    ensures RegisteredAt(opcode)
  {
  }

  lemma Row3LeftRegistered(opcode: int)
    requires 0x30 <= opcode < 0x38
    ensures RegisteredAt(opcode)
  {
  }

  lemma Row3RightRegistered(opcode: int)
    requires 0x38 <= opcode < 0x40
    ensures RegisteredAt(opcode)
  {
  }

  lemma Row4LeftRegistered(opcode: int)
    requires 0x40 <= opcode < 0x48
    ensures RegisteredAt(opcode)
  {
  }

  lemma Row4RightRegistered(opcode: int)
    requires 0x48 <= opcode < 0x50
    ensures RegisteredAt(opcode)
  {
  }

  lemma Row5LeftRegistered(opcode: int)
    requires 0x50 <= opcode < 0x58
    ensures RegisteredAt(opcode)
  {
  }

  lemma Row5RightRegistered(opcode: int)
    requires 0x58 <= opcode < 0x60
    ensures RegisteredAt(opcode)
  {
  }

  lemma Row6LeftRegistered(opcode: int)
    requires 0x60 <= opcode < 0x68
    ensures RegisteredAt(opcode)
  {
  }

  lemma Row6RightRegistered(opcode: int)
    requires 0x68 <= opcode < 0x70
    ensures RegisteredAt(opcode)
  {
  }

  lemma Row7LeftRegistered(opcode: int)
    requires 0x70 <= opcode < 0x78
    ensures RegisteredAt(opcode)
  {
  }

  lemma Row7RightRegistered(opcode: int)
    requires 0x78 <= opcode < 0x80
    ensures RegisteredAt(opcode)
  {
  }

  lemma Row8LeftRegistered(opcode: int)
    requires 0x80 <= opcode < 0x88
    ensures RegisteredAt(opcode)
  {
  }

  lemma Row8RightRegistered(opcode: int)
    requires 0x88 <= opcode < 0x90
    ensures RegisteredAt(opcode)
  {
  }

  lemma Row9LeftRegistered(opcode: int)
    requires 0x90 <= opcode < 0x98
    ensures RegisteredAt(opcode)
  {
  }

  lemma Row9RightRegistered(opcode: int)
    requires 0x98 <= opcode < 0xA0
    ensures RegisteredAt(opcode)
  {
  }

  lemma RowALeftRegistered(opcode: int)
    requires 0xA0 <= opcode < 0xA8
    ensures RegisteredAt(opcode)
  {
  }

  lemma RowARightRegistered(opcode: int)
    requires 0xA8 <= opcode < 0xB0
    ensures RegisteredAt(opcode)
  {
  }

  lemma RowBLeftRegistered(opcode: int)
    requires 0xB0 <= opcode < 0xB8
    ensures RegisteredAt(opcode)
  {
  }

  lemma RowBRightRegistered(opcode: int)
    requires 0xB8 <= opcode < 0xC0
    ensures RegisteredAt(opcode)
  {
  }

  lemma RowCLeftRegistered(opcode: int)
    requires 0xC0 <= opcode < 0xC8
    ensures RegisteredAt(opcode)
  {
  }

  lemma RowCRightRegistered(opcode: int)
    requires 0xC8 <= opcode < 0xD0
    ensures RegisteredAt(opcode)
  {
  }

  lemma RowDLeftRegistered(opcode: int)
    requires 0xD0 <= opcode < 0xD8
    ensures RegisteredAt(opcode)
  {
  }

  lemma RowDRightRegistered(opcode: int)
    requires 0xD8 <= opcode < 0xE0
    ensures RegisteredAt(opcode)
  {
  }

  lemma RowELeftRegistered(opcode: int)
    requires 0xE0 <= opcode < 0xE8
    ensures RegisteredAt(opcode)
  {
  }

  lemma RowERightRegistered(opcode: int)
    requires 0xE8 <= opcode < 0xF0
    ensures RegisteredAt(opcode)
  {
  }

  lemma RowFLeftRegistered(opcode: int)
    requires 0xF0 <= opcode < 0xF8
    ensures RegisteredAt(opcode)
  {
  }

  lemma RowFRightRegistered(opcode: int)
    requires 0xF8 <= opcode < 0x100
    ensures RegisteredAt(opcode)
  {
  }

  /** Whether some pair of `pairs` names the opcode. */
  predicate Mentions(pairs: seq<(Byte, Option<Mode>)>, opcode: int) {
    exists k :: 0 <= k < |pairs| && pairs[k].0 == opcode
  }

  /** `registerInstruction(h, opcode, mode)`: the slot now holds h, wrapped
      when a mode is given. */
  function Register(t: Table, h: Handler, pair: (Byte, Option<Mode>)): Table {
    t[pair.0 := Some(Entry(h, pair.1))]
  }

  /** `registerInstructions(h, pairs)`: the pairs registered in order. */
  function RegisterAll(t: Table, h: Handler, pairs: seq<(Byte, Option<Mode>)>): Table
    decreases |pairs|
  {
    if pairs == [] then t
    else Register(RegisterAll(t, h, pairs[..|pairs| - 1]), h, pairs[|pairs| - 1])
  }

  /** A slot no pair names keeps its entry; a slot some pair names holds h
      with the mode of one of those pairs. */
  lemma RegisterAllAt(t: Table, h: Handler, pairs: seq<(Byte, Option<Mode>)>, opcode: Byte)
    ensures !Mentions(pairs, opcode) ==> RegisterAll(t, h, pairs)[opcode] == t[opcode]
    ensures Mentions(pairs, opcode) ==>
      var e := RegisterAll(t, h, pairs)[opcode];
      e.Some? && e.value.handler == h && (opcode, e.value.mode) in pairs
  {
    if Mentions(pairs, opcode) {
      RegisterAllSets(t, h, pairs, opcode);
    } else {
      RegisterAllKeeps(t, h, pairs, opcode);
    }
  }

  lemma {:induction false} RegisterAllKeeps(t: Table, h: Handler, pairs: seq<(Byte, Option<Mode>)>, opcode: Byte)
    requires !Mentions(pairs, opcode)
    ensures RegisterAll(t, h, pairs)[opcode] == t[opcode]
  {
    if pairs != [] {
      var init := pairs[..|pairs| - 1];
      assert forall k :: 0 <= k < |init| ==> init[k] == pairs[k];
      RegisterAllKeeps(t, h, init, opcode);
      assert pairs[|pairs| - 1].0 != opcode;
    }
  }

  lemma {:induction false} RegisterAllSets(t: Table, h: Handler, pairs: seq<(Byte, Option<Mode>)>, opcode: Byte)
    requires Mentions(pairs, opcode)
    ensures
      var e := RegisterAll(t, h, pairs)[opcode];
      e.Some? && e.value.handler == h && (opcode, e.value.mode) in pairs
  {
    var init, last := pairs[..|pairs| - 1], pairs[|pairs| - 1];
    if last.0 == opcode {
      assert pairs[|pairs| - 1] == last;
    } else {
      var k :| 0 <= k < |pairs| && pairs[k].0 == opcode;
      assert init[k] == pairs[k];
      RegisterAllSets(t, h, init, opcode);
      var e := RegisterAll(t, h, init)[opcode];
      assert e.value.mode == RegisterAll(t, h, pairs)[opcode].value.mode;
      var j :| 0 <= j < |init| && init[j] == (opcode, e.value.mode);
      assert pairs[j] == init[j];
    }
  }

  /** The table before any registration: a hole at every opcode. */
  const EMPTY: Table := Holes(SLOT_COUNT)

  /** Registering, in turn, the pairs of each handler of `hs`. */
  function Build(hs: seq<Handler>): Table
    decreases |hs|
  {
    if hs == [] then EMPTY
    else
      var h := hs[|hs| - 1];
      RegisterAll(Build(hs[..|hs| - 1]), h, Pairs(h))
  }

  lemma BuildStep(hs: seq<Handler>, i: nat)
    requires i < |hs|
    ensures Build(hs[..i + 1]) == RegisterAll(Build(hs[..i]), hs[i], Pairs(hs[i]))
  {
    assert hs[..i + 1][..i] == hs[..i];
  }

  /** Whether a handler of `hs` registers the opcode. */
  predicate MentionedIn(hs: seq<Handler>, opcode: int)
    decreases |hs|
  {
    hs != [] && (MentionedIn(hs[..|hs| - 1], opcode) || Mentions(Pairs(hs[|hs| - 1]), opcode))
  }

  /** A handler of `hs` that registers the opcode makes it mentioned. */
  lemma {:induction false} MentionedBy(hs: seq<Handler>, h: Handler, opcode: int)
    requires h in hs && Mentions(Pairs(h), opcode)
    ensures MentionedIn(hs, opcode)
    decreases |hs|
  {
    if hs[|hs| - 1] != h {
      var j :| 0 <= j < |hs| && hs[j] == h;
      assert hs[..|hs| - 1][j] == h;
      MentionedBy(hs[..|hs| - 1], h, opcode);
    }
  }

  /** A mentioned opcode has an entry in the table. */
  lemma {:induction false} MentionedEntry(hs: seq<Handler>, opcode: int)
    requires MentionedIn(hs, opcode)
    ensures Dispatch(opcode).Some?
    decreases |hs|
  {
    var h := hs[|hs| - 1];
    if Mentions(Pairs(h), opcode) {
      var k :| 0 <= k < |Pairs(h)| && Pairs(h)[k].0 == opcode;
      RegisteredEntry(h, Pairs(h)[k]);
    } else {
      MentionedEntry(hs[..|hs| - 1], opcode);
    }
  }

  /** Registering the handlers of `hs` fills exactly the slots they name,
      each with its entry of the table. */
  lemma {:induction false} BuildAt(hs: seq<Handler>, opcode: Byte)
    ensures Build(hs)[opcode] == if MentionedIn(hs, opcode) then Dispatch(opcode) else None
    decreases |hs|
  {
    if hs != [] {
      var init, h := hs[..|hs| - 1], hs[|hs| - 1];
      BuildAt(init, opcode);
      RegisterAllAt(Build(init), h, Pairs(h), opcode);
      if Mentions(Pairs(h), opcode) {
        RegisteredEntry(h, (opcode, Build(hs)[opcode].value.mode));
      }
    }
  }

  /** The registrations of `makeInstructions` build the table: a slot holds
      an entry exactly when some registration names it, and then the entry
      of the table. */
  lemma TableBuilt(opcode: Byte)
    ensures Build(REGISTRATION_ORDER)[opcode] == Dispatch(opcode)
  {
    BuildAt(REGISTRATION_ORDER, opcode);
    if Dispatch(opcode).Some? {
      var e := Dispatch(opcode).value;
      NoCompareEntry(opcode);
      Listed(e.handler);
      EntryRegistered(opcode);
      var k :| 0 <= k < |Pairs(e.handler)| && Pairs(e.handler)[k] == (opcode, e.mode);
      MentionedBy(REGISTRATION_ORDER, e.handler, opcode);
    } else if MentionedIn(REGISTRATION_ORDER, opcode) {
      MentionedEntry(REGISTRATION_ORDER, opcode);
    }
  }

  lemma TableComplete()
    ensures forall opcode :: 0 <= opcode < 256 ==> Build(REGISTRATION_ORDER)[opcode] == Dispatch(opcode)
  {
    forall opcode | 0 <= opcode < 256
      ensures Build(REGISTRATION_ORDER)[opcode] == Dispatch(opcode)
    {
      TableBuilt(opcode);
    }
  }

  /** Registering every handler in turn gives back the whole table. */
  lemma Built()
    ensures Build(REGISTRATION_ORDER) == TABLE
  {
    TableComplete();
  }

  // ---- building the array ----

  /** `registerInstruction` on the array. */
  method RegisterInstruction(instructions: array<Option<Entry>>, h: Handler,
                             opcode: Byte, mode: Option<Mode>)
    requires instructions.Length == 256
    modifies instructions
    ensures instructions[..] == Register(old(instructions[..]), h, (opcode, mode))
  {
    instructions[opcode] := Some(Entry(h, mode));
  }

  /** `registerInstructions`: each pair, in order. */
  method RegisterInstructions(instructions: array<Option<Entry>>, h: Handler,
                              pairs: seq<(Byte, Option<Mode>)>)
    requires instructions.Length == 256
    modifies instructions
    ensures instructions[..] == RegisterAll(old(instructions[..]), h, pairs)
  {
    var i := 0;
    while i < |pairs|
      invariant 0 <= i <= |pairs|
      invariant instructions[..] == RegisterAll(old(instructions[..]), h, pairs[..i])
    {
      assert pairs[..i + 1][..i] == pairs[..i];
      RegisterInstruction(instructions, h, pairs[i].0, pairs[i].1);
      i := i + 1;
    }
    assert pairs[..i] == pairs;
  }

  /** `makeInstructions`: every handler's pairs, in the order of the calls. */
  method MakeInstructions() returns (instructions: array<Option<Entry>>)
    ensures fresh(instructions) && instructions.Length == 256
    ensures instructions[..] == TABLE
    ensures forall opcode :: 0 <= opcode < 256 ==> instructions[opcode] == Dispatch(opcode)
  {
    instructions := new Option<Entry>[256](_ => None);
    assert instructions[..] == Build([]);
    var i := 0;
    while i < |REGISTRATION_ORDER|
      invariant 0 <= i <= |REGISTRATION_ORDER| && instructions.Length == 256
      invariant instructions[..] == Build(REGISTRATION_ORDER[..i])
    {
      var h := REGISTRATION_ORDER[i];
      BuildStep(REGISTRATION_ORDER, i);
      RegisterInstructions(instructions, h, Pairs(h));
      i := i + 1;
    }
    assert REGISTRATION_ORDER[..i] == REGISTRATION_ORDER;
    Built();
  }

  // ---- calling an entry ----

  /** `instructions[opcode](state)`: a bare handler runs with an undefined
      address; the wrapper of a mode resolves the address, runs the handler
      and then adds the mode's operand length to the program counter, which
      it does not reach when the handler throws. */
  function Perform(e: Entry, m: Machine): Outcome {
    match e.mode
    case None => Apply(e.handler, m, NaN)
    case Some(mode) =>
      match Apply(e.handler, m, GetAddress(mode, m))
      case Ran(after) => Ran(after.(programCounter := Add(after.programCounter, Int(Bytes(mode)))))
      case Threw(after) => Threw(after)
  }

  /** Calling an entry on the state object. */
  method Invoke(s: State, e: Entry) returns (threw: bool)
    requires s.Valid()
    modifies s, s.memory
    ensures Perform(e, old(s.Snapshot())) == if threw then Threw(s.Snapshot()) else Ran(s.Snapshot())
  {
    match e.mode {
      case None =>
        threw := Execute(s, e.handler, NaN);
      case Some(mode) =>
        var address := GetAddress(mode, s.Snapshot());
        threw := Execute(s, e.handler, address);
        if !threw {
          s.programCounter := Add(s.programCounter, Int(Bytes(mode)));
        }
    }
  }

  // ---- what the wrapper does to the program counter ----

  /** A handler outside the jump group leaves the program counter alone. */
  lemma KeepsProgramCounter(h: Handler, m: Machine, address: Num)
    requires GroupOf(h) !in {Throwing, Jump}
    ensures Apply(h, m, address) == Ran(Apply(h, m, address).m)
         && Apply(h, m, address).m.programCounter == m.programCounter
  {
    var value := Read(m.memory, address);
    match GroupOf(h) {
      case Accumulator =>
        HandlerProperties.AccumulatorStep(h, m, address, AccumulatorValue(h, m.A, value));
      case Status =>
        HandlerProperties.StatusStep(h, m, address, StatusValue(h, m, value));
      case MemoryCell =>
        HandlerProperties.MemoryStep(h, m, address, StoredValue(h, m, value));
      case Index =>
        IndexKeepsProgramCounter(h, m, value);
        HandlerProperties.IndexStep(h, m, address, IndexResult(h, m, value));
      case Stack =>
        StackKeepsProgramCounter(h, m);
        HandlerProperties.StackStep(h, m, address, StackResult(h, m));
      case NoOperation =>
    }
  }

  lemma IndexKeepsProgramCounter(h: Handler, m: Machine, value: Num)
    requires GroupOf(h) == Index
    ensures IndexResult(h, m, value).programCounter == m.programCounter
  {
  }

  lemma StackKeepsProgramCounter(h: Handler, m: Machine)
    requires GroupOf(h) == Stack
    ensures StackResult(h, m).programCounter == m.programCounter
  {
  }

  /** The wrapper around a handler that returns. */
  lemma Wrapped(e: Entry, m: Machine, after: Machine)
    requires e.mode.Some? && Apply(e.handler, m, GetAddress(e.mode.value, m)) == Ran(after)
    ensures Perform(e, m)
         == Ran(after.(programCounter := Add(after.programCounter, Int(Bytes(e.mode.value)))))
  {
  }

  /** Every entry whose handler neither jumps nor throws moves the program
      counter past its operand: by the mode's length, or not at all for a
      bare handler. */
  lemma Advances(e: Entry, m: Machine)
    requires GroupOf(e.handler) !in {Throwing, Jump}
    ensures Perform(e, m).Ran?
    ensures Perform(e, m).m.programCounter
         == if e.mode.Some? then Add(m.programCounter, Int(Bytes(e.mode.value))) else m.programCounter
  {
    match e.mode
    case None =>
      KeepsProgramCounter(e.handler, m, NaN);
    case Some(mode) =>
      var address := GetAddress(mode, m);
      KeepsProgramCounter(e.handler, m, address);
      Wrapped(e, m, Apply(e.handler, m, address).m);
  }

  /** BRK, JSR, RTI and RTS throw before the wrapper adds anything. */
  lemma ThrowingEntry(e: Entry, m: Machine)
    requires GroupOf(e.handler) == Throwing
    ensures Perform(e, m) == Threw(m)
  {
  }

  /** JMP through its absolute entry lands two bytes past the word it
      reads, because the wrapper adds the mode's length after the handler
      has set the program counter. */
  lemma JumpOvershoots(m: Machine)
    ensures Dispatch(0x4C) == Some(Entry(JMP, Some(Absolute)))
    ensures Perform(Entry(JMP, Some(Absolute)), m)
         == Ran(m.(programCounter := Int(Word(m.memory, m.programCounter) + 2)))
  {
    var target := GetAddress(Absolute, m);
    assert target == Int(Word(m.memory, m.programCounter));
    HandlerProperties.JumpStep(JMP, m, target, target);
  }

  /** BCC, BNE, BPL and BVC only step over their offset byte. */
  lemma BranchSkipped(e: Entry, m: Machine)
    requires e.handler in {BCC, BNE, BPL, BVC} && e.mode == Some(Relative)
    ensures Perform(e, m) == Ran(m.(programCounter := Add(m.programCounter, Int(1))))
  {
    HandlerProperties.BranchesNeverTaken(e.handler, m, GetAddress(Relative, m));
  }

  /** BCS, BEQ, BMI and BVS jump, when the carry bit is set, to the byte
      after the offset plus the signed offset; otherwise they step over
      the offset byte. */
  lemma BranchOnCarry(e: Entry, m: Machine)
    requires e.handler in {BCS, BEQ, BMI, BVS} && e.mode == Some(Relative)
    requires InRange(m.programCounter)
    ensures var pc := m.programCounter;
      Perform(e, m) == Ran(m.(programCounter :=
        if Flag(m.statusRegister, CARRY) == 1
        then Int(pc.i + 1 + SignedByte(m.memory[pc.i]))
        else Int(pc.i + 1)))
  {
    if Flag(m.statusRegister, CARRY) == 1 {
      BranchTaken(e, m);
    } else {
      BranchNotTaken(e, m);
    }
  }

  lemma BranchTaken(e: Entry, m: Machine)
    requires e.handler in {BCS, BEQ, BMI, BVS} && e.mode == Some(Relative)
    requires InRange(m.programCounter) && Flag(m.statusRegister, CARRY) == 1
    ensures var pc := m.programCounter;
      Perform(e, m) == Ran(m.(programCounter := Int(pc.i + 1 + SignedByte(m.memory[pc.i]))))
  {
    var pc, target := m.programCounter, GetAddress(Relative, m);
    var offset := SignedByte(m.memory[pc.i]);
    BranchTarget(m);
    CarrySetJumps(e.handler, m, target);
    JumpWrapped(e, m, target);
  }

  lemma CarrySetJumps(h: Handler, m: Machine, address: Num)
    requires h in {BCS, BEQ, BMI, BVS} && Flag(m.statusRegister, CARRY) == 1
    ensures Apply(h, m, address) == Ran(m.(programCounter := address))
  {
    HandlerProperties.BranchesOnCarry(h, m, address);
  }

  /** A relative entry whose handler only moves the program counter to
      `target` ends one byte past it. */
  lemma JumpWrapped(e: Entry, m: Machine, target: Num)
    requires e.mode == Some(Relative) && target.Int?
    requires Apply(e.handler, m, GetAddress(Relative, m)) == Ran(m.(programCounter := target))
    ensures Perform(e, m) == Ran(m.(programCounter := Int(target.i + 1)))
  {
    var after := m.(programCounter := target);
    Wrapped(e, m, after);
    assert Bytes(e.mode.value) == 1;
    assert after.(programCounter := Add(target, Int(1))) == m.(programCounter := Int(target.i + 1));
  }

  /** The relative resolver's target is the program counter plus the
      signed offset. */
  lemma BranchTarget(m: Machine)
    requires InRange(m.programCounter)
    ensures GetAddress(Relative, m) == Int(m.programCounter.i + SignedByte(m.memory[m.programCounter.i]))
  {
    RelativeAddress(m);
  }

  lemma BranchNotTaken(e: Entry, m: Machine)
    requires e.handler in {BCS, BEQ, BMI, BVS} && e.mode == Some(Relative)
    requires InRange(m.programCounter) && Flag(m.statusRegister, CARRY) != 1
    ensures Perform(e, m) == Ran(m.(programCounter := Int(m.programCounter.i + 1)))
  {
    HandlerProperties.BranchesOnCarry(e.handler, m, GetAddress(Relative, m));
    Wrapped(e, m, m);
    assert Bytes(e.mode.value) == 1;
  }
}
