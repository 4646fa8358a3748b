// The assembler: program text in, one group of numbers per line out. Each
// line loses its comment, is split into a mnemonic and an operand, and is
// encoded with the first variant of that mnemonic whose operand syntax
// accepts the operand.

module Assembler {
  import opened Wrappers
  import opened JsNumber
  import opened AddressModes

  // ---- the instruction table ----

  datatype Mnemonic =
    | ADC | AND | ASL | BCC | BCS | BEQ | BIT | BMI | BNE | BPL | BRK | BVC
    | BVS | CLC | CLD | CLI | CLV | CMP | CPX | CPY | DEC | DEX | DEY | EOR
    | INC | INX | INY | JMP | JSR | LDA | LDX | LDY | LSR | NOP | ORA | PHA
    | PHP | PLA | PLP | ROL | ROR | RTI | RTS | SBC | SEC | SED | SEI | STA
    | STX | STY | TAX | TAY | TSX | TXA | TXS | TYA

  /** An operand syntax: the accumulator `A`, no operand at all, or one of
      the engine's addressing modes. */
  datatype Variant = Accumulator | Implied | Addressed(mode: Mode)

  /** The variants of each mnemonic with their opcodes, in the order the
      table declares them (which is the order the matchers are tried in). */
  function Variants(mn: Mnemonic): seq<(Variant, Byte)> {
    match mn
    case ADC =>
      [ (Addressed(Immediate), 0x69), (Addressed(ZeroPage), 0x65), (Addressed(ZeroPageX), 0x75)
      , (Addressed(Absolute), 0x6D), (Addressed(AbsoluteX), 0x7D), (Addressed(AbsoluteY), 0x79)
      , (Addressed(IndexedIndirect), 0x61), (Addressed(IndirectIndexed), 0x71) ]
    case AND =>
      [ (Addressed(Immediate), 0x29), (Addressed(ZeroPage), 0x25), (Addressed(ZeroPageX), 0x35)
      , (Addressed(Absolute), 0x2D), (Addressed(AbsoluteX), 0x3D), (Addressed(AbsoluteY), 0x39)
      , (Addressed(IndexedIndirect), 0x21), (Addressed(IndirectIndexed), 0x31) ]
    case ASL =>
      [ (Accumulator, 0x0A), (Addressed(ZeroPage), 0x06), (Addressed(ZeroPageX), 0x16)
      , (Addressed(Absolute), 0x0E), (Addressed(AbsoluteX), 0x1E) ]
    case BCC => [(Addressed(Relative), 0x90)]
    case BCS => [(Addressed(Relative), 0xB0)]
    case BEQ => [(Addressed(Relative), 0xF0)]
    case BIT => [(Addressed(ZeroPage), 0x24), (Addressed(Absolute), 0x2C)]
    case BMI => [(Addressed(Relative), 0x30)]
    case BNE => [(Addressed(Relative), 0xD0)]
    case BPL => [(Addressed(Relative), 0x10)]
    case BRK => [(Implied, 0x00)]
    case BVC => [(Addressed(Relative), 0x50)]
    case BVS => [(Addressed(Relative), 0x70)]
    case CLC => [(Implied, 0x18)]
    case CLD => [(Implied, 0xD8)]
    case CLI => [(Implied, 0x58)]
    case CLV => [(Implied, 0xB8)]
    case CMP =>
      [ (Addressed(Immediate), 0xC9), (Addressed(ZeroPage), 0xC5), (Addressed(ZeroPageX), 0xD5)
      , (Addressed(Absolute), 0xCD), (Addressed(AbsoluteY), 0xDD), (Addressed(AbsoluteX), 0xD9)
      , (Addressed(IndexedIndirect), 0xC1), (Addressed(IndirectIndexed), 0xD1) ]
    case CPX => [(Addressed(Immediate), 0xE0), (Addressed(ZeroPage), 0xE4), (Addressed(Absolute), 0xEC)]
    case CPY => [(Addressed(Immediate), 0xC0), (Addressed(ZeroPage), 0xC4), (Addressed(Absolute), 0xCC)]
    case DEC =>
      [ (Addressed(ZeroPage), 0xC6), (Addressed(ZeroPageX), 0xD6), (Addressed(Absolute), 0xCE)
      , (Addressed(AbsoluteX), 0xDE) ]
    case DEX => [(Implied, 0xCA)]
    case DEY => [(Implied, 0x88)]
    case EOR =>
      [ (Addressed(Immediate), 0x49), (Addressed(ZeroPage), 0x45), (Addressed(ZeroPageX), 0x55)
      , (Addressed(Absolute), 0x4D), (Addressed(AbsoluteY), 0x5D), (Addressed(AbsoluteX), 0x59)
      , (Addressed(IndexedIndirect), 0x41), (Addressed(IndirectIndexed), 0x51) ]
    case INC =>
      [ (Addressed(ZeroPage), 0xE6), (Addressed(ZeroPageX), 0xF6), (Addressed(Absolute), 0xEE)
      , (Addressed(AbsoluteX), 0xFE) ]
    case INX => [(Implied, 0xE8)]
    case INY => [(Implied, 0xC8)]
    case JMP => [(Addressed(Absolute), 0x4C), (Addressed(Indirect), 0x6C)]
    case JSR => [(Addressed(Absolute), 0x20)]
    case LDA =>
      [ (Addressed(Immediate), 0xA9), (Addressed(ZeroPage), 0xA5), (Addressed(ZeroPageX), 0xB5)
      , (Addressed(Absolute), 0xAD), (Addressed(AbsoluteX), 0xBD), (Addressed(AbsoluteY), 0xB9)
      , (Addressed(IndexedIndirect), 0xA1), (Addressed(IndirectIndexed), 0xB1) ]
    case LDX =>
      [ (Addressed(Immediate), 0xA2), (Addressed(ZeroPage), 0xA6), (Addressed(ZeroPageX), 0xB6)
      , (Addressed(Absolute), 0xAE), (Addressed(AbsoluteX), 0xBE) ]
    case LDY =>
      [ (Addressed(Immediate), 0xA0), (Addressed(ZeroPage), 0xA4), (Addressed(ZeroPageX), 0xB4)
      , (Addressed(Absolute), 0xAC), (Addressed(AbsoluteX), 0xBC) ]
    case LSR =>
      [ (Accumulator, 0x4A), (Addressed(ZeroPage), 0x46), (Addressed(ZeroPageX), 0x56)
      , (Addressed(Absolute), 0x4E), (Addressed(AbsoluteX), 0x5E) ]
    case NOP => [(Implied, 0xEA)]
    case ORA =>
      [ (Addressed(Immediate), 0x09), (Addressed(ZeroPage), 0x05), (Addressed(ZeroPageX), 0x15)
      , (Addressed(Absolute), 0x0D), (Addressed(AbsoluteY), 0x1D), (Addressed(AbsoluteX), 0x19)
      , (Addressed(IndexedIndirect), 0x01), (Addressed(IndirectIndexed), 0x11) ]
    case PHA => [(Implied, 0x48)]
    case PHP => [(Implied, 0x08)]
    case PLA => [(Implied, 0x68)]
    case PLP => [(Implied, 0x28)]
    case ROL =>
      [ (Accumulator, 0x2A), (Addressed(ZeroPage), 0x26), (Addressed(ZeroPageX), 0x36)
      , (Addressed(Absolute), 0x2E), (Addressed(AbsoluteX), 0x3E) ]
    case ROR =>
      [ (Accumulator, 0x6A), (Addressed(ZeroPage), 0x66), (Addressed(ZeroPageX), 0x76)
      , (Addressed(Absolute), 0x6E), (Addressed(AbsoluteX), 0x7E) ]
    case RTI => [(Implied, 0x40)]
    case RTS => [(Implied, 0x60)]
    case SBC =>
      [ (Addressed(Immediate), 0xE9), (Addressed(ZeroPage), 0xE5), (Addressed(ZeroPageX), 0xF5)
      , (Addressed(Absolute), 0xED), (Addressed(AbsoluteY), 0xFD), (Addressed(AbsoluteX), 0xF9)
      , (Addressed(IndexedIndirect), 0xE1), (Addressed(IndirectIndexed), 0xF1) ]
    case SEC => [(Implied, 0x38)]
    case SED => [(Implied, 0xF8)]
    case SEI => [(Implied, 0x78)]
    case STA =>
      [ (Addressed(ZeroPage), 0x85), (Addressed(ZeroPageX), 0x95), (Addressed(Absolute), 0x8D)
      , (Addressed(AbsoluteX), 0x9D), (Addressed(AbsoluteY), 0x99), (Addressed(IndexedIndirect), 0x81)
      , (Addressed(IndirectIndexed), 0x91) ]
    case STX => [(Addressed(ZeroPage), 0x86), (Addressed(ZeroPageY), 0x96), (Addressed(Absolute), 0x8E)]
    case STY => [(Addressed(ZeroPage), 0x84), (Addressed(ZeroPageX), 0x94), (Addressed(Absolute), 0x8C)]
    case TAX => [(Implied, 0xAA)]
    case TAY => [(Implied, 0xA8)]
    case TSX => [(Implied, 0xBA)]
    case TXA => [(Implied, 0x8A)]
    case TXS => [(Implied, 0x9A)]
    case TYA => [(Implied, 0x98)]
  }

  /** Looking a name up in the table: only the 56 upper-case names are
      entries (the names an object inherits all hold lower-case letters,
      so no upper-cased word reaches them). */
  function MnemonicOf(name: string): Option<Mnemonic> {
    match name
    case "ADC" => Some(ADC)
    case "AND" => Some(AND)
    case "ASL" => Some(ASL)
    case "BCC" => Some(BCC)
    case "BCS" => Some(BCS)
    case "BEQ" => Some(BEQ)
    case "BIT" => Some(BIT)
    case "BMI" => Some(BMI)
    case "BNE" => Some(BNE)
    case "BPL" => Some(BPL)
    case "BRK" => Some(BRK)
    case "BVC" => Some(BVC)
    case "BVS" => Some(BVS)
    case "CLC" => Some(CLC)
    case "CLD" => Some(CLD)
    case "CLI" => Some(CLI)
    case "CLV" => Some(CLV)
    case "CMP" => Some(CMP)
    case "CPX" => Some(CPX)
    case "CPY" => Some(CPY)
    case "DEC" => Some(DEC)
    case "DEX" => Some(DEX)
    case "DEY" => Some(DEY)
    case "EOR" => Some(EOR)
    case "INC" => Some(INC)
    case "INX" => Some(INX)
    case "INY" => Some(INY)
    case "JMP" => Some(JMP)
    case "JSR" => Some(JSR)
    case "LDA" => Some(LDA)
    case "LDX" => Some(LDX)
    case "LDY" => Some(LDY)
    case "LSR" => Some(LSR)
    case "NOP" => Some(NOP)
    case "ORA" => Some(ORA)
    case "PHA" => Some(PHA)
    case "PHP" => Some(PHP)
    case "PLA" => Some(PLA)
    case "PLP" => Some(PLP)
    case "ROL" => Some(ROL)
    case "ROR" => Some(ROR)
    case "RTI" => Some(RTI)
    case "RTS" => Some(RTS)
    case "SBC" => Some(SBC)
    case "SEC" => Some(SEC)
    case "SED" => Some(SED)
    case "SEI" => Some(SEI)
    case "STA" => Some(STA)
    case "STX" => Some(STX)
    case "STY" => Some(STY)
    case "TAX" => Some(TAX)
    case "TAY" => Some(TAY)
    case "TSX" => Some(TSX)
    case "TXA" => Some(TXA)
    case "TXS" => Some(TXS)
    case "TYA" => Some(TYA)
    case _ => None
  }

  /** The table read backwards, from opcode to entry, as a grid of rows
      (high nibble) and columns (low nibble); each row is a literal `match`,
      so an opcode listed twice would be a redundant case. */
  function Decode(opcode: int): Option<(Mnemonic, Variant)> {
    if 0 <= opcode < 256 then DecodeCell(opcode / 16, opcode % 16) else None
  }

  function DecodeCell(high: int, low: int): Option<(Mnemonic, Variant)> {
    match high
    case 0x0 =>
      (match low
      case 0x0 => Some((BRK, Implied))
      case 0x1 => Some((ORA, Addressed(IndexedIndirect)))
      case 0x5 => Some((ORA, Addressed(ZeroPage)))
      case 0x6 => Some((ASL, Addressed(ZeroPage)))
      case 0x8 => Some((PHP, Implied))
      case 0x9 => Some((ORA, Addressed(Immediate)))
      case 0xA => Some((ASL, Accumulator))
      case 0xD => Some((ORA, Addressed(Absolute)))
      case 0xE => Some((ASL, Addressed(Absolute)))
      case _ => None)
    case 0x1 =>
      (match low
      case 0x0 => Some((BPL, Addressed(Relative)))
      case 0x1 => Some((ORA, Addressed(IndirectIndexed)))
      case 0x5 => Some((ORA, Addressed(ZeroPageX)))
      case 0x6 => Some((ASL, Addressed(ZeroPageX)))
      case 0x8 => Some((CLC, Implied))
      case 0x9 => Some((ORA, Addressed(AbsoluteX)))
      case 0xD => Some((ORA, Addressed(AbsoluteY)))
      case 0xE => Some((ASL, Addressed(AbsoluteX)))
      case _ => None)
    case 0x2 =>
      (match low
      case 0x0 => Some((JSR, Addressed(Absolute)))
      case 0x1 => Some((AND, Addressed(IndexedIndirect)))
      case 0x4 => Some((BIT, Addressed(ZeroPage)))
      case 0x5 => Some((AND, Addressed(ZeroPage)))
      case 0x6 => Some((ROL, Addressed(ZeroPage)))
      case 0x8 => Some((PLP, Implied))
      case 0x9 => Some((AND, Addressed(Immediate)))
      case 0xA => Some((ROL, Accumulator))
      case 0xC => Some((BIT, Addressed(Absolute)))
      case 0xD => Some((AND, Addressed(Absolute)))
      case 0xE => Some((ROL, Addressed(Absolute)))
      case _ => None)
    case 0x3 =>
      (match low
      case 0x0 => Some((BMI, Addressed(Relative)))
      case 0x1 => Some((AND, Addressed(IndirectIndexed)))
      case 0x5 => Some((AND, Addressed(ZeroPageX)))
      case 0x6 => Some((ROL, Addressed(ZeroPageX)))
      case 0x8 => Some((SEC, Implied))
      case 0x9 => Some((AND, Addressed(AbsoluteY)))
      case 0xD => Some((AND, Addressed(AbsoluteX)))
      case 0xE => Some((ROL, Addressed(AbsoluteX)))
      case _ => None)
    case 0x4 =>
      (match low
      case 0x0 => Some((RTI, Implied))
      case 0x1 => Some((EOR, Addressed(IndexedIndirect)))
      case 0x5 => Some((EOR, Addressed(ZeroPage)))
      case 0x6 => Some((LSR, Addressed(ZeroPage)))
      case 0x8 => Some((PHA, Implied))
      case 0x9 => Some((EOR, Addressed(Immediate)))
      case 0xA => Some((LSR, Accumulator))
      case 0xC => Some((JMP, Addressed(Absolute)))
      case 0xD => Some((EOR, Addressed(Absolute)))
      case 0xE => Some((LSR, Addressed(Absolute)))
      case _ => None)
    case 0x5 =>
      (match low
      case 0x0 => Some((BVC, Addressed(Relative)))
      case 0x1 => Some((EOR, Addressed(IndirectIndexed)))
      case 0x5 => Some((EOR, Addressed(ZeroPageX)))
      case 0x6 => Some((LSR, Addressed(ZeroPageX)))
      case 0x8 => Some((CLI, Implied))
      case 0x9 => Some((EOR, Addressed(AbsoluteX)))
      case 0xD => Some((EOR, Addressed(AbsoluteY)))
      case 0xE => Some((LSR, Addressed(AbsoluteX)))
      case _ => None)
    case 0x6 =>
      (match low
      case 0x0 => Some((RTS, Implied))
      case 0x1 => Some((ADC, Addressed(IndexedIndirect)))
      case 0x5 => Some((ADC, Addressed(ZeroPage)))
      case 0x6 => Some((ROR, Addressed(ZeroPage)))
      case 0x8 => Some((PLA, Implied))
      case 0x9 => Some((ADC, Addressed(Immediate)))
      case 0xA => Some((ROR, Accumulator))
      case 0xC => Some((JMP, Addressed(Indirect)))
      case 0xD => Some((ADC, Addressed(Absolute)))
      case 0xE => Some((ROR, Addressed(Absolute)))
      case _ => None)
    case 0x7 =>
      (match low
      case 0x0 => Some((BVS, Addressed(Relative)))
      case 0x1 => Some((ADC, Addressed(IndirectIndexed)))
      case 0x5 => Some((ADC, Addressed(ZeroPageX)))
      case 0x6 => Some((ROR, Addressed(ZeroPageX)))
      case 0x8 => Some((SEI, Implied))
      case 0x9 => Some((ADC, Addressed(AbsoluteY)))
      case 0xD => Some((ADC, Addressed(AbsoluteX)))
      case 0xE => Some((ROR, Addressed(AbsoluteX)))
      case _ => None)
    case 0x8 =>
      (match low
      case 0x1 => Some((STA, Addressed(IndexedIndirect)))
      case 0x4 => Some((STY, Addressed(ZeroPage)))
      case 0x5 => Some((STA, Addressed(ZeroPage)))
      case 0x6 => Some((STX, Addressed(ZeroPage)))
      case 0x8 => Some((DEY, Implied))
      case 0xA => Some((TXA, Implied))
      case 0xC => Some((STY, Addressed(Absolute)))
      case 0xD => Some((STA, Addressed(Absolute)))
      case 0xE => Some((STX, Addressed(Absolute)))
      case _ => None)
    case 0x9 =>
      (match low
      case 0x0 => Some((BCC, Addressed(Relative)))
      case 0x1 => Some((STA, Addressed(IndirectIndexed)))
      case 0x4 => Some((STY, Addressed(ZeroPageX)))
      case 0x5 => Some((STA, Addressed(ZeroPageX)))
      case 0x6 => Some((STX, Addressed(ZeroPageY)))
      case 0x8 => Some((TYA, Implied))
      case 0x9 => Some((STA, Addressed(AbsoluteY)))
      case 0xA => Some((TXS, Implied))
      case 0xD => Some((STA, Addressed(AbsoluteX)))
      case _ => None)
    case 0xA =>
      (match low
      case 0x0 => Some((LDY, Addressed(Immediate)))
      case 0x1 => Some((LDA, Addressed(IndexedIndirect)))
      case 0x2 => Some((LDX, Addressed(Immediate)))
      case 0x4 => Some((LDY, Addressed(ZeroPage)))
      case 0x5 => Some((LDA, Addressed(ZeroPage)))
      case 0x6 => Some((LDX, Addressed(ZeroPage)))
      case 0x8 => Some((TAY, Implied))
      case 0x9 => Some((LDA, Addressed(Immediate)))
      case 0xA => Some((TAX, Implied))
      case 0xC => Some((LDY, Addressed(Absolute)))
      case 0xD => Some((LDA, Addressed(Absolute)))
      case 0xE => Some((LDX, Addressed(Absolute)))
      case _ => None)
    case 0xB =>
      (match low
      case 0x0 => Some((BCS, Addressed(Relative)))
      case 0x1 => Some((LDA, Addressed(IndirectIndexed)))
      case 0x4 => Some((LDY, Addressed(ZeroPageX)))
      case 0x5 => Some((LDA, Addressed(ZeroPageX)))
      case 0x6 => Some((LDX, Addressed(ZeroPageX)))
      case 0x8 => Some((CLV, Implied))
      case 0x9 => Some((LDA, Addressed(AbsoluteY)))
      case 0xA => Some((TSX, Implied))
      case 0xC => Some((LDY, Addressed(AbsoluteX)))
      case 0xD => Some((LDA, Addressed(AbsoluteX)))
      case 0xE => Some((LDX, Addressed(AbsoluteX)))
      case _ => None)
    case 0xC =>
      (match low
      case 0x0 => Some((CPY, Addressed(Immediate)))
      case 0x1 => Some((CMP, Addressed(IndexedIndirect)))
      case 0x4 => Some((CPY, Addressed(ZeroPage)))
      case 0x5 => Some((CMP, Addressed(ZeroPage)))
      case 0x6 => Some((DEC, Addressed(ZeroPage)))
      case 0x8 => Some((INY, Implied))
      case 0x9 => Some((CMP, Addressed(Immediate)))
      case 0xA => Some((DEX, Implied))
      case 0xC => Some((CPY, Addressed(Absolute)))
      case 0xD => Some((CMP, Addressed(Absolute)))
      case 0xE => Some((DEC, Addressed(Absolute)))
      case _ => None)
    case 0xD =>
      (match low
      case 0x0 => Some((BNE, Addressed(Relative)))
      case 0x1 => Some((CMP, Addressed(IndirectIndexed)))
      case 0x5 => Some((CMP, Addressed(ZeroPageX)))
      case 0x6 => Some((DEC, Addressed(ZeroPageX)))
      case 0x8 => Some((CLD, Implied))
      case 0x9 => Some((CMP, Addressed(AbsoluteX)))
      case 0xD => Some((CMP, Addressed(AbsoluteY)))
      case 0xE => Some((DEC, Addressed(AbsoluteX)))
      case _ => None)
    case 0xE =>
      (match low
      case 0x0 => Some((CPX, Addressed(Immediate)))
      case 0x1 => Some((SBC, Addressed(IndexedIndirect)))
      case 0x4 => Some((CPX, Addressed(ZeroPage)))
      case 0x5 => Some((SBC, Addressed(ZeroPage)))
      case 0x6 => Some((INC, Addressed(ZeroPage)))
      case 0x8 => Some((INX, Implied))
      case 0x9 => Some((SBC, Addressed(Immediate)))
      case 0xA => Some((NOP, Implied))
      case 0xC => Some((CPX, Addressed(Absolute)))
      case 0xD => Some((SBC, Addressed(Absolute)))
      case 0xE => Some((INC, Addressed(Absolute)))
      case _ => None)
    case 0xF =>
      (match low
      case 0x0 => Some((BEQ, Addressed(Relative)))
      case 0x1 => Some((SBC, Addressed(IndirectIndexed)))
      case 0x5 => Some((SBC, Addressed(ZeroPageX)))
      case 0x6 => Some((INC, Addressed(ZeroPageX)))
      case 0x8 => Some((SED, Implied))
      case 0x9 => Some((SBC, Addressed(AbsoluteX)))
      case 0xD => Some((SBC, Addressed(AbsoluteY)))
      case 0xE => Some((INC, Addressed(AbsoluteX)))
      case _ => None)
    case _ => None
  }

  /** Every entry of the table is found again by its opcode, so no two
      entries share an opcode byte. */
  lemma DecodeInverts(mn: Mnemonic, k: nat)
    requires k < |Variants(mn)|
    ensures Decode(Variants(mn)[k].1) == Some((mn, Variants(mn)[k].0))
  {
    if mn in {ADC, AND, ASL, BCC} {
      DecodeRow1(mn, k);
    } else if mn in {BCS, BEQ, BIT, BMI} {
      DecodeRow2(mn, k);
    } else if mn in {BNE, BPL, BRK, BVC} {
      DecodeRow3(mn, k);
    } else if mn in {BVS, CLC, CLD, CLI} {
      DecodeRow4(mn, k);
    } else if mn in {CLV, CMP, CPX, CPY} {
      DecodeRow5(mn, k);
    } else if mn in {DEC, DEX, DEY, EOR} {
      DecodeRow6(mn, k);
    } else if mn in {INC, INX, INY, JMP} {
      DecodeRow7(mn, k);
    } else if mn in {JSR, LDA, LDX, LDY} {
      DecodeRow8(mn, k);
    } else if mn in {LSR, NOP, ORA, PHA} {
      DecodeRow9(mn, k);
    } else if mn in {PHP, PLA, PLP, ROL} {
      DecodeRow10(mn, k);
    } else if mn in {ROR, RTI, RTS, SBC} {
      DecodeRow11(mn, k);
    } else if mn in {SEC, SED, SEI, STA} {
      DecodeRow12(mn, k);
    } else if mn in {STX, STY, TAX, TAY} {
      DecodeRow13(mn, k);
    } else {
      DecodeRow14(mn, k);
    }
  }

  // The variants are checked a few mnemonics at a time, DecodeRow1 to
  // DecodeRow14, so that each proof evaluates only a few rows of the
  // mnemonic table; one proof over all of them is too costly for the solver.
  lemma DecodeRow1(mn: Mnemonic, k: nat)
    requires mn in {ADC, AND, ASL, BCC} && k < |Variants(mn)|
    ensures Decode(Variants(mn)[k].1) == Some((mn, Variants(mn)[k].0))
  {
  }

  lemma DecodeRow2(mn: Mnemonic, k: nat)
    requires mn in {BCS, BEQ, BIT, BMI} && k < |Variants(mn)|
    ensures Decode(Variants(mn)[k].1) == Some((mn, Variants(mn)[k].0))
  {
  }

  lemma DecodeRow3(mn: Mnemonic, k: nat)
    requires mn in {BNE, BPL, BRK, BVC} && k < |Variants(mn)|
    ensures Decode(Variants(mn)[k].1) == Some((mn, Variants(mn)[k].0))
  {
  }

  lemma DecodeRow4(mn: Mnemonic, k: nat)
    requires mn in {BVS, CLC, CLD, CLI} && k < |Variants(mn)|
    ensures Decode(Variants(mn)[k].1) == Some((mn, Variants(mn)[k].0))
  {
  }

  lemma DecodeRow5(mn: Mnemonic, k: nat)
    requires mn in {CLV, CMP, CPX, CPY} && k < |Variants(mn)|
    ensures Decode(Variants(mn)[k].1) == Some((mn, Variants(mn)[k].0))
  {
  }

  lemma DecodeRow6(mn: Mnemonic, k: nat)
    requires mn in {DEC, DEX, DEY, EOR} && k < |Variants(mn)|
    ensures Decode(Variants(mn)[k].1) == Some((mn, Variants(mn)[k].0))
  {
  }

  lemma DecodeRow7(mn: Mnemonic, k: nat)
    requires mn in {INC, INX, INY, JMP} && k < |Variants(mn)|
    ensures Decode(Variants(mn)[k].1) == Some((mn, Variants(mn)[k].0))
  {
  }

  lemma DecodeRow8(mn: Mnemonic, k: nat)
    requires mn in {JSR, LDA, LDX, LDY} && k < |Variants(mn)|
    ensures Decode(Variants(mn)[k].1) == Some((mn, Variants(mn)[k].0))
  {
  }

  lemma DecodeRow9(mn: Mnemonic, k: nat)
    requires mn in {LSR, NOP, ORA, PHA} && k < |Variants(mn)|
    ensures Decode(Variants(mn)[k].1) == Some((mn, Variants(mn)[k].0))
  {
  }

  lemma DecodeRow10(mn: Mnemonic, k: nat)
    requires mn in {PHP, PLA, PLP, ROL} && k < |Variants(mn)|
    ensures Decode(Variants(mn)[k].1) == Some((mn, Variants(mn)[k].0))
  {
  }

  lemma DecodeRow11(mn: Mnemonic, k: nat)
    requires mn in {ROR, RTI, RTS, SBC} && k < |Variants(mn)|
    ensures Decode(Variants(mn)[k].1) == Some((mn, Variants(mn)[k].0))
  {
  }

  lemma DecodeRow12(mn: Mnemonic, k: nat)
    requires mn in {SEC, SED, SEI, STA} && k < |Variants(mn)|
    ensures Decode(Variants(mn)[k].1) == Some((mn, Variants(mn)[k].0))
  {
  }

  lemma DecodeRow13(mn: Mnemonic, k: nat)
    requires mn in {STX, STY, TAX, TAY} && k < |Variants(mn)|
    ensures Decode(Variants(mn)[k].1) == Some((mn, Variants(mn)[k].0))
  {
  }

  lemma DecodeRow14(mn: Mnemonic, k: nat)
    requires mn in {TSX, TXA, TXS, TYA} && k < |Variants(mn)|
    ensures Decode(Variants(mn)[k].1) == Some((mn, Variants(mn)[k].0))
  {
  }

  /** No two mnemonic/variant entries share an opcode. */
  lemma OpcodesDistinct(m1: Mnemonic, k1: nat, m2: Mnemonic, k2: nat)
    requires k1 < |Variants(m1)| && k2 < |Variants(m2)|
    requires Variants(m1)[k1].1 == Variants(m2)[k2].1
    ensures m1 == m2 && Variants(m1)[k1].0 == Variants(m2)[k2].0
  {
    DecodeInverts(m1, k1);
    DecodeInverts(m2, k2);
  }

  // ---- characters (the classes of the regular expressions) ----

  predicate IsDigit(c: char) {
    '0' <= c <= '9'
  }

  predicate IsHexDigit(c: char) {
    IsDigit(c) || 'A' <= c <= 'F' || 'a' <= c <= 'f'
  }

  /** `\w` */
  predicate IsWordChar(c: char) {
    IsDigit(c) || 'A' <= c <= 'Z' || 'a' <= c <= 'z' || c == '_'
  }

  /** `\s` */
  predicate IsSpace(c: char) {
    var n := c as int;
    9 <= n <= 13 || n == 0x20 || n == 0xA0 || n == 0x1680 || 0x2000 <= n <= 0x200A
    || n == 0x2028 || n == 0x2029 || n == 0x202F || n == 0x205F || n == 0x3000 || n == 0xFEFF
  }

  /** `[-\dA-Fa-f#$(),XY]` */
  predicate IsOperandChar(c: char) {
    c == '-' || IsHexDigit(c) || c == '#' || c == '$' || c == '(' || c == ')' || c == ','
    || c == 'X' || c == 'Y'
  }

  /** The longest prefix of s whose characters all satisfy p. */
  function TakeWhile(s: string, p: char -> bool): (r: string)
    ensures r <= s
    ensures forall i :: 0 <= i < |r| ==> p(r[i])
    ensures |r| < |s| ==> !p(s[|r|])
  {
    if s == [] || !p(s[0]) then [] else [s[0]] + TakeWhile(s[1..], p)
  }

  /** TakeWhile stops at the first character that fails p. */
  lemma {:induction false} TakeWhileStops(s: string, p: char -> bool, n: nat)
    requires n < |s| && !p(s[n]) && forall i :: 0 <= i < n ==> p(s[i])
    ensures TakeWhile(s, p) == s[..n]
  {
    if n > 0 {
      TakeWhileStops(s[1..], p, n - 1);
    }
  }

  lemma {:induction false} TakeWhileAll(s: string, p: char -> bool)
    requires forall i :: 0 <= i < |s| ==> p(s[i])
    ensures TakeWhile(s, p) == s
  {
    if s != [] {
      TakeWhileAll(s[1..], p);
    }
  }

  // ---- parseInt and the extractors ----

  datatype Radix = Decimal | Hexadecimal

  function Base(radix: Radix): nat {
    if radix == Decimal then 10 else 16
  }

  predicate IsDigitIn(c: char, radix: Radix) {
    if radix == Decimal then IsDigit(c) else IsHexDigit(c)
  }

  /** The digit test of a radix, as a value TakeWhile can use. */
  function DigitTest(radix: Radix): char -> bool {
    if radix == Decimal then IsDigit else IsHexDigit
  }

  function DigitValue(c: char): (r: nat)
    requires IsHexDigit(c)
    ensures r < 16 && (IsDigit(c) <==> r < 10)
  {
    if IsDigit(c) then c as int - '0' as int
    else if 'A' <= c <= 'F' then c as int - 'A' as int + 10
    else c as int - 'a' as int + 10
  }

  function Power(b: nat, n: nat): nat {
    if n == 0 then 1 else b * Power(b, n - 1)
  }

  /** The number a run of digits spells, most significant first. */
  function DigitsValue(ds: string, radix: Radix): (r: nat)
    requires forall i :: 0 <= i < |ds| ==> IsDigitIn(ds[i], radix)
    ensures r < Power(Base(radix), |ds|)
  {
    if ds == [] then 0
    else
      var rest := DigitsValue(ds[..|ds| - 1], radix);
      var b := Base(radix);
      var last := ds[|ds| - 1];
      assert IsDigitIn(last, radix);
      assert IsHexDigit(last) && DigitValue(last) < b;
      assert (rest + 1) * b <= Power(b, |ds| - 1) * b;
      rest * b + DigitValue(last)
  }

  /** `parseInt(s, radix)`: leading white space and one sign are skipped,
      and for radix 16 a `0x` prefix; then the longest run of digits is
      read, and no digit at all gives NaN. */
  function ParseInt(s: string, radix: Radix): Num {
    var t := Trimmed(s);
    var digits := TakeWhile(WithoutPrefix(Unsigned(t), radix), DigitTest(radix));
    if digits == [] then NaN
    else
      var value: int := DigitsValue(digits, radix);
      if |t| > 0 && t[0] == '-' then Int(-value) else Int(value)
  }

  /** s without its leading white space. */
  function Trimmed(s: string): string {
    s[|TakeWhile(s, IsSpace)|..]
  }

  /** t without one leading sign. */
  function Unsigned(t: string): string {
    if |t| > 0 && (t[0] == '-' || t[0] == '+') then t[1..] else t
  }

  /** For radix 16, u without a leading `0x` or `0X`. */
  function WithoutPrefix(u: string, radix: Radix): string {
    if radix == Hexadecimal && |u| >= 2 && u[0] == '0' && (u[1] == 'x' || u[1] == 'X')
    then u[2..] else u
  }

  /** A string that starts with something other than white space is its
      own trimmed form. */
  lemma TrimmedNoSpace(s: string)
    requires |s| > 0 && !IsSpace(s[0])
    ensures Trimmed(s) == s
  {
    assert TakeWhile(s, IsSpace) == [];
  }

  /** A run of digits alone reads as the number it spells. */
  lemma ParseDigits(ds: string, radix: Radix)
    requires |ds| > 0 && forall i :: 0 <= i < |ds| ==> IsDigitIn(ds[i], radix)
    ensures ParseInt(ds, radix) == Int(DigitsValue(ds, radix))
  {
    assert !IsSpace(ds[0]);
    TrimmedNoSpace(ds);
    assert WithoutPrefix(Unsigned(ds), radix) == ds;
    TakeWhileAll(ds, DigitTest(radix));
  }

  /** A minus sign and a run of decimal digits read as the negative
      number. */
  lemma ParseNegative(s: string, ds: string)
    requires |s| > 0 && s[0] == '-' && s[1..] == ds
    requires |ds| > 0 && forall i :: 0 <= i < |ds| ==> IsDigit(ds[i])
    ensures ParseInt(s, Decimal) == Int(0 - DigitsValue(ds, Decimal))
  {
    TrimmedNoSpace(s);
    DecimalRun(ds);
    ParseSteps(s, ds, Decimal);
  }

  /** parseInt in radix 10 reads a run of decimal digits whole. */
  lemma DecimalRun(ds: string)
    requires forall i :: 0 <= i < |ds| ==> IsDigit(ds[i])
    ensures forall i :: 0 <= i < |ds| ==> IsDigitIn(ds[i], Decimal)
    ensures WithoutPrefix(ds, Decimal) == ds && TakeWhile(ds, DigitTest(Decimal)) == ds
  {
    TakeWhileAll(ds, DigitTest(Decimal));
  }


  /** parseInt once its steps are known: a minus sign in front of the
      digits it reads. */
  lemma ParseSteps(s: string, ds: string, radix: Radix)
    requires |ds| > 0 && forall i :: 0 <= i < |ds| ==> IsDigitIn(ds[i], radix)
    requires Trimmed(s) == s && |s| > 0 && s[0] == '-' && Unsigned(s) == ds
    requires WithoutPrefix(ds, radix) == ds && TakeWhile(ds, DigitTest(radix)) == ds
    ensures ParseInt(s, radix) == Int(0 - DigitsValue(ds, radix))
  {
  }

  /** `parseValue`: hexadecimal after a `$`, decimal otherwise. */
  function ParseValue(s: string): Num {
    if |s| > 0 && s[0] == '$' then ParseInt(s[1..], Hexadecimal) else ParseInt(s, Decimal)
  }

  /** `parseWord`'s pair `[v & 0xFF, v >> 8]`. */
  function WordBytes(v: Num): seq<Num> {
    [BitAnd(v, Int(0xFF)), ShiftRight(v, 8)]
  }

  /** A 16-bit value comes out little-endian: low byte, then high byte. */
  lemma LittleEndian(v: nat)
    requires v < 0x1_0000
    ensures var r := WordBytes(Int(v));
      r[0].Int? && r[1].Int? && 0 <= r[0].i < 256 && 0 <= r[1].i < 256
      && r[0].i + 256 * r[1].i == v
  {
    Pow2Values();
    MaskByte(v);
    ShiftRightSmall(v, 8);
  }

  /** `parseSignedByte`'s value: `v & 0x7F` when v >= 0, otherwise
      `(v + 128) | 0x80`. */
  function SignedByteValue(v: Num): Num {
    if NonNegative(v) then BitAnd(v, Int(0x7F)) else BitOr(Add(v, Int(128)), Int(0x80))
  }

  /** An offset in -128..127 is emitted as its two's complement byte, which
      the engine's relative resolver reads back as the same offset. */
  lemma RelativeOffset(v: int)
    requires -128 <= v <= 127
    ensures SignedByteValue(Int(v)) == Int(v % 256)
    ensures SignedByte(v % 256) == v
  {
    OffsetByte(v);
    if v >= 0 {
      SmallOffset(v);
    } else {
      NegativeOffset(v);
    }
  }

  lemma OffsetByte(v: int)
    requires -128 <= v <= 127
    ensures v % 256 == if v >= 0 then v else v + 256
  {
    if v < 0 {
      DivModUnique(v, 256, -1, v + 256);
    }
  }

  lemma SmallOffset(v: nat)
    requires v <= 127
    ensures SignedByteValue(Int(v)) == Int(v)
  {
    LargeOffset(v);
    ModBelow(v, 128);
  }

  lemma NegativeOffset(v: int)
    requires -128 <= v < 0
    ensures SignedByteValue(Int(v)) == Int(v + 256)
  {
    Pow2Values();
    assert Add(Int(v), Int(128)) == Int(v + 128);
    OrFields(v + 128, 128, 7);
  }

  /** A non-negative offset past 127 loses its high bits: 128 comes out
      as 0. */
  lemma LargeOffset(v: nat)
    ensures SignedByteValue(Int(v)) == Int(v % 128)
  {
    MaskSeven(v);
  }

  // ---- the matchers ----

  predicate AllHex(s: string) {
    forall i :: 0 <= i < |s| ==> IsHexDigit(s[i])
  }

  predicate AllDigits(s: string) {
    forall i :: 0 <= i < |s| ==> IsDigit(s[i])
  }

  /** `\$[\dA-Fa-f]{n}` */
  predicate HexField(s: string, n: nat) {
    |s| == n + 1 && s[0] == '$' && AllHex(s[1..])
  }

  /** The `test` of each matcher, on an operand that is present. */
  predicate Matches(mode: Mode, s: string) {
    match mode
    case Immediate =>
      |s| >= 2 && s[0] == '#'
      && ((|s[1..]| > 0 && AllHex(s[1..])) || (s[1] == '$' && |s| >= 3 && AllHex(s[2..])))
    case Relative =>
      (|s| >= 1 && AllDigits(s)) || (|s| >= 2 && s[0] == '-' && AllDigits(s[1..]))
    case ZeroPage => HexField(s, 2)
    case ZeroPageX => |s| == 5 && HexField(s[..3], 2) && s[3..] == ",X"
    case ZeroPageY => |s| == 5 && HexField(s[..3], 2) && s[3..] == ",Y"
    case Absolute => HexField(s, 4)
    case AbsoluteX => |s| == 7 && HexField(s[..5], 4) && s[5..] == ",X"
    case AbsoluteY => |s| == 7 && HexField(s[..5], 4) && s[5..] == ",Y"
    case Indirect => |s| == 7 && s[0] == '(' && HexField(s[1..6], 4) && s[6] == ')'
    case IndexedIndirect => |s| == 7 && s[0] == '(' && HexField(s[1..4], 2) && s[4..] == ",X)"
    case IndirectIndexed => |s| == 7 && s[0] == '(' && HexField(s[1..4], 2) && s[4..] == "),Y"
  }

  /** The `test` of each matcher; a missing operand is `undefined`, which
      only `implied` accepts (every regular expression rejects the text
      "undefined"). */
  predicate Accepts(v: Variant, operand: Option<string>) {
    match v
    case Accumulator => operand == Some("A")
    case Implied => operand.None?
    case Addressed(mode) => operand.Some? && Matches(mode, operand.value)
  }

  /** The number of operand bytes a variant emits. */
  function OperandSize(v: Variant): nat {
    match v
    case Accumulator | Implied => 0
    case Addressed(mode) => Bytes(mode)
  }

  /** `string.substring(left, string.length - right)` */
  function Cut(s: string, left: nat, right: nat): string
    requires left + right <= |s|
  {
    s[left..|s| - right]
  }

  /** The `extract` of each matcher, which only runs on an operand the
      matcher accepted: `left` and `right` characters around the number are
      cut off and the rest is parsed. */
  function Extract(v: Variant, operand: Option<string>): (r: seq<Num>)
    requires Accepts(v, operand)
    ensures |r| == OperandSize(v)
  {
    match v
    case Accumulator => []
    case Implied => []
    case Addressed(mode) =>
      var s := operand.value;
      match mode
      case Immediate => [ParseValue(Cut(s, 1, 0))]
      case Relative => [SignedByteValue(ParseValue(Cut(s, 0, 0)))]
      case ZeroPage => [ParseValue(Cut(s, 0, 0))]
      case ZeroPageX => [ParseValue(Cut(s, 0, 2))]
      case ZeroPageY => [ParseValue(Cut(s, 0, 2))]
      case Absolute => WordBytes(ParseValue(Cut(s, 0, 0)))
      case AbsoluteX => WordBytes(ParseValue(Cut(s, 0, 2)))
      case AbsoluteY => WordBytes(ParseValue(Cut(s, 0, 2)))
      case Indirect => WordBytes(ParseValue(Cut(s, 1, 1)))
      case IndexedIndirect => [ParseValue(Cut(s, 1, 3))]
      case IndirectIndexed => [ParseValue(Cut(s, 1, 3))]
  }

  // ---- one line ----

  predicate NotSemicolon(c: char) {
    c != ';'
  }

  predicate NotNewline(c: char) {
    c != '\n'
  }

  predicate NotWordChar(c: char) {
    !IsWordChar(c)
  }

  /** Everything from the first `;` on is a comment. */
  function StripComment(line: string): (r: string)
    ensures r <= line && ';' !in r
    ensures |r| < |line| ==> line[|r|] == ';'
  {
    TakeWhile(line, NotSemicolon)
  }

  /** What `/(\w+)(?:\s+([-\dA-Fa-f#$(),XY]+))?/` captures. */
  datatype Parsed = Parsed(mnemonic: string, operand: Option<string>)

  /** The unanchored match finds the first word character, takes the
      longest run of word characters from there, and captures an operand
      only when white space follows that is itself followed by operand
      characters (the longest run of them); anything after is ignored. */
  function SplitLine(line: string): (r: Option<Parsed>)
    ensures r.None? <==> forall i :: 0 <= i < |line| ==> !IsWordChar(line[i])
    ensures r.Some? ==> |r.value.mnemonic| > 0
  {
    var skipped := TakeWhile(line, NotWordChar);
    var rest := line[|skipped|..];
    if rest == [] then None
    else
      var mnemonic := TakeWhile(rest, IsWordChar);
      var after := rest[|mnemonic|..];
      var gap := TakeWhile(after, IsSpace);
      var operand := TakeWhile(after[|gap|..], IsOperandChar);
      Some(Parsed(mnemonic, if gap != [] && operand != [] then Some(operand) else None))
  }

  function UpperChar(c: char): char {
    if 'a' <= c <= 'z' then (c as int - 32) as char else c
  }

  function LowerChar(c: char): char {
    if 'A' <= c <= 'Z' then (c as int + 32) as char else c
  }

  /** `toUpperCase`, which on the word characters a mnemonic is made of
      only changes the letters a-z. */
  function Upper(s: string): (r: string)
    ensures |r| == |s| && forall i :: 0 <= i < |s| ==> r[i] == UpperChar(s[i])
  {
    if s == [] then [] else [UpperChar(s[0])] + Upper(s[1..])
  }

  function Lower(s: string): (r: string)
    ensures |r| == |s| && forall i :: 0 <= i < |s| ==> r[i] == LowerChar(s[i])
  {
    if s == [] then [] else [LowerChar(s[0])] + Lower(s[1..])
  }

  /** `instructions[mnemonic.toUpperCase()]` */
  function Lookup(word: string): Option<Mnemonic> {
    MnemonicOf(Upper(word))
  }

  lemma {:induction false} UpperOfLower(s: string)
    ensures Upper(Lower(s)) == Upper(s)
  {
    if s != [] {
      UpperOfLower(s[1..]);
    }
  }

  lemma {:induction false} UpperTwice(s: string)
    ensures Upper(Upper(s)) == Upper(s)
  {
    if s != [] {
      UpperTwice(s[1..]);
    }
  }

  /** Lookup ignores the case of the mnemonic. */
  lemma CaseInsensitive(word: string)
    ensures Lookup(Lower(word)) == Lookup(word)
    ensures Lookup(Upper(word)) == Lookup(word)
  {
    UpperOfLower(word);
    UpperTwice(word);
  }

  /** `Object.keys(variants).find(...)`: the position of the first variant
      whose matcher accepts the operand. */
  function FirstVariant(vs: seq<(Variant, Byte)>, operand: Option<string>): (r: Option<nat>)
    ensures r.Some? ==> r.value < |vs| && Accepts(vs[r.value].0, operand)
    ensures r.Some? ==> forall j :: 0 <= j < r.value ==> !Accepts(vs[j].0, operand)
    ensures r.None? ==> forall j :: 0 <= j < |vs| ==> !Accepts(vs[j].0, operand)
  {
    if vs == [] then None
    else if Accepts(vs[0].0, operand) then Some(0)
    else match FirstVariant(vs[1..], operand)
      case None => None
      case Some(k) => Some(k + 1)
  }

  /** Why a line cannot be assembled: a word that is not a mnemonic (its
      variants are `undefined`, and `Object.keys` throws a TypeError), or a
      mnemonic none of whose variants accepts the operand (an Error whose
      message quotes the line without its comment). */
  datatype AsmError = NoSuchMnemonic(word: string) | NoVariant(line: string)

  /** The group of numbers one line assembles to. */
  function AssembleLine(lineRaw: string): (r: Result<seq<Num>, AsmError>)
    ensures r == Success([]) <==> SplitLine(StripComment(lineRaw)).None?
  {
    AssembleCode(StripComment(lineRaw))
  }

  /** The group of numbers a line without its comment assembles to. */
  function AssembleCode(line: string): (r: Result<seq<Num>, AsmError>)
    ensures r == Success([]) <==> SplitLine(line).None?
  {
    match SplitLine(line)
    case None => Success([])
    case Some(parsed) =>
      match Lookup(parsed.mnemonic)
      case None => Failure(NoSuchMnemonic(parsed.mnemonic))
      case Some(mn) =>
        var vs := Variants(mn);
        match FirstVariant(vs, parsed.operand)
        case None => Failure(NoVariant(line))
        case Some(k) => Success([Int(vs[k].1)] + Extract(vs[k].0, parsed.operand))
  }

  // ---- a whole program ----

  /** `string.split('\n')` */
  function Lines(text: string): (r: seq<string>)
    ensures |r| >= 1
    decreases |text|
  {
    var first := TakeWhile(text, NotNewline);
    if |first| == |text| then [text] else [first] + Lines(text[|first| + 1..])
  }

  /** The lines put back together with a newline between each two. */
  function Join(lines: seq<string>): string
    requires |lines| >= 1
  {
    if |lines| == 1 then lines[0] else lines[0] + "\n" + Join(lines[1..])
  }

  /** `lines.map(encode)` with an `encode` that may throw: the lines are
      encoded in order and the first one that fails stops the whole text
      with its error. */
  function Collect(lines: seq<string>, encode: string -> Result<seq<Num>, AsmError>)
    : (r: Result<seq<seq<Num>>, AsmError>)
    ensures r.Success? ==> |r.value| == |lines|
  {
    if lines == [] then Success([])
    else
      match encode(lines[0])
      case Failure(e) => Failure(e)
      case Success(group) =>
        match Collect(lines[1..], encode)
        case Failure(e) => Failure(e)
        case Success(groups) => Success([group] + groups)
  }

  /** A text that succeeds holds, at each position, the group its line
      encodes to. */
  lemma {:induction false} CollectEach(lines: seq<string>, encode: string -> Result<seq<Num>, AsmError>, i: nat)
    requires Collect(lines, encode).Success? && i < |lines|
    ensures encode(lines[i]) == Success(Collect(lines, encode).value[i])
  {
    if i > 0 {
      CollectEach(lines[1..], encode, i - 1);
    }
  }

  /** The position of the line a failing text fails at: its error is the
      text's error, and every line before it succeeds. */
  function FirstFailing(lines: seq<string>, encode: string -> Result<seq<Num>, AsmError>): (i: nat)
    requires Collect(lines, encode).Failure?
    ensures i < |lines| && encode(lines[i]) == Failure(Collect(lines, encode).error)
    ensures forall j :: 0 <= j < i ==> encode(lines[j]).Success?
  {
    if encode(lines[0]).Failure? then 0
    else
      var i := FirstFailing(lines[1..], encode);
      assert forall j :: 1 <= j <= i ==> lines[j] == lines[1..][j - 1];
      i + 1
  }

  /** Encoding two runs of lines one after the other. */
  lemma {:induction false} CollectAppend(a: seq<string>, b: seq<string>, encode: string -> Result<seq<Num>, AsmError>)
    requires Collect(a, encode).Success? && Collect(b, encode).Success?
    ensures Collect(a + b, encode) == Success(Collect(a, encode).value + Collect(b, encode).value)
    decreases |a|, 1
  {
    if a != [] {
      CollectAppendNext(a, b, encode);
    } else {
      assert a + b == b && [] + Collect(b, encode).value == Collect(b, encode).value;
    }
  }

  lemma {:induction false} CollectAppendNext(a: seq<string>, b: seq<string>, encode: string -> Result<seq<Num>, AsmError>)
    requires a != [] && Collect(a, encode).Success? && Collect(b, encode).Success?
    ensures Collect(a + b, encode) == Success(Collect(a, encode).value + Collect(b, encode).value)
    decreases |a|, 0
  {
    CollectFirst(a, encode);
    CollectAppend(a[1..], b, encode);
    assert (a + b)[0] == a[0] && (a + b)[1..] == a[1..] + b;
    CollectCons(a + b, encode);
    ConsAssoc(encode(a[0]).value, Collect(a[1..], encode).value, Collect(b, encode).value);
  }

  lemma ConsAssoc(g: seq<Num>, x: seq<seq<Num>>, y: seq<seq<Num>>)
    ensures [g] + (x + y) == ([g] + x) + y
  {
  }

  /** A text that succeeds has a first line that succeeds and a rest that
      succeeds. */
  lemma CollectFirst(lines: seq<string>, encode: string -> Result<seq<Num>, AsmError>)
    requires lines != [] && Collect(lines, encode).Success?
    ensures encode(lines[0]).Success? && Collect(lines[1..], encode).Success?
    ensures Collect(lines, encode).value == [encode(lines[0]).value] + Collect(lines[1..], encode).value
  {
  }

  lemma CollectCons(lines: seq<string>, encode: string -> Result<seq<Num>, AsmError>)
    requires lines != [] && encode(lines[0]).Success? && Collect(lines[1..], encode).Success?
    ensures Collect(lines, encode) == Success([encode(lines[0]).value] + Collect(lines[1..], encode).value)
  {
  }

  /** `assemble`: one group per line. */
  function Assemble(text: string): Result<seq<seq<Num>>, AsmError> {
    Collect(Lines(text), AssembleLine)
  }

  /** `[].concat(...groups)` */
  function Flatten(groups: seq<seq<Num>>): seq<Num> {
    if groups == [] then [] else groups[0] + Flatten(groups[1..])
  }

  lemma {:induction false} FlattenAppend(a: seq<seq<Num>>, b: seq<seq<Num>>)
    ensures Flatten(a + b) == Flatten(a) + Flatten(b)
  {
    if a != [] {
      assert (a + b)[0] == a[0] && (a + b)[1..] == a[1..] + b;
      FlattenAppend(a[1..], b);
      assert a[0] + (Flatten(a[1..]) + Flatten(b)) == (a[0] + Flatten(a[1..])) + Flatten(b);
    } else {
      assert a + b == b && [] + Flatten(b) == Flatten(b);
    }
  }

  /** `assembleBlob`: the groups run together. */
  function AssembleBlob(text: string): Result<seq<Num>, AsmError> {
    match Assemble(text)
    case Failure(e) => Failure(e)
    case Success(groups) => Success(Flatten(groups))
  }

  datatype Debug = Debug(lines: seq<seq<Num>>, blob: seq<Num>)

  /** `assembleDebug`: the groups and the same blob. */
  function AssembleDebug(text: string): Result<Debug, AsmError> {
    match Assemble(text)
    case Failure(e) => Failure(e)
    case Success(groups) => Success(Debug(groups, Flatten(groups)))
  }

  /** `assembleDebug` fails exactly when `assemble` does, with the same
      error; otherwise its lines are what `assemble` returns and its blob is
      what `assembleBlob` returns for the same text. */
  lemma DebugAgrees(text: string)
    ensures AssembleDebug(text).Success? <==> Assemble(text).Success?
    ensures AssembleDebug(text).Success? ==>
      AssembleDebug(text).value.lines == Assemble(text).value
      && AssembleDebug(text).value.blob == AssembleBlob(text).value
    ensures AssembleDebug(text).Failure? ==> AssembleDebug(text).error == Assemble(text).error
  {
  }

  /** The lines hold no newline, and joining them gives the text back. */
  lemma {:induction false} LinesJoin(text: string)
    ensures forall i :: 0 <= i < |Lines(text)| ==> '\n' !in Lines(text)[i]
    ensures Join(Lines(text)) == text
    decreases |text|
  {
    var first := TakeWhile(text, NotNewline);
    if |first| < |text| {
      var rest := text[|first| + 1..];
      LinesJoin(rest);
      assert text == first + "\n" + rest;
      assert Lines(text) == [first] + Lines(rest);
    }
  }

  /** Splitting lines that hold no newline after joining them gives the
      same lines. */
  lemma {:induction false} JoinLines(lines: seq<string>)
    requires |lines| >= 1 && forall i :: 0 <= i < |lines| ==> '\n' !in lines[i]
    ensures Lines(Join(lines)) == lines
  {
    OneLine(lines[0]);
    if |lines| > 1 {
      JoinLines(lines[1..]);
      LinesAppend(lines[0], Join(lines[1..]));
    }
  }

  /** A text without a newline is a single line. */
  lemma OneLine(s: string)
    requires '\n' !in s
    ensures Lines(s) == [s]
  {
    TakeWhileAll(s, NotNewline);
  }

  /** Two texts joined by a newline split into the lines of each. */
  lemma {:induction false} LinesAppend(a: string, b: string)
    ensures Lines(a + "\n" + b) == Lines(a) + Lines(b)
    decreases |a|
  {
    var n := |TakeWhile(a, NotNewline)|;
    if n == |a| {
      LinesAfterLast(a, b);
    } else {
      LinesAppend(a[n + 1..], b);
      LinesAfterFirst(a, b, n);
    }
  }

  /** A text without a newline, then a newline, then b. */
  lemma LinesAfterLast(a: string, b: string)
    requires |TakeWhile(a, NotNewline)| == |a|
    ensures Lines(a + "\n" + b) == [a] + Lines(b)
    ensures Lines(a) == [a]
  {
    var text := a + "\n" + b;
    FirstLineOfJoin(a, b);
    assert a[..|a|] == a;
    assert text[|a| + 1..] == b;
  }

  /** Splitting off the first line of a also splits it off a + "\n" + b. */
  lemma LinesAfterFirst(a: string, b: string, n: nat)
    requires n == |TakeWhile(a, NotNewline)| < |a|
    ensures Lines(a) == [a[..n]] + Lines(a[n + 1..])
    ensures Lines(a + "\n" + b) == [a[..n]] + Lines(a[n + 1..] + "\n" + b)
  {
    var text := a + "\n" + b;
    FirstLineOfJoin(a, b);
    assert TakeWhile(a, NotNewline) == a[..n];
    assert text[n + 1..] == a[n + 1..] + "\n" + b;
  }

  /** The first line of the joined text is the first line of a. */
  lemma FirstLineOfJoin(a: string, b: string)
    ensures var n := |TakeWhile(a, NotNewline)|;
      TakeWhile(a + "\n" + b, NotNewline) == a[..n]
  {
    var text := a + "\n" + b;
    var first := TakeWhile(a, NotNewline);
    var n := |first|;
    assert forall i :: 0 <= i < n ==> text[i] == first[i];
    if n == |a| {
      assert text[n] == '\n';
    } else {
      assert text[n] == a[n];
    }
    TakeWhileStops(text, NotNewline, n);
  }

  /** Assembling two programs joined by a newline gives the two blobs one
      after the other. */
  lemma BlobOfJoin(a: string, b: string)
    requires AssembleBlob(a).Success? && AssembleBlob(b).Success?
    ensures AssembleBlob(a + "\n" + b) == Success(AssembleBlob(a).value + AssembleBlob(b).value)
  {
    LinesAppend(a, b);
    CollectAppend(Lines(a), Lines(b), AssembleLine);
    FlattenAppend(Assemble(a).value, Assemble(b).value);
  }

  // ---- what a line's numbers mean ----

  /** A comment changes nothing: a line is assembled from the text before
      its first `;`. */
  lemma CommentIgnored(code: string, comment: string)
    requires ';' !in code
    ensures AssembleLine(code + ";" + comment) == AssembleLine(code)
  {
    CommentCut(code, comment);
    TakeWhileAll(code, NotSemicolon);
  }

  lemma CommentCut(code: string, comment: string)
    requires ';' !in code
    ensures StripComment(code + ";" + comment) == code
  {
    var line := code + ";" + comment;
    assert forall i :: 0 <= i < |code| ==> line[i] == code[i];
    TakeWhileStops(line, NotSemicolon, |code|);
    assert line[..|code|] == code;
  }

  /** A non-empty group starts with an opcode of the table: the entry of the
      looked-up mnemonic for the first variant that accepts the operand.
      The operand bytes that follow are as many as the engine's `bytes`
      for that variant's mode. */
  lemma LineEncoding(lineRaw: string)
    requires AssembleLine(lineRaw).Success? && AssembleLine(lineRaw).value != []
    ensures var g := AssembleLine(lineRaw).value;
      var parsed := SplitLine(StripComment(lineRaw)).value;
      g[0].Int? && Decode(g[0].i).Some?
      && Lookup(parsed.mnemonic) == Some(Decode(g[0].i).value.0)
      && Accepts(Decode(g[0].i).value.1, parsed.operand)
      && |g| == 1 + OperandSize(Decode(g[0].i).value.1)
  {
    var parsed := SplitLine(StripComment(lineRaw)).value;
    var mn := Lookup(parsed.mnemonic).value;
    var k := FirstVariant(Variants(mn), parsed.operand).value;
    DecodeInverts(mn, k);
  }

  /** The first variant that accepts wins, even when a later one would
      accept too. */
  lemma FirstWins(lineRaw: string, mn: Mnemonic, j: nat)
    requires AssembleLine(lineRaw).Success? && AssembleLine(lineRaw).value != []
    requires Lookup(SplitLine(StripComment(lineRaw)).value.mnemonic) == Some(mn)
    requires j < |Variants(mn)| && Accepts(Variants(mn)[j].0, SplitLine(StripComment(lineRaw)).value.operand)
    ensures exists k :: 0 <= k <= j && AssembleLine(lineRaw).value[0] == Int(Variants(mn)[k].1)
  {
    var k := FirstVariant(Variants(mn), SplitLine(StripComment(lineRaw)).value.operand).value;
    assert AssembleLine(lineRaw).value[0] == Int(Variants(mn)[k].1);
  }

  /** A line that fails makes the whole text fail. */
  lemma FailingLineFails(text: string, i: nat)
    requires i < |Lines(text)| && AssembleLine(Lines(text)[i]).Failure?
    ensures Assemble(text).Failure? && AssembleBlob(text).Failure?
  {
    if Assemble(text).Success? {
      CollectEach(Lines(text), AssembleLine, i);
    }
  }

  /** The hex digits of a text, in order. */
  function HexDigits(s: string): (r: string)
    ensures AllHex(r) && |r| <= |s|
  {
    if s == [] then [] else (if IsHexDigit(s[0]) then [s[0]] else []) + HexDigits(s[1..])
  }

  lemma {:induction false} HexDigitsAppend(a: string, b: string)
    ensures HexDigits(a + b) == HexDigits(a) + HexDigits(b)
  {
    if a != [] {
      assert (a + b)[0] == a[0] && (a + b)[1..] == a[1..] + b;
      HexDigitsAppend(a[1..], b);
    } else {
      assert a + b == b;
    }
  }

  lemma {:induction false} HexDigitsAll(s: string)
    requires AllHex(s)
    ensures HexDigits(s) == s
  {
    if s != [] {
      HexDigitsAll(s[1..]);
    }
  }

  lemma {:induction false} HexDigitsNone(s: string)
    requires forall i :: 0 <= i < |s| ==> !IsHexDigit(s[i])
    ensures HexDigits(s) == []
  {
    if s != [] {
      HexDigitsNone(s[1..]);
    }
  }

  /** A `$` field of n hex digits reads as the number they spell. */
  lemma FieldValue(f: string, n: nat)
    requires HexField(f, n) && (n == 2 || n == 4)
    ensures ParseValue(f) == Int(DigitsValue(f[1..], Hexadecimal))
    ensures HexDigits(f) == f[1..]
    ensures DigitsValue(f[1..], Hexadecimal) < if n == 2 then 0x100 else 0x1_0000
  {
    ParseDigits(f[1..], Hexadecimal);
    FieldDigits(f, n);
    HexPowers();
  }

  /** The digits of a `$` field are all of it after the `$`. */
  lemma FieldDigits(f: string, n: nat)
    requires HexField(f, n)
    ensures HexDigits(f) == f[1..]
  {
    assert f == [f[0]] + f[1..];
    HexDigitsAppend([f[0]], f[1..]);
    HexDigitsAll(f[1..]);
  }

  lemma HexPowers()
    ensures Power(16, 2) == 0x100 && Power(16, 4) == 0x1_0000
  {
  }

  /** The operand of a zero-page or indexed-indirect form is one byte: the
      number written in the operand's two hex digits. */
  lemma ByteAddress(mode: Mode, s: string)
    requires Matches(mode, s) && Bytes(mode) == 1 && mode != Immediate && mode != Relative
    ensures var r := Extract(Addressed(mode), Some(s));
      && |r| == 1 && r[0].Int? && 0 <= r[0].i < 256
      && r[0].i == DigitsValue(HexDigits(s), Hexadecimal)
  {
    match mode
    case ZeroPage =>
      ByteField(s, 0, 0);
    case ZeroPageX =>
      IndexSuffix(s, 3);
      ByteField(s, 0, 2);
    case ZeroPageY =>
      IndexSuffix(s, 3);
      ByteField(s, 0, 2);
    case IndexedIndirect =>
      IndirectSuffix(s);
      ByteField(s, 1, 3);
    case IndirectIndexed =>
      IndirectSuffix(s);
      ByteField(s, 1, 3);
  }

  /** A two-digit hex field between characters that are not hex digits
      reads as a byte. */
  lemma ByteField(s: string, left: nat, right: nat)
    requires left + right <= |s| && HexField(Cut(s, left, right), 2)
    requires forall i :: 0 <= i < left ==> !IsHexDigit(s[i])
    requires forall i :: |s| - right <= i < |s| ==> !IsHexDigit(s[i])
    ensures var v := ParseValue(Cut(s, left, right));
      v.Int? && 0 <= v.i < 256 && v.i == DigitsValue(HexDigits(s), Hexadecimal)
  {
    FieldOperand(s, left, right, 2);
  }

  /** The two characters of an index suffix `,X` or `,Y` at i are not hex
      digits. */
  lemma IndexSuffix(s: string, i: nat)
    requires |s| == i + 2 && (s[i..] == ",X" || s[i..] == ",Y")
    ensures forall j :: i <= j < |s| ==> !IsHexDigit(s[j])
  {
    assert s[i..][0] == s[i] && s[i..][1] == s[i + 1];
  }

  /** The three characters after `($hh` are not hex digits. */
  lemma IndirectSuffix(s: string)
    requires |s| == 7 && (s[4..] == ",X)" || s[4..] == "),Y")
    ensures forall i :: 4 <= i < 7 ==> !IsHexDigit(s[i])
  {
    assert s[4..][0] == s[4] && s[4..][1] == s[5] && s[4..][2] == s[6];
  }

  /** r is two bytes which, low byte first, spell v. */
  predicate LittleEndianPair(r: seq<Num>, v: int) {
    && |r| == 2 && r[0].Int? && r[1].Int? && 0 <= r[0].i < 256 && 0 <= r[1].i < 256
    && r[0].i + 256 * r[1].i == v
  }

  /** The operand of an absolute or indirect form is two bytes which, low
      byte first, spell the number written in the operand's four hex
      digits. */
  lemma WordAddress(mode: Mode, s: string)
    requires Matches(mode, s) && Bytes(mode) == 2
    ensures LittleEndianPair(Extract(Addressed(mode), Some(s)), DigitsValue(HexDigits(s), Hexadecimal))
  {
    match mode
    case Absolute =>
      WordField(s, 0, 0);
    case AbsoluteX =>
      IndexSuffix(s, 5);
      WordField(s, 0, 2);
    case AbsoluteY =>
      IndexSuffix(s, 5);
      WordField(s, 0, 2);
    case Indirect =>
      WordField(s, 1, 1);
  }

  /** A four-digit hex field between characters that are not hex digits
      reads as a little-endian pair of bytes. */
  lemma WordField(s: string, left: nat, right: nat)
    requires left + right <= |s| && HexField(Cut(s, left, right), 4)
    requires forall i :: 0 <= i < left ==> !IsHexDigit(s[i])
    requires forall i :: |s| - right <= i < |s| ==> !IsHexDigit(s[i])
    ensures LittleEndianPair(WordBytes(ParseValue(Cut(s, left, right))), DigitsValue(HexDigits(s), Hexadecimal))
  {
    FieldOperand(s, left, right, 4);
    LittleEndian(DigitsValue(HexDigits(s), Hexadecimal));
  }

  /** A hex field between characters that are not hex digits reads as the
      number the operand's hex digits spell. */
  lemma FieldOperand(s: string, left: nat, right: nat, n: nat)
    requires left + right <= |s| && HexField(Cut(s, left, right), n) && (n == 2 || n == 4)
    requires forall i :: 0 <= i < left ==> !IsHexDigit(s[i])
    requires forall i :: |s| - right <= i < |s| ==> !IsHexDigit(s[i])
    ensures ParseValue(Cut(s, left, right)) == Int(DigitsValue(HexDigits(s), Hexadecimal))
    ensures DigitsValue(HexDigits(s), Hexadecimal) < if n == 2 then 0x100 else 0x1_0000
  {
    FieldValue(Cut(s, left, right), n);
    Surrounded(s, left, right);
  }

  lemma NoHexAround(pre: string, mid: string, post: string)
    requires forall i :: 0 <= i < |pre| ==> !IsHexDigit(pre[i])
    requires forall i :: 0 <= i < |post| ==> !IsHexDigit(post[i])
    ensures HexDigits(pre + (mid + post)) == HexDigits(mid)
  {
    HexDigitsAppend(pre, mid + post);
    HexDigitsAppend(mid, post);
    HexDigitsNone(pre);
    HexDigitsNone(post);
    assert HexDigits(mid) + [] == HexDigits(mid);
  }

  lemma ThreeParts(s: string, left: nat, right: nat)
    requires left + right <= |s|
    ensures s == s[..left] + (Cut(s, left, right) + s[|s| - right..])
  {
    assert s[left..] == s[left..|s| - right] + s[|s| - right..];
  }

  /** The characters cut off around a field are not hex digits. */
  lemma Surrounded(s: string, left: nat, right: nat)
    requires left + right <= |s|
    requires forall i :: 0 <= i < left ==> !IsHexDigit(s[i])
    requires forall i :: |s| - right <= i < |s| ==> !IsHexDigit(s[i])
    ensures HexDigits(s) == HexDigits(Cut(s, left, right))
  {
    var pre, mid, post := s[..left], Cut(s, left, right), s[|s| - right..];
    ThreeParts(s, left, right);
    NoHexAround(pre, mid, post);
  }

  // ---- lines as the tests write them ----

  /** A text with neither a newline nor a comment is one line, and its blob
      is that line's group. */
  lemma SingleLineBlob(text: string)
    requires '\n' !in text && ';' !in text
    ensures AssembleBlob(text) == AssembleCode(text)
  {
    TakeWhileAll(text, NotSemicolon);
    OneLineBlob(text);
  }

  lemma OneLineBlob(text: string)
    requires '\n' !in text
    ensures AssembleBlob(text) == AssembleLine(text)
  {
    OneLine(text);
    FlattenSingle(text, AssembleLine);
  }

  lemma FlattenSingle(line: string, encode: string -> Result<seq<Num>, AsmError>)
    ensures (match Collect([line], encode)
             case Failure(e) => Failure(e)
             case Success(groups) => Success(Flatten(groups))) == encode(line)
  {
    CollectSingle(line, encode);
    if encode(line).Success? {
      var g := encode(line).value;
      assert [g][0] == g && [g][1..] == [];
      assert Flatten([g]) == g + Flatten([]);
      assert g + [] == g;
    }
  }

  lemma CollectSingle(line: string, encode: string -> Result<seq<Num>, AsmError>)
    ensures encode(line).Success? ==> Collect([line], encode) == Success([encode(line).value])
    ensures encode(line).Failure? ==> Collect([line], encode) == Failure(encode(line).error)
  {
    var lines := [line];
    assert lines[0] == line && lines[1..] == [];
    assert Collect(lines[1..], encode) == Success([]);
    match encode(line)
    case Failure(e) =>
    case Success(g) =>
      assert [g] + [] == [g];
  }

  /** A line made of an upper-case mnemonic, one space and an operand. */
  lemma SimpleLine(name: string, operand: string)
    requires |name| > 0 && forall i :: 0 <= i < |name| ==> 'A' <= name[i] <= 'Z'
    requires |operand| > 0 && forall i :: 0 <= i < |operand| ==> IsOperandChar(operand[i])
    ensures SplitLine(name + " " + operand) == Some(Parsed(name, Some(operand)))
    ensures Lookup(name) == MnemonicOf(name)
  {
    var line := name + " " + operand;
    assert line[0] == name[0] && IsWordChar(line[0]);
    assert TakeWhile(line, NotWordChar) == [];
    assert forall i :: 0 <= i < |name| ==> line[i] == name[i];
    TakeWhileStops(line, IsWordChar, |name|);
    assert line[..|name|] == name;
    var after := line[|name|..];
    assert after == [' '] + operand;
    TakeWhileStops(after, IsSpace, 1);
    assert after[1..] == operand;
    TakeWhileAll(operand, IsOperandChar);
    UpperOfCapitals(name);
  }

  lemma {:induction false} UpperOfCapitals(s: string)
    requires forall i :: 0 <= i < |s| ==> 'A' <= s[i] <= 'Z'
    ensures Upper(s) == s
  {
    if s != [] {
      UpperOfCapitals(s[1..]);
    }
  }

  /** The variant at k is the first that accepts. */
  lemma FirstVariantIs(vs: seq<(Variant, Byte)>, operand: Option<string>, k: nat)
    requires k < |vs| && Accepts(vs[k].0, operand)
    requires forall j :: 0 <= j < k ==> !Accepts(vs[j].0, operand)
    ensures FirstVariant(vs, operand) == Some(k)
  {
  }

  lemma TwoDigits(s: string)
    requires |s| == 2 && AllHex(s)
    ensures DigitsValue(s, Hexadecimal) == 16 * DigitValue(s[0]) + DigitValue(s[1])
  {
    assert s[..1][..0] == [];
  }

  lemma FourDigits(s: string)
    requires |s| == 4 && AllHex(s)
    ensures DigitsValue(s, Hexadecimal)
         == 4096 * DigitValue(s[0]) + 256 * DigitValue(s[1]) + 16 * DigitValue(s[2]) + DigitValue(s[3])
  {
    TwoDigits(s[..2]);
    assert s[..3][..2] == s[..2];
  }

  /** The group of a line whose mnemonic and first accepting variant are
      known. */
  lemma CodeOf(line: string, parsed: Parsed, mn: Mnemonic, k: nat)
    requires SplitLine(line) == Some(parsed) && Lookup(parsed.mnemonic) == Some(mn)
    requires FirstVariant(Variants(mn), parsed.operand) == Some(k)
    ensures k < |Variants(mn)| && Accepts(Variants(mn)[k].0, parsed.operand)
    ensures AssembleCode(line)
         == Success([Int(Variants(mn)[k].1)] + Extract(Variants(mn)[k].0, parsed.operand))
  {
  }

  /** A one-line program `NAME OPERAND` assembles to the opcode of the
      first variant of NAME that accepts OPERAND, then that operand's bytes. */
  lemma AddressedLine(name: string, operand: string, mn: Mnemonic, k: nat)
    requires |name| > 0 && forall i :: 0 <= i < |name| ==> 'A' <= name[i] <= 'Z'
    requires |operand| > 0 && forall i :: 0 <= i < |operand| ==> IsOperandChar(operand[i])
    requires MnemonicOf(name) == Some(mn)
    requires FirstVariant(Variants(mn), Some(operand)) == Some(k)
    ensures k < |Variants(mn)| && Accepts(Variants(mn)[k].0, Some(operand))
    ensures AssembleBlob(name + " " + operand)
         == Success([Int(Variants(mn)[k].1)] + Extract(Variants(mn)[k].0, Some(operand)))
  {
    var line := name + " " + operand;
    LineChars(name, operand);
    SingleLineBlob(line);
    SimpleLine(name, operand);
    CodeOf(line, Parsed(name, Some(operand)), mn, k);
  }

  lemma LineChars(name: string, operand: string)
    requires forall i :: 0 <= i < |name| ==> 'A' <= name[i] <= 'Z'
    requires forall i :: 0 <= i < |operand| ==> IsOperandChar(operand[i])
    ensures '\n' !in name + " " + operand && ';' !in name + " " + operand
  {
    var line := name + " " + operand;
    forall i | 0 <= i < |line| ensures line[i] != '\n' && line[i] != ';' {
      if i > |name| {
        assert line[i] == operand[i - |name| - 1];
      }
    }
  }

  /** `ADC $hhhh` picks the absolute variant, 0x6D, and emits the word low
      byte first. */
  lemma AdcAbsolute(operand: string)
    requires HexField(operand, 4)
    ensures var r := AssembleBlob("ADC " + operand);
      && r.Success? && |r.value| == 3 && r.value[0] == Int(0x6D)
      && LittleEndianPair(r.value[1..], DigitsValue(operand[1..], Hexadecimal))
  {
    AdcAbsoluteLine(operand);
    WordAddress(Absolute, operand);
    FieldDigits(operand, 4);
    var e := Extract(Addressed(Absolute), Some(operand));
    assert ([Int(0x6D)] + e)[1..] == e;
  }

  lemma AdcAbsoluteLine(operand: string)
    requires HexField(operand, 4)
    ensures AssembleBlob("ADC " + operand)
         == Success([Int(0x6D)] + Extract(Addressed(Absolute), Some(operand)))
  {
    AdcPicksAbsolute(operand);
    HexFieldChars(operand, 4);
    assert "ADC " + operand == "ADC" + " " + operand;
    assert MnemonicOf("ADC") == Some(ADC);
    AddressedLine("ADC", operand, ADC, 3);
  }

  lemma AdcPicksAbsolute(operand: string)
    requires HexField(operand, 4)
    ensures Variants(ADC)[3] == (Addressed(Absolute), 0x6D)
    ensures FirstVariant(Variants(ADC), Some(operand)) == Some(3)
  {
    assert operand[4] == operand[1..][3];
    FirstVariantIs(Variants(ADC), Some(operand), 3);
  }

  lemma HexFieldChars(s: string, n: nat)
    requires HexField(s, n)
    ensures |s| > 0 && forall i :: 0 <= i < |s| ==> IsOperandChar(s[i])
  {
    forall i | 0 <= i < |s| ensures IsOperandChar(s[i]) {
      if i > 0 {
        assert s[i] == s[1..][i - 1];
      }
    }
  }

  /** The test's `ADC $2345`: 0x6D, 0x45, 0x23. */
  lemma AdcAbsoluteExample(text: string)
    requires text == "ADC $2345"
    ensures AssembleBlob(text) == Success([Int(0x6D), Int(0x45), Int(0x23)])
  {
    var operand := text[4..];
    ExampleOperand(text, operand);
    AdcAbsolute(operand);
    SplitWord(AssembleBlob(text).value, 0x2345);
  }

  lemma ExampleOperand(text: string, operand: string)
    requires text == "ADC $2345" && operand == text[4..]
    ensures text == "ADC " + operand && HexField(operand, 4)
    ensures DigitsValue(operand[1..], Hexadecimal) == 0x2345
  {
    assert operand == "$2345";
    var ds := operand[1..];
    assert AllHex(ds);
    FourDigits(ds);
    assert ds[0] == '2' && ds[1] == '3' && ds[2] == '4' && ds[3] == '5';
    assert DigitValue(ds[0]) == 2 && DigitValue(ds[1]) == 3;
    assert DigitValue(ds[2]) == 4 && DigitValue(ds[3]) == 5;
  }

  lemma SplitWord(r: seq<Num>, v: int)
    requires |r| == 3 && r[0] == Int(0x6D) && LittleEndianPair(r[1..], v) && v == 0x2345
    ensures r == [Int(0x6D), Int(0x45), Int(0x23)]
  {
    assert r[1..][0] == r[1] && r[1..][1] == r[2];
  }

  /** `ADC #$hh` picks the immediate variant, 0x69, and emits the byte. */
  lemma AdcImmediate(field: string)
    requires HexField(field, 2)
    ensures AssembleBlob("ADC #" + field)
         == Success([Int(0x69), Int(DigitsValue(field[1..], Hexadecimal))])
  {
    AdcImmediateLine(field);
    ImmediateOperand(field);
    PairOf(Int(0x69), Int(DigitsValue(field[1..], Hexadecimal)));
  }

  /** `#$hh` extracts to the one byte hh spells. */
  lemma ImmediateOperand(field: string)
    requires HexField(field, 2)
    ensures Extract(Addressed(Immediate), Some("#" + field)) == [Int(DigitsValue(field[1..], Hexadecimal))]
  {
    var operand := "#" + field;
    assert Cut(operand, 1, 0) == field;
    assert Extract(Addressed(Immediate), Some(operand)) == [ParseValue(field)];
    FieldValue(field, 2);
  }

  lemma PairOf(a: Num, b: Num)
    ensures [a] + [b] == [a, b]
  {
  }

  lemma AdcImmediateLine(field: string)
    requires HexField(field, 2)
    ensures AssembleBlob("ADC #" + field)
         == Success([Int(0x69)] + Extract(Addressed(Immediate), Some("#" + field)))
  {
    var operand := "#" + field;
    AdcPicksImmediate(field);
    ImmediateChars(field);
    assert "ADC #" + field == "ADC" + " " + operand;
    assert MnemonicOf("ADC") == Some(ADC);
    AddressedLine("ADC", operand, ADC, 0);
  }

  lemma AdcPicksImmediate(field: string)
    requires HexField(field, 2)
    ensures Variants(ADC)[0] == (Addressed(Immediate), 0x69)
    ensures FirstVariant(Variants(ADC), Some("#" + field)) == Some(0)
  {
    var operand := "#" + field;
    assert operand[1..] == field && operand[2..] == field[1..];
    FirstVariantIs(Variants(ADC), Some(operand), 0);
  }

  lemma ImmediateChars(field: string)
    requires HexField(field, 2)
    ensures |"#" + field| > 0 && forall i :: 0 <= i < |"#" + field| ==> IsOperandChar(("#" + field)[i])
  {
    var operand := "#" + field;
    HexFieldChars(field, 2);
    forall i | 0 <= i < |operand| ensures IsOperandChar(operand[i]) {
      if i > 0 {
        assert operand[i] == field[i - 1];
      }
    }
  }

  /** The test's `ADC #$23`: 0x69, 0x23. */
  lemma AdcImmediateExample(text: string)
    requires text == "ADC #$23"
    ensures AssembleBlob(text) == Success([Int(0x69), Int(0x23)])
  {
    var field := text[5..];
    assert text == "ADC #" + field;
    assert field == "$23";
    var ds := field[1..];
    assert AllHex(ds);
    AdcImmediate(field);
    TwoDigits(ds);
    assert ds[0] == '2' && ds[1] == '3';
    assert DigitValue(ds[0]) == 2 && DigitValue(ds[1]) == 3;
  }

  /** The test's `ASL A`: the accumulator variant, 0x0A, with no operand
      bytes. */
  lemma AslAccumulatorExample(text: string)
    requires text == "ASL A"
    ensures AssembleBlob(text) == Success([Int(0x0A)])
  {
    var operand := text[4..];
    assert text == "ASL" + " " + operand;
    assert operand == "A";
    assert Variants(ASL)[0] == (Accumulator, 0x0A);
    FirstVariantIs(Variants(ASL), Some(operand), 0);
    assert MnemonicOf("ASL") == Some(ASL);
    assert IsOperandChar(operand[0]);
    AddressedLine("ASL", operand, ASL, 0);
    assert [Int(0x0A)] + [] == [Int(0x0A)];
  }
}
