// How the assembler's opcode table and the engine's dispatch table relate:
// both are keyed by the same opcode bytes, and for most mnemonics assembling
// a line and then dispatching its opcode runs the handler of that mnemonic
// with the mode the line was written in. The exceptions are stated here as
// well: the compares have no engine entry, JSR is registered without a mode,
// and LDA, STA and LDX bind some indexed opcodes to the other index.

module OpcodeAgreement {
  import opened Wrappers
  import opened JsNumber
  import opened AddressModes
  import opened InstructionTypes
  import opened Instructions
  import A = Assembler
  import Cpu

  /** The engine handler named like an assembler mnemonic. */
  function HandlerOf(mn: A.Mnemonic): Handler {
    match mn
    case ADC => ADC
    case AND => AND
    case ASL => ASL
    case BCC => BCC
    case BCS => BCS
    case BEQ => BEQ
    case BIT => BIT
    case BMI => BMI
    case BNE => BNE
    case BPL => BPL
    case BRK => BRK
    case BVC => BVC
    case BVS => BVS
    case CLC => CLC
    case CLD => CLD
    case CLI => CLI
    case CLV => CLV
    case CMP => CMP
    case CPX => CPX
    case CPY => CPY
    case DEC => DEC
    case DEX => DEX
    case DEY => DEY
    case EOR => EOR
    case INC => INC
    case INX => INX
    case INY => INY
    case JMP => JMP
    case JSR => JSR
    case LDA => LDA
    case LDX => LDX
    case LDY => LDY
    case LSR => LSR
    case NOP => NOP
    case ORA => ORA
    case PHA => PHA
    case PHP => PHP
    case PLA => PLA
    case PLP => PLP
    case ROL => ROL
    case ROR => ROR
    case RTI => RTI
    case RTS => RTS
    case SBC => SBC
    case SEC => SEC
    case SED => SED
    case SEI => SEI
    case STA => STA
    case STX => STX
    case STY => STY
    case TAX => TAX
    case TAY => TAY
    case TSX => TSX
    case TXA => TXA
    case TXS => TXS
    case TYA => TYA
  }

  /** The entry an assembled opcode should dispatch to: the mnemonic's
      handler, with the written mode; the accumulator forms have handlers
      of their own and no mode. */
  function Intended(mn: A.Mnemonic, v: A.Variant): Entry {
    match v
    case Accumulator =>
      Entry(if mn == A.ASL then ASL_A else if mn == A.LSR then LSR_A
            else if mn == A.ROL then ROL_A else if mn == A.ROR then ROR_A
            else HandlerOf(mn), None)
    case Implied => Entry(HandlerOf(mn), None)
    case Addressed(mode) => Entry(HandlerOf(mn), Some(mode))
  }

  /** The assembler's encodings the engine does not run as written. */
  predicate Mismatch(mn: A.Mnemonic, opcode: int) {
    mn in {A.CMP, A.CPX, A.CPY} || opcode in {0x20, 0x99, 0x9D, 0xB6, 0xBE, 0xB9, 0xBD}
  }

  /** Outside the mismatches, an assembled opcode dispatches to its
      mnemonic's handler and mode. */
  lemma Agreement(mn: A.Mnemonic, k: nat)
    requires k < |A.Variants(mn)| && !Mismatch(mn, A.Variants(mn)[k].1)
    ensures Dispatch(A.Variants(mn)[k].1) == Some(Intended(mn, A.Variants(mn)[k].0))
  {
    if mn in {A.ADC, A.AND, A.ASL, A.BCC} {
      AgreementRow1(mn, k);
    } else if mn in {A.BCS, A.BEQ, A.BIT, A.BMI} {
      AgreementRow2(mn, k);
    } else if mn in {A.BNE, A.BPL, A.BRK, A.BVC} {
      AgreementRow3(mn, k);
    } else if mn in {A.BVS, A.CLC, A.CLD, A.CLI} {
      AgreementRow4(mn, k);
    } else if mn in {A.CLV, A.DEC, A.DEX, A.DEY} {
      AgreementRow5(mn, k);
    } else if mn in {A.EOR, A.INC, A.INX, A.INY} {
      AgreementRow6(mn, k);
    } else if mn in {A.JMP, A.LDA, A.LDX, A.LDY} {
      AgreementRow7(mn, k);
    } else if mn in {A.LSR, A.NOP, A.ORA, A.PHA} {
      AgreementRow8(mn, k);
    } else if mn in {A.PHP, A.PLA, A.PLP, A.ROL} {
      AgreementRow9(mn, k);
    } else if mn in {A.ROR, A.RTI, A.RTS, A.SBC} {
      AgreementRow10(mn, k);
    } else if mn in {A.SEC, A.SED, A.SEI, A.STA} {
      AgreementRow11(mn, k);
    } else if mn in {A.STX, A.STY, A.TAX, A.TAY} {
      AgreementRow12(mn, k);
    } else {
      AgreementRow13(mn, k);
    }
  }

  // AgreementRow1 to AgreementRow13 split the check by groups of mnemonics,
  // so that each proof evaluates only a few rows of both tables; one proof
  // over all of them is too costly for the solver.
  lemma AgreementRow1(mn: A.Mnemonic, k: nat)
    requires mn in {A.ADC, A.AND, A.ASL, A.BCC}
    requires k < |A.Variants(mn)| && !Mismatch(mn, A.Variants(mn)[k].1)
    ensures Dispatch(A.Variants(mn)[k].1) == Some(Intended(mn, A.Variants(mn)[k].0))
  {
  }

  lemma AgreementRow2(mn: A.Mnemonic, k: nat)
    requires mn in {A.BCS, A.BEQ, A.BIT, A.BMI}
    requires k < |A.Variants(mn)| && !Mismatch(mn, A.Variants(mn)[k].1)
    ensures Dispatch(A.Variants(mn)[k].1) == Some(Intended(mn, A.Variants(mn)[k].0))
  {
  }

  lemma AgreementRow3(mn: A.Mnemonic, k: nat)
    requires mn in {A.BNE, A.BPL, A.BRK, A.BVC}
    requires k < |A.Variants(mn)| && !Mismatch(mn, A.Variants(mn)[k].1)
    ensures Dispatch(A.Variants(mn)[k].1) == Some(Intended(mn, A.Variants(mn)[k].0))
  {
  }

  lemma AgreementRow4(mn: A.Mnemonic, k: nat)
    requires mn in {A.BVS, A.CLC, A.CLD, A.CLI}
    requires k < |A.Variants(mn)| && !Mismatch(mn, A.Variants(mn)[k].1)
    ensures Dispatch(A.Variants(mn)[k].1) == Some(Intended(mn, A.Variants(mn)[k].0))
  {
  }

  lemma AgreementRow5(mn: A.Mnemonic, k: nat)
    requires mn in {A.CLV, A.DEC, A.DEX, A.DEY}
    requires k < |A.Variants(mn)| && !Mismatch(mn, A.Variants(mn)[k].1)
    ensures Dispatch(A.Variants(mn)[k].1) == Some(Intended(mn, A.Variants(mn)[k].0))
  {
  }

  lemma AgreementRow6(mn: A.Mnemonic, k: nat)
    requires mn in {A.EOR, A.INC, A.INX, A.INY}
    requires k < |A.Variants(mn)| && !Mismatch(mn, A.Variants(mn)[k].1)
    ensures Dispatch(A.Variants(mn)[k].1) == Some(Intended(mn, A.Variants(mn)[k].0))
  {
  }

  lemma AgreementRow7(mn: A.Mnemonic, k: nat)
    requires mn in {A.JMP, A.LDA, A.LDX, A.LDY}
    requires k < |A.Variants(mn)| && !Mismatch(mn, A.Variants(mn)[k].1)
    ensures Dispatch(A.Variants(mn)[k].1) == Some(Intended(mn, A.Variants(mn)[k].0))
  {
  }

  lemma AgreementRow8(mn: A.Mnemonic, k: nat)
    requires mn in {A.LSR, A.NOP, A.ORA, A.PHA}
    requires k < |A.Variants(mn)| && !Mismatch(mn, A.Variants(mn)[k].1)
    ensures Dispatch(A.Variants(mn)[k].1) == Some(Intended(mn, A.Variants(mn)[k].0))
  {
  }

  lemma AgreementRow9(mn: A.Mnemonic, k: nat)
    requires mn in {A.PHP, A.PLA, A.PLP, A.ROL}
    requires k < |A.Variants(mn)| && !Mismatch(mn, A.Variants(mn)[k].1)
    ensures Dispatch(A.Variants(mn)[k].1) == Some(Intended(mn, A.Variants(mn)[k].0))
  {
  }

  lemma AgreementRow10(mn: A.Mnemonic, k: nat)
    requires mn in {A.ROR, A.RTI, A.RTS, A.SBC}
    requires k < |A.Variants(mn)| && !Mismatch(mn, A.Variants(mn)[k].1)
    ensures Dispatch(A.Variants(mn)[k].1) == Some(Intended(mn, A.Variants(mn)[k].0))
  {
  }

  lemma AgreementRow11(mn: A.Mnemonic, k: nat)
    requires mn in {A.SEC, A.SED, A.SEI, A.STA}
    requires k < |A.Variants(mn)| && !Mismatch(mn, A.Variants(mn)[k].1)
    ensures Dispatch(A.Variants(mn)[k].1) == Some(Intended(mn, A.Variants(mn)[k].0))
  {
  }

  lemma AgreementRow12(mn: A.Mnemonic, k: nat)
    requires mn in {A.STX, A.STY, A.TAX, A.TAY}
    requires k < |A.Variants(mn)| && !Mismatch(mn, A.Variants(mn)[k].1)
    ensures Dispatch(A.Variants(mn)[k].1) == Some(Intended(mn, A.Variants(mn)[k].0))
  {
  }

  lemma AgreementRow13(mn: A.Mnemonic, k: nat)
    requires mn in {A.TSX, A.TXA, A.TXS, A.TYA}
    requires k < |A.Variants(mn)| && !Mismatch(mn, A.Variants(mn)[k].1)
    ensures Dispatch(A.Variants(mn)[k].1) == Some(Intended(mn, A.Variants(mn)[k].0))
  {
  }

  /** Assembling a line and dispatching the opcode it starts with runs the
      line's mnemonic in the line's mode, unless the encoding is one of the
      mismatches. */
  lemma AssembleThenDispatch(lineRaw: string)
    requires A.AssembleLine(lineRaw).Success? && A.AssembleLine(lineRaw).value != []
    ensures var g := A.AssembleLine(lineRaw).value;
      g[0].Int? && A.Decode(g[0].i).Some?
    ensures var g := A.AssembleLine(lineRaw).value;
      var d := A.Decode(g[0].i).value;
      !Mismatch(d.0, g[0].i) ==> Dispatch(g[0].i) == Some(Intended(d.0, d.1))
  {
    var parsed := A.SplitLine(A.StripComment(lineRaw)).value;
    var mn := A.Lookup(parsed.mnemonic).value;
    var k := A.FirstVariant(A.Variants(mn), parsed.operand).value;
    assert A.AssembleLine(lineRaw).value[0] == Int(A.Variants(mn)[k].1);
    A.DecodeInverts(mn, k);
    if !Mismatch(mn, A.Variants(mn)[k].1) {
      Agreement(mn, k);
    }
  }

  /** The test program `ADC $2345`, assembled and loaded into a fresh
      engine, stops after one tick with only the program counter moved, to
      just past the three bytes. */
  lemma AssembleThenRun(text: string)
    requires text == "ADC $2345"
    ensures A.AssembleBlob(text) == Success([Int(0x6D), Int(0x45), Int(0x23)])
    ensures var m := Cpu.Booted(A.AssembleBlob(text).value);
      Cpu.RunSpec(Cpu.Ticker(TABLE), m, 0, 1) == Cpu.Stopped(m.(programCounter := Int(0x203)))
  {
    A.AdcAbsoluteExample(text);
    Cpu.AddAbsolute();
  }

  /** On the mismatches the engine runs something else, so together with
      `Agreement` an assembled opcode dispatches as written exactly when it
      is not a mismatch. */
  lemma Disagreement(mn: A.Mnemonic, k: nat)
    requires k < |A.Variants(mn)| && Mismatch(mn, A.Variants(mn)[k].1)
    ensures Dispatch(A.Variants(mn)[k].1) != Some(Intended(mn, A.Variants(mn)[k].0))
  {
    var opcode := A.Variants(mn)[k].1;
    A.DecodeInverts(mn, k);
    if mn in {A.CMP, A.CPX, A.CPY} {
      CompareUnregistered(mn, k);
    } else {
      Mismatched(opcode);
    }
  }

  /** The encodings the assembler gives CMP, CPX and CPY have no entry. */
  lemma CompareUnregistered(mn: A.Mnemonic, k: nat)
    requires mn in {A.CMP, A.CPX, A.CPY} && k < |A.Variants(mn)|
    ensures Dispatch(A.Variants(mn)[k].1) == None
  {
  }

  /** What each of the other mismatched opcodes means to each side. */
  lemma Mismatched(opcode: int)
    requires opcode in {0x20, 0x99, 0x9D, 0xB6, 0xBE, 0xB9, 0xBD}
    ensures A.Decode(opcode).Some? && Dispatch(opcode).Some?
    ensures Intended(A.Decode(opcode).value.0, A.Decode(opcode).value.1) != Dispatch(opcode).value
  {
    SwappedIndexes();
  }

  /** JSR is registered without a mode; LDA and STA bind their
      absolute-indexed opcodes to the other index register, and LDX binds the
      opcodes the assembler writes with X to Y. */
  lemma SwappedIndexes()
    ensures A.Decode(0x20) == Some((A.JSR, A.Addressed(Absolute))) && Dispatch(0x20) == Some(Entry(JSR, None))
    ensures A.Decode(0xBD) == Some((A.LDA, A.Addressed(AbsoluteX))) && Dispatch(0xBD) == Some(Entry(LDA, Some(AbsoluteY)))
    ensures A.Decode(0xB9) == Some((A.LDA, A.Addressed(AbsoluteY))) && Dispatch(0xB9) == Some(Entry(LDA, Some(AbsoluteX)))
    ensures A.Decode(0x9D) == Some((A.STA, A.Addressed(AbsoluteX))) && Dispatch(0x9D) == Some(Entry(STA, Some(AbsoluteY)))
    ensures A.Decode(0x99) == Some((A.STA, A.Addressed(AbsoluteY))) && Dispatch(0x99) == Some(Entry(STA, Some(AbsoluteX)))
    ensures A.Decode(0xB6) == Some((A.LDX, A.Addressed(ZeroPageX))) && Dispatch(0xB6) == Some(Entry(LDX, Some(ZeroPageY)))
    ensures A.Decode(0xBE) == Some((A.LDX, A.Addressed(AbsoluteX))) && Dispatch(0xBE) == Some(Entry(LDX, Some(AbsoluteY)))
  {
  }

  /** The other way round: every opcode the engine registers, outside the
      mismatches, is one the assembler emits for the handler's mnemonic
      and the entry's mode. */
  lemma EngineAgrees(opcode: int)
    requires Dispatch(opcode).Some? && opcode !in {0x20, 0x99, 0x9D, 0xB6, 0xBE, 0xB9, 0xBD}
    ensures A.Decode(opcode).Some?
    ensures Intended(A.Decode(opcode).value.0, A.Decode(opcode).value.1) == Dispatch(opcode).value
  {
    var high, low := opcode / 16, opcode % 16;
    EngineRow(high, low);
  }

  lemma EngineRow(high: int, low: int)
    requires 0 <= high < 16 && 0 <= low < 16 && DispatchCell(high, low).Some?
    requires 16 * high + low !in {0x20, 0x99, 0x9D, 0xB6, 0xBE, 0xB9, 0xBD}
    ensures A.DecodeCell(high, low).Some?
    ensures Intended(A.DecodeCell(high, low).value.0, A.DecodeCell(high, low).value.1)
         == DispatchCell(high, low).value
  {
    var quarter := low / 4;
    if high == 0x0 && quarter == 0 {
      EngineCells00(low);
    } else if high == 0x0 && quarter == 1 {
      EngineCells01(low);
    } else if high == 0x0 && quarter == 2 {
      EngineCells02(low);
    } else if high == 0x0 && quarter == 3 {
      EngineCells03(low);
    } else if high == 0x1 && quarter == 0 {
      EngineCells10(low);
    } else if high == 0x1 && quarter == 1 {
      EngineCells11(low);
    } else if high == 0x1 && quarter == 2 {
      EngineCells12(low);
    } else if high == 0x1 && quarter == 3 {
      EngineCells13(low);
    } else if high == 0x2 && quarter == 0 {
      EngineCells20(low);
    } else if high == 0x2 && quarter == 1 {
      EngineCells21(low);
    } else if high == 0x2 && quarter == 2 {
      EngineCells22(low);
    } else if high == 0x2 && quarter == 3 {
      EngineCells23(low);
    } else if high == 0x3 && quarter == 0 {
      EngineCells30(low);
    } else if high == 0x3 && quarter == 1 {
      EngineCells31(low);
    } else if high == 0x3 && quarter == 2 {
      EngineCells32(low);
    } else if high == 0x3 && quarter == 3 {
      EngineCells33(low);
    } else if high == 0x4 && quarter == 0 {
      EngineCells40(low);
    } else if high == 0x4 && quarter == 1 {
      EngineCells41(low);
    } else if high == 0x4 && quarter == 2 {
      EngineCells42(low);
    } else if high == 0x4 && quarter == 3 {
      EngineCells43(low);
    } else if high == 0x5 && quarter == 0 {
      EngineCells50(low);
    } else if high == 0x5 && quarter == 1 {
      EngineCells51(low);
    } else if high == 0x5 && quarter == 2 {
      EngineCells52(low);
    } else if high == 0x5 && quarter == 3 {
      EngineCells53(low);
    } else if high == 0x6 && quarter == 0 {
      EngineCells60(low);
    } else if high == 0x6 && quarter == 1 {
      EngineCells61(low);
    } else if high == 0x6 && quarter == 2 {
      EngineCells62(low);
    } else if high == 0x6 && quarter == 3 {
      EngineCells63(low);
    } else if high == 0x7 && quarter == 0 {
      EngineCells70(low);
    } else if high == 0x7 && quarter == 1 {
      EngineCells71(low);
    } else if high == 0x7 && quarter == 2 {
      EngineCells72(low);
    } else if high == 0x7 && quarter == 3 {
      EngineCells73(low);
    } else if high == 0x8 && quarter == 0 {
      EngineCells80(low);
    } else if high == 0x8 && quarter == 1 {
      EngineCells81(low);
    } else if high == 0x8 && quarter == 2 {
      EngineCells82(low);
    } else if high == 0x8 && quarter == 3 {
      EngineCells83(low);
    } else if high == 0x9 && quarter == 0 {
      EngineCells90(low);
    } else if high == 0x9 && quarter == 1 {
      EngineCells91(low);
    } else if high == 0x9 && quarter == 2 {
      EngineCells92(low);
    } else if high == 0x9 && quarter == 3 {
      assert false;
    } else if high == 0xA && quarter == 0 {
      EngineCellsA0(low);
    } else if high == 0xA && quarter == 1 {
      EngineCellsA1(low);
    } else if high == 0xA && quarter == 2 {
      EngineCellsA2(low);
    } else if high == 0xA && quarter == 3 {
      EngineCellsA3(low);
    } else if high == 0xB && quarter == 0 {
      EngineCellsB0(low);
    } else if high == 0xB && quarter == 1 {
      EngineCellsB1(low);
    } else if high == 0xB && quarter == 2 {
      EngineCellsB2(low);
    } else if high == 0xB && quarter == 3 {
      EngineCellsB3(low);
    } else if high == 0xC && quarter == 0 {
      assert false;
    } else if high == 0xC && quarter == 1 {
      EngineCellsC1(low);
    } else if high == 0xC && quarter == 2 {
      EngineCellsC2(low);
    } else if high == 0xC && quarter == 3 {
      EngineCellsC3(low);
    } else if high == 0xD && quarter == 0 {
      EngineCellsD0(low);
    } else if high == 0xD && quarter == 1 {
      EngineCellsD1(low);
    } else if high == 0xD && quarter == 2 {
      EngineCellsD2(low);
    } else if high == 0xD && quarter == 3 {
      EngineCellsD3(low);
    } else if high == 0xE && quarter == 0 {
      EngineCellsE0(low);
    } else if high == 0xE && quarter == 1 {
      EngineCellsE1(low);
    } else if high == 0xE && quarter == 2 {
      EngineCellsE2(low);
    } else if high == 0xE && quarter == 3 {
      EngineCellsE3(low);
    } else if high == 0xF && quarter == 0 {
      EngineCellsF0(low);
    } else if high == 0xF && quarter == 1 {
      EngineCellsF1(low);
    } else if high == 0xF && quarter == 2 {
      EngineCellsF2(low);
    } else {
      EngineCellsF3(low);
    }
  }

  // EngineCells00 to EngineCellsF3 each take a quarter row of the grid
  // (four opcodes), so that each proof evaluates only four cells of both
  // tables; larger pieces are too costly for the solver.
  lemma EngineCells00(low: int)
    requires 0 <= low < 4 && DispatchCell(0x0, low).Some?
    requires 0x00 + low !in {0x20, 0x99, 0x9D, 0xB6, 0xBE, 0xB9, 0xBD}
    ensures A.DecodeCell(0x0, low).Some?
    ensures Intended(A.DecodeCell(0x0, low).value.0, A.DecodeCell(0x0, low).value.1)
         == DispatchCell(0x0, low).value
  {
  }

  lemma EngineCells01(low: int)
    requires 4 <= low < 8 && DispatchCell(0x0, low).Some?
    requires 0x00 + low !in {0x20, 0x99, 0x9D, 0xB6, 0xBE, 0xB9, 0xBD}
    ensures A.DecodeCell(0x0, low).Some?
    ensures Intended(A.DecodeCell(0x0, low).value.0, A.DecodeCell(0x0, low).value.1)
         == DispatchCell(0x0, low).value
  {
  }

  lemma EngineCells02(low: int)
    requires 8 <= low < 12 && DispatchCell(0x0, low).Some?
    requires 0x00 + low !in {0x20, 0x99, 0x9D, 0xB6, 0xBE, 0xB9, 0xBD}
    ensures A.DecodeCell(0x0, low).Some?
    ensures Intended(A.DecodeCell(0x0, low).value.0, A.DecodeCell(0x0, low).value.1)
         == DispatchCell(0x0, low).value
  {
  }

  lemma EngineCells03(low: int)
    requires 12 <= low < 16 && DispatchCell(0x0, low).Some?
    requires 0x00 + low !in {0x20, 0x99, 0x9D, 0xB6, 0xBE, 0xB9, 0xBD}
    ensures A.DecodeCell(0x0, low).Some?
    ensures Intended(A.DecodeCell(0x0, low).value.0, A.DecodeCell(0x0, low).value.1)
         == DispatchCell(0x0, low).value
  {
  }

  lemma EngineCells10(low: int)
    requires 0 <= low < 4 && DispatchCell(0x1, low).Some?
    requires 0x10 + low !in {0x20, 0x99, 0x9D, 0xB6, 0xBE, 0xB9, 0xBD}
    ensures A.DecodeCell(0x1, low).Some?
    ensures Intended(A.DecodeCell(0x1, low).value.0, A.DecodeCell(0x1, low).value.1)
         == DispatchCell(0x1, low).value
  {
  }

  lemma EngineCells11(low: int)
    requires 4 <= low < 8 && DispatchCell(0x1, low).Some?
    requires 0x10 + low !in {0x20, 0x99, 0x9D, 0xB6, 0xBE, 0xB9, 0xBD}
    ensures A.DecodeCell(0x1, low).Some?
    ensures Intended(A.DecodeCell(0x1, low).value.0, A.DecodeCell(0x1, low).value.1)
         == DispatchCell(0x1, low).value
  {
  }

  lemma EngineCells12(low: int)
    requires 8 <= low < 12 && DispatchCell(0x1, low).Some?
    requires 0x10 + low !in {0x20, 0x99, 0x9D, 0xB6, 0xBE, 0xB9, 0xBD}
    ensures A.DecodeCell(0x1, low).Some?
    ensures Intended(A.DecodeCell(0x1, low).value.0, A.DecodeCell(0x1, low).value.1)
         == DispatchCell(0x1, low).value
  {
  }

  lemma EngineCells13(low: int)
    requires 12 <= low < 16 && DispatchCell(0x1, low).Some?
    requires 0x10 + low !in {0x20, 0x99, 0x9D, 0xB6, 0xBE, 0xB9, 0xBD}
    ensures A.DecodeCell(0x1, low).Some?
    ensures Intended(A.DecodeCell(0x1, low).value.0, A.DecodeCell(0x1, low).value.1)
         == DispatchCell(0x1, low).value
  {
  }

  lemma EngineCells20(low: int)
    requires 0 <= low < 4 && DispatchCell(0x2, low).Some?
    requires 0x20 + low !in {0x20, 0x99, 0x9D, 0xB6, 0xBE, 0xB9, 0xBD}
    ensures A.DecodeCell(0x2, low).Some?
    ensures Intended(A.DecodeCell(0x2, low).value.0, A.DecodeCell(0x2, low).value.1)
         == DispatchCell(0x2, low).value
  {
  }

  lemma EngineCells21(low: int)
    requires 4 <= low < 8 && DispatchCell(0x2, low).Some?
    requires 0x20 + low !in {0x20, 0x99, 0x9D, 0xB6, 0xBE, 0xB9, 0xBD}
    ensures A.DecodeCell(0x2, low).Some?
    ensures Intended(A.DecodeCell(0x2, low).value.0, A.DecodeCell(0x2, low).value.1)
         == DispatchCell(0x2, low).value
  {
  }

  lemma EngineCells22(low: int)
    requires 8 <= low < 12 && DispatchCell(0x2, low).Some?
    requires 0x20 + low !in {0x20, 0x99, 0x9D, 0xB6, 0xBE, 0xB9, 0xBD}
    ensures A.DecodeCell(0x2, low).Some?
    ensures Intended(A.DecodeCell(0x2, low).value.0, A.DecodeCell(0x2, low).value.1)
         == DispatchCell(0x2, low).value
  {
  }

  lemma EngineCells23(low: int)
    requires 12 <= low < 16 && DispatchCell(0x2, low).Some?
    requires 0x20 + low !in {0x20, 0x99, 0x9D, 0xB6, 0xBE, 0xB9, 0xBD}
    ensures A.DecodeCell(0x2, low).Some?
    ensures Intended(A.DecodeCell(0x2, low).value.0, A.DecodeCell(0x2, low).value.1)
         == DispatchCell(0x2, low).value
  {
  }

  lemma EngineCells30(low: int)
    requires 0 <= low < 4 && DispatchCell(0x3, low).Some?
    requires 0x30 + low !in {0x20, 0x99, 0x9D, 0xB6, 0xBE, 0xB9, 0xBD}
    ensures A.DecodeCell(0x3, low).Some?
    ensures Intended(A.DecodeCell(0x3, low).value.0, A.DecodeCell(0x3, low).value.1)
         == DispatchCell(0x3, low).value
  {
  }

  lemma EngineCells31(low: int)
    requires 4 <= low < 8 && DispatchCell(0x3, low).Some?
    requires 0x30 + low !in {0x20, 0x99, 0x9D, 0xB6, 0xBE, 0xB9, 0xBD}
    ensures A.DecodeCell(0x3, low).Some?
    ensures Intended(A.DecodeCell(0x3, low).value.0, A.DecodeCell(0x3, low).value.1)
         == DispatchCell(0x3, low).value
  {
  }

  lemma EngineCells32(low: int)
    requires 8 <= low < 12 && DispatchCell(0x3, low).Some?
    requires 0x30 + low !in {0x20, 0x99, 0x9D, 0xB6, 0xBE, 0xB9, 0xBD}
    ensures A.DecodeCell(0x3, low).Some?
    ensures Intended(A.DecodeCell(0x3, low).value.0, A.DecodeCell(0x3, low).value.1)
         == DispatchCell(0x3, low).value
  {
  }

  lemma EngineCells33(low: int)
    requires 12 <= low < 16 && DispatchCell(0x3, low).Some?
    requires 0x30 + low !in {0x20, 0x99, 0x9D, 0xB6, 0xBE, 0xB9, 0xBD}
    ensures A.DecodeCell(0x3, low).Some?
    ensures Intended(A.DecodeCell(0x3, low).value.0, A.DecodeCell(0x3, low).value.1)
         == DispatchCell(0x3, low).value
  {
  }

  lemma EngineCells40(low: int)
    requires 0 <= low < 4 && DispatchCell(0x4, low).Some?
    requires 0x40 + low !in {0x20, 0x99, 0x9D, 0xB6, 0xBE, 0xB9, 0xBD}
    ensures A.DecodeCell(0x4, low).Some?
    ensures Intended(A.DecodeCell(0x4, low).value.0, A.DecodeCell(0x4, low).value.1)
         == DispatchCell(0x4, low).value
  {
  }

  lemma EngineCells41(low: int)
    requires 4 <= low < 8 && DispatchCell(0x4, low).Some?
    requires 0x40 + low !in {0x20, 0x99, 0x9D, 0xB6, 0xBE, 0xB9, 0xBD}
    ensures A.DecodeCell(0x4, low).Some?
    ensures Intended(A.DecodeCell(0x4, low).value.0, A.DecodeCell(0x4, low).value.1)
         == DispatchCell(0x4, low).value
  {
  }

  lemma EngineCells42(low: int)
    requires 8 <= low < 12 && DispatchCell(0x4, low).Some?
    requires 0x40 + low !in {0x20, 0x99, 0x9D, 0xB6, 0xBE, 0xB9, 0xBD}
    ensures A.DecodeCell(0x4, low).Some?
    ensures Intended(A.DecodeCell(0x4, low).value.0, A.DecodeCell(0x4, low).value.1)
         == DispatchCell(0x4, low).value
  {
  }

  lemma EngineCells43(low: int)
    requires 12 <= low < 16 && DispatchCell(0x4, low).Some?
    requires 0x40 + low !in {0x20, 0x99, 0x9D, 0xB6, 0xBE, 0xB9, 0xBD}
    ensures A.DecodeCell(0x4, low).Some?
    ensures Intended(A.DecodeCell(0x4, low).value.0, A.DecodeCell(0x4, low).value.1)
         == DispatchCell(0x4, low).value
  {
  }

  lemma EngineCells50(low: int)
    requires 0 <= low < 4 && DispatchCell(0x5, low).Some?
    requires 0x50 + low !in {0x20, 0x99, 0x9D, 0xB6, 0xBE, 0xB9, 0xBD}
    ensures A.DecodeCell(0x5, low).Some?
    ensures Intended(A.DecodeCell(0x5, low).value.0, A.DecodeCell(0x5, low).value.1)
         == DispatchCell(0x5, low).value
  {
  }

  lemma EngineCells51(low: int)
    requires 4 <= low < 8 && DispatchCell(0x5, low).Some?
    requires 0x50 + low !in {0x20, 0x99, 0x9D, 0xB6, 0xBE, 0xB9, 0xBD}
    ensures A.DecodeCell(0x5, low).Some?
    ensures Intended(A.DecodeCell(0x5, low).value.0, A.DecodeCell(0x5, low).value.1)
         == DispatchCell(0x5, low).value
  {
  }

  lemma EngineCells52(low: int)
    requires 8 <= low < 12 && DispatchCell(0x5, low).Some?
    requires 0x50 + low !in {0x20, 0x99, 0x9D, 0xB6, 0xBE, 0xB9, 0xBD}
    ensures A.DecodeCell(0x5, low).Some?
    ensures Intended(A.DecodeCell(0x5, low).value.0, A.DecodeCell(0x5, low).value.1)
         == DispatchCell(0x5, low).value
  {
  }

  lemma EngineCells53(low: int)
    requires 12 <= low < 16 && DispatchCell(0x5, low).Some?
    requires 0x50 + low !in {0x20, 0x99, 0x9D, 0xB6, 0xBE, 0xB9, 0xBD}
    ensures A.DecodeCell(0x5, low).Some?
    ensures Intended(A.DecodeCell(0x5, low).value.0, A.DecodeCell(0x5, low).value.1)
         == DispatchCell(0x5, low).value
  {
  }

  lemma EngineCells60(low: int)
    requires 0 <= low < 4 && DispatchCell(0x6, low).Some?
    requires 0x60 + low !in {0x20, 0x99, 0x9D, 0xB6, 0xBE, 0xB9, 0xBD}
    ensures A.DecodeCell(0x6, low).Some?
    ensures Intended(A.DecodeCell(0x6, low).value.0, A.DecodeCell(0x6, low).value.1)
         == DispatchCell(0x6, low).value
  {
  }

  lemma EngineCells61(low: int)
    requires 4 <= low < 8 && DispatchCell(0x6, low).Some?
    requires 0x60 + low !in {0x20, 0x99, 0x9D, 0xB6, 0xBE, 0xB9, 0xBD}
    ensures A.DecodeCell(0x6, low).Some?
    ensures Intended(A.DecodeCell(0x6, low).value.0, A.DecodeCell(0x6, low).value.1)
         == DispatchCell(0x6, low).value
  {
  }

  lemma EngineCells62(low: int)
    requires 8 <= low < 12 && DispatchCell(0x6, low).Some?
    requires 0x60 + low !in {0x20, 0x99, 0x9D, 0xB6, 0xBE, 0xB9, 0xBD}
    ensures A.DecodeCell(0x6, low).Some?
    ensures Intended(A.DecodeCell(0x6, low).value.0, A.DecodeCell(0x6, low).value.1)
         == DispatchCell(0x6, low).value
  {
  }

  lemma EngineCells63(low: int)
    requires 12 <= low < 16 && DispatchCell(0x6, low).Some?
    requires 0x60 + low !in {0x20, 0x99, 0x9D, 0xB6, 0xBE, 0xB9, 0xBD}
    ensures A.DecodeCell(0x6, low).Some?
    ensures Intended(A.DecodeCell(0x6, low).value.0, A.DecodeCell(0x6, low).value.1)
         == DispatchCell(0x6, low).value
  {
  }

  lemma EngineCells70(low: int)
    requires 0 <= low < 4 && DispatchCell(0x7, low).Some?
    requires 0x70 + low !in {0x20, 0x99, 0x9D, 0xB6, 0xBE, 0xB9, 0xBD}
    ensures A.DecodeCell(0x7, low).Some?
    ensures Intended(A.DecodeCell(0x7, low).value.0, A.DecodeCell(0x7, low).value.1)
         == DispatchCell(0x7, low).value
  {
  }

  lemma EngineCells71(low: int)
    requires 4 <= low < 8 && DispatchCell(0x7, low).Some?
    requires 0x70 + low !in {0x20, 0x99, 0x9D, 0xB6, 0xBE, 0xB9, 0xBD}
    ensures A.DecodeCell(0x7, low).Some?
    ensures Intended(A.DecodeCell(0x7, low).value.0, A.DecodeCell(0x7, low).value.1)
         == DispatchCell(0x7, low).value
  {
  }

  lemma EngineCells72(low: int)
    requires 8 <= low < 12 && DispatchCell(0x7, low).Some?
    requires 0x70 + low !in {0x20, 0x99, 0x9D, 0xB6, 0xBE, 0xB9, 0xBD}
    ensures A.DecodeCell(0x7, low).Some?
    ensures Intended(A.DecodeCell(0x7, low).value.0, A.DecodeCell(0x7, low).value.1)
         == DispatchCell(0x7, low).value
  {
  }

  lemma EngineCells73(low: int)
    requires 12 <= low < 16 && DispatchCell(0x7, low).Some?
    requires 0x70 + low !in {0x20, 0x99, 0x9D, 0xB6, 0xBE, 0xB9, 0xBD}
    ensures A.DecodeCell(0x7, low).Some?
    ensures Intended(A.DecodeCell(0x7, low).value.0, A.DecodeCell(0x7, low).value.1)
         == DispatchCell(0x7, low).value
  {
  }

  lemma EngineCells80(low: int)
    requires 0 <= low < 4 && DispatchCell(0x8, low).Some?
    requires 0x80 + low !in {0x20, 0x99, 0x9D, 0xB6, 0xBE, 0xB9, 0xBD}
    ensures A.DecodeCell(0x8, low).Some?
    ensures Intended(A.DecodeCell(0x8, low).value.0, A.DecodeCell(0x8, low).value.1)
         == DispatchCell(0x8, low).value
  {
  }

  lemma EngineCells81(low: int)
    requires 4 <= low < 8 && DispatchCell(0x8, low).Some?
    requires 0x80 + low !in {0x20, 0x99, 0x9D, 0xB6, 0xBE, 0xB9, 0xBD}
    ensures A.DecodeCell(0x8, low).Some?
    ensures Intended(A.DecodeCell(0x8, low).value.0, A.DecodeCell(0x8, low).value.1)
         == DispatchCell(0x8, low).value
  {
  }

  lemma EngineCells82(low: int)
    requires 8 <= low < 12 && DispatchCell(0x8, low).Some?
    requires 0x80 + low !in {0x20, 0x99, 0x9D, 0xB6, 0xBE, 0xB9, 0xBD}
    ensures A.DecodeCell(0x8, low).Some?
    ensures Intended(A.DecodeCell(0x8, low).value.0, A.DecodeCell(0x8, low).value.1)
         == DispatchCell(0x8, low).value
  {
  }

  lemma EngineCells83(low: int)
    requires 12 <= low < 16 && DispatchCell(0x8, low).Some?
    requires 0x80 + low !in {0x20, 0x99, 0x9D, 0xB6, 0xBE, 0xB9, 0xBD}
    ensures A.DecodeCell(0x8, low).Some?
    ensures Intended(A.DecodeCell(0x8, low).value.0, A.DecodeCell(0x8, low).value.1)
         == DispatchCell(0x8, low).value
  {
  }

  lemma EngineCells90(low: int)
    requires 0 <= low < 4 && DispatchCell(0x9, low).Some?
    requires 0x90 + low !in {0x20, 0x99, 0x9D, 0xB6, 0xBE, 0xB9, 0xBD}
    ensures A.DecodeCell(0x9, low).Some?
    ensures Intended(A.DecodeCell(0x9, low).value.0, A.DecodeCell(0x9, low).value.1)
         == DispatchCell(0x9, low).value
  {
  }

  lemma EngineCells91(low: int)
    requires 4 <= low < 8 && DispatchCell(0x9, low).Some?
    requires 0x90 + low !in {0x20, 0x99, 0x9D, 0xB6, 0xBE, 0xB9, 0xBD}
    ensures A.DecodeCell(0x9, low).Some?
    ensures Intended(A.DecodeCell(0x9, low).value.0, A.DecodeCell(0x9, low).value.1)
         == DispatchCell(0x9, low).value
  {
  }

  lemma EngineCells92(low: int)
    requires 8 <= low < 12 && DispatchCell(0x9, low).Some?
    requires 0x90 + low !in {0x20, 0x99, 0x9D, 0xB6, 0xBE, 0xB9, 0xBD}
    ensures A.DecodeCell(0x9, low).Some?
    ensures Intended(A.DecodeCell(0x9, low).value.0, A.DecodeCell(0x9, low).value.1)
         == DispatchCell(0x9, low).value
  {
  }

  lemma EngineCellsA0(low: int)
    requires 0 <= low < 4 && DispatchCell(0xA, low).Some?
    requires 0xA0 + low !in {0x20, 0x99, 0x9D, 0xB6, 0xBE, 0xB9, 0xBD}
    ensures A.DecodeCell(0xA, low).Some?
    ensures Intended(A.DecodeCell(0xA, low).value.0, A.DecodeCell(0xA, low).value.1)
         == DispatchCell(0xA, low).value
  {
  }

  lemma EngineCellsA1(low: int)
    requires 4 <= low < 8 && DispatchCell(0xA, low).Some?
    requires 0xA0 + low !in {0x20, 0x99, 0x9D, 0xB6, 0xBE, 0xB9, 0xBD}
    ensures A.DecodeCell(0xA, low).Some?
    ensures Intended(A.DecodeCell(0xA, low).value.0, A.DecodeCell(0xA, low).value.1)
         == DispatchCell(0xA, low).value
  {
  }

  lemma EngineCellsA2(low: int)
    requires 8 <= low < 12 && DispatchCell(0xA, low).Some?
    requires 0xA0 + low !in {0x20, 0x99, 0x9D, 0xB6, 0xBE, 0xB9, 0xBD}
    ensures A.DecodeCell(0xA, low).Some?
    ensures Intended(A.DecodeCell(0xA, low).value.0, A.DecodeCell(0xA, low).value.1)
         == DispatchCell(0xA, low).value
  {
  }

  lemma EngineCellsA3(low: int)
    requires 12 <= low < 16 && DispatchCell(0xA, low).Some?
    requires 0xA0 + low !in {0x20, 0x99, 0x9D, 0xB6, 0xBE, 0xB9, 0xBD}
    ensures A.DecodeCell(0xA, low).Some?
    ensures Intended(A.DecodeCell(0xA, low).value.0, A.DecodeCell(0xA, low).value.1)
         == DispatchCell(0xA, low).value
  {
  }

  lemma EngineCellsB0(low: int)
    requires 0 <= low < 4 && DispatchCell(0xB, low).Some?
    requires 0xB0 + low !in {0x20, 0x99, 0x9D, 0xB6, 0xBE, 0xB9, 0xBD}
    ensures A.DecodeCell(0xB, low).Some?
    ensures Intended(A.DecodeCell(0xB, low).value.0, A.DecodeCell(0xB, low).value.1)
         == DispatchCell(0xB, low).value
  {
  }

  lemma EngineCellsB1(low: int)
    requires 4 <= low < 8 && DispatchCell(0xB, low).Some?
    requires 0xB0 + low !in {0x20, 0x99, 0x9D, 0xB6, 0xBE, 0xB9, 0xBD}
    ensures A.DecodeCell(0xB, low).Some?
    ensures Intended(A.DecodeCell(0xB, low).value.0, A.DecodeCell(0xB, low).value.1)
         == DispatchCell(0xB, low).value
  {
  }

  lemma EngineCellsB2(low: int)
    requires 8 <= low < 12 && DispatchCell(0xB, low).Some?
    requires 0xB0 + low !in {0x20, 0x99, 0x9D, 0xB6, 0xBE, 0xB9, 0xBD}
    ensures A.DecodeCell(0xB, low).Some?
    ensures Intended(A.DecodeCell(0xB, low).value.0, A.DecodeCell(0xB, low).value.1)
         == DispatchCell(0xB, low).value
  {
  }

  lemma EngineCellsB3(low: int)
    requires 12 <= low < 16 && DispatchCell(0xB, low).Some?
    requires 0xB0 + low !in {0x20, 0x99, 0x9D, 0xB6, 0xBE, 0xB9, 0xBD}
    ensures A.DecodeCell(0xB, low).Some?
    ensures Intended(A.DecodeCell(0xB, low).value.0, A.DecodeCell(0xB, low).value.1)
         == DispatchCell(0xB, low).value
  {
  }

  lemma EngineCellsC1(low: int)
    requires 4 <= low < 8 && DispatchCell(0xC, low).Some?
    requires 0xC0 + low !in {0x20, 0x99, 0x9D, 0xB6, 0xBE, 0xB9, 0xBD}
    ensures A.DecodeCell(0xC, low).Some?
    ensures Intended(A.DecodeCell(0xC, low).value.0, A.DecodeCell(0xC, low).value.1)
         == DispatchCell(0xC, low).value
  {
  }

  lemma EngineCellsC2(low: int)
    requires 8 <= low < 12 && DispatchCell(0xC, low).Some?
    requires 0xC0 + low !in {0x20, 0x99, 0x9D, 0xB6, 0xBE, 0xB9, 0xBD}
    ensures A.DecodeCell(0xC, low).Some?
    ensures Intended(A.DecodeCell(0xC, low).value.0, A.DecodeCell(0xC, low).value.1)
         == DispatchCell(0xC, low).value
  {
  }

  lemma EngineCellsC3(low: int)
    requires 12 <= low < 16 && DispatchCell(0xC, low).Some?
    requires 0xC0 + low !in {0x20, 0x99, 0x9D, 0xB6, 0xBE, 0xB9, 0xBD}
    ensures A.DecodeCell(0xC, low).Some?
    ensures Intended(A.DecodeCell(0xC, low).value.0, A.DecodeCell(0xC, low).value.1)
         == DispatchCell(0xC, low).value
  {
  }

  lemma EngineCellsD0(low: int)
    requires 0 <= low < 4 && DispatchCell(0xD, low).Some?
    requires 0xD0 + low !in {0x20, 0x99, 0x9D, 0xB6, 0xBE, 0xB9, 0xBD}
    ensures A.DecodeCell(0xD, low).Some?
    ensures Intended(A.DecodeCell(0xD, low).value.0, A.DecodeCell(0xD, low).value.1)
         == DispatchCell(0xD, low).value
  {
  }

  lemma EngineCellsD1(low: int)
    requires 4 <= low < 8 && DispatchCell(0xD, low).Some?
    requires 0xD0 + low !in {0x20, 0x99, 0x9D, 0xB6, 0xBE, 0xB9, 0xBD}
    ensures A.DecodeCell(0xD, low).Some?
    ensures Intended(A.DecodeCell(0xD, low).value.0, A.DecodeCell(0xD, low).value.1)
         == DispatchCell(0xD, low).value
  {
  }

  lemma EngineCellsD2(low: int)
    requires 8 <= low < 12 && DispatchCell(0xD, low).Some?
    requires 0xD0 + low !in {0x20, 0x99, 0x9D, 0xB6, 0xBE, 0xB9, 0xBD}
    ensures A.DecodeCell(0xD, low).Some?
    ensures Intended(A.DecodeCell(0xD, low).value.0, A.DecodeCell(0xD, low).value.1)
         == DispatchCell(0xD, low).value
  {
  }

  lemma EngineCellsD3(low: int)
    requires 12 <= low < 16 && DispatchCell(0xD, low).Some?
    requires 0xD0 + low !in {0x20, 0x99, 0x9D, 0xB6, 0xBE, 0xB9, 0xBD}
    ensures A.DecodeCell(0xD, low).Some?
    ensures Intended(A.DecodeCell(0xD, low).value.0, A.DecodeCell(0xD, low).value.1)
         == DispatchCell(0xD, low).value
  {
  }

  lemma EngineCellsE0(low: int)
    requires 0 <= low < 4 && DispatchCell(0xE, low).Some?
    requires 0xE0 + low !in {0x20, 0x99, 0x9D, 0xB6, 0xBE, 0xB9, 0xBD}
    ensures A.DecodeCell(0xE, low).Some?
    ensures Intended(A.DecodeCell(0xE, low).value.0, A.DecodeCell(0xE, low).value.1)
         == DispatchCell(0xE, low).value
  {
  }

  lemma EngineCellsE1(low: int)
    requires 4 <= low < 8 && DispatchCell(0xE, low).Some?
    requires 0xE0 + low !in {0x20, 0x99, 0x9D, 0xB6, 0xBE, 0xB9, 0xBD}
    ensures A.DecodeCell(0xE, low).Some?
    ensures Intended(A.DecodeCell(0xE, low).value.0, A.DecodeCell(0xE, low).value.1)
         == DispatchCell(0xE, low).value
  {
  }

  lemma EngineCellsE2(low: int)
    requires 8 <= low < 12 && DispatchCell(0xE, low).Some?
    requires 0xE0 + low !in {0x20, 0x99, 0x9D, 0xB6, 0xBE, 0xB9, 0xBD}
    ensures A.DecodeCell(0xE, low).Some?
    ensures Intended(A.DecodeCell(0xE, low).value.0, A.DecodeCell(0xE, low).value.1)
         == DispatchCell(0xE, low).value
  {
  }

  lemma EngineCellsE3(low: int)
    requires 12 <= low < 16 && DispatchCell(0xE, low).Some?
    requires 0xE0 + low !in {0x20, 0x99, 0x9D, 0xB6, 0xBE, 0xB9, 0xBD}
    ensures A.DecodeCell(0xE, low).Some?
    ensures Intended(A.DecodeCell(0xE, low).value.0, A.DecodeCell(0xE, low).value.1)
         == DispatchCell(0xE, low).value
  {
  }

  lemma EngineCellsF0(low: int)
    requires 0 <= low < 4 && DispatchCell(0xF, low).Some?
    requires 0xF0 + low !in {0x20, 0x99, 0x9D, 0xB6, 0xBE, 0xB9, 0xBD}
    ensures A.DecodeCell(0xF, low).Some?
    ensures Intended(A.DecodeCell(0xF, low).value.0, A.DecodeCell(0xF, low).value.1)
         == DispatchCell(0xF, low).value
  {
  }

  lemma EngineCellsF1(low: int)
    requires 4 <= low < 8 && DispatchCell(0xF, low).Some?
    requires 0xF0 + low !in {0x20, 0x99, 0x9D, 0xB6, 0xBE, 0xB9, 0xBD}
    ensures A.DecodeCell(0xF, low).Some?
    ensures Intended(A.DecodeCell(0xF, low).value.0, A.DecodeCell(0xF, low).value.1)
         == DispatchCell(0xF, low).value
  {
  }

  lemma EngineCellsF2(low: int)
    requires 8 <= low < 12 && DispatchCell(0xF, low).Some?
    requires 0xF0 + low !in {0x20, 0x99, 0x9D, 0xB6, 0xBE, 0xB9, 0xBD}
    ensures A.DecodeCell(0xF, low).Some?
    ensures Intended(A.DecodeCell(0xF, low).value.0, A.DecodeCell(0xF, low).value.1)
         == DispatchCell(0xF, low).value
  {
  }

  lemma EngineCellsF3(low: int)
    requires 12 <= low < 16 && DispatchCell(0xF, low).Some?
    requires 0xF0 + low !in {0x20, 0x99, 0x9D, 0xB6, 0xBE, 0xB9, 0xBD}
    ensures A.DecodeCell(0xF, low).Some?
    ensures Intended(A.DecodeCell(0xF, low).value.0, A.DecodeCell(0xF, low).value.1)
         == DispatchCell(0xF, low).value
  {
  }

}
