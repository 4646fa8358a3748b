// The per-mnemonic handlers. Each one updates the shared state in place;
// `Apply` is the same update written as a function of a snapshot, and the
// lemmas below state what each handler does to the registers, the memory
// and the packed status register.

module InstructionTypes {
  import opened JsNumber
  import opened CpuState

  // ---- the flag masks ----

  const CLEAR_NEGATIVE: int := 0x7F
  const CLEAR_OVERFLOW: int := 0xBF
  const CLEAR_DECIMAL: int := 0xF7
  const CLEAR_INTERRUPT_DISABLE: int := 0xFB
  const CLEAR_ZERO: int := 0xFD
  const CLEAR_CARRY: int := 0xFE

  const SET_NEGATIVE: int := 0x80
  const SET_OVERFLOW: int := 0x40
  const SET_BREAK: int := 0x10
  const SET_DECIMAL: int := 0x08
  const SET_INTERRUPT_DISABLE: int := 0x04
  const SET_ZERO: int := 0x02
  const SET_CARRY: int := 0x01

  /** Bit positions of the flags inside `statusRegister`. */
  const CARRY: nat := 0
  const ZERO: nat := 1
  const INTERRUPT_DISABLE: nat := 2
  const DECIMAL: nat := 3
  const BREAK: nat := 4
  const OVERFLOW: nat := 6
  const NEGATIVE: nat := 7

  /** Each SET mask has only its flag's bit, each CLEAR mask all other bits
      of the byte. */
  lemma MaskLayout()
    ensures SET_CARRY == Pow2(CARRY) && CLEAR_CARRY == 255 - Pow2(CARRY)
    ensures SET_ZERO == Pow2(ZERO) && CLEAR_ZERO == 255 - Pow2(ZERO)
    ensures SET_INTERRUPT_DISABLE == Pow2(INTERRUPT_DISABLE)
    ensures CLEAR_INTERRUPT_DISABLE == 255 - Pow2(INTERRUPT_DISABLE)
    ensures SET_DECIMAL == Pow2(DECIMAL) && CLEAR_DECIMAL == 255 - Pow2(DECIMAL)
    ensures SET_BREAK == Pow2(BREAK)
    ensures SET_OVERFLOW == Pow2(OVERFLOW) && CLEAR_OVERFLOW == 255 - Pow2(OVERFLOW)
    ensures SET_NEGATIVE == Pow2(NEGATIVE) && CLEAR_NEGATIVE == 255 - Pow2(NEGATIVE)
  {
    Pow2Values();
  }

  /** `CLEAR_NEGATIVE & CLEAR_ZERO & CLEAR_CARRY`, the mask `compare` clears
      with, and `CLEAR_NEGATIVE & CLEAR_OVERFLOW & CLEAR_ZERO`, the one BIT
      clears with (`CombinedMasks` evaluates both). */
  const CLEAR_NZC: int := 0x7C
  const CLEAR_NVZ: int := 0x3D

  /** The combined masks are what the source's `&` of the single masks
      evaluates to. */
  lemma CombinedMasks()
    ensures BitAnd(BitAnd(Int(CLEAR_NEGATIVE), Int(CLEAR_ZERO)), Int(CLEAR_CARRY)) == Int(CLEAR_NZC)
    ensures BitAnd(BitAnd(Int(CLEAR_NEGATIVE), Int(CLEAR_OVERFLOW)), Int(CLEAR_ZERO)) == Int(CLEAR_NVZ)
  {
    CombinedNzc();
    CombinedNvz();
  }

  lemma CombinedNzc()
    ensures BitAnd(BitAnd(Int(CLEAR_NEGATIVE), Int(CLEAR_ZERO)), Int(CLEAR_CARRY)) == Int(CLEAR_NZC)
  {
    AndNz();
    AndNzc();
  }

  lemma CombinedNvz()
    ensures BitAnd(BitAnd(Int(CLEAR_NEGATIVE), Int(CLEAR_OVERFLOW)), Int(CLEAR_ZERO)) == Int(CLEAR_NVZ)
  {
    AndNv();
    AndNvz();
  }

  lemma AndNz()
    ensures BitAnd(Int(0x7F), Int(0xFD)) == Int(0x7D)
  {
    MaskNz();
    ByteAnd(0x7F, 0xFD, 0x7D);
  }

  lemma AndNzc()
    ensures BitAnd(Int(0x7D), Int(0xFE)) == Int(0x7C)
  {
    MaskNzc();
    ByteAnd(0x7D, 0xFE, 0x7C);
  }

  lemma AndNv()
    ensures BitAnd(Int(0x7F), Int(0xBF)) == Int(0x3F)
  {
    MaskNv();
    ByteAnd(0x7F, 0xBF, 0x3F);
  }

  lemma AndNvz()
    ensures BitAnd(Int(0x3F), Int(0xFD)) == Int(0x3D)
  {
    MaskNvz();
    ByteAnd(0x3F, 0xFD, 0x3D);
  }

  lemma ByteAnd(a: Byte, b: Byte, c: Byte)
    requires AndBits(a, b, 8) == c
    ensures BitAnd(Int(a), Int(b)) == Int(c)
  {
    ByteOps(a, b);
  }

  lemma MaskNz()
    ensures AndBits(0x7F, 0xFD, 8) == 0x7D
  {
    assert AndBits(0, 1, 1) == 0;
    assert AndBits(1, 3, 2) == 1;
    assert AndBits(3, 7, 3) == 3;
    assert AndBits(7, 15, 4) == 7;
    assert AndBits(15, 31, 5) == 15;
    assert AndBits(31, 63, 6) == 31;
    assert AndBits(63, 126, 7) == 62;
  }

  lemma MaskNzc()
    ensures AndBits(0x7D, 0xFE, 8) == 0x7C
  {
    assert AndBits(0, 1, 1) == 0;
    assert AndBits(1, 3, 2) == 1;
    assert AndBits(3, 7, 3) == 3;
    assert AndBits(7, 15, 4) == 7;
    assert AndBits(15, 31, 5) == 15;
    assert AndBits(31, 63, 6) == 31;
    assert AndBits(62, 127, 7) == 62;
  }

  lemma MaskNv()
    ensures AndBits(0x7F, 0xBF, 8) == 0x3F
  {
    assert AndBits(0, 1, 1) == 0;
    assert AndBits(1, 2, 2) == 0;
    assert AndBits(3, 5, 3) == 1;
    assert AndBits(7, 11, 4) == 3;
    assert AndBits(15, 23, 5) == 7;
    assert AndBits(31, 47, 6) == 15;
    assert AndBits(63, 95, 7) == 31;
  }

  lemma MaskNvz()
    ensures AndBits(0x3F, 0xFD, 8) == 0x3D
  {
    assert AndBits(0, 1, 1) == 0;
    assert AndBits(0, 3, 2) == 0;
    assert AndBits(1, 7, 3) == 1;
    assert AndBits(3, 15, 4) == 3;
    assert AndBits(7, 31, 5) == 7;
    assert AndBits(15, 63, 6) == 15;
    assert AndBits(31, 126, 7) == 30;
  }

  /** Bit j of a status register value, as the bitwise operators read it
      (`undefined` reads as 0). */
  function Flag(sr: Num, j: nat): nat {
    Bit(ToUint32(sr), j)
  }

  /** What `statusRegister` can hold: `undefined` or a byte. */
  predicate StatusByte(sr: Num) {
    sr.NaN? || 0 <= sr.i < 256
  }

  // ---- push, pop and compare ----

  /** `memory[stackPointer + 0x100] = value; stackPointer--` */
  function PushSpec(m: Machine, value: Num): Machine {
    m.(memory := Write(m.memory, Add(m.stackPointer, Int(0x100)), value),
       stackPointer := Sub(m.stackPointer, Int(1)))
  }

  /** `stackPointer++; return memory[stackPointer + 0x100]` */
  function PopSpec(m: Machine): (Machine, Num) {
    var sp := Add(m.stackPointer, Int(1));
    (m.(stackPointer := sp), Read(m.memory, Add(sp, Int(0x100))))
  }

  method Push(s: State, value: Num)
    requires s.Valid()
    modifies s, s.memory
    ensures s.Snapshot() == PushSpec(old(s.Snapshot()), value)
  {
    s.Store(Add(s.stackPointer, Int(0x100)), value);
    s.stackPointer := Sub(s.stackPointer, Int(1));
  }

  method Pop(s: State) returns (value: Num)
    requires s.Valid()
    modifies s
    ensures (s.Snapshot(), value) == PopSpec(old(s.Snapshot()))
  {
    s.stackPointer := Add(s.stackPointer, Int(1));
    value := s.Get(Add(s.stackPointer, Int(0x100)));
  }

  /** `statusRegister & (CLEAR_NEGATIVE & CLEAR_ZERO & CLEAR_CARRY)` */
  function ClearNzc(sr: Num): Num {
    BitAnd(sr, Int(CLEAR_NZC))
  }

  /** The status register after `compare(state, difference)`. */
  function CompareSpec(sr: Num, difference: Num): Num {
    var cleared := ClearNzc(sr);
    if NonNegative(difference) then
      var carried := BitOr(cleared, Int(SET_CARRY));
      if difference == Int(0) then BitOr(carried, Int(SET_ZERO)) else carried
    else BitOr(cleared, Int(SET_NEGATIVE))
  }

  method Compare(s: State, difference: Num)
    requires s.Valid()
    modifies s
    ensures s.Snapshot() == old(s.Snapshot()).(statusRegister := CompareSpec(old(s.statusRegister), difference))
  {
    s.statusRegister := ClearNzc(s.statusRegister);
    if NonNegative(difference) {
      s.statusRegister := BitOr(s.statusRegister, Int(SET_CARRY));
      if difference == Int(0) {
        s.statusRegister := BitOr(s.statusRegister, Int(SET_ZERO));
      }
    } else {
      s.statusRegister := BitOr(s.statusRegister, Int(SET_NEGATIVE));
    }
  }

  // ---- the expressions the handlers compute ----

  /** `v << 1 | (v & 0b10000000) >> 7` */
  function RotateLeft(v: Num): Num {
    BitOr(ShiftLeft(v, 1), ShiftRight(BitAnd(v, Int(0x80)), 7))
  }

  /** `v >> 1 | (v & 0b1) << 7` */
  function RotateRight(v: Num): Num {
    BitOr(ShiftRight(v, 1), ShiftLeft(BitAnd(v, Int(1)), 7))
  }

  /** `statusRegister & (CLEAR_NEGATIVE & CLEAR_OVERFLOW & CLEAR_ZERO)` */
  function ClearNvz(sr: Num): Num {
    BitAnd(sr, Int(CLEAR_NVZ))
  }

  /** The status register after BIT. The source's test `A & value === 0`
      compares first, so it masks A with the boolean `value === 0`. */
  function BitSpec(sr: Num, a: Num, value: Num): Num {
    var cleared := ClearNvz(sr);
    if Truthy(BitAnd(a, FromBool(value == Int(0)))) then BitOr(cleared, Int(SET_ZERO)) else cleared
  }

  /** A branch handler's test: `statusRegister & MASK === 0` (or `!== 0`)
      parses as `statusRegister & (MASK === 0)`, so `test` is the mask's
      comparison with 0, turned into a number. */
  predicate Taken(sr: Num, test: bool) {
    Truthy(BitAnd(sr, FromBool(test)))
  }

  // ---- the handlers ----

  datatype Handler =
    | ADC | AND | ASL | ASL_A | BCC | BCS | BEQ | BIT | BMI | BNE | BPL | BRK
    | BVC | BVS | CLC | CLD | CLI | CLV | CMP | CPX | CPY | DEC | DEX | DEY
    | EOR | INC | INX | INY | JMP | JSR | LDA | LDX | LDY | LSR | LSR_A | NOP
    | ORA | PHA | PHP | PLA | PLP | ROL | ROL_A | ROR | ROR_A | RTI | RTS | SBC
    | SEC | SED | SEI | STA | STX | STY | TAX | TAY | TSX | TXA | TXS | TYA

  /** A handler either returns, or throws and leaves the state as it was
      when it threw. */
  datatype Outcome = Ran(m: Machine) | Threw(m: Machine)

  /** The handlers grouped by the part of the state they write. */
  datatype Group =
    | Throwing | Accumulator | Jump | Status | MemoryCell | Index | Stack | NoOperation

  /** BRK, JSR, RTI and RTS call `push`/`pop` without the state (or name a
      `state` that is not in scope), so they throw before changing
      anything. */
  function GroupOf(h: Handler): Group {
    match h
    case BRK | JSR | RTI | RTS => Throwing
    case ADC | AND | ASL | ASL_A | EOR | LDA | LSR_A | ORA | ROL_A | ROR_A | SBC => Accumulator
    case BCC | BCS | BEQ | BMI | BNE | BPL | BVC | BVS | JMP => Jump
    case BIT | CLC | CLD | CLI | CLV | CMP | CPX | CPY | SEC | SED | SEI => Status
    case DEC | INC | LSR | ROL | ROR | STA | STX | STY => MemoryCell
    case DEX | DEY | INX | INY | LDX | LDY | TAX | TAY | TSX | TXA | TXS | TYA => Index
    case PHA | PHP | PLA | PLP => Stack
    case NOP => NoOperation
  }

  /** The new A of the handlers that write only A. */
  function AccumulatorValue(h: Handler, a: Num, value: Num): Num
    requires GroupOf(h) == Accumulator
  {
    match h
    case ADC => Add(a, value)
    case AND => BitAnd(a, value)
    case ASL => ShiftLeft(value, 1)
    case ASL_A => ShiftLeft(a, 1)
    case EOR => BitXor(a, value)
    case LDA => value
    case LSR_A => ShiftRight(a, 1)
    case ORA => BitOr(a, value)
    case ROL_A => RotateLeft(a)
    case ROR_A => RotateRight(a)
    case SBC => Sub(a, value)
  }

  /** The new program counter of the branches and JMP. */
  function JumpTarget(h: Handler, sr: Num, pc: Num, address: Num): Num
    requires GroupOf(h) == Jump
  {
    var taken := match h
      case BCC => Taken(sr, SET_CARRY == 0)
      case BCS => Taken(sr, SET_CARRY != 0)
      case BEQ => Taken(sr, SET_ZERO != 0)
      case BMI => Taken(sr, SET_NEGATIVE != 0)
      case BNE => Taken(sr, SET_ZERO == 0)
      case BPL => Taken(sr, SET_NEGATIVE == 0)
      case BVC => Taken(sr, SET_OVERFLOW == 0)
      case BVS => Taken(sr, SET_OVERFLOW != 0)
      case JMP => true;
    if taken then address else pc
  }

  /** The new status register of the flag handlers. */
  function StatusValue(h: Handler, m: Machine, value: Num): Num
    requires GroupOf(h) == Status
  {
    var sr := m.statusRegister;
    match h
    case BIT => BitSpec(sr, m.A, value)
    case CLC => BitAnd(sr, Int(CLEAR_CARRY))
    case CLD => BitAnd(sr, Int(CLEAR_DECIMAL))
    case CLI => BitAnd(sr, Int(CLEAR_INTERRUPT_DISABLE))
    case CLV => BitAnd(sr, Int(CLEAR_OVERFLOW))
    case CMP => CompareSpec(sr, Sub(m.A, value))
    case CPX => CompareSpec(sr, Sub(m.X, value))
    case CPY => CompareSpec(sr, Sub(m.Y, value))
    case SEC => BitOr(sr, Int(SET_CARRY))
    case SED => BitOr(sr, Int(SET_DECIMAL))
    case SEI => BitOr(sr, Int(SET_INTERRUPT_DISABLE))
  }

  /** The value the memory handlers store at the address. */
  function StoredValue(h: Handler, m: Machine, value: Num): Num
    requires GroupOf(h) == MemoryCell
  {
    match h
    case DEC => Sub(value, Int(1))
    case INC => Add(value, Int(1))
    case LSR => ShiftRight(value, 1)
    case ROL => RotateLeft(value)
    case ROR => RotateRight(value)
    case STA => m.A
    case STX => m.X
    case STY => m.Y
  }

  /** The index-register handlers and the transfers. */
  function IndexResult(h: Handler, m: Machine, value: Num): Machine
    requires GroupOf(h) == Index
  {
    match h
    case DEX => m.(X := if m.X == Int(0) then Int(255) else Sub(m.X, Int(1)))
    case DEY => m.(Y := if m.Y == Int(0) then Int(255) else Sub(m.Y, Int(1)))
    case INX => m.(X := Add(m.X, Int(1)))
    case INY => m.(Y := Add(m.Y, Int(1)))
    case LDX => m.(X := value)
    case LDY => m.(Y := value)
    case TAX => m.(X := m.A)
    case TAY => m.(Y := m.A)
    case TSX => m.(X := m.stackPointer)
    case TXA => m.(A := m.X)
    case TXS => m.(stackPointer := m.X)
    case TYA => m.(A := m.Y)
  }

  /** PHA, PHP, PLA and PLP. */
  function StackResult(h: Handler, m: Machine): Machine
    requires GroupOf(h) == Stack
  {
    match h
    case PHA => PushSpec(m, m.A)
    case PHP => PushSpec(m, m.statusRegister)
    case PLA => var (popped, v) := PopSpec(m); popped.(A := v)
    case PLP => var (popped, v) := PopSpec(m); popped.(statusRegister := v)
  }

  /** `instructionTypes[h](state, address)` on a snapshot of the state. */
  function Apply(h: Handler, m: Machine, address: Num): Outcome {
    var value := Read(m.memory, address);
    match GroupOf(h)
    case Throwing => Threw(m)
    case Accumulator => Ran(m.(A := AccumulatorValue(h, m.A, value)))
    case Jump => Ran(m.(programCounter := JumpTarget(h, m.statusRegister, m.programCounter, address)))
    case Status => Ran(m.(statusRegister := StatusValue(h, m, value)))
    case MemoryCell => Ran(m.(memory := Write(m.memory, address, StoredValue(h, m, value))))
    case Index => Ran(IndexResult(h, m, value))
    case Stack => Ran(StackResult(h, m))
    case NoOperation => Ran(m)
  }

  // The handlers in place.

  method RunAccumulator(s: State, h: Handler, address: Num)
    requires s.Valid() && GroupOf(h) == Accumulator
    modifies s
    ensures Apply(h, old(s.Snapshot()), address) == Ran(s.Snapshot())
  {
    match h {
      case ADC => s.A := Add(s.A, s.Get(address));
      case AND => s.A := BitAnd(s.A, s.Get(address));
      case ASL => s.A := ShiftLeft(s.Get(address), 1);
      case ASL_A => s.A := ShiftLeft(s.A, 1);
      case EOR => s.A := BitXor(s.A, s.Get(address));
      case LDA => s.A := s.Get(address);
      case LSR_A => s.A := ShiftRight(s.A, 1);
      case ORA => s.A := BitOr(s.A, s.Get(address));
      case ROL_A => s.A := RotateLeft(s.A);
      case ROR_A => s.A := RotateRight(s.A);
      case SBC => s.A := Sub(s.A, s.Get(address));
      case _ => assert false;
    }
  }

  method RunJump(s: State, h: Handler, address: Num)
    requires s.Valid() && GroupOf(h) == Jump
    modifies s
    ensures Apply(h, old(s.Snapshot()), address) == Ran(s.Snapshot())
  {
    var sr := s.statusRegister;
    match h {
      case BCC => if Taken(sr, SET_CARRY == 0) { s.programCounter := address; }
      case BCS => if Taken(sr, SET_CARRY != 0) { s.programCounter := address; }
      case BEQ => if Taken(sr, SET_ZERO != 0) { s.programCounter := address; }
      case BMI => if Taken(sr, SET_NEGATIVE != 0) { s.programCounter := address; }
      case BNE => if Taken(sr, SET_ZERO == 0) { s.programCounter := address; }
      case BPL => if Taken(sr, SET_NEGATIVE == 0) { s.programCounter := address; }
      case BVC => if Taken(sr, SET_OVERFLOW == 0) { s.programCounter := address; }
      case BVS => if Taken(sr, SET_OVERFLOW != 0) { s.programCounter := address; }
      case JMP => s.programCounter := address;
    }
  }

  method RunStatus(s: State, h: Handler, address: Num)
    requires s.Valid() && GroupOf(h) == Status
    modifies s
    ensures Apply(h, old(s.Snapshot()), address) == Ran(s.Snapshot())
  {
    var sr := s.statusRegister;
    match h {
      case BIT =>
        var value := s.Get(address);
        s.statusRegister := ClearNvz(sr);
        if Truthy(BitAnd(s.A, FromBool(value == Int(0)))) {
          s.statusRegister := BitOr(s.statusRegister, Int(SET_ZERO));
        }
      case CLC => s.statusRegister := BitAnd(sr, Int(CLEAR_CARRY));
      case CLD => s.statusRegister := BitAnd(sr, Int(CLEAR_DECIMAL));
      case CLI => s.statusRegister := BitAnd(sr, Int(CLEAR_INTERRUPT_DISABLE));
      case CLV => s.statusRegister := BitAnd(sr, Int(CLEAR_OVERFLOW));
      case CMP => Compare(s, Sub(s.A, s.Get(address)));
      case CPX => Compare(s, Sub(s.X, s.Get(address)));
      case CPY => Compare(s, Sub(s.Y, s.Get(address)));
      case SEC => s.statusRegister := BitOr(sr, Int(SET_CARRY));
      case SED => s.statusRegister := BitOr(sr, Int(SET_DECIMAL));
      case SEI => s.statusRegister := BitOr(sr, Int(SET_INTERRUPT_DISABLE));
    }
  }

  method RunMemory(s: State, h: Handler, address: Num)
    requires s.Valid() && GroupOf(h) == MemoryCell
    modifies s.memory
    ensures Apply(h, old(s.Snapshot()), address) == Ran(s.Snapshot())
  {
    match h {
      case DEC => s.Store(address, Sub(s.Get(address), Int(1)));
      case INC => s.Store(address, Add(s.Get(address), Int(1)));
      case LSR => s.Store(address, ShiftRight(s.Get(address), 1));
      case ROL => s.Store(address, RotateLeft(s.Get(address)));
      case ROR => s.Store(address, RotateRight(s.Get(address)));
      case STA => s.Store(address, s.A);
      case STX => s.Store(address, s.X);
      case STY => s.Store(address, s.Y);
    }
  }

  method RunIndex(s: State, h: Handler, address: Num)
    requires s.Valid() && GroupOf(h) == Index
    modifies s
    ensures Apply(h, old(s.Snapshot()), address) == Ran(s.Snapshot())
  {
    match h {
      case DEX => if s.X == Int(0) { s.X := Int(255); } else { s.X := Sub(s.X, Int(1)); }
      case DEY => if s.Y == Int(0) { s.Y := Int(255); } else { s.Y := Sub(s.Y, Int(1)); }
      case INX => s.X := Add(s.X, Int(1));
      case INY => s.Y := Add(s.Y, Int(1));
      case LDX => s.X := s.Get(address);
      case LDY => s.Y := s.Get(address);
      case TAX => s.X := s.A;
      case TAY => s.Y := s.A;
      case TSX => s.X := s.stackPointer;
      case TXA => s.A := s.X;
      case TXS => s.stackPointer := s.X;
      case TYA => s.A := s.Y;
    }
  }

  method RunStack(s: State, h: Handler, address: Num)
    requires s.Valid() && GroupOf(h) == Stack
    modifies s, s.memory
    ensures Apply(h, old(s.Snapshot()), address) == Ran(s.Snapshot())
  {
    match h {
      case PHA => Push(s, s.A);
      case PHP => Push(s, s.statusRegister);
      case PLA => s.A := Pop(s);
      case PLP => s.statusRegister := Pop(s);
    }
  }
  /** `instructionTypes[h](state, address)` in place; `threw` reports the
      handlers that throw. */
  method Execute(s: State, h: Handler, address: Num) returns (threw: bool)
    requires s.Valid()
    modifies s, s.memory
    ensures Apply(h, old(s.Snapshot()), address)
         == if threw then Threw(s.Snapshot()) else Ran(s.Snapshot())
  {
    threw := GroupOf(h) == Throwing;
    match GroupOf(h) {
      case Throwing =>
      case Accumulator => RunAccumulator(s, h, address);
      case Jump => RunJump(s, h, address);
      case Status => RunStatus(s, h, address);
      case MemoryCell => RunMemory(s, h, address);
      case Index => RunIndex(s, h, address);
      case Stack => RunStack(s, h, address);
      case NoOperation =>
    }
  }
}
