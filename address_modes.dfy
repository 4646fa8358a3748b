// The addressing modes of the engine: each resolver reads the state and
// returns the effective address (a JavaScript number); none of them writes.

module AddressModes {
  import opened JsNumber
  import opened CpuState

  datatype Mode =
    | Absolute | AbsoluteX | AbsoluteY
    | ZeroPage | ZeroPageX | ZeroPageY
    | Immediate | Relative | Indirect
    | IndexedIndirect | IndirectIndexed

  /** `bytes`: how many operand bytes the wrapper skips after the handler. */
  function Bytes(mode: Mode): nat {
    match mode
    case Absolute | AbsoluteX | AbsoluteY | Indirect => 2
    case _ => 1
  }

  /** The little-endian word at i and i + 1, where a cell outside memory
      counts as 0. */
  function Word(mem: Memory, i: Num): nat {
    Cell(mem, i) + 256 * Cell(mem, Add(i, Int(1)))
  }

  /** `memory[i] | (memory[i + 1] << 8)` */
  function ReadWord(mem: Memory, i: Num): (r: Num)
    ensures r == Int(Word(mem, i)) && Word(mem, i) < 0x10000
  {
    ReadWordIsWord(mem, i);
    BitOr(Read(mem, i), ShiftLeft(Read(mem, Add(i, Int(1))), 8))
  }

  lemma ReadWordIsWord(mem: Memory, i: Num)
    ensures BitOr(Read(mem, i), ShiftLeft(Read(mem, Add(i, Int(1))), 8)) == Int(Word(mem, i))
    ensures Word(mem, i) < 0x10000
  {
    Pow2Values();
    var lo: int, hi: int := Cell(mem, i), Cell(mem, Add(i, Int(1)));
    Uint32View(Read(mem, i));
    Uint32View(Read(mem, Add(i, Int(1))));
    ShiftLeftSmall(hi, 8);
    assert ShiftLeft(Read(mem, Add(i, Int(1))), 8) == Int(hi * 256);
    OrFields(lo, hi * 256, 8);
  }

  /** The signed value of an offset byte (two's complement). */
  function SignedByte(b: Byte): (r: int)
    ensures -128 <= r <= 127
    ensures (r - b) % 256 == 0
  {
    if b < 128 then b else b - 256
  }

  /** `getAddress` of each mode, as the resolvers write it. */
  function GetAddress(mode: Mode, m: Machine): Num {
    var mem, pc := m.memory, m.programCounter;
    match mode
    case Absolute => ReadWord(mem, pc)
    case AbsoluteX => ReadWord(mem, Add(pc, m.X))
    case AbsoluteY => ReadWord(mem, Add(pc, m.Y))
    case ZeroPage => Read(mem, pc)
    case ZeroPageX => BitAnd(Add(Read(mem, pc), m.X), Int(0xFF))
    case ZeroPageY => BitAnd(Add(Read(mem, pc), m.Y), Int(0xFF))
    case Immediate => pc
    case Relative => RelativeTarget(pc, Read(mem, pc))
    case Indirect => Read(mem, ReadWord(mem, pc))
    case IndexedIndirect => ReadWord(mem, ReadWord(mem, Add(pc, m.X)))
    case IndirectIndexed => ReadWord(mem, Add(ReadWord(mem, pc), m.Y))
  }

  // ---- what each resolver computes ----

  lemma AbsoluteAddress(m: Machine)
    ensures GetAddress(Absolute, m) == Int(Word(m.memory, m.programCounter))
    ensures GetAddress(AbsoluteX, m) == Int(Word(m.memory, Add(m.programCounter, m.X)))
    ensures GetAddress(AbsoluteY, m) == Int(Word(m.memory, Add(m.programCounter, m.Y)))
    ensures Bytes(Absolute) == Bytes(AbsoluteX) == Bytes(AbsoluteY) == 2
  {
  }

  lemma ZeroPageAddress(m: Machine)
    ensures var r := GetAddress(ZeroPage, m);
      (r.Int? <==> InRange(m.programCounter)) && (r.Int? ==> r.i == m.memory[m.programCounter.i] < 256)
    ensures Bytes(ZeroPage) == 1
  {
  }

  /** `(memory[pc] + index) & 0xFF` is the sum modulo 256, and 0 when
      either side is not a number. */
  lemma ZeroPageIndexedAddress(m: Machine, mode: Mode)
    requires mode == ZeroPageX || mode == ZeroPageY
    ensures var index := if mode == ZeroPageX then m.X else m.Y;
      var r := GetAddress(mode, m);
      r.Int? && 0 <= r.i < 256 &&
      r.i == (if InRange(m.programCounter) && index.Int?
              then (m.memory[m.programCounter.i] + index.i) % 256 else 0)
    ensures Bytes(mode) == 1
  {
    var index := if mode == ZeroPageX then m.X else m.Y;
    var sum := Add(Read(m.memory, m.programCounter), index);
    Pow2Values();
    if sum.Int? {
      MaskByte(sum.i);
    } else {
      AndNaN(Int(0xFF));
    }
  }

  lemma ImmediateAddress(m: Machine)
    ensures GetAddress(Immediate, m) == m.programCounter && Bytes(Immediate) == 1
  {
  }

  /** The offset byte is two's complement: the target lies between 128
      before and 127 after the offset byte. */
  lemma RelativeAddress(m: Machine)
    ensures var r := GetAddress(Relative, m);
      if InRange(m.programCounter)
      then r == Add(m.programCounter, Int(SignedByte(m.memory[m.programCounter.i])))
      else r == NaN
    ensures Bytes(Relative) == 1
  {
    var pc := m.programCounter;
    if InRange(pc) {
      RelativeOfOffset(pc, m.memory[pc.i]);
    } else {
      AndNaN(Int(0x80));
    }
  }

  /** The target the relative resolver computes from the program counter
      and the offset read there. */
  function RelativeTarget(pc: Num, offset: Num): Num {
    if BitAnd(offset, Int(0x80)) == Int(0) then Add(pc, offset)
    else Sub(Add(pc, BitAnd(offset, Int(0x7F))), Int(128))
  }

  lemma RelativeOfOffset(pc: Num, b: Byte)
    ensures RelativeTarget(pc, Int(b)) == Add(pc, Int(SignedByte(b)))
  {
    OffsetBits(b);
  }

  lemma OffsetBits(b: Byte)
    ensures BitAnd(Int(b), Int(0x80)) == Int(if b < 128 then 0 else 128)
    ensures BitAnd(Int(b), Int(0x7F)) == Int(if b < 128 then b else b - 128)
  {
    SignBit(b);
    LowBits(b);
  }

  lemma SignBit(b: Byte)
    ensures BitAnd(Int(b), Int(0x80)) == Int(if b < 128 then 0 else 128)
  {
    Pow2Values();
    MaskBit(b, 7);
    if b < 128 {
      assert b / 128 % 2 == 0;
    } else {
      assert b / 128 % 2 == 1;
    }
  }

  lemma LowBits(b: Byte)
    ensures BitAnd(Int(b), Int(0x7F)) == Int(if b < 128 then b else b - 128)
  {
    MaskSeven(b);
    SevenLow(b);
  }

  lemma SevenLow(b: Byte)
    ensures b % 128 == if b < 128 then b else b - 128
  {
  }

  /** Indirect reads the pointer word and returns the single byte it
      points at. */
  lemma IndirectAddress(m: Machine)
    ensures GetAddress(Indirect, m) == Int(m.memory[Word(m.memory, m.programCounter)])
    ensures Bytes(Indirect) == 2
  {
  }

  lemma IndexedIndirectAddress(m: Machine)
    ensures GetAddress(IndexedIndirect, m)
         == Int(Word(m.memory, Int(Word(m.memory, Add(m.programCounter, m.X)))))
    ensures Bytes(IndexedIndirect) == 1
  {
  }

  lemma IndirectIndexedAddress(m: Machine)
    ensures GetAddress(IndirectIndexed, m)
         == Int(Word(m.memory, Add(Int(Word(m.memory, m.programCounter)), m.Y)))
    ensures Bytes(IndirectIndexed) == 1
  {
  }

  /** Every mode but immediate, relative and zero page yields a number in
      0..65535; the zero-page ones stay below 256. */
  lemma AddressRange(mode: Mode, m: Machine)
    requires mode !in {Immediate, Relative}
    ensures var r := GetAddress(mode, m);
      (r.Int? && 0 <= r.i < MEMORY_SIZE) || (mode == ZeroPage && r == NaN)
    ensures var r := GetAddress(mode, m);
      mode in {ZeroPage, ZeroPageX, ZeroPageY} && r.Int? ==> r.i < 256
  {
    if mode == ZeroPageX || mode == ZeroPageY {
      ZeroPageIndexedAddress(m, mode);
    }
  }
}
